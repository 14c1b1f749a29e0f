# A Dafny model of the ChatBot retrieval pipeline

This project models the core of a small retrieval-augmented chatbot, in three parts:

- **The site crawler** (`services/scraper.py`, module `ScraperService`). The crawler starts from a seed URL. It marks each URL in `visited_urls` before fetching it. On status 200 it appends `{url, content}` to `scraped_data`, where `content` is the page's paragraph texts joined by single spaces. It then recurses, depth first, into every link that starts with the seed. The web is a finite map from URL to page, with status, paragraphs and already-resolved links. A URL missing from the map stands for a fetch that raises. `Scraper` is a class whose methods update `visitedUrls` and `scrapedData` in place. Each method is proved equal to the functional specification `Visit`/`FollowLinks`. Lemmas about that specification state what a crawl guarantees:
  - each URL is fetched at most once;
  - every visited URL starts with the seed;
  - records are made only for status-200 pages, in depth-first pre-order, with no URL twice;
  - the visited set is closed under in-scope links, so every chain of in-scope links from the seed is visited;
  - conversely, every visited URL ends such a chain, so the visited set is exactly the URLs reachable from the seed;
  - the recursion terminates, because the measure "known URLs not yet visited" shrinks.
- **The index lifecycle** (`services/vector_store.py`, module `VectorStoreService`). The following are oracles gathered in an `Env`:
  - the state of the scraped-data file (missing, corrupt, parsed);
  - the semantic splitter;
  - the FAISS build, save and load;
  - whether the index file exists;
  - the similarity search.

  `VectorStore` is a class with the field `vectorStore`. Its methods `CreateIndex`, `LoadIndex` and `Search` are proved against specification functions. Those functions say which branch is taken, when the field is assigned and what a search returns.
- **Answer assembly** (`services/chat.py`, module `ChatService`). This part is pure string construction:
  - the empty-results reply;
  - the newline-joined context;
  - the fixed prompt template;
  - the reply when the language model fails.

  The language model is an oracle that returns `None` when it raises.

`Strings` holds Python's `sep.join`, `startswith` and `endswith`, with lemmas that place every element and separator of a join. `Wrappers` holds `Option`.

Notes on the code, which the model follows:
- The crawler makes no retries, has no switch for following links and no page cap. The settings `MAX_RETRIES`, `TIMEOUT`, `FOLLOW_INTERNAL_LINKS` and `CHUNK_SIZE` in `config/settings.py` are never read by the core; the fetch timeout is the literal 10.
- The crawler recurses directly into each link; there is no work list.
- A page with status 200 and no paragraphs is still recorded, with empty content.
- A crawl that records nothing makes `scrape` return `None`.

## Model

| member | source | states |
|---|---|---|
| ScraperService.Scraper.constructor | services/scraper.py:11-14 | a new scraper holds the seed, an empty `visited_urls` and an empty `scraped_data` |
| ScraperService.Scraper.ScrapePage | services/scraper.py:38-63 | the new visited set, fetch trace and records are exactly `Visit` of the old state; the URL is visited afterwards; the recursion terminates |
| ScraperService.Scraper.Scrape | services/scraper.py:16-36 | the crawl from the seed; the result is `None` iff nothing was recorded or writing the file raised, and otherwise `scraped_data` unchanged |
| ScraperService.Visit | services/scraper.py:38-60 | one visit only adds to `visited_urls`, the fetch trace and the records; the URL it was called with is visited afterwards |
| ScraperService.FollowLinks | services/scraper.py:57-60 | following a page's links only adds to the visited set, the fetch trace and the records |
| ScraperService.VisitShortCircuits | services/scraper.py:40-48 | a visited URL returns at once: no fetch, no record, no recursion; a failed or non-200 fetch only marks the URL visited, with no record and no retry |
| ScraperService.VisitPreOrder | services/scraper.py:42-60 | a newly visited URL is fetched before every URL reached through its links, and its record on 200 precedes theirs |
| ScraperService.FollowLinksAppend | services/scraper.py:57-60 | links are followed in on-page order: following `a + b` is following `a` and then `b` |
| ScraperService.VisitKeepsConsistent | services/scraper.py:40-54 | a visit keeps the invariant: visited set = fetched URLs, no URL fetched twice, records = status-200 fetches in fetch order |
| ScraperService.FollowLinksKeepsConsistent | services/scraper.py:57-60 | following links keeps the same invariant |
| ScraperService.VisitStaysInScope | services/scraper.py:57-60 | every URL a visit adds, other than its own argument, starts with the seed |
| ScraperService.FollowLinksStaysInScope | services/scraper.py:57-60 | every URL added while following links starts with the seed |
| ScraperService.VisitCloses | services/scraper.py:53-60 | every newly visited status-200 page has all its in-scope links visited when the visit returns |
| ScraperService.FollowLinksCloses | services/scraper.py:57-60 | after following links, every in-scope link is visited and every newly visited status-200 page has its in-scope links visited |
| ScraperService.RecordsAreOkFetches | services/scraper.py:46-54 | every record comes from a fetched URL with status 200 and holds its paragraphs joined by single spaces |
| ScraperService.RecordedUrlsAreOkFetches | services/scraper.py:46-54 | a URL is recorded iff it was fetched and returned status 200 |
| ScraperService.RecordsHaveDistinctUrls | services/scraper.py:40-54 | when no URL is fetched twice, no URL is recorded twice |
| ScraperService.CrawlVisits | services/scraper.py:20 | a whole crawl visits the seed, visits only URLs that start with the seed, fetches each URL at most once, and leaves the visited set closed under in-scope links of status-200 pages |
| ScraperService.CrawlRecords | services/scraper.py:38-54 | a whole crawl records each visited status-200 URL exactly once, with its page text, and no other URL |
| ScraperService.CrawlReachesLinkPaths | services/scraper.py:38-60 | every URL on a chain of in-scope links from the seed through status-200 pages is visited, and recorded if its own fetch returns 200 |
| ScraperService.ReachableStep | services/scraper.py:53-60 | a chain of in-scope links from the seed, ending at a status-200 page, extends by any in-scope link of that page |
| ScraperService.VisitSound | services/scraper.py:38-60 | a visit of a reachable URL, from a state whose visited URLs are all reachable, adds only reachable URLs |
| ScraperService.FollowLinksSound | services/scraper.py:57-60 | following links whose in-scope members are reachable adds only reachable URLs |
| ScraperService.CrawlVisitsExactlyReachable | services/scraper.py:20 | a URL is visited by a whole crawl iff it ends a chain of in-scope links from the seed through status-200 pages |
| ScraperService.Fetchable | services/scraper.py:45-46 | the fetch-success condition `Visit` uses: only a URL the web knows, and then only with status 200 |
| ScraperService.PageText | services/scraper.py:53 | a page without paragraphs has empty content; every paragraph occurs verbatim in the content |
| ScraperService.Crawl | services/scraper.py:20 | the crawl from the seed visits the seed, and fetches it first |
| Strings.JoinElementAt | services/scraper.py:53 | each element of `sep.join(xs)` stands verbatim at its offset |
| Strings.JoinSeparatorAt | services/chat.py:24 | exactly one separator stands between neighbouring elements of a join |
| Strings.JoinLength | services/scraper.py:53 | joining nothing gives the empty string; otherwise the join ends where its last element ends |
| Strings.JoinContainsElements | services/chat.py:24 | every element occurs as a substring of the join |
| Strings.Join | services/scraper.py:53 | joining nothing gives the empty string; a non-empty join starts with its first element and ends with its last |
| Strings.StartsWith | services/scraper.py:59 | `s.startswith(prefix)` holds iff `prefix` is a prefix of `s` |
| VectorStoreService.LoadScrapedData | services/vector_store.py:22-35 | a missing or corrupt file gives `[]`; a parsed file gives its list unchanged |
| VectorStoreService.Documents | services/vector_store.py:45 | there are never more documents than corpus entries |
| VectorStoreService.DocumentsAppend | services/vector_store.py:45 | the documents of a concatenated corpus are the documents of each part, in corpus order |
| VectorStoreService.DocumentsOfOne | services/vector_store.py:45 | an entry with `"content"` contributes exactly its value; an entry without it is skipped |
| VectorStoreService.DocumentsOfFullCorpus | services/vector_store.py:45 | when every entry has `"content"`, the documents are those values one for one, in order |
| VectorStoreService.SplitAllAppend | services/vector_store.py:49-51 | the chunks of `a + b` are the chunks of `a` followed by those of `b`; the split raises iff either part raises |
| VectorStoreService.SplitAllOfOne | services/vector_store.py:50-51 | a single document gives exactly the splitter's output for it, or raises when the splitter does |
| VectorStoreService.SplitAllFails | services/vector_store.py:49-51 | chunking raises iff the splitter raises on some document |
| VectorStoreService.SplitAllEmpty | services/vector_store.py:49-55 | no chunks result iff the splitter returns an empty list for every document |
| VectorStoreService.SplitAll | services/vector_store.py:49-51 | no documents give no chunks; chunks exist only if the splitter succeeded on every document, and they end with the last document's pieces |
| VectorStoreService.CorpusChunks | services/vector_store.py:39-51 | an empty loaded list gives no chunks; chunking raises iff the splitter raises on some document of the loaded list |
| VectorStoreService.CreateIndexOutcome | services/vector_store.py:37-62 | `create_index` stops at "no data" iff the loaded list is empty; a splitter exception escapes it iff the list is non-empty and the splitter raises on some document; it stops at "no chunks" iff the chunks are empty; the build fails (logged) iff there are chunks and the build raises; it assigns the store iff there are chunks and the build succeeds, and of those the index is saved iff the save succeeds, otherwise it stays set but unsaved |
| VectorStoreService.StoreAfterCreate | services/vector_store.py:53-62 | unless the build succeeds on non-empty chunks, `vector_store` keeps its old value; if it does, the store is the index of exactly those chunks, even when the save then fails |
| VectorStoreService.LoadIndexOutcome | services/vector_store.py:64-76 | `create_index` is called iff the index file is absent or loading raises, and then takes the branch `CreateIndexOutcome` gives |
| VectorStoreService.StoreAfterLoad | services/vector_store.py:64-76 | a successful load sets the store to the loaded index; otherwise the store is what `create_index` leaves |
| VectorStoreService.SearchResults | services/vector_store.py:78-89 | no store, or a search that raises, gives `[]`; otherwise the `page_content` of each hit, in the order the store returned them |
| VectorStoreService.PageContents | services/vector_store.py:86 | one content per hit, each the hit's `page_content`, in hit order |
| VectorStoreService.VectorStore.constructor | services/vector_store.py:12-20 | `vector_store` starts unset |
| VectorStoreService.VectorStore.CreateIndex | services/vector_store.py:37-62 | the branch taken and the new `vector_store` are those of `CreateIndexOutcome` and `StoreAfterCreate`; the chunks are the splitter's outputs concatenated in document order |
| VectorStoreService.VectorStore.LoadIndex | services/vector_store.py:64-76 | the branch taken and the new `vector_store` are those of `LoadIndexOutcome` and `StoreAfterLoad` |
| VectorStoreService.VectorStore.Search | services/vector_store.py:78-89 | the result is `SearchResults` of the current store, with `k` defaulting to 5 |
| ChatService.Context | services/chat.py:24 | no results give an empty context; otherwise it starts with the first result, ends with the last and contains every result verbatim |
| ChatService.Prompt | services/chat.py:25-29 | the prompt starts with the instructions and "Context:\n", holds the context right after them, then "\n\nUser Query: ", the query and "\nAnswer:", and ends with "\nAnswer:" |
| ChatService.Answer | services/chat.py:19-37 | empty results give exactly the no-information reply, without consulting the model; otherwise the model's answer to the prompt is returned unchanged, or exactly the error reply if the model raises |
| ChatService.PromptShowsQueryAndResults | services/chat.py:24-29 | the query and every retrieved result occur verbatim in the prompt, which ends with "\nAnswer:" |
| ChatService.Chatbot.constructor | services/chat.py:9-12 | the chatbot's store is a new store after `load_index` |
| ChatService.Chatbot.GenerateResponse | services/chat.py:14-37 | the reply is `Answer` applied to the results of a search with the default `k` of 5 |

## Left out

- HTTP fetching, HTML parsing and link resolution (`requests.get`, BeautifulSoup, `urljoin`) are foreign libraries. The model takes them as a given map from URL to status, paragraph texts and absolute links. Resolving relative references is not modelled; only the `startswith` test is.
- Python's recursion limit is not modelled. On a very deep site, a `RecursionError` would be caught by the handler of the page where it occurs, and that page's remaining links would not be followed.
- Exceptions inside the link loop (from parsing or `urljoin`) would stop the remaining links of that page. Parsing is outside the model, so such exceptions are not modelled.
- File I/O is abstracted:
  - `os.makedirs` and `json.dump` in `scrape` are one boolean, `saveSucceeds`;
  - the scraped-data file is a three-way state;
  - the index file's existence is a boolean.

  Path strings are not modelled. That includes `index.faiss` being appended to a path that already ends in `index.faiss`.
- The JSON corpus is modelled as a list of objects with string values. A top-level value that is not a list is not modelled, nor are non-object entries or non-string `"content"` values. In Python these would iterate or raise differently.
- SemanticChunker, OpenAI embeddings and FAISS are oracles. The model claims nothing about chunk boundaries, similarity scores, result order, the `k` bound or tie-breaking. A built store is identified by the chunk texts it was built from. A store, once set, is taken to be truthy.
- The language-model call is an oracle that may fail; retries are not modelled.
- ChatService.Chatbot.constructor: in Python, an exception from the splitter inside `load_index` makes construction raise. The model completes construction, and the exception is visible only as the `SplitRaised` outcome of `LoadIndex`.
- Logging, `main.py`'s interactive loop and startup checks, and `config/settings.py` and `config/logger.py` are outside the core.
