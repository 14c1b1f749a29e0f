/** The site crawler of services/scraper.py.

    The web is a finite map from URL to what `requests.get` and BeautifulSoup
    would yield for it: the status code, the texts of the `<p>` elements and the
    `href` targets of the `<a>` elements, already resolved to absolute URLs.
    A URL that is not in the map is one whose fetch raises. */
module ScraperService {
  import opened Wrappers
  import opened Strings

  type Url = string

  /** A fetched page: status code, paragraph texts, resolved link targets in on-page order. */
  datatype Page = Page(status: int, paragraphs: seq<string>, links: seq<Url>)

  /** The site as the crawler sees it; a URL missing from the map stands for a fetch that raises. */
  type Web = map<Url, Page>

  /** One entry of `scraped_data`: `{"url": url, "content": content}`. */
  datatype Record = Record(url: Url, content: string)

  const OkStatus := 200

  /** The fetch of `url` succeeds with status 200. */
  predicate Fetchable(web: Web, url: Url): (b: bool)
    ensures b ==> url in web && web[url].status == OkStatus
  {
    url in web && web[url].status == OkStatus
  }

  /** The text recorded for a page: its paragraph texts joined with a single space. */
  function PageText(page: Page): (text: string)
    ensures page.paragraphs == [] ==> text == ""
    ensures forall k :: 0 <= k < |page.paragraphs| ==> Contains(text, page.paragraphs[k])
  {
    JoinContainsElements(" ", page.paragraphs);
    Join(" ", page.paragraphs)
  }

  /** The links of `url` that the crawler follows: those that start with the seed. */
  ghost function Successors(web: Web, seed: Url, url: Url): set<Url>
    requires url in web
  {
    set l | l in web[url].links && StartsWith(l, seed)
  }

  /** The crawler's state: `visited_urls`, the order in which URLs were fetched (a trace
      of the `requests.get` calls, not a field of the source) and `scraped_data`. */
  datatype CrawlState = CrawlState(visited: set<Url>, fetched: seq<Url>, records: seq<Record>)

  /** The state a fresh `Scraper` starts in. */
  const Initial := CrawlState({}, [], [])

  /** Marking an unvisited known URL shrinks the set of unvisited known URLs. */
  lemma CardShrinks(keys: set<Url>, visited: set<Url>, url: Url)
    requires url in keys && url !in visited
    ensures |keys - (visited + {url})| < |keys - visited|
  {
    assert keys - visited == (keys - (visited + {url})) + {url};
  }

  /** Visiting more URLs never enlarges the set of unvisited known URLs. */
  lemma CardMonotone(keys: set<Url>, a: set<Url>, b: set<Url>)
    requires a <= b
    ensures |keys - b| <= |keys - a|
  {
    assert keys - a == (keys - b) + ((keys - a) - (keys - b));
  }

  /** `_scrape_page(url)` as a function of the state before the call: a visited URL
      returns at once; otherwise the URL is marked and fetched; on status 200 its
      record is appended and every link that starts with the seed is visited in
      on-page order. Termination: each nested visit starts with one more known URL
      marked visited. */
  function Visit(web: Web, seed: Url, st: CrawlState, url: Url): (r: CrawlState)
    decreases |web.Keys - st.visited|, 0
    ensures st.visited + {url} <= r.visited
    ensures |web.Keys - r.visited| <= |web.Keys - st.visited|
    ensures st.fetched <= r.fetched && st.records <= r.records
  {
    if url in st.visited then st
    else
      var marked := st.(visited := st.visited + {url}, fetched := st.fetched + [url]);
      CardMonotone(web.Keys, st.visited, marked.visited);
      if !Fetchable(web, url) then marked
      else
        var recorded := marked.(records := marked.records + [Record(url, PageText(web[url]))]);
        CardShrinks(web.Keys, st.visited, url);
        FollowLinks(web, seed, recorded, web[url].links)
  }

  /** The `for link in ...` loop of `_scrape_page`: visits, in order, each link that starts with the seed. */
  function FollowLinks(web: Web, seed: Url, st: CrawlState, links: seq<Url>): (r: CrawlState)
    decreases |web.Keys - st.visited|, |links|
    ensures st.visited <= r.visited
    ensures |web.Keys - r.visited| <= |web.Keys - st.visited|
    ensures st.fetched <= r.fetched && st.records <= r.records
  {
    if links == [] then st
    else
      var next := if StartsWith(links[0], seed) then Visit(web, seed, st, links[0]) else st;
      FollowLinks(web, seed, next, links[1..])
  }

  /** A whole crawl of a fresh scraper from `seed`. */
  function Crawl(web: Web, seed: Url): (r: CrawlState)
    ensures seed in r.visited
    ensures |r.fetched| > 0 && r.fetched[0] == seed
  {
    Visit(web, seed, Initial, seed)
  }

  class Scraper {
    const websiteUrl: Url
    var visitedUrls: set<Url>
    var scrapedData: seq<Record>
    /** The URLs passed to `requests.get`, in call order (an observation, not a field of the source). */
    ghost var fetchLog: seq<Url>

    ghost function State(): CrawlState
      reads this
    {
      CrawlState(visitedUrls, fetchLog, scrapedData)
    }

    constructor (websiteUrl: Url)
      ensures this.websiteUrl == websiteUrl
      ensures State() == Initial
    {
      this.websiteUrl := websiteUrl;
      visitedUrls := {};
      scrapedData := [];
      fetchLog := [];
    }

    /** `scrape`: crawl from the seed; `None` when nothing was recorded or when writing
        the JSON file raised (`saveSucceeds` is false), otherwise `scraped_data` itself. */
    method Scrape(web: Web, saveSucceeds: bool) returns (result: Option<seq<Record>>)
      modifies this
      ensures State() == Visit(web, websiteUrl, old(State()), websiteUrl)
      ensures result == if scrapedData == [] || !saveSucceeds then None else Some(scrapedData)
    {
      ScrapePage(web, websiteUrl);
      if scrapedData == [] {
        return None;
      }
      if !saveSucceeds {
        return None;
      }
      return Some(scrapedData);
    }

    /** `_scrape_page(url)`: the recursive depth-first visit. */
    method ScrapePage(web: Web, url: Url)
      modifies this
      decreases |web.Keys - visitedUrls|
      ensures old(visitedUrls) + {url} <= visitedUrls
      ensures State() == Visit(web, websiteUrl, old(State()), url)
    {
      if url in visitedUrls {
        return;
      }
      visitedUrls := visitedUrls + {url};
      fetchLog := fetchLog + [url];
      if url !in web {
        return;  // the fetch raised; the handler logs it
      }
      var response := web[url];
      if response.status != OkStatus {
        return;
      }
      var pageText := PageText(response);
      scrapedData := scrapedData + [Record(url, pageText)];
      var links := response.links;
      var i := 0;
      while i < |links|
        invariant i <= |links|
        invariant old(visitedUrls) + {url} <= visitedUrls
        invariant FollowLinks(web, websiteUrl, State(), links[i..]) == Visit(web, websiteUrl, old(State()), url)
      {
        ghost var before := State();
        if StartsWith(links[i], websiteUrl) {
          CardShrinks(web.Keys, old(visitedUrls), url);
          CardMonotone(web.Keys, old(visitedUrls) + {url}, visitedUrls);
          ScrapePage(web, links[i]);
        }
        assert links[i..][1..] == links[i + 1..];
        assert FollowLinks(web, websiteUrl, before, links[i..])
            == FollowLinks(web, websiteUrl, State(), links[i + 1..]);
        i := i + 1;
      }
    }
  }

  // ---------------------------------------------------------------------------
  // Properties of the traversal

  predicate NoDuplicates<T(==)>(xs: seq<T>)
  {
    forall i, j :: 0 <= i < j < |xs| ==> xs[i] != xs[j]
  }

  /** The records a crawl makes from the URLs it fetched, in fetch order: one per URL
      whose fetch returned 200, none for the others. */
  function RecordsOf(web: Web, fetched: seq<Url>): seq<Record>
  {
    if fetched == [] then []
    else
      var last := fetched[|fetched| - 1];
      RecordsOf(web, fetched[..|fetched| - 1])
        + (if Fetchable(web, last) then [Record(last, PageText(web[last]))] else [])
  }

  function RecordedUrls(records: seq<Record>): set<Url>
  {
    set i | 0 <= i < |records| :: records[i].url
  }

  /** The invariant `_scrape_page` keeps: `visited_urls` is exactly the set of fetched
      URLs, no URL was fetched twice, and `scraped_data` is `RecordsOf` the fetch order. */
  ghost predicate Consistent(web: Web, st: CrawlState)
  {
    && (forall u :: u in st.visited <==> u in st.fetched)
    && NoDuplicates(st.fetched)
    && st.records == RecordsOf(web, st.fetched)
  }

  /** A visited URL returns at once; a failed or non-200 fetch only marks the URL. */
  lemma VisitShortCircuits(web: Web, seed: Url, st: CrawlState, url: Url)
    ensures url in st.visited ==> Visit(web, seed, st, url) == st
    ensures url !in st.visited && !Fetchable(web, url) ==>
      Visit(web, seed, st, url) == st.(visited := st.visited + {url}, fetched := st.fetched + [url])
  {
  }

  /** Depth-first pre-order: a newly visited URL is fetched before every URL reached
      through its links, and its record (on 200) precedes theirs. */
  lemma VisitPreOrder(web: Web, seed: Url, st: CrawlState, url: Url)
    requires url !in st.visited
    ensures |st.fetched| < |Visit(web, seed, st, url).fetched|
    ensures Visit(web, seed, st, url).fetched[|st.fetched|] == url
    ensures Fetchable(web, url) ==>
      |st.records| < |Visit(web, seed, st, url).records| &&
      Visit(web, seed, st, url).records[|st.records|] == Record(url, PageText(web[url]))
  {
  }

  /** Links are followed in on-page order: following `a + b` is following `a`, then `b`. */
  lemma {:induction false} FollowLinksAppend(web: Web, seed: Url, st: CrawlState, a: seq<Url>, b: seq<Url>)
    ensures FollowLinks(web, seed, st, a + b) == FollowLinks(web, seed, FollowLinks(web, seed, st, a), b)
    decreases |a|
  {
    if a != [] {
      assert (a + b)[0] == a[0];
      assert (a + b)[1..] == a[1..] + b;
      var next := if StartsWith(a[0], seed) then Visit(web, seed, st, a[0]) else st;
      FollowLinksAppend(web, seed, next, a[1..], b);
    } else {
      assert a + b == b;
    }
  }

  lemma {:induction false} RecordsOfAppend(web: Web, fetched: seq<Url>, url: Url)
    ensures RecordsOf(web, fetched + [url])
         == RecordsOf(web, fetched) + (if Fetchable(web, url) then [Record(url, PageText(web[url]))] else [])
  {
    assert (fetched + [url])[..|fetched|] == fetched;
  }

  /** Every visit keeps `Consistent`. */
  lemma {:induction false} VisitKeepsConsistent(web: Web, seed: Url, st: CrawlState, url: Url)
    requires Consistent(web, st)
    ensures Consistent(web, Visit(web, seed, st, url))
    decreases |web.Keys - st.visited|, 0
  {
    if url !in st.visited {
      var marked := st.(visited := st.visited + {url}, fetched := st.fetched + [url]);
      RecordsOfAppend(web, st.fetched, url);
      if Fetchable(web, url) {
        var recorded := marked.(records := marked.records + [Record(url, PageText(web[url]))]);
        assert Consistent(web, recorded);
        CardShrinks(web.Keys, st.visited, url);
        FollowLinksKeepsConsistent(web, seed, recorded, web[url].links);
      } else {
        assert Consistent(web, marked);
      }
    }
  }

  lemma {:induction false} FollowLinksKeepsConsistent(web: Web, seed: Url, st: CrawlState, links: seq<Url>)
    requires Consistent(web, st)
    ensures Consistent(web, FollowLinks(web, seed, st, links))
    decreases |web.Keys - st.visited|, |links|
  {
    if links != [] {
      var next := if StartsWith(links[0], seed) then Visit(web, seed, st, links[0]) else st;
      if StartsWith(links[0], seed) {
        VisitKeepsConsistent(web, seed, st, links[0]);
      }
      FollowLinksKeepsConsistent(web, seed, next, links[1..]);
    }
  }

  /** Only links that start with the seed are visited: every URL a visit adds, other
      than the one it was called with, starts with the seed. */
  lemma {:induction false} VisitStaysInScope(web: Web, seed: Url, st: CrawlState, url: Url)
    ensures forall u :: u in Visit(web, seed, st, url).visited && u !in st.visited ==> u == url || StartsWith(u, seed)
    decreases |web.Keys - st.visited|, 0
  {
    if url !in st.visited && Fetchable(web, url) {
      var recorded := st.(visited := st.visited + {url}, fetched := st.fetched + [url],
                          records := st.records + [Record(url, PageText(web[url]))]);
      CardShrinks(web.Keys, st.visited, url);
      FollowLinksStaysInScope(web, seed, recorded, web[url].links);
    }
  }

  lemma {:induction false} FollowLinksStaysInScope(web: Web, seed: Url, st: CrawlState, links: seq<Url>)
    ensures forall u :: u in FollowLinks(web, seed, st, links).visited && u !in st.visited ==> StartsWith(u, seed)
    decreases |web.Keys - st.visited|, |links|
  {
    if links != [] {
      var next := if StartsWith(links[0], seed) then Visit(web, seed, st, links[0]) else st;
      if StartsWith(links[0], seed) {
        VisitStaysInScope(web, seed, st, links[0]);
      }
      FollowLinksStaysInScope(web, seed, next, links[1..]);
    }
  }

  /** Every URL in `now` but not in `before` that fetched with 200 has all its in-scope links in `now`. */
  ghost predicate ClosedSince(web: Web, seed: Url, before: set<Url>, now: set<Url>)
  {
    forall u :: u in now && u !in before && Fetchable(web, u) ==> Successors(web, seed, u) <= now
  }

  /** Every in-scope link of `links` is in `visited`. */
  ghost predicate InScopeLinksVisited(seed: Url, links: seq<Url>, visited: set<Url>)
  {
    forall i :: 0 <= i < |links| && StartsWith(links[i], seed) ==> links[i] in visited
  }

  lemma ClosedSinceTrans(web: Web, seed: Url, a: set<Url>, b: set<Url>, c: set<Url>)
    requires b <= c
    requires ClosedSince(web, seed, a, b) && ClosedSince(web, seed, b, c)
    ensures ClosedSince(web, seed, a, c)
  {
  }

  /** Nothing is left behind: when a visit returns, every URL it newly visited that
      fetched with 200 has all of its in-scope links visited. */
  lemma {:induction false} VisitCloses(web: Web, seed: Url, st: CrawlState, url: Url)
    ensures ClosedSince(web, seed, st.visited, Visit(web, seed, st, url).visited)
    decreases |web.Keys - st.visited|, 0
  {
    if url !in st.visited && Fetchable(web, url) {
      var recorded := st.(visited := st.visited + {url}, fetched := st.fetched + [url],
                          records := st.records + [Record(url, PageText(web[url]))]);
      var links := web[url].links;
      var r := FollowLinks(web, seed, recorded, links);
      assert r == Visit(web, seed, st, url);
      CardShrinks(web.Keys, st.visited, url);
      FollowLinksCloses(web, seed, recorded, links);
      forall l | l in Successors(web, seed, url)
        ensures l in r.visited
      {
        var i :| 0 <= i < |links| && links[i] == l;
      }
    }
  }

  lemma {:induction false} FollowLinksCloses(web: Web, seed: Url, st: CrawlState, links: seq<Url>)
    ensures InScopeLinksVisited(seed, links, FollowLinks(web, seed, st, links).visited)
    ensures ClosedSince(web, seed, st.visited, FollowLinks(web, seed, st, links).visited)
    decreases |web.Keys - st.visited|, |links|
  {
    if links != [] {
      var next := if StartsWith(links[0], seed) then Visit(web, seed, st, links[0]) else st;
      if StartsWith(links[0], seed) {
        VisitCloses(web, seed, st, links[0]);
      }
      FollowLinksCloses(web, seed, next, links[1..]);
      var r := FollowLinks(web, seed, next, links[1..]);
      assert r == FollowLinks(web, seed, st, links);
      ClosedSinceTrans(web, seed, st.visited, next.visited, r.visited);
      forall i | 0 <= i < |links| && StartsWith(links[i], seed)
        ensures links[i] in r.visited
      {
        if i > 0 {
          assert links[1..][i - 1] == links[i];
        }
      }
    }
  }

  /** Each record comes from a fetched URL whose fetch returned 200 and holds its page text. */
  lemma {:induction false} RecordsAreOkFetches(web: Web, fetched: seq<Url>)
    ensures forall i :: 0 <= i < |RecordsOf(web, fetched)| ==>
      var rec := RecordsOf(web, fetched)[i];
      rec.url in fetched && Fetchable(web, rec.url) && rec.content == PageText(web[rec.url])
  {
    if fetched != [] {
      var init := fetched[..|fetched| - 1];
      RecordsAreOkFetches(web, init);
      var recs := RecordsOf(web, fetched);
      var prev := RecordsOf(web, init);
      forall i | 0 <= i < |recs|
        ensures recs[i].url in fetched
      {
        if i < |prev| {
          assert recs[i] == prev[i];
          assert prev[i].url in init;
        }
      }
    }
  }

  /** The recorded URLs are exactly the fetched URLs whose fetch returned 200. */
  lemma {:induction false} RecordedUrlsAreOkFetches(web: Web, fetched: seq<Url>)
    ensures forall u :: u in RecordedUrls(RecordsOf(web, fetched)) <==> u in fetched && Fetchable(web, u)
  {
    if fetched != [] {
      var init := fetched[..|fetched| - 1];
      var last := fetched[|fetched| - 1];
      assert fetched == init + [last];
      RecordedUrlsAreOkFetches(web, init);
      var recs := RecordsOf(web, fetched);
      var prev := RecordsOf(web, init);
      assert forall i :: 0 <= i < |prev| ==> recs[i] == prev[i];
      forall u | u in RecordedUrls(recs)
        ensures u in fetched && Fetchable(web, u)
      {
        var i :| 0 <= i < |recs| && recs[i].url == u;
        if i < |prev| {
          assert u in RecordedUrls(prev);
        }
      }
      forall u | u in fetched && Fetchable(web, u)
        ensures u in RecordedUrls(recs)
      {
        if u in init {
          assert u in RecordedUrls(prev);
          var i :| 0 <= i < |prev| && prev[i].url == u;
          assert recs[i].url == u;
        } else {
          assert recs[|prev|].url == u;
        }
      }
    }
  }

  /** No URL is fetched twice, so no URL is recorded twice. */
  lemma {:induction false} RecordsHaveDistinctUrls(web: Web, fetched: seq<Url>)
    requires NoDuplicates(fetched)
    ensures forall i, j :: 0 <= i < j < |RecordsOf(web, fetched)| ==>
      RecordsOf(web, fetched)[i].url != RecordsOf(web, fetched)[j].url
  {
    if fetched != [] {
      var init := fetched[..|fetched| - 1];
      var last := fetched[|fetched| - 1];
      RecordsHaveDistinctUrls(web, init);
      RecordedUrlsAreOkFetches(web, init);
      var prev := RecordsOf(web, init);
      forall i | 0 <= i < |prev|
        ensures prev[i].url != last
      {
        assert prev[i].url in RecordedUrls(prev);
        var k :| 0 <= k < |init| && init[k] == prev[i].url;
        assert fetched[k] == init[k];
      }
    }
  }

  /** A chain of in-scope links from the seed through pages that fetched with 200. */
  ghost predicate IsLinkPath(web: Web, seed: Url, path: seq<Url>)
  {
    && |path| > 0
    && path[0] == seed
    && forall i :: 0 <= i < |path| - 1 ==>
         Fetchable(web, path[i]) && path[i + 1] in Successors(web, seed, path[i])
  }

  /** What a whole crawl from a fresh scraper delivers: the seed and only URLs under it
      are visited, each URL is fetched at most once, the visited set is closed under
      in-scope links of pages that fetched with 200, and `Consistent` holds. */
  lemma CrawlVisits(web: Web, seed: Url)
    ensures var r := Crawl(web, seed);
      && seed in r.visited
      && (forall u :: u in r.visited ==> StartsWith(u, seed))
      && Consistent(web, r)
      && ClosedSince(web, seed, {}, r.visited)
  {
    assert Consistent(web, Initial);
    VisitKeepsConsistent(web, seed, Initial, seed);
    VisitStaysInScope(web, seed, Initial, seed);
    VisitCloses(web, seed, Initial, seed);
    assert StartsWith(seed, seed);
  }

  /** The records of a whole crawl: one per visited URL that fetched with 200, none for
      any other URL, no URL twice, each holding its page's paragraphs joined by spaces. */
  lemma CrawlRecords(web: Web, seed: Url)
    ensures var r := Crawl(web, seed);
      && (forall u :: u in RecordedUrls(r.records) <==> u in r.visited && Fetchable(web, u))
      && (forall i :: 0 <= i < |r.records| ==>
            Fetchable(web, r.records[i].url) && r.records[i].content == PageText(web[r.records[i].url]))
      && (forall i, j :: 0 <= i < j < |r.records| ==> r.records[i].url != r.records[j].url)
  {
    var r := Crawl(web, seed);
    CrawlVisits(web, seed);
    RecordsAreOkFetches(web, r.fetched);
    RecordedUrlsAreOkFetches(web, r.fetched);
    RecordsHaveDistinctUrls(web, r.fetched);
  }

  /** Completeness: every URL on a chain of in-scope links from the seed is visited, and
      recorded when its fetch returns 200. */
  lemma {:induction false} CrawlReachesLinkPaths(web: Web, seed: Url, path: seq<Url>)
    requires IsLinkPath(web, seed, path)
    ensures forall i :: 0 <= i < |path| ==> path[i] in Crawl(web, seed).visited
    ensures forall i :: 0 <= i < |path| && Fetchable(web, path[i]) ==> path[i] in RecordedUrls(Crawl(web, seed).records)
  {
    var r := Crawl(web, seed);
    CrawlVisits(web, seed);
    CrawlRecords(web, seed);
    var n := 0;
    while n < |path|
      invariant n <= |path|
      invariant forall i :: 0 <= i < n ==> path[i] in r.visited
    {
      if n > 0 {
        assert path[n] in Successors(web, seed, path[n - 1]);
      }
      n := n + 1;
    }
  }

  /** `u` is the end of a chain of in-scope links from the seed. */
  ghost predicate Reachable(web: Web, seed: Url, u: Url)
  {
    exists path :: IsLinkPath(web, seed, path) && path[|path| - 1] == u
  }

  /** Every URL of `urls` is reachable from the seed. */
  ghost predicate AllReachable(web: Web, seed: Url, urls: set<Url>)
  {
    forall u :: u in urls ==> Reachable(web, seed, u)
  }

  /** A chain can be extended by one in-scope link of a page that fetched with 200. */
  lemma ReachableStep(web: Web, seed: Url, u: Url, v: Url)
    requires Reachable(web, seed, u) && Fetchable(web, u) && v in Successors(web, seed, u)
    ensures Reachable(web, seed, v)
  {
    var path :| IsLinkPath(web, seed, path) && path[|path| - 1] == u;
    var longer := path + [v];
    assert forall i :: 0 <= i < |path| ==> longer[i] == path[i];
    assert IsLinkPath(web, seed, longer);
  }

  /** Soundness: starting from reachable URLs, a visit of a reachable URL adds only reachable URLs. */
  lemma {:induction false} VisitSound(web: Web, seed: Url, st: CrawlState, url: Url)
    requires AllReachable(web, seed, st.visited) && Reachable(web, seed, url)
    ensures AllReachable(web, seed, Visit(web, seed, st, url).visited)
    decreases |web.Keys - st.visited|, 0
  {
    if url !in st.visited && Fetchable(web, url) {
      var recorded := st.(visited := st.visited + {url}, fetched := st.fetched + [url],
                          records := st.records + [Record(url, PageText(web[url]))]);
      var links := web[url].links;
      forall i | 0 <= i < |links| && StartsWith(links[i], seed)
        ensures Reachable(web, seed, links[i])
      {
        ReachableStep(web, seed, url, links[i]);
      }
      CardShrinks(web.Keys, st.visited, url);
      FollowLinksSound(web, seed, recorded, links);
    }
  }

  lemma {:induction false} FollowLinksSound(web: Web, seed: Url, st: CrawlState, links: seq<Url>)
    requires AllReachable(web, seed, st.visited)
    requires forall i :: 0 <= i < |links| && StartsWith(links[i], seed) ==> Reachable(web, seed, links[i])
    ensures AllReachable(web, seed, FollowLinks(web, seed, st, links).visited)
    decreases |web.Keys - st.visited|, |links|
  {
    if links != [] {
      var next := if StartsWith(links[0], seed) then Visit(web, seed, st, links[0]) else st;
      if StartsWith(links[0], seed) {
        VisitSound(web, seed, st, links[0]);
      }
      assert forall i :: 0 <= i < |links| - 1 ==> links[1..][i] == links[i + 1];
      FollowLinksSound(web, seed, next, links[1..]);
    }
  }

  /** A whole crawl visits exactly the URLs reachable from the seed by chains of in-scope
      links through pages that fetched with 200. */
  lemma CrawlVisitsExactlyReachable(web: Web, seed: Url)
    ensures forall u :: u in Crawl(web, seed).visited <==> Reachable(web, seed, u)
  {
    assert IsLinkPath(web, seed, [seed]);
    VisitSound(web, seed, Initial, seed);
    forall u | Reachable(web, seed, u)
      ensures u in Crawl(web, seed).visited
    {
      var path :| IsLinkPath(web, seed, path) && path[|path| - 1] == u;
      CrawlReachesLinkPaths(web, seed, path);
    }
  }
}
