/** The index lifecycle of services/vector_store.py.

    The JSON corpus file, the semantic splitter, the FAISS build, save and load,
    and the similarity search are external; each is an oracle in `Env`, and each
    that can raise yields an `Option`, `None` standing for the exception. */
module VectorStoreService {
  import opened Wrappers

  /** One object of the scraped-data JSON list, as a map from key to string value. */
  type Entry = map<string, string>

  const ContentKey := "content"

  /** The state of the scraped-data file on disk. */
  datatype CorpusFile = Missing | Corrupt | Parsed(entries: seq<Entry>)

  /** A FAISS store, identified by the chunk texts it was built from. */
  datatype Index = Index(texts: seq<string>)

  /** A search hit: LangChain's `Document` with its `page_content` and metadata. */
  datatype Doc = Doc(pageContent: string, metadata: map<string, string>)

  /** The environment the store works in; see the module comment. */
  datatype Env = Env(
    corpus: CorpusFile,
    split: string -> Option<seq<string>>,
    buildSucceeds: bool,
    saveSucceeds: bool,
    indexFileExists: bool,
    loaded: Option<Index>,
    similaritySearch: (Index, string, nat) -> Option<seq<Doc>>)

  /** The `k` that `search` uses when none is given. */
  const DefaultK: nat := 5

  /** `load_scraped_data`: the parsed list, or `[]` when the file is missing or corrupt. */
  function LoadScrapedData(file: CorpusFile): (data: seq<Entry>)
    ensures file.Parsed? ==> data == file.entries
    ensures !file.Parsed? ==> data == []
  {
    match file
    case Parsed(entries) => entries
    case _ => []
  }

  /** The list comprehension of `create_index`: the `"content"` value of each entry
      that has one, in corpus order. */
  function Documents(data: seq<Entry>): (docs: seq<string>)
    ensures |docs| <= |data|
  {
    if data == [] then []
    else (if ContentKey in data[0] then [data[0][ContentKey]] else []) + Documents(data[1..])
  }

  /** The documents of a concatenated corpus are the two corpora's documents, in order. */
  lemma {:induction false} DocumentsAppend(a: seq<Entry>, b: seq<Entry>)
    ensures Documents(a + b) == Documents(a) + Documents(b)
  {
    if a == [] {
      assert a + b == b;
    } else {
      assert (a + b)[0] == a[0];
      assert (a + b)[1..] == a[1..] + b;
      DocumentsAppend(a[1..], b);
    }
  }

  /** An entry with a `"content"` key yields exactly its value; one without yields nothing. */
  lemma DocumentsOfOne(e: Entry)
    ensures ContentKey in e ==> Documents([e]) == [e[ContentKey]]
    ensures ContentKey !in e ==> Documents([e]) == []
  {
    assert [e][1..] == [];
  }

  /** When every entry has `"content"`, the documents are those values one for one. */
  lemma {:induction false} DocumentsOfFullCorpus(data: seq<Entry>)
    requires forall i :: 0 <= i < |data| ==> ContentKey in data[i]
    ensures |Documents(data)| == |data|
    ensures forall i :: 0 <= i < |data| ==> Documents(data)[i] == data[i][ContentKey]
  {
    if data != [] {
      DocumentsOfFullCorpus(data[1..]);
      assert forall i :: 1 <= i < |data| ==> data[1..][i - 1] == data[i];
    }
  }

  /** The loop of `create_index` that extends `chunks` with the splitter's output for
      each document, as a function of the documents: the splitter's outputs concatenated
      in document order, or `None` when the splitter raises on some document. */
  function SplitAll(split: string -> Option<seq<string>>, docs: seq<string>): (chunks: Option<seq<string>>)
    ensures docs == [] ==> chunks == Some([])
    ensures chunks.Some? ==> forall i :: 0 <= i < |docs| ==> split(docs[i]).Some?
    ensures chunks.Some? && docs != [] ==> EndsWithPieces(chunks.value, split(docs[|docs| - 1]))
  {
    if docs == [] then Some([])
    else
      match (SplitAll(split, docs[..|docs| - 1]), split(docs[|docs| - 1]))
      case (Some(chunks), Some(pieces)) => Some(chunks + pieces)
      case _ => None
  }

  /** The chunks end with the pieces of the last document. */
  predicate EndsWithPieces(chunks: seq<string>, pieces: Option<seq<string>>)
  {
    pieces.Some? && |pieces.value| <= |chunks| && chunks[|chunks| - |pieces.value|..] == pieces.value
  }

  /** Splitting a concatenation: the chunks of `a + b` are those of `a` followed by those
      of `b`; it raises exactly when splitting `a` or `b` does. */
  lemma {:induction false} SplitAllAppend(split: string -> Option<seq<string>>, a: seq<string>, b: seq<string>)
    ensures SplitAll(split, a + b) ==
      match (SplitAll(split, a), SplitAll(split, b))
      case (Some(x), Some(y)) => Some(x + y)
      case _ => None
  {
    if b == [] {
      assert a + b == a;
      if SplitAll(split, a).Some? {
        assert SplitAll(split, a).value + [] == SplitAll(split, a).value;
      }
    } else {
      var b' := b[..|b| - 1];
      assert (a + b)[..|a + b| - 1] == a + b';
      assert (a + b)[|a + b| - 1] == b[|b| - 1];
      SplitAllAppend(split, a, b');
      match (SplitAll(split, a), SplitAll(split, b'), split(b[|b| - 1]))
      case (Some(x), Some(y), Some(z)) =>
        assert x + (y + z) == (x + y) + z;
      case _ =>
    }
  }

  /** A single document gives exactly the splitter's output for it. */
  lemma SplitAllOfOne(split: string -> Option<seq<string>>, d: string)
    ensures SplitAll(split, [d]) == split(d)
  {
    assert [d][..0] == [];
    if split(d).Some? {
      assert [] + split(d).value == split(d).value;
    }
  }

  /** The splitter raises on some document. */
  predicate SplitRaisesOn(split: string -> Option<seq<string>>, docs: seq<string>)
  {
    exists i :: 0 <= i < |docs| && split(docs[i]).None?
  }

  /** The split raises exactly when the splitter raises on some document. */
  lemma {:induction false} SplitAllFails(split: string -> Option<seq<string>>, docs: seq<string>)
    ensures SplitAll(split, docs).None? <==> SplitRaisesOn(split, docs)
  {
    if docs != [] {
      var init := docs[..|docs| - 1];
      SplitAllFails(split, init);
      if SplitAll(split, init).None? {
        var i :| 0 <= i < |init| && split(init[i]).None?;
        assert docs[i] == init[i];
      }
      if exists i :: 0 <= i < |docs| && split(docs[i]).None? {
        var i :| 0 <= i < |docs| && split(docs[i]).None?;
        if i < |init| {
          assert init[i] == docs[i];
        }
      }
    }
  }

  /** No chunks result exactly when the splitter returns an empty list for every document. */
  lemma {:induction false} SplitAllEmpty(split: string -> Option<seq<string>>, docs: seq<string>)
    ensures SplitAll(split, docs) == Some([]) <==> forall i :: 0 <= i < |docs| ==> split(docs[i]) == Some([])
  {
    if docs != [] {
      var init := docs[..|docs| - 1];
      var last := docs[|docs| - 1];
      SplitAllEmpty(split, init);
      assert forall i :: 0 <= i < |init| ==> init[i] == docs[i];
      match (SplitAll(split, init), split(last))
      case (Some(x), Some(y)) =>
        assert x + y == [] <==> x == [] && y == [];
      case _ =>
    }
  }

  /** Which branch of `create_index` is taken. `SplitRaised` is an exception that leaves
      `create_index`; the others return normally, the failures having been logged. */
  datatype CreateOutcome = NoData | SplitRaised | NoChunks | BuildFailed | SaveFailed | Saved
  {
    /** The branches in which `self.vector_store` is assigned. */
    predicate Assigned()
    {
      this == SaveFailed || this == Saved
    }
  }

  /** Which branch of `load_index` is taken: a successful load, or a call of `create_index`. */
  datatype LoadOutcome = Loaded | Rebuilt(created: CreateOutcome)

  /** The chunks `create_index` computes from the corpus, `None` if the splitter raises. */
  function CorpusChunks(env: Env): (chunks: Option<seq<string>>)
    ensures LoadScrapedData(env.corpus) == [] ==> chunks == Some([])
    ensures chunks.None? <==> SplitRaisesOn(env.split, Documents(LoadScrapedData(env.corpus)))
  {
    var docs := Documents(LoadScrapedData(env.corpus));
    SplitAllFails(env.split, docs);
    SplitAll(env.split, docs)
  }

  /** The branch `create_index` takes in `env`. */
  function CreateIndexOutcome(env: Env): (outcome: CreateOutcome)
    ensures outcome == NoData <==> LoadScrapedData(env.corpus) == []
    ensures outcome == NoChunks <==> LoadScrapedData(env.corpus) != [] && CorpusChunks(env) == Some([])
    ensures outcome.Assigned() <==>
      LoadScrapedData(env.corpus) != [] && CorpusChunks(env).Some? && CorpusChunks(env).value != [] && env.buildSucceeds
    ensures outcome == SplitRaised <==> LoadScrapedData(env.corpus) != [] && CorpusChunks(env).None?
    ensures outcome == BuildFailed <==>
      LoadScrapedData(env.corpus) != [] && CorpusChunks(env).Some? && CorpusChunks(env).value != [] && !env.buildSucceeds
    ensures outcome == Saved <==> outcome.Assigned() && env.saveSucceeds
  {
    if LoadScrapedData(env.corpus) == [] then NoData
    else match CorpusChunks(env)
      case None => SplitRaised
      case Some(chunks) =>
        if chunks == [] then NoChunks
        else if !env.buildSucceeds then BuildFailed
        else if !env.saveSucceeds then SaveFailed
        else Saved
  }

  /** `self.vector_store` after `create_index`, given its value before. */
  function StoreAfterCreate(env: Env, before: Option<Index>): (after: Option<Index>)
    ensures !CreateIndexOutcome(env).Assigned() ==> after == before
    ensures CreateIndexOutcome(env).Assigned() ==> CorpusChunks(env).Some? && after == Some(Index(CorpusChunks(env).value))
  {
    if CreateIndexOutcome(env).Assigned() then Some(Index(CorpusChunks(env).value)) else before
  }

  /** The branch `load_index` takes in `env`. */
  function LoadIndexOutcome(env: Env): (outcome: LoadOutcome)
    ensures outcome.Rebuilt? <==> !env.indexFileExists || env.loaded.None?
    ensures outcome.Rebuilt? ==> outcome.created == CreateIndexOutcome(env)
  {
    if env.indexFileExists && env.loaded.Some? then Loaded else Rebuilt(CreateIndexOutcome(env))
  }

  /** `self.vector_store` after `load_index`, given its value before. */
  function StoreAfterLoad(env: Env, before: Option<Index>): (after: Option<Index>)
    ensures env.indexFileExists && env.loaded.Some? ==> after == env.loaded
    ensures !env.indexFileExists || env.loaded.None? ==> after == StoreAfterCreate(env, before)
  {
    if env.indexFileExists && env.loaded.Some? then env.loaded else StoreAfterCreate(env, before)
  }

  /** The `page_content` of each hit, in the order the store returned them. */
  function PageContents(docs: seq<Doc>): (contents: seq<string>)
    ensures |contents| == |docs|
    ensures forall i :: 0 <= i < |docs| ==> contents[i] == docs[i].pageContent
  {
    seq(|docs|, i requires 0 <= i < |docs| => docs[i].pageContent)
  }

  /** What `search(query, k)` returns when the store holds `store`. */
  function SearchResults(store: Option<Index>, env: Env, query: string, k: nat): (results: seq<string>)
    ensures store.None? ==> results == []
    ensures store.Some? && env.similaritySearch(store.value, query, k).None? ==> results == []
    ensures store.Some? && env.similaritySearch(store.value, query, k).Some? ==>
      var docs := env.similaritySearch(store.value, query, k).value;
      |results| == |docs| && forall i :: 0 <= i < |docs| ==> results[i] == docs[i].pageContent
  {
    match store
    case None => []
    case Some(index) =>
      match env.similaritySearch(index, query, k)
      case None => []
      case Some(docs) => PageContents(docs)
  }

  class VectorStore {
    /** `self.vector_store`: unset until a load or a build succeeds. */
    var vectorStore: Option<Index>

    constructor ()
      ensures vectorStore == None
    {
      vectorStore := None;
    }

    /** `create_index`. */
    method CreateIndex(env: Env) returns (outcome: CreateOutcome)
      modifies this
      ensures outcome == CreateIndexOutcome(env)
      ensures vectorStore == StoreAfterCreate(env, old(vectorStore))
    {
      var data := LoadScrapedData(env.corpus);
      if data == [] {
        return NoData;
      }
      var documents := Documents(data);
      var chunks: seq<string> := [];
      var i := 0;
      while i < |documents|
        invariant i <= |documents|
        invariant SplitAll(env.split, documents[..i]) == Some(chunks)
      {
        var pieces := env.split(documents[i]);
        if pieces.None? {
          assert SplitRaisesOn(env.split, documents);
          SplitAllFails(env.split, documents);
          return SplitRaised;
        }
        assert documents[..i + 1][..i] == documents[..i];
        chunks := chunks + pieces.value;
        i := i + 1;
      }
      assert documents[..i] == documents;
      if chunks == [] {
        return NoChunks;
      }
      if !env.buildSucceeds {
        return BuildFailed;
      }
      vectorStore := Some(Index(chunks));
      if !env.saveSucceeds {
        return SaveFailed;
      }
      return Saved;
    }

    /** `load_index`: load the saved index, falling back to `create_index` when the file
        is absent or loading raises. */
    method LoadIndex(env: Env) returns (outcome: LoadOutcome)
      modifies this
      ensures outcome == LoadIndexOutcome(env)
      ensures vectorStore == StoreAfterLoad(env, old(vectorStore))
    {
      if env.indexFileExists {
        match env.loaded
        case Some(index) =>
          vectorStore := Some(index);
          return Loaded;
        case None =>
      }
      var created := CreateIndex(env);
      return Rebuilt(created);
    }

    /** `search(query, k)`. */
    method Search(env: Env, query: string, k: nat := DefaultK) returns (results: seq<string>)
      ensures results == SearchResults(vectorStore, env, query, k)
    {
      if vectorStore.None? {
        return [];
      }
      var hits := env.similaritySearch(vectorStore.value, query, k);
      if hits.None? {
        return [];
      }
      results := PageContents(hits.value);
    }
  }
}
