/** Answer assembly of services/chat.py: retrieve, build the prompt, ask the language
    model. The language model is an oracle `llm` that returns `None` when it raises. */
module ChatService {
  import opened Wrappers
  import opened Strings
  import VS = VectorStoreService

  const NoInformationReply := "Sorry, I do not have any information on that."
  const GenerationErrorReply := "Sorry, an error occurred while generating a response."

  /** The fixed instruction preamble of the prompt. */
  const Instructions :=
    "You are a knowledgeable assistant. Use the following information to answer the user's query. "
    + "If the information is not available, do not make up an answer. Instead, say: 'Sorry, I do not have any information on that.'\n\n"
  const ContextHeader := "Context:\n"
  const QueryHeader := "\n\nUser Query: "
  const AnswerCue := "\nAnswer:"

  /** The retrieved passages, one per line, in retrieval order. */
  function Context(results: seq<string>): (context: string)
    ensures results == [] ==> context == ""
    ensures results != [] ==> StartsWith(context, results[0]) && EndsWith(context, results[|results| - 1])
    ensures forall k :: 0 <= k < |results| ==> Contains(context, results[k])
  {
    JoinContainsElements("\n", results);
    Join("\n", results)
  }

  /** The prompt sent to the language model. */
  function Prompt(context: string, query: string): (prompt: string)
    ensures StartsWith(prompt, Instructions + ContextHeader)
    ensures OccursAt(prompt, context, |Instructions + ContextHeader|)
    ensures OccursAt(prompt, QueryHeader + query + AnswerCue, |Instructions + ContextHeader| + |context|)
    ensures EndsWith(prompt, AnswerCue)
    ensures |prompt| == |Instructions + ContextHeader| + |context| + |QueryHeader + query + AnswerCue|
  {
    Instructions + ContextHeader + context + QueryHeader + query + AnswerCue
  }

  /** `generate_response` once the search results are known. */
  function Answer(results: seq<string>, query: string, llm: string -> Option<string>): (reply: string)
    ensures results == [] ==> reply == NoInformationReply
    ensures results != [] && llm(Prompt(Context(results), query)).Some? ==>
      reply == llm(Prompt(Context(results), query)).value
    ensures results != [] && llm(Prompt(Context(results), query)).None? ==> reply == GenerationErrorReply
  {
    if results == [] then NoInformationReply
    else
      match llm(Prompt(Context(results), query))
      case Some(response) => response
      case None => GenerationErrorReply
  }

  /** The prompt shows the model the query and every retrieved passage verbatim, and ends
      by cueing the answer. */
  lemma PromptShowsQueryAndResults(results: seq<string>, query: string)
    ensures var prompt := Prompt(Context(results), query);
      && Contains(prompt, query)
      && (forall k :: 0 <= k < |results| ==> Contains(prompt, results[k]))
      && EndsWith(prompt, AnswerCue)
  {
    var context := Context(results);
    var prompt := Prompt(context, query);
    var start := |Instructions + ContextHeader|;
    JoinContainsElements("\n", results);
    forall k | 0 <= k < |results|
      ensures Contains(prompt, results[k])
    {
      ContainsInSlice(prompt, start, start + |context|, results[k]);
    }
    var tail := QueryHeader + query + AnswerCue;
    var at := start + |context|;
    assert OccursAt(tail, query, |QueryHeader|);
    assert Contains(prompt[at..at + |tail|], query);
    ContainsInSlice(prompt, at, at + |tail|, query);
  }

  class Chatbot {
    const vectorStore: VS.VectorStore

    /** `Chatbot()`: a new store, loaded with `load_index`. */
    constructor (env: VS.Env)
      ensures fresh(vectorStore)
      ensures vectorStore.vectorStore == VS.StoreAfterLoad(env, None)
    {
      var store := new VS.VectorStore();
      var _ := store.LoadIndex(env);
      vectorStore := store;
    }

    /** `generate_response(query)`: search with the default `k`, then answer. */
    method GenerateResponse(env: VS.Env, query: string, llm: string -> Option<string>) returns (response: string)
      ensures response == Answer(VS.SearchResults(vectorStore.vectorStore, env, query, VS.DefaultK), query, llm)
    {
      var searchResults := vectorStore.Search(env, query);
      response := Answer(searchResults, query, llm);
    }
  }
}
