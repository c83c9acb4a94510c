/** The question-answering pipeline: retrieve documents for the query, then
    generate an answer from them. Either stage is an oracle that may raise
    (`None`); any failure turns into a fixed apology in the caller's language. */
module Pipeline {
  import opened Text
  import opened Json
  import opened Documents
  import Retriever
  import Generator

  const EnglishApology: string := "I'm sorry, I'm having trouble processing your request. Please try again."
  const HindiApology: string := "क्षमा करें, मुझे आपका अनुरोध संसाधित करने में समस्या हो रही है। कृपया पुनः प्रयास करें।"

  /** The pipeline's own fallback: Hindi only for `hi-IN`. */
  function Apology(language: string): (r: string)
    ensures r != ""
    ensures r == HindiApology <==> language == "hi-IN"
    ensures r == EnglishApology <==> language != "hi-IN"
  {
    if language == "hi-IN" then HindiApology else EnglishApology
  }

  /** `retrieve(query, n_results)`, `None` when it raises. */
  type RetrieveStage = (string, int) -> Option<seq<Doc>>

  /** `generate_response(user_query, retrieved_docs, conversation_history, language)`,
      `None` when it raises. */
  type GenerateStage = (string, seq<Doc>, History, string) -> Option<string>

  /** `process_query`: the generator's answer for the retrieved documents,
      passed through unchanged, or the apology when either stage raises. */
  function ProcessQuery(userQuery: string, history: History, retrieve: RetrieveStage, generate: GenerateStage,
                        language: string := "en", nResults: int := 5): (r: string)
    ensures retrieve(userQuery, nResults).None? ==> r == Apology(language)
    ensures retrieve(userQuery, nResults).Some? ==>
      var answer := generate(userQuery, retrieve(userQuery, nResults).value, history, language);
      r == if answer.Some? then answer.value else Apology(language)
  {
    match retrieve(userQuery, nResults)
    case None => Apology(language)
    case Some(docs) =>
      match generate(userQuery, docs, history, language)
      case None => Apology(language)
      case Some(answer) => answer
  }

  /** Unless a stage answers with an empty text, the pipeline answers with a
      non-empty one. */
  lemma ProcessQueryNonEmpty(userQuery: string, history: History, retrieve: RetrieveStage,
                             generate: GenerateStage, language: string, nResults: int)
    requires forall docs :: generate(userQuery, docs, history, language) != Some("")
    ensures ProcessQuery(userQuery, history, retrieve, generate, language, nResults) != ""
  {
  }

  /** The defaults are English and five documents. */
  lemma ProcessQueryDefaults(userQuery: string, history: History, retrieve: RetrieveStage, generate: GenerateStage)
    ensures ProcessQuery(userQuery, history, retrieve, generate) ==
            ProcessQuery(userQuery, history, retrieve, generate, "en", 5)
  {
  }

  /** With the real retriever (over a store query that may raise) and the real
      generator (over a model that may raise), neither stage raises: the
      pipeline returns exactly the generator's answer for the reshaped
      documents, and that answer is never empty. */
  lemma RealStagesNeverApologise(userQuery: string, history: History, language: string, nResults: int,
                                 storeQuery: (string, int) -> Option<Retriever.QueryResult>,
                                 model: string -> Option<string>)
    ensures var retrieve: RetrieveStage := (q, n) => Some(Retriever.Reshape(storeQuery(q, n)));
      var generate: GenerateStage := (q, d, h, l) => Some(Generator.GenerateResponse(q, d, h, model, l));
      var r := ProcessQuery(userQuery, history, retrieve, generate, language, nResults);
      && r == Generator.GenerateResponse(userQuery, Retriever.Reshape(storeQuery(userQuery, nResults)),
                                         history, model, language)
      && r != ""
  {
  }
}
