/** The two classification nodes: whether the query needs retrieved context, and whether the
    retrieved context is relevant. Each asks the model a yes/no question and writes one flag. */
module ContextNodes {
  import opened Records
  import opened ChatModels

  /** `check_needs_context`: one model call on the query; `needs_context` becomes whether the
      reply says yes, and no other field changes. */
  method CheckNeedsContext(s: GraphState, llm: ChatModel) returns (s': GraphState)
    modifies llm
    ensures llm.prompts == old(llm.prompts) + [NeedsContextPrompt(s.userQuery)]
    ensures s' == s.(needsContext := SaysYes(llm.respond(|old(llm.prompts)|, NeedsContextPrompt(s.userQuery))))
  {
    var content := llm.Invoke(NeedsContextPrompt(s.userQuery));
    s' := s.(needsContext := SaysYes(content));
  }

  /** `check_relevance`: without retrieved documents the flag is false and the model is not
      called; otherwise the two best documents form the context of one model call, and the
      flag becomes whether the reply says yes. No other field changes. */
  method CheckRelevance(s: GraphState, llm: ChatModel) returns (s': GraphState)
    modifies llm
    ensures Documents(s.chromaResults) == [] ==>
      llm.prompts == old(llm.prompts) && s' == s.(relevantContext := false)
    ensures Documents(s.chromaResults) != [] ==>
      var prompt := RelevancePrompt(s.userQuery, JoinedTop(Documents(s.chromaResults), 2));
      llm.prompts == old(llm.prompts) + [prompt] &&
      s' == s.(relevantContext := SaysYes(llm.respond(|old(llm.prompts)|, prompt)))
  {
    var docs := Documents(s.chromaResults);
    if docs == [] {
      return s.(relevantContext := false);
    }
    var combined := JoinedTop(docs, 2);
    var content := llm.Invoke(RelevancePrompt(s.userQuery, combined));
    s' := s.(relevantContext := SaysYes(content));
  }
}
