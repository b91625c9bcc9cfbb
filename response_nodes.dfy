/** The answer node: the model answers from the three best documents, or a fixed fallback
    is given when nothing was retrieved. */
module ResponseNodes {
  import opened Records
  import opened ChatModels

  const Fallback: string := "I don't have enough information to answer your question about game theory."

  /** `generate_response`: only `final_response` is written. */
  method GenerateResponse(s: GraphState, llm: ChatModel) returns (s': GraphState)
    modifies llm
    ensures Documents(s.chromaResults) == [] ==>
      llm.prompts == old(llm.prompts) && s' == s.(finalResponse := Fallback)
    ensures Documents(s.chromaResults) != [] ==>
      var prompt := AnswerPrompt(JoinedTop(Documents(s.chromaResults), 3), s.userQuery);
      llm.prompts == old(llm.prompts) + [prompt] &&
      s' == s.(finalResponse := llm.respond(|old(llm.prompts)|, prompt))
  {
    var docs := Documents(s.chromaResults);
    if docs != [] {
      var context := JoinedTop(docs, 3);
      var content := llm.Invoke(AnswerPrompt(context, s.userQuery));
      s' := s.(finalResponse := content);
    } else {
      s' := s.(finalResponse := Fallback);
    }
  }
}
