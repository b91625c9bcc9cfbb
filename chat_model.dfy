/** The language model, seen only through the prompts it is sent and the text it returns. */
module ChatModels {
  import opened Text

  /** The template variables of each prompt the core sends; the fixed wording is not modelled. */
  datatype Prompt =
    | NeedsContextPrompt(query: string)
    | RelevancePrompt(query: string, context: string)
    | PaperTopicPrompt(title: string, summary: string)
    | AnswerPrompt(context: string, query: string)

  /** A chat model: `respond(n, p)` is the content of the reply to the n-th call (counting
      from 0), whose prompt is p. `prompts` records every call made so far, in order. */
  class ChatModel {
    const respond: (nat, Prompt) -> string
    var prompts: seq<Prompt>

    constructor (respond: (nat, Prompt) -> string)
      ensures this.respond == respond && prompts == []
    {
      this.respond := respond;
      prompts := [];
    }

    /** `(prompt | llm).invoke(variables).content` */
    method Invoke(prompt: Prompt) returns (content: string)
      modifies this
      ensures prompts == old(prompts) + [prompt]
      ensures content == respond(|old(prompts)|, prompt)
    {
      content := respond(|prompts|, prompt);
      prompts := prompts + [prompt];
    }
  }

  /** The yes/no heuristic: `"yes" in content.lower()`. */
  predicate SaysYes(content: string)
  {
    Contains(Lower(content), "yes")
  }

  /** Characters i, i+1, i+2 of s spell "yes" in any mixture of cases. */
  predicate YesAt(s: string, i: int)
  {
    && 0 <= i && i + 3 <= |s|
    && (s[i] == 'y' || s[i] == 'Y')
    && (s[i + 1] == 'e' || s[i + 1] == 'E')
    && (s[i + 2] == 's' || s[i + 2] == 'S')
  }

  /** The heuristic ignores case: it holds exactly when some three consecutive characters of
      the reply spell "yes", in either case, wherever they stand. */
  lemma SaysYesIgnoresCase(content: string)
    ensures SaysYes(content) <==> exists i | 0 <= i <= |content| :: YesAt(content, i)
  {
    var low := Lower(content);
    if SaysYes(content) {
      var i :| 0 <= i <= |low| && OccursAt(low, "yes", i);
      assert low[i] == low[i..i + 3][0] == 'y';
      assert low[i + 1] == low[i..i + 3][1] == 'e';
      assert low[i + 2] == low[i..i + 3][2] == 's';
      assert YesAt(content, i);
    }
    if exists i | 0 <= i <= |content| :: YesAt(content, i) {
      var i :| 0 <= i <= |content| && YesAt(content, i);
      assert low[i..i + 3] == "yes";
      assert OccursAt(low, "yes", i);
    }
  }
}
