/** The paper filter: the model judges each paper from its title and the start of its
    abstract, braces escaped for the prompt template; papers judged on-topic are kept in
    order, and every paper's id is recorded once in `papers_seen`. The node exists but is
    not wired into the workflow graph. */
module FilterNodes {
  import opened Wrappers
  import opened Text
  import opened Records
  import opened ChatModels

  const AbstractLimit: nat := 500

  // ---------------------------------------------------------------------------------------
  // Brace escaping for the prompt template.

  /** `s.replace("{", "{{").replace("}", "}}")` */
  function Escape(s: string): string
  {
    ReplaceChar(ReplaceChar(s, '{', "{{"), '}', "}}")
  }

  /** Escaping one character at a time. */
  function EscapeEach(s: string): string
  {
    if s == [] then []
    else (if s[0] == '{' then "{{" else if s[0] == '}' then "}}" else [s[0]]) + EscapeEach(s[1..])
  }

  /** The two successive replacements escape each brace where it stands. */
  lemma {:induction false} EscapeIsPerCharacter(s: string)
    ensures Escape(s) == EscapeEach(s)
  {
    if s != [] {
      EscapeIsPerCharacter(s[1..]);
      var head := if s[0] == '{' then "{{" else [s[0]];
      assert ReplaceChar(s, '{', "{{") == head + ReplaceChar(s[1..], '{', "{{");
      ReplaceCharAppend(head, ReplaceChar(s[1..], '{', "{{"), '}', "}}");
      if s[0] == '{' {
        assert ReplaceChar(head, '}', "}}") == "{{" by {
          assert head[1..] == "{";
          assert ReplaceChar(head[1..], '}', "}}") == "{" + ReplaceChar("", '}', "}}");
        }
      } else {
        assert head[1..] == [];
      }
    }
  }

  /** Reading doubled braces back as single ones ("{{" as "{", "}}" as "}"). The prompt does
      not do this: the escaped title and abstract are substituted as they stand, so the model
      receives the doubled braces. This function only serves to show that escaping loses
      nothing. */
  function Unescape(s: string): string
  {
    if |s| >= 2 && s[0] == '{' && s[1] == '{' then "{" + Unescape(s[2..])
    else if |s| >= 2 && s[0] == '}' && s[1] == '}' then "}" + Unescape(s[2..])
    else if s == [] then []
    else [s[0]] + Unescape(s[1..])
  }

  lemma {:induction false} UnescapeEach(s: string)
    ensures Unescape(EscapeEach(s)) == s
  {
    if s != [] {
      UnescapeEach(s[1..]);
      var e := EscapeEach(s);
      if s[0] == '{' || s[0] == '}' {
        assert e[2..] == EscapeEach(s[1..]);
      } else {
        assert e[1..] == EscapeEach(s[1..]);
      }
      assert [s[0]] + s[1..] == s;
    }
  }

  /** Escaping loses no information: the original title or abstract can be recovered from
      its escaped form. */
  lemma EscapeRoundTrip(s: string)
    ensures Unescape(Escape(s)) == s
  {
    EscapeIsPerCharacter(s);
    UnescapeEach(s);
  }

  /** Different titles (or abstracts) stay different after escaping. */
  lemma EscapeInjective(a: string, b: string)
    ensures Escape(a) == Escape(b) <==> a == b
  {
    EscapeRoundTrip(a);
    EscapeRoundTrip(b);
  }

  /** Escaping lengthens the text by its number of braces. */
  lemma {:induction false} EscapeLength(s: string)
    ensures |Escape(s)| == |s| + CountChar(s, '{') + CountChar(s, '}')
  {
    EscapeIsPerCharacter(s);
    EscapeEachLength(s);
  }

  lemma {:induction false} EscapeEachLength(s: string)
    ensures |EscapeEach(s)| == |s| + CountChar(s, '{') + CountChar(s, '}')
  {
    if s != [] {
      EscapeEachLength(s[1..]);
    }
  }

  // ---------------------------------------------------------------------------------------
  // Filtering and the seen-list.

  /** The question put to the model about one paper. */
  function TopicPrompt(p: Paper): Prompt
  {
    PaperTopicPrompt(Escape(p.title), Escape(Take(p.summary, AbstractLimit)))
  }

  function TopicPrompts(papers: seq<Paper>): seq<Prompt>
  {
    seq(|papers|, i requires 0 <= i < |papers| => TopicPrompt(papers[i]))
  }

  /** Whether each paper's reply says yes, the reply to paper i being call n + i. */
  function Verdicts(respond: (nat, Prompt) -> string, n: nat, papers: seq<Paper>): (v: seq<bool>)
    ensures |v| == |papers|
  {
    seq(|papers|, i requires 0 <= i < |papers| => SaysYes(respond(n + i, TopicPrompt(papers[i]))))
  }

  /** The papers whose verdict is yes, in their original order. */
  function Kept(papers: seq<Paper>, accepted: seq<bool>): seq<Paper>
    requires |accepted| == |papers|
  {
    if papers == [] then []
    else
      var k := |papers| - 1;
      Kept(papers[..k], accepted[..k]) + (if accepted[k] then [papers[k]] else [])
  }

  /** A paper is kept exactly when its verdict is yes. */
  lemma {:induction false} KeptMeaning(papers: seq<Paper>, accepted: seq<bool>)
    requires |accepted| == |papers|
    ensures |Kept(papers, accepted)| <= |papers|
    ensures forall i :: 0 <= i < |papers| && accepted[i] ==> papers[i] in Kept(papers, accepted)
    ensures forall p :: p in Kept(papers, accepted) ==>
      exists i :: 0 <= i < |papers| && papers[i] == p && accepted[i]
  {
    if papers != [] {
      var k := |papers| - 1;
      var init := papers[..k];
      KeptMeaning(init, accepted[..k]);
      forall p | p in Kept(papers, accepted)
        ensures exists i :: 0 <= i < |papers| && papers[i] == p && accepted[i]
      {
        if p in Kept(init, accepted[..k]) {
          var i :| 0 <= i < k && init[i] == p && accepted[..k][i];
          assert papers[i] == p && accepted[i];
        } else {
          assert papers[k] == p && accepted[k];
        }
      }
      forall i | 0 <= i < |papers| && accepted[i]
        ensures papers[i] in Kept(papers, accepted)
      {
        if i < k {
          assert init[i] == papers[i] && accepted[..k][i];
        }
      }
    }
  }

  /** Every paper is kept when every verdict is yes, and none when none is. */
  lemma {:induction false} KeptAllOrNone(papers: seq<Paper>, accepted: seq<bool>)
    requires |accepted| == |papers|
    ensures (forall i :: 0 <= i < |papers| ==> accepted[i]) ==> Kept(papers, accepted) == papers
    ensures (forall i :: 0 <= i < |papers| ==> !accepted[i]) ==> Kept(papers, accepted) == []
  {
    if papers != [] {
      var k := |papers| - 1;
      var init, verdicts := papers[..k], accepted[..k];
      KeptAllOrNone(init, verdicts);
      if forall i :: 0 <= i < |papers| ==> accepted[i] {
        assert forall i :: 0 <= i < |init| ==> verdicts[i];
        assert Kept(papers, accepted) == init + [papers[k]];
        assert papers == init + [papers[k]];
      }
      if forall i :: 0 <= i < |papers| ==> !accepted[i] {
        assert forall i :: 0 <= i < |init| ==> !verdicts[i];
      }
    }
  }

  /** `papers_seen` after recording the truthy ids of the papers, each at most once. */
  function Seen(seen: seq<string>, papers: seq<Paper>): seq<string>
  {
    if papers == [] then seen
    else
      var k := |papers| - 1;
      var acc := Seen(seen, papers[..k]);
      var id := papers[k].entryId;
      if id != "" && id !in acc then acc + [id] else acc
  }

  predicate NoDuplicates(s: seq<string>)
  {
    forall i, j :: 0 <= i < j < |s| ==> s[i] != s[j]
  }

  /** The old list is kept as a prefix; every truthy id of the papers is recorded; only such
      ids are added, none of them already present and none twice. */
  lemma {:induction false} SeenProperties(seen: seq<string>, papers: seq<Paper>)
    ensures |seen| <= |Seen(seen, papers)| && Seen(seen, papers)[..|seen|] == seen
    ensures forall p :: p in papers && p.entryId != "" ==> p.entryId in Seen(seen, papers)
    ensures forall k :: |seen| <= k < |Seen(seen, papers)| ==>
      Seen(seen, papers)[k] != "" && Seen(seen, papers)[k] !in seen &&
      exists p :: p in papers && p.entryId == Seen(seen, papers)[k]
    ensures NoDuplicates(seen) ==> NoDuplicates(Seen(seen, papers))
  {
    if papers != [] {
      var k := |papers| - 1;
      var init := papers[..k];
      SeenProperties(seen, init);
      assert papers == init + [papers[k]];
      var acc := Seen(seen, init);
      var r := Seen(seen, papers);
      forall j | |seen| <= j < |r|
        ensures r[j] != "" && r[j] !in seen && exists p :: p in papers && p.entryId == r[j]
      {
        if j < |acc| {
          assert r[j] == acc[j];
          var p :| p in init && p.entryId == acc[j];
          assert p in papers;
        } else {
          assert r[j] == papers[k].entryId;
          assert acc[..|seen|] == seen;
          assert r[j] !in seen;
        }
      }
    }
  }

  /** `filter_game_theory_papers`. Without papers nothing happens and the model is not
      called. Otherwise the model is asked once per paper, in order; `arxiv_papers` becomes
      the papers it accepted and `papers_seen` records every paper's id. */
  method FilterGameTheoryPapers(s: GraphState, llm: ChatModel) returns (s': GraphState)
    modifies llm
    ensures s.arxivPapers == [] ==> s' == s && llm.prompts == old(llm.prompts)
    ensures s.arxivPapers != [] ==>
      llm.prompts == old(llm.prompts) + TopicPrompts(s.arxivPapers) &&
      s' == s.(arxivPapers := Kept(s.arxivPapers, Verdicts(llm.respond, |old(llm.prompts)|, s.arxivPapers)),
               papersSeen := Seen(s.papersSeen, s.arxivPapers))
  {
    var papers := s.arxivPapers;
    if papers == [] {
      return s;
    }
    var filtered := AskAboutPapers(papers, llm);
    var seen := RecordSeen(s.papersSeen, papers);
    s' := s.(arxivPapers := filtered, papersSeen := seen);
  }

  /** The per-paper loop: one model call per paper, keeping those it accepts. */
  method AskAboutPapers(papers: seq<Paper>, llm: ChatModel) returns (filtered: seq<Paper>)
    modifies llm
    ensures llm.prompts == old(llm.prompts) + TopicPrompts(papers)
    ensures filtered == Kept(papers, Verdicts(llm.respond, |old(llm.prompts)|, papers))
  {
    ghost var n := |llm.prompts|;
    ghost var verdicts := Verdicts(llm.respond, n, papers);
    filtered := [];
    for i := 0 to |papers|
      invariant llm.prompts == old(llm.prompts) + TopicPrompts(papers[..i])
      invariant filtered == Kept(papers[..i], verdicts[..i])
    {
      var paper := papers[i];
      var summary := Take(paper.summary, AbstractLimit);
      var titleEscaped := ReplaceChar(ReplaceChar(paper.title, '{', "{{"), '}', "}}");
      var summaryEscaped := ReplaceChar(ReplaceChar(summary, '{', "{{"), '}', "}}");
      var content := llm.Invoke(PaperTopicPrompt(titleEscaped, summaryEscaped));
      LoopStep(papers, verdicts, i);
      assert content == llm.respond(n + i, TopicPrompt(paper));
      if SaysYes(content) {
        filtered := filtered + [paper];
      }
    }
    assert papers[..|papers|] == papers && verdicts[..|papers|] == verdicts;
  }

  lemma LoopStep(papers: seq<Paper>, verdicts: seq<bool>, i: nat)
    requires |verdicts| == |papers| && i < |papers|
    ensures TopicPrompts(papers[..i + 1]) == TopicPrompts(papers[..i]) + [TopicPrompt(papers[i])]
    ensures Kept(papers[..i + 1], verdicts[..i + 1]) ==
      Kept(papers[..i], verdicts[..i]) + (if verdicts[i] then [papers[i]] else [])
  {
    assert papers[..i + 1][..i] == papers[..i] && verdicts[..i + 1][..i] == verdicts[..i];
  }

  /** The seen-list loop. */
  method RecordSeen(seen: seq<string>, papers: seq<Paper>) returns (r: seq<string>)
    ensures r == Seen(seen, papers)
  {
    r := seen;
    for i := 0 to |papers|
      invariant r == Seen(seen, papers[..i])
    {
      assert papers[..i + 1][..i] == papers[..i];
      var entryId := papers[i].entryId;
      if entryId != "" && entryId !in r {
        r := r + [entryId];
      }
    }
    assert papers[..|papers|] == papers;
  }
}
