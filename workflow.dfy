/** The question-answering workflow: six nodes wired into a graph with two conditional
    edges and one feedback cycle, the executor that runs a graph from its entry node, the
    registry the nodes' collaborators are injected from, and the `query` entry point. */
module Workflow {
  import opened Wrappers
  import opened Records
  import opened Routers
  import opened ChatModels
  import opened VectorDb
  import opened ArxivSearch
  import opened DocumentProcessing
  import opened GraphBuilding
  import opened ContextNodes
  import opened RetrievalNodes
  import opened ProcessingNodes
  import opened ResponseNodes

  datatype Node =
    | CheckNeedsContextNode
    | PullFromChromaNode
    | CheckRelevanceNode
    | SearchArxivNode
    | AddToChromaNode
    | GenerateResponseNode

  /** The name each node is registered under. */
  function NameOf(n: Node): string
  {
    match n
    case CheckNeedsContextNode => "check_needs_context"
    case PullFromChromaNode => "pull_from_chroma"
    case CheckRelevanceNode => "check_relevance"
    case SearchArxivNode => "search_arxiv"
    case AddToChromaNode => "add_to_chroma"
    case GenerateResponseNode => "generate_response"
  }

  /** Where an edge leads: a node, or the end of the run. */
  datatype Target = To(node: Node) | End

  datatype Router = AfterContextCheck | AfterRelevanceCheck

  /** The routing function registered with a conditional edge. */
  function Route(r: Router, s: GraphState): string
  {
    match r
    case AfterContextCheck => RouteAfterContextCheck(s)
    case AfterRelevanceCheck => RouteAfterRelevanceCheck(s)
  }

  /** The outgoing edge of a node: fixed, or chosen by a router's output through a map. */
  datatype Edge =
    | Direct(target: Target)
    | Conditional(router: Router, branches: map<string, Target>)

  datatype Graph = Graph(nodes: set<Node>, entry: Option<Node>, edges: map<Node, Edge>)

  /** The graph under construction, changed by one call at a time. */
  class StateGraph {
    var nodes: set<Node>
    var entry: Option<Node>
    var edges: map<Node, Edge>

    constructor ()
      ensures nodes == {} && entry == None && edges == map[]
    {
      nodes := {};
      entry := None;
      edges := map[];
    }

    function Snapshot(): Graph
      reads this
    {
      Graph(nodes, entry, edges)
    }

    /** `add_node(name, wrapper)` */
    method AddNode(n: Node)
      modifies this
      ensures nodes == old(nodes) + {n} && entry == old(entry) && edges == old(edges)
    {
      nodes := nodes + {n};
    }

    /** `set_entry_point(name)` */
    method SetEntryPoint(n: Node)
      modifies this
      ensures entry == Some(n) && nodes == old(nodes) && edges == old(edges)
    {
      entry := Some(n);
    }

    /** `add_edge(source, target)` */
    method AddEdge(source: Node, target: Target)
      modifies this
      ensures edges == old(edges)[source := Direct(target)] && nodes == old(nodes) && entry == old(entry)
    {
      edges := edges[source := Direct(target)];
    }

    /** `add_conditional_edges(source, router, branches)` */
    method AddConditionalEdges(source: Node, router: Router, branches: map<string, Target>)
      modifies this
      ensures edges == old(edges)[source := Conditional(router, branches)] && nodes == old(nodes) && entry == old(entry)
    {
      edges := edges[source := Conditional(router, branches)];
    }
  }

  function ContextBranches(): map<string, Target>
  {
    map["pull_from_chroma" := To(PullFromChromaNode), "generate_response" := To(GenerateResponseNode)]
  }

  function RelevanceBranches(): map<string, Target>
  {
    map["generate_response" := To(GenerateResponseNode), "search_arxiv" := To(SearchArxivNode)]
  }

  function AllNodes(): set<Node>
  {
    {CheckNeedsContextNode, PullFromChromaNode, CheckRelevanceNode, SearchArxivNode, AddToChromaNode, GenerateResponseNode}
  }

  /** The workflow as wired. */
  function Topology(): Graph
  {
    Graph(
      AllNodes(),
      Some(CheckNeedsContextNode),
      map[
        CheckNeedsContextNode := Conditional(AfterContextCheck, ContextBranches()),
        PullFromChromaNode := Direct(To(CheckRelevanceNode)),
        CheckRelevanceNode := Conditional(AfterRelevanceCheck, RelevanceBranches()),
        SearchArxivNode := Direct(To(AddToChromaNode)),
        AddToChromaNode := Direct(To(PullFromChromaNode)),
        GenerateResponseNode := Direct(End)])
  }

  /** `_build_workflow_uncompiled`: the six nodes, the entry point and the edges, added in
      the source's order, give the wired topology. */
  method BuildWorkflowUncompiled() returns (g: StateGraph)
    ensures fresh(g) && g.Snapshot() == Topology()
  {
    g := new StateGraph();
    g.AddNode(CheckNeedsContextNode);
    g.AddNode(PullFromChromaNode);
    g.AddNode(CheckRelevanceNode);
    g.AddNode(SearchArxivNode);
    g.AddNode(AddToChromaNode);
    g.AddNode(GenerateResponseNode);
    g.SetEntryPoint(CheckNeedsContextNode);
    g.AddConditionalEdges(CheckNeedsContextNode, AfterContextCheck, ContextBranches());
    g.AddEdge(PullFromChromaNode, To(CheckRelevanceNode));
    g.AddConditionalEdges(CheckRelevanceNode, AfterRelevanceCheck, RelevanceBranches());
    g.AddEdge(SearchArxivNode, To(AddToChromaNode));
    g.AddEdge(AddToChromaNode, To(PullFromChromaNode));
    g.AddEdge(GenerateResponseNode, End);
  }

  /** Where a run goes after node n produced state s; None when the node has no edge or the
      router's output is not a key of the branch map. */
  function Next(g: Graph, n: Node, s: GraphState): Option<Target>
  {
    if n !in g.edges then None
    else
      match g.edges[n]
      case Direct(t) => Some(t)
      case Conditional(r, branches) =>
        var key := Route(r, s);
        if key in branches then Some(branches[key]) else None
  }

  /** The successor table of the workflow, node by node. */
  function Successor(n: Node, s: GraphState): Target
  {
    match n
    case CheckNeedsContextNode => if s.needsContext then To(PullFromChromaNode) else To(GenerateResponseNode)
    case PullFromChromaNode => To(CheckRelevanceNode)
    case CheckRelevanceNode => if s.relevantContext then To(GenerateResponseNode) else To(SearchArxivNode)
    case SearchArxivNode => To(AddToChromaNode)
    case AddToChromaNode => To(PullFromChromaNode)
    case GenerateResponseNode => End
  }

  /** The wired graph follows the successor table from every node and state. */
  lemma TopologyNext(n: Node, s: GraphState)
    ensures Next(Topology(), n, s) == Some(Successor(n, s))
  {
    match n
    case CheckNeedsContextNode =>
      assert RouteAfterContextCheck(s) in ContextBranches();
    case CheckRelevanceNode =>
      assert RouteAfterRelevanceCheck(s) in RelevanceBranches();
    case _ =>
  }

  /** Every value a router returns is a key of the branch map it is registered with. */
  lemma RouterOutputsAreBranches(s: GraphState)
    ensures RouteAfterContextCheck(s) in ContextBranches()
    ensures RouteAfterRelevanceCheck(s) in RelevanceBranches()
    ensures ContextBranches()[RouteAfterContextCheck(s)] == To(PullFromChromaNode) <==> s.needsContext
    ensures RelevanceBranches()[RouteAfterRelevanceCheck(s)] == To(GenerateResponseNode) <==> s.relevantContext
  {
  }

  /** The entry and every edge end are nodes of the graph, every node has an edge, and only
      `generate_response` leads to the end. */
  lemma TopologyWellFormed()
    ensures Topology().entry == Some(CheckNeedsContextNode) && CheckNeedsContextNode in Topology().nodes
    ensures Topology().edges.Keys == Topology().nodes
    ensures forall n, s :: n in Topology().nodes ==> Successor(n, s).End? || Successor(n, s).node in Topology().nodes
    ensures forall n, s :: Successor(n, s) == End <==> n == GenerateResponseNode
  {
  }

  /** What running a node does to the state, as far as the graph's behaviour depends on it:
      the fields it writes, and the facts the routers and the fallback rely on. */
  predicate Effect(n: Node, s: GraphState, s': GraphState)
  {
    match n
    case CheckNeedsContextNode => s' == s.(needsContext := s'.needsContext)
    case PullFromChromaNode =>
      s'.chromaResults.Some? && |Documents(s'.chromaResults)| <= ResultsPerQuery &&
      s' == s.(chromaResults := s'.chromaResults)
    case CheckRelevanceNode =>
      s' == s.(relevantContext := s'.relevantContext) &&
      (Documents(s.chromaResults) == [] ==> !s'.relevantContext)
    case SearchArxivNode => s' == s.(arxivPapers := s'.arxivPapers)
    case AddToChromaNode => s' == s.(papersAdded := true)
    case GenerateResponseNode =>
      s' == s.(finalResponse := s'.finalResponse) &&
      (Documents(s.chromaResults) == [] ==> s'.finalResponse == Fallback)
  }

  /** One node run: the wrapper calls the node function with its injected collaborators. */
  method RunNode(n: Node, s: GraphState, llm: ChatModel, db: VectorDbManager, searcher: ArxivSearcher,
                 processor: DocumentProcessor) returns (s': GraphState)
    requires processor.Valid()
    modifies llm, db, searcher
    ensures Effect(n, s, s')
  {
    match n
    case CheckNeedsContextNode => s' := CheckNeedsContext(s, llm);
    case PullFromChromaNode => s' := PullFromChroma(s, db);
    case CheckRelevanceNode => s' := CheckRelevance(s, llm);
    case SearchArxivNode => s' := SearchArxiv(s, searcher);
    case AddToChromaNode => var added; s', added := AddToChroma(s, db, processor);
    case GenerateResponseNode => s' := GenerateResponse(s, llm);
  }

  /** The nodes run so far and the states between them: states[i] is the input of trace[i]
      and states[i + 1] its output, and each node is the one the graph leads to. */
  predicate Steps(g: Graph, trace: seq<Node>, states: seq<GraphState>)
    decreases |trace|
  {
    |states| == |trace| + 1 &&
    (trace != [] ==>
      var k := |trace| - 1;
      Steps(g, trace[..k], states[..k + 1]) &&
      Effect(trace[k], states[k], states[k + 1]) &&
      (k > 0 ==> Next(g, trace[k - 1], states[k]) == Some(To(trace[k]))))
  }

  /** A run of g from s0, starting at the entry node. */
  predicate IsRun(g: Graph, s0: GraphState, trace: seq<Node>, states: seq<GraphState>)
  {
    Steps(g, trace, states) && states[0] == s0 && (trace != [] ==> g.entry == Some(trace[0]))
  }

  /** Where a run goes next: the entry node before anything ran, else the last node's edge. */
  function Pending(g: Graph, trace: seq<Node>, states: seq<GraphState>): Option<Target>
    requires |states| == |trace| + 1
  {
    if trace == [] then (if g.entry.Some? then Some(To(g.entry.value)) else None)
    else Next(g, trace[|trace| - 1], states[|states| - 1])
  }

  /** The steps relation, read position by position. */
  lemma StepsMeaning(g: Graph, trace: seq<Node>, states: seq<GraphState>)
    requires Steps(g, trace, states)
    ensures |states| == |trace| + 1
    ensures forall i :: 0 <= i < |trace| ==> Effect(trace[i], states[i], states[i + 1])
    ensures forall i :: 0 <= i < |trace| - 1 ==> Next(g, trace[i], states[i + 1]) == Some(To(trace[i + 1]))
  {
    StepsEffects(g, trace, states);
    StepsLinks(g, trace, states);
  }

  lemma {:induction false} StepsEffects(g: Graph, trace: seq<Node>, states: seq<GraphState>)
    requires Steps(g, trace, states)
    ensures |states| == |trace| + 1
    ensures forall i :: 0 <= i < |trace| ==> Effect(trace[i], states[i], states[i + 1])
    decreases |trace|
  {
    if trace != [] {
      var k := |trace| - 1;
      StepsEffects(g, trace[..k], states[..k + 1]);
      forall i | 0 <= i < k
        ensures Effect(trace[i], states[i], states[i + 1])
      {
        assert trace[..k][i] == trace[i] && states[..k + 1][i] == states[i] && states[..k + 1][i + 1] == states[i + 1];
      }
    }
  }

  lemma {:induction false} StepsLinks(g: Graph, trace: seq<Node>, states: seq<GraphState>)
    requires Steps(g, trace, states)
    ensures forall i :: 0 <= i < |trace| - 1 ==> Next(g, trace[i], states[i + 1]) == Some(To(trace[i + 1]))
    decreases |trace|
  {
    if trace != [] {
      var k := |trace| - 1;
      StepsLinks(g, trace[..k], states[..k + 1]);
      forall i | 0 <= i < k - 1
        ensures Next(g, trace[i], states[i + 1]) == Some(To(trace[i + 1]))
      {
        assert trace[..k][i] == trace[i] && trace[..k][i + 1] == trace[i + 1] && states[..k + 1][i + 1] == states[i + 1];
      }
    }
  }

  /** Running the pending node extends a run. */
  lemma RunStep(g: Graph, s0: GraphState, trace: seq<Node>, states: seq<GraphState>, n: Node, s': GraphState)
    requires IsRun(g, s0, trace, states)
    requires Pending(g, trace, states) == Some(To(n))
    requires Effect(n, states[|states| - 1], s')
    ensures IsRun(g, s0, trace + [n], states + [s'])
  {
    assert (trace + [n])[..|trace|] == trace;
    assert (states + [s'])[..|trace| + 1] == states;
  }

  datatype Outcome = Finished | OutOfFuel | NoRoute

  /** `invoke`: runs g from its entry node until an edge leads to the end, at most `fuel`
      node runs (the executor's recursion limit). The outcome says how the run stopped. */
  method Invoke(g: Graph, s0: GraphState, fuel: nat, llm: ChatModel, db: VectorDbManager,
                searcher: ArxivSearcher, processor: DocumentProcessor)
    returns (outcome: Outcome, trace: seq<Node>, states: seq<GraphState>)
    requires processor.Valid()
    modifies llm, db, searcher
    ensures IsRun(g, s0, trace, states) && |trace| <= fuel
    ensures outcome == Finished <==> Pending(g, trace, states) == Some(End)
    ensures outcome == NoRoute <==> Pending(g, trace, states) == None
    ensures outcome == OutOfFuel <==> Pending(g, trace, states).Some? && Pending(g, trace, states).value.To?
    ensures outcome == OutOfFuel ==> |trace| == fuel
  {
    trace := [];
    states := [s0];
    var s := s0;
    var pending := if g.entry.Some? then Some(To(g.entry.value)) else None;
    while pending.Some? && pending.value.To? && |trace| < fuel
      invariant IsRun(g, s0, trace, states) && |trace| <= fuel
      invariant s == states[|states| - 1] && pending == Pending(g, trace, states)
      decreases fuel - |trace|
    {
      var n := pending.value.node;
      var s' := RunNode(n, s, llm, db, searcher, processor);
      RunStep(g, s0, trace, states, n, s');
      trace, states := trace + [n], states + [s'];
      s := s';
      pending := Next(g, n, s');
    }
    if pending.None? {
      outcome := NoRoute;
    } else if pending.value == End {
      outcome := Finished;
    } else {
      outcome := OutOfFuel;
    }
  }

  /** A run of the workflow never gets stuck: it has always either finished or a node to run. */
  lemma NeverNoRoute(s0: GraphState, trace: seq<Node>, states: seq<GraphState>)
    requires IsRun(Topology(), s0, trace, states)
    ensures Pending(Topology(), trace, states).Some?
  {
    if trace != [] {
      TopologyNext(trace[|trace| - 1], states[|states| - 1]);
    }
  }

  /** Runs start at `check_needs_context`, and it never runs again: no edge leads back to it. */
  lemma EntryRunsOnce(s0: GraphState, trace: seq<Node>, states: seq<GraphState>)
    requires IsRun(Topology(), s0, trace, states)
    ensures trace != [] ==> trace[0] == CheckNeedsContextNode
    ensures forall i :: 0 < i < |trace| ==> trace[i] != CheckNeedsContextNode
  {
    StepsMeaning(Topology(), trace, states);
    forall i | 0 < i < |trace|
      ensures trace[i] != CheckNeedsContextNode
    {
      TopologyNext(trace[i - 1], states[i]);
    }
  }

  /** The fixed edges: `pull_from_chroma` is followed by `check_relevance`, `search_arxiv` by
      `add_to_chroma` (so the found papers reach the store unfiltered), and `add_to_chroma`
      by `pull_from_chroma`. */
  lemma FixedSuccessors(s0: GraphState, trace: seq<Node>, states: seq<GraphState>)
    requires IsRun(Topology(), s0, trace, states)
    ensures forall i :: 0 <= i < |trace| - 1 && trace[i] == PullFromChromaNode ==> trace[i + 1] == CheckRelevanceNode
    ensures forall i :: 0 <= i < |trace| - 1 && trace[i] == SearchArxivNode ==>
      trace[i + 1] == AddToChromaNode && states[i + 1] == states[i].(arxivPapers := states[i + 1].arxivPapers)
    ensures forall i :: 0 <= i < |trace| - 1 && trace[i] == AddToChromaNode ==> trace[i + 1] == PullFromChromaNode
  {
    StepsMeaning(Topology(), trace, states);
    forall i | 0 <= i < |trace| - 1
      ensures Next(Topology(), trace[i], states[i + 1]) == Some(Successor(trace[i], states[i + 1]))
    {
      TopologyNext(trace[i], states[i + 1]);
    }
  }

  /** The relevance check decides the cycle: it exits to `generate_response` exactly when
      the retrieved context was judged relevant, and goes on to `search_arxiv` otherwise. */
  lemma RelevanceDecidesExit(s0: GraphState, trace: seq<Node>, states: seq<GraphState>)
    requires IsRun(Topology(), s0, trace, states)
    ensures forall i :: 0 <= i < |trace| - 1 && trace[i] == CheckRelevanceNode ==>
      (trace[i + 1] == GenerateResponseNode <==> states[i + 1].relevantContext) &&
      (trace[i + 1] == SearchArxivNode <==> !states[i + 1].relevantContext)
  {
    StepsMeaning(Topology(), trace, states);
    forall i | 0 <= i < |trace| - 1
      ensures Next(Topology(), trace[i], states[i + 1]) == Some(Successor(trace[i], states[i + 1]))
    {
      TopologyNext(trace[i], states[i + 1]);
    }
  }

  /** `generate_response` is the only way out: once it runs the run is over, so a finished
      run ends with it and runs it exactly once. */
  lemma ResponseEndsRun(s0: GraphState, trace: seq<Node>, states: seq<GraphState>)
    requires IsRun(Topology(), s0, trace, states)
    ensures forall i :: 0 <= i < |trace| - 1 ==> trace[i] != GenerateResponseNode
    ensures Pending(Topology(), trace, states) == Some(End) <==>
      trace != [] && trace[|trace| - 1] == GenerateResponseNode
  {
    StepsMeaning(Topology(), trace, states);
    forall i | 0 <= i < |trace| - 1
      ensures trace[i] != GenerateResponseNode
    {
      TopologyNext(trace[i], states[i + 1]);
    }
    if trace != [] {
      TopologyNext(trace[|trace| - 1], states[|states| - 1]);
    }
  }

  /** The state `query` starts from. */
  function InitialState(query: string): GraphState
  {
    GraphState(query, false, None, false, [], false, [], "", [])
  }

  /** A query judged not to need context goes straight to the answer node, which finds no
      documents in the initial `{}` results and answers with the fallback; no retrieval or
      search runs. */
  lemma NoContextRun(query: string, trace: seq<Node>, states: seq<GraphState>)
    requires IsRun(Topology(), InitialState(query), trace, states)
    requires |trace| >= 2 && !states[1].needsContext
    ensures trace == [CheckNeedsContextNode, GenerateResponseNode]
    ensures states[2].finalResponse == Fallback
    ensures Pending(Topology(), trace, states) == Some(End)
  {
    StepsMeaning(Topology(), trace, states);
    TopologyNext(trace[0], states[1]);
    ResponseEndsRun(InitialState(query), trace, states);
    assert trace[1] == GenerateResponseNode;
    assert |trace| == 2;
  }

  /** `query`: runs the workflow from the initial state and returns the final answer; None
      stands for a run stopped by the recursion limit before it finished. */
  method Query(query: string, fuel: nat, llm: ChatModel, db: VectorDbManager, searcher: ArxivSearcher,
               processor: DocumentProcessor) returns (answer: Option<string>, ghost trace: seq<Node>, ghost states: seq<GraphState>)
    requires processor.Valid()
    modifies llm, db, searcher
    ensures IsRun(Topology(), InitialState(query), trace, states)
    ensures answer.Some? <==> trace != [] && trace[|trace| - 1] == GenerateResponseNode
    ensures answer.Some? ==> answer.value == states[|states| - 1].finalResponse
    ensures answer.None? ==> |trace| == fuel
    ensures fuel >= 2 && !states[1].needsContext ==> answer == Some(Fallback)
  {
    var outcome, t, st := Invoke(Topology(), InitialState(query), fuel, llm, db, searcher, processor);
    trace, states := t, st;
    NeverNoRoute(InitialState(query), t, st);
    ResponseEndsRun(InitialState(query), t, st);
    if fuel >= 2 && !st[1].needsContext {
      NoContextRun(query, t, st);
    }
    if outcome == Finished {
      answer := Some(st[|st| - 1].finalResponse);
    } else {
      answer := None;
    }
  }

  /** The collaborators the workflow registers, by the type name they are registered under. */
  datatype Tool = ChatModelTool | VectorDbTool | SearcherTool | ProcessorTool

  function Registry(): map<string, Tool>
  {
    map["BaseChatModel" := ChatModelTool, "VectorDBManager" := VectorDbTool,
        "ArxivSearcher" := SearcherTool, "DocumentProcessor" := ProcessorTool]
  }

  /** Each node function's parameters and their hints. */
  function Signature(n: Node): seq<Param>
  {
    var state := Param("state", Some(ClassHint("GraphState")));
    var llm := Param("llm", Some(ClassHint("BaseChatModel")));
    var vectorDb := Param("vector_db", Some(ClassHint("VectorDBManager")));
    match n
    case CheckNeedsContextNode => [state, llm]
    case PullFromChromaNode => [state, vectorDb]
    case CheckRelevanceNode => [state, llm]
    case SearchArxivNode => [state, Param("arxiv_searcher", Some(ClassHint("ArxivSearcher")))]
    case AddToChromaNode => [state, vectorDb, Param("doc_processor", Some(ClassHint("DocumentProcessor")))]
    case GenerateResponseNode => [state, llm]
  }

  /** The dependency table of the workflow: which collaborator each node receives, under
      which parameter name. */
  function ToolsOf(n: Node): map<string, Tool>
  {
    match n
    case CheckNeedsContextNode => map["llm" := ChatModelTool]
    case PullFromChromaNode => map["vector_db" := VectorDbTool]
    case CheckRelevanceNode => map["llm" := ChatModelTool]
    case SearchArxivNode => map["arxiv_searcher" := SearcherTool]
    case AddToChromaNode => map["vector_db" := VectorDbTool, "doc_processor" := ProcessorTool]
    case GenerateResponseNode => map["llm" := ChatModelTool]
  }

  /** Every node is created without error against the registry, and receives exactly the
      collaborators of the dependency table. */
  lemma EveryNodeResolves(n: Node, body: (GraphState, map<string, Tool>) -> GraphState)
    ensures var f := NodeFunc(NameOf(n), Signature(n), body);
      Resolve(Registry(), f) == Ok(Wrapper(f, ToolsOf(n)))
  {
    var f := NodeFunc(NameOf(n), Signature(n), body);
    var state := Param("state", Some(ClassHint("GraphState")));
    var llm := Param("llm", Some(ClassHint("BaseChatModel")));
    var vectorDb := Param("vector_db", Some(ClassHint("VectorDBManager")));
    match n
    case AddToChromaNode =>
      var processor := Param("doc_processor", Some(ClassHint("DocumentProcessor")));
      InjectedTriple(state, vectorDb, processor);
      ResolvesPair(Registry(), f, vectorDb, processor);
    case CheckNeedsContextNode =>
      ResolvesOne(f, state, llm);
    case PullFromChromaNode =>
      ResolvesOne(f, state, vectorDb);
    case CheckRelevanceNode =>
      ResolvesOne(f, state, llm);
    case SearchArxivNode =>
      ResolvesOne(f, state, Param("arxiv_searcher", Some(ClassHint("ArxivSearcher"))));
    case GenerateResponseNode =>
      ResolvesOne(f, state, llm);
  }

  /** A node taking the state and one registered collaborator is bound to it alone. */
  lemma ResolvesOne(f: NodeFunc<GraphState, Tool>, state: Param, p: Param)
    requires f.params == [state, p] && state.name == "state" && p.name != "state"
    requires p.hint.Some? && TypeName(p.hint.value) in Registry()
    ensures Resolve(Registry(), f) == Ok(Wrapper(f, map[p.name := Registry()[TypeName(p.hint.value)]]))
  {
    InjectedPair(state, p);
    ResolvesSingle(Registry(), f, p);
  }

  lemma InjectedPair(state: Param, p: Param)
    requires state.name == "state" && p.name != "state"
    ensures Injected([state, p]) == [p]
  {
    assert [state, p][..1] == [state];
    assert [state][..0] == [];
    assert Injected([state]) == [];
  }

  lemma InjectedTriple(state: Param, p: Param, q: Param)
    requires state.name == "state" && p.name != "state" && q.name != "state"
    ensures Injected([state, p, q]) == [p, q]
  {
    assert [state, p, q][..2] == [state, p];
    InjectedPair(state, p);
  }

  /** A node with one registered dependency is bound to it. */
  lemma ResolvesSingle<S, D>(deps: map<string, D>, f: NodeFunc<S, D>, p: Param)
    requires Injected(f.params) == [p] && p.hint.Some? && TypeName(p.hint.value) in deps
    ensures Resolve(deps, f) == Ok(Wrapper(f, map[p.name := deps[TypeName(p.hint.value)]]))
  {
    var ps := Injected(f.params);
    assert ps[..0] == [] && ps[1..] == [];
    assert FirstUnhinted(ps) == None;
    assert MissingParams(deps, ps) == [];
    assert Bindings(deps, ps) == map[p.name := deps[TypeName(p.hint.value)]];
  }

  /** A node with two registered dependencies is bound to both. */
  lemma ResolvesPair<S, D>(deps: map<string, D>, f: NodeFunc<S, D>, p: Param, q: Param)
    requires Injected(f.params) == [p, q]
    requires p.hint.Some? && TypeName(p.hint.value) in deps && q.hint.Some? && TypeName(q.hint.value) in deps
    ensures Resolve(deps, f) == Ok(Wrapper(f, map[p.name := deps[TypeName(p.hint.value)]][q.name := deps[TypeName(q.hint.value)]]))
  {
    var ps := Injected(f.params);
    assert ps[..1] == [p] && ps[1..] == [q] && [p][..0] == [] && [q][1..] == [];
    assert FirstUnhinted([q]) == None;
    assert FirstUnhinted(ps) == None;
    assert MissingParams(deps, [p]) == [];
    assert MissingParams(deps, ps) == [];
    assert Bindings(deps, [p]) == map[p.name := deps[TypeName(p.hint.value)]];
    assert Bindings(deps, ps) == map[p.name := deps[TypeName(p.hint.value)]][q.name := deps[TypeName(q.hint.value)]];
  }
}
