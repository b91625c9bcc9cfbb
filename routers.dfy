/** The two conditional-edge routers: each reads one flag of the state and names the next
    node. */
module Routers {
  import opened Records

  /** `route_after_context_check` */
  function RouteAfterContextCheck(s: GraphState): (next: string)
    ensures next == "pull_from_chroma" <==> s.needsContext
    ensures next == "generate_response" <==> !s.needsContext
  {
    if s.needsContext then "pull_from_chroma" else "generate_response"
  }

  /** `route_after_relevance_check` */
  function RouteAfterRelevanceCheck(s: GraphState): (next: string)
    ensures next == "generate_response" <==> s.relevantContext
    ensures next == "search_arxiv" <==> !s.relevantContext
  {
    if s.relevantContext then "generate_response" else "search_arxiv"
  }

  /** Each router depends on its one flag only: states that agree on the flag are routed
      alike, whatever else differs. */
  lemma RoutersReadOneFlag(s: GraphState, t: GraphState)
    ensures s.needsContext == t.needsContext ==> RouteAfterContextCheck(s) == RouteAfterContextCheck(t)
    ensures s.relevantContext == t.relevantContext ==> RouteAfterRelevanceCheck(s) == RouteAfterRelevanceCheck(t)
  {
  }
}
