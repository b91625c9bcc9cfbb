/** The paper search collaborator, seen only through the queries it receives. */
module ArxivSearch {
  import opened Wrappers
  import opened Records

  /** `results(n, q)` is the ranked list the service returns for the n-th search (counting
      from 0), whose query is q; `maxResults` bounds what the searcher keeps. */
  class ArxivSearcher {
    const maxResults: nat
    const results: (nat, string) -> seq<Paper>
    var queries: seq<string>

    constructor (maxResults: nat, results: (nat, string) -> seq<Paper>)
      ensures this.maxResults == maxResults && this.results == results && queries == []
    {
      this.maxResults := maxResults;
      this.results := results;
      queries := [];
    }

    /** `search_papers(query)`: at most `maxResults` papers, in the service's order. */
    method SearchPapers(query: string) returns (papers: seq<Paper>)
      modifies this
      ensures queries == old(queries) + [query]
      ensures |papers| == Min(maxResults, |results(|old(queries)|, query)|)
      ensures papers == results(|old(queries)|, query)[..|papers|]
    {
      var found := results(|queries|, query);
      papers := if |found| <= maxResults then found else found[..maxResults];
      queries := queries + [query];
    }
  }
}
