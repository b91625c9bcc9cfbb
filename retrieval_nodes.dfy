/** The two retrieval nodes: a k-nearest query of the document store, and a paper search. */
module RetrievalNodes {
  import opened Wrappers
  import opened Records
  import opened VectorDb
  import opened ArxivSearch

  const ResultsPerQuery: nat := 3
  const SearchPrefix: string := "game theory "

  /** `pull_from_chroma`: `chroma_results` is replaced by the three stored chunks nearest to
      the query (all of them when fewer are stored), nearest first; nothing else changes. */
  method PullFromChroma(s: GraphState, db: VectorDbManager) returns (s': GraphState)
    ensures s'.chromaResults.Some? && s' == s.(chromaResults := s'.chromaResults)
    ensures var r := s'.chromaResults.value;
      |r.documents| == Min(ResultsPerQuery, db.Count()) && |r.ids| == |r.documents| && Distinct(r.ids) &&
      (forall i :: 0 <= i < |r.ids| ==> r.ids[i] in db.collection && db.collection[r.ids[i]].document == r.documents[i]) &&
      (forall i, j :: 0 <= i < j < |r.ids| ==>
         db.DistanceTo(s.userQuery, r.ids[i]) <= db.DistanceTo(s.userQuery, r.ids[j])) &&
      (forall i, id :: 0 <= i < |r.ids| && id in db.collection && id !in r.ids ==>
         db.DistanceTo(s.userQuery, r.ids[i]) <= db.DistanceTo(s.userQuery, id))
    ensures |s'.chromaResults.value.documents| <= ResultsPerQuery
    ensures db.collection == map[] ==> s'.chromaResults.value.documents == []
  {
    var results := db.Query(s.userQuery, ResultsPerQuery);
    s' := s.(chromaResults := Some(results));
  }

  /** `search_arxiv`: one search for "game theory " + the query; `arxiv_papers` is replaced by
      its result and nothing else changes. */
  method SearchArxiv(s: GraphState, searcher: ArxivSearcher) returns (s': GraphState)
    modifies searcher
    ensures searcher.queries == old(searcher.queries) + [SearchPrefix + s.userQuery]
    ensures var found := searcher.results(|old(searcher.queries)|, SearchPrefix + s.userQuery);
      s' == s.(arxivPapers := found[..Min(searcher.maxResults, |found|)])
  {
    var papers := searcher.SearchPapers(SearchPrefix + s.userQuery);
    s' := s.(arxivPapers := papers);
  }
}
