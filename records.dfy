/** The records threaded through the workflow: the graph state and the paper, chunk and
    query-result dictionaries it carries. */
module Records {
  import opened Wrappers
  import opened Text

  /** A paper as the paper search returns it; `pdf_url` may be None. */
  datatype Paper = Paper(
    title: string,
    summary: string,
    authors: seq<string>,
    published: string,
    pdfUrl: Option<string>,
    entryId: string)

  /** The metadata dictionary attached to one stored chunk. */
  datatype ChunkMetadata = ChunkMetadata(
    title: string,
    authors: string,
    published: string,
    source: string,
    chunkIndex: nat,
    pdfUrl: Option<string>)

  /** The inner lists ([0]) of a single-query store result; distances are not modelled. */
  datatype QueryResult = QueryResult(
    ids: seq<string>,
    documents: seq<string>,
    metadatas: seq<ChunkMetadata>)

  /** The workflow state. `chromaResults` is None while the dictionary is still `{}`.
      `papersSeen` is written only by the paper filter; an absent key reads as []. */
  datatype GraphState = GraphState(
    userQuery: string,
    needsContext: bool,
    chromaResults: Option<QueryResult>,
    relevantContext: bool,
    arxivPapers: seq<Paper>,
    papersAdded: bool,
    downloadedPdfs: seq<string>,
    finalResponse: string,
    papersSeen: seq<string>)

  /** `chroma_results.get("documents", [[]])[0]` */
  function Documents(results: Option<QueryResult>): seq<string>
  {
    if results.Some? then results.value.documents else []
  }

  /** `chroma_results.get("metadatas", [[]])[0]` */
  function Metadatas(results: Option<QueryResult>): seq<ChunkMetadata>
  {
    if results.Some? then results.value.metadatas else []
  }

  /** The pdf_url a dictionary carries when present and truthy. */
  function TruthyPdfUrl(url: Option<string>): Option<string>
  {
    if url.Some? && url.value != "" then url else None
  }

  /** `"\n\n".join(docs[:k])`: the context built from the k best documents. */
  function JoinedTop(docs: seq<string>, k: nat): string
  {
    Join("\n\n", docs[..Min(k, |docs|)])
  }

  /** Only the first k documents reach the context: whatever follows them is ignored. */
  lemma JoinedTopIgnoresRest(docs: seq<string>, rest: seq<string>, k: nat)
    requires |docs| >= k
    ensures JoinedTop(docs + rest, k) == JoinedTop(docs, k)
  {
    assert (docs + rest)[..k] == docs[..k];
  }

  /** The context opens with the best document. */
  lemma JoinedTopStartsWithBest(docs: seq<string>, k: nat)
    requires docs != [] && k >= 1
    ensures StartsWith(JoinedTop(docs, k), docs[0])
  {
    var parts := docs[..Min(k, |docs|)];
    if |parts| > 1 {
      assert JoinedTop(docs, k) == parts[0] + "\n\n" + Join("\n\n", parts[1..]);
      assert (parts[0] + "\n\n" + Join("\n\n", parts[1..]))[..|parts[0]|] == parts[0];
    }
  }
}
