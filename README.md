# Game-theory RAG workflow — a Dafny model

This project models the core of a retrieval-augmented question-answering workflow about game
theory. A user query flows through six nodes wired as a LangGraph state machine:

1. `check_needs_context` asks a chat model whether the query is about game theory.
2. `pull_from_chroma` retrieves the three nearest chunks from a vector store.
3. `check_relevance` asks whether the top two chunks are relevant.
4. If they are not, `search_arxiv` fetches papers and `add_to_chroma` chunks them into the
   store, and the loop goes back to retrieval.
5. `generate_response` answers from the top three chunks, or with a fixed fallback sentence.

The model covers the following parts:

- **Graph and executor.** The graph is built by successive `add_node`/`add_edge` calls
  (`Workflow.StateGraph`). The executor runs a graph from its entry node under explicit
  fuel, with the outcomes `Finished`, `OutOfFuel` and `NoRoute`.
- **Nodes and routers.** These are methods over a `GraphState` record value. The chat model,
  the vector store, the paper search and the downloader are objects whose behaviour is an
  oracle fixed at construction. Each object keeps a log of its calls, so the contracts can
  say "called once", "not called" and "called once per paper".
- **Dependency injector.** `create_node` is modelled with its exact error precedence.
- **Chunker.** The sentence-boundary chunker covers whitespace normalisation, windows, the
  backward boundary search, overlap, and paper-to-record conversion.
- **Vector store contract.** This covers equal-length validation, upsert by id, count, and
  k-nearest query.
- **PDF filename derivation** and the PDF download nodes.
- **Evaluation metrics collector.** These are its integer counters.

The modules, one per source file:

| module | file |
|---|---|
| `Records` | the state record |
| `Routers` | the routers |
| `ChatModels` | the chat-model oracle |
| `ArxivSearch` | the paper-search oracle |
| `VectorDb` | the store |
| `DocumentProcessing` | the chunker |
| `GraphBuilding` | the injector |
| `ContextNodes`, `RetrievalNodes`, `FilterNodes`, `ProcessingNodes`, `ResponseNodes`, `PdfNodes` | the nodes |
| `PdfDownload` | the downloader |
| `Workflow` | the wiring, executor and `query` |
| `EvaluationMetrics` | the metrics collector |

`Wrappers` (Option/Result) and `Text` (Python string operations: `strip`, `lower`, `in`,
`split`, `join`, `replace`, `str(int)`) are helpers.

## Model

| member | source | states |
|---|---|---|
| Routers.RouteAfterContextCheck | src/edges/routers.py:58-61 | returns "pull_from_chroma" iff `needs_context`, and "generate_response" iff not |
| Routers.RouteAfterRelevanceCheck | src/edges/routers.py:103-106 | returns "generate_response" iff `relevant_context`, and "search_arxiv" iff not |
| Routers.RoutersReadOneFlag | src/edges/routers.py:58-61 | each router's answer depends only on its one flag |
| ChatModels.ChatModel.Invoke | src/nodes/context_nodes.py:68-69 | one call: the prompt is appended to the call log and the reply is the oracle's answer for that call's position |
| ChatModels.SaysYesIgnoresCase | src/nodes/context_nodes.py:71 | `"yes" in content.lower()` holds exactly when three consecutive characters spell y-e-s in any mixture of cases |
| Records.JoinedTop | src/nodes/context_nodes.py:136-137 | `"\n\n".join(documents[:k])`; computes only (its properties are the two lemmas in the next rows) |
| Records.JoinedTopIgnoresRest | src/nodes/context_nodes.py:136-137 | the joined context depends only on the first k documents |
| Records.JoinedTopStartsWithBest | src/nodes/response_nodes.py:85-86 | the joined context starts with the best-ranked document |
| ArxivSearch.ArxivSearcher.SearchPapers | src/arxiv_search.py:120-138 | one search is logged; the result is the first `max_results` papers of the search's answer, in order |
| ContextNodes.CheckNeedsContext | src/nodes/context_nodes.py:62-78 | the chat model is called exactly once, with the query; `needs_context` becomes "reply contains yes" (case-insensitive); no other field changes |
| ContextNodes.CheckRelevance | src/nodes/context_nodes.py:129-156 | without documents: `relevant_context` becomes false and the model is not called; otherwise it is called once with the first two documents joined by a blank line, and the flag becomes "reply contains yes"; no other field changes |
| RetrievalNodes.PullFromChroma | src/nodes/retrieval_nodes.py:70-79 | `chroma_results` is replaced by the store's answer for (query, 3): min(3, count) distinct stored documents, nearest first, none nearer left out, so at most three and none from an empty store; no other field changes |
| RetrievalNodes.SearchArxiv | src/nodes/retrieval_nodes.py:142-151 | searches exactly "game theory " + query, once; `arxiv_papers` is replaced by the result; no other field changes |
| ResponseNodes.GenerateResponse | src/nodes/response_nodes.py:84-99 | with documents: one model call on the first three joined, whose reply becomes `final_response`; without: the fixed fallback sentence and no call; only `final_response` changes |
| VectorDb.UpsertedKeys | src/vector_db.py:148-152 | after an add the stored ids are the old ids plus the batch's ids |
| VectorDb.UpsertedValues | src/vector_db.py:138 | entries outside the batch are unchanged; an id's last occurrence in the batch decides its entry (update, not duplicate) |
| VectorDb.UpsertFreshGrowsCount | src/vector_db.py:148-152 | adding k fresh, distinct ids grows the count by k |
| VectorDb.DistinctCardinality | src/vector_db.py:148-152 | k distinct ids form a set of k ids |
| VectorDb.UpsertExistingKeepsCount | src/vector_db.py:138 | re-adding existing ids does not change the count |
| VectorDb.UpsertTwiceSameCount | src/vector_db.py:138 | adding the same batch twice counts like adding it once |
| VectorDb.VectorDbManager.Count | src/vector_db.py:200-217 | the number of stored ids, 0 exactly when the collection is empty |
| VectorDb.VectorDbManager.AddDocuments | src/vector_db.py:142-152 | unequal list lengths give a length error and leave the store unchanged; a backend failure leaves it unchanged; otherwise the batch is upserted |
| VectorDb.VectorDbManager.NearestIn | src/vector_db.py:194-197 | returns a member of the pool at least as near as every other member |
| VectorDb.VectorDbManager.Query | src/vector_db.py:154-198 | returns min(n, count) distinct stored ids with their documents and metadata, sorted by distance, none nearer left out |
| DocumentProcessing.CollapseSpaces | src/document_processor.py:112 | every whitespace character becomes ' ', no two spaces are adjacent, empty iff the input is empty, never longer |
| DocumentProcessing.Normalize | src/document_processor.py:112 | the result is normalised (single spaces, no space at either end) and no longer than the input |
| DocumentProcessing.Words | src/document_processor.py:112 | the reference split of a text into its maximal runs of non-whitespace: every element is a non-empty word without whitespace |
| DocumentProcessing.CollapseAppend | src/document_processor.py:112 | `re.sub` works run by run: collapsing distributes over a concatenation that does not join two whitespace runs |
| DocumentProcessing.CollapseBlank | src/document_processor.py:112 | a non-empty whitespace run becomes exactly one space |
| DocumentProcessing.CollapseRunToOneSpace | src/document_processor.py:112 | a whitespace run between two non-whitespace characters becomes exactly one space, and each side is collapsed on its own |
| DocumentProcessing.CollapseAsPaddedWords | src/document_processor.py:112 | before stripping, the collapsed text is its words joined by single spaces, with at most one space before and after |
| DocumentProcessing.NormalizeJoinsWords | src/document_processor.py:112 | the normalised text equals the text's words, in order, joined by single spaces (`" ".join(text.split())`) |
| DocumentProcessing.NormalizeKeepsText | src/document_processor.py:112 | normalisation keeps every non-space character, in order |
| DocumentProcessing.NormalizeIdempotent | src/document_processor.py:112 | normalised text is a fixed point, so normalising twice equals normalising once |
| DocumentProcessing.BoundarySearch | src/document_processor.py:128-131 | the end stays at the target, or moves back into the searched range, no earlier than target - limit + 2 |
| DocumentProcessing.BoundarySearchFindsLast | src/document_processor.py:128-131 | either the range holds no sentence end and the end stays at the target, or the end lands just past the sentence end nearest the target, with none in between |
| DocumentProcessing.WindowEnd | src/document_processor.py:122-131 | a window ends after its start and at most size + 1 further on; at the end of the text it is start + size; a moved end is at least size - min(100, size) + 2 past the start |
| DocumentProcessing.NextStart | src/document_processor.py:138 | the next window starts at end - overlap, or at end when that would not advance; it always advances and never passes the end |
| DocumentProcessing.ChunksFromStep | src/document_processor.py:121-138 | one loop iteration: the stripped window, if non-empty, followed by the chunks from the next start |
| DocumentProcessing.WindowPieceIsChunk | src/document_processor.py:133-135 | a stripped window is a substring of the text, at most size + 1 long, with no space at either end |
| DocumentProcessing.ChunksFromShape | src/document_processor.py:121-138 | every chunk of the loop is non-empty, unpadded, at most size + 1 long and a substring of the text |
| DocumentProcessing.Chunks | src/document_processor.py:112-140 | `chunk_text` as a function: the normalised text whole when it fits one chunk, else the window loop; computes only (its properties are the lemmas in the next rows) |
| DocumentProcessing.ChunksShape | src/document_processor.py:112-140 | every chunk is a substring of the normalised text of length at most size + 1; in the multi-chunk branch every chunk is non-empty and unpadded |
| DocumentProcessing.ChunksStartAtText | src/document_processor.py:115-135 | non-blank text gives at least one chunk, and the first chunk starts where the normalised text starts |
| DocumentProcessing.SearchAsWrittenFindsFirst | src/document_processor.py:128-131 | the loop as written, with Python's negative indexing, stops at the first sentence end it meets going backwards |
| DocumentProcessing.SearchAsWrittenAgrees | src/document_processor.py:128-131 | for a non-negative window start the as-written search equals the modelled search |
| DocumentProcessing.StepAsWrittenAgrees | src/document_processor.py:121-138 | from a start inside the text, for every setting, the as-written iteration keeps the modelled chunk and moves to `end - overlap`, which is the modelled next start exactly when `end - overlap > start` |
| DocumentProcessing.StepsForwardAgrees | src/document_processor.py:121-138 | when size - min(100, size) + 2 > overlap, the as-written iteration equals the modelled one (same chunk, same next start) |
| DocumentProcessing.ChunkerStallsAsWritten | src/document_processor.py:121-138 | size 100, overlap 20, a normalised 200-character text whose only '.' is at index 1: start goes 0 → -18 → -18, so the loop never ends |
| DocumentProcessing.StallTextNormalized | src/document_processor.py:112 | the counterexample text is already normalised and 200 characters long |
| DocumentProcessing.StallFirstStep | src/document_processor.py:121-138 | the first as-written iteration emits "a." and moves start to -18 |
| DocumentProcessing.StallSecondStep | src/document_processor.py:121-138 | from start -18 the as-written iteration emits nothing and stays at -18 |
| DocumentProcessing.ChunkIdInjective | src/document_processor.py:236 | `entry_id + "_chunk_" + str(i)` determines i |
| DocumentProcessing.PaperChunksProperties | src/document_processor.py:215-238 | a paper yields at least one record, whose text begins with the 'T' of "Title: "; ids are pairwise distinct; record i has chunk_index i, the paper's title, source and published date, its authors joined by ", ", and a pdf_url present iff the paper's is non-empty, the same in every record |
| DocumentProcessing.BuildRecords | src/document_processor.py:220-238 | the record loop builds one record per chunk, in order |
| DocumentProcessing.DocumentProcessor.constructor | src/document_processor.py:57-78 | keeps the two settings |
| DocumentProcessing.DocumentProcessor.Default | src/document_processor.py:57 | the default 1000/200 settings, which satisfy the progress condition |
| DocumentProcessing.DocumentProcessor.ChunkText | src/document_processor.py:80-140 | returns the chunks of the specification function (normalise; one chunk when short; else the window loop) |
| DocumentProcessing.DocumentProcessor.ChunkWindows | src/document_processor.py:118-140 | the while loop produces exactly the chunk sequence of the window specification |
| DocumentProcessing.DocumentProcessor.FindWindowEnd | src/document_processor.py:122-131 | the for/break boundary search computes the specified window end |
| DocumentProcessing.DocumentProcessor.ProcessPaper | src/document_processor.py:142-240 | the records are those of the chunks of "Title: " + title + "\n\nAbstract: " + summary |
| FilterNodes.Escape | src/nodes/filter_nodes.py:84-85 | the two chained `replace` calls; computes only (its properties are the lemmas in the next rows) |
| FilterNodes.EscapeIsPerCharacter | src/nodes/filter_nodes.py:84-85 | the two chained `replace` calls equal doubling each brace character by character |
| FilterNodes.UnescapeEach | src/nodes/filter_nodes.py:84-85 | reading doubled braces back inverts the per-character escape |
| FilterNodes.EscapeRoundTrip | src/nodes/filter_nodes.py:84-85 | escaping loses no information: undoubling the braces gives back the original title or abstract |
| FilterNodes.EscapeInjective | src/nodes/filter_nodes.py:84-85 | two texts have the same escaped form exactly when they are equal |
| FilterNodes.EscapeLength | src/nodes/filter_nodes.py:84-85 | escaping grows the text by exactly the number of braces |
| FilterNodes.EscapeEachLength | src/nodes/filter_nodes.py:84-85 | the same count for the per-character form |
| FilterNodes.Verdicts | src/nodes/filter_nodes.py:99-105 | one verdict per paper |
| FilterNodes.KeptMeaning | src/nodes/filter_nodes.py:107-108 | the kept papers are exactly the accepted ones, none invented, no more than the input |
| FilterNodes.KeptAllOrNone | src/nodes/filter_nodes.py:107-108 | all accepted keeps the list; none accepted empties it |
| FilterNodes.SeenProperties | src/nodes/filter_nodes.py:116-121 | `papers_seen` keeps its old contents as a prefix, gains every non-empty entry id of the input papers, adds only new non-empty ids of those papers, and introduces no duplicates |
| FilterNodes.FilterGameTheoryPapers | src/nodes/filter_nodes.py:70-121 | without papers: state unchanged and no call; otherwise one call per paper in order, `arxiv_papers` becomes the accepted papers in order, and `papers_seen` records every paper's id |
| FilterNodes.AskAboutPapers | src/nodes/filter_nodes.py:77-113 | the loop issues one prompt per paper (title and first 500 characters of the abstract, escaped) and keeps the accepted papers in order |
| FilterNodes.LoopStep | src/nodes/filter_nodes.py:79-108 | one iteration extends the prompt log by one prompt and the kept list by the paper iff accepted |
| FilterNodes.RecordSeen | src/nodes/filter_nodes.py:116-121 | the bookkeeping loop computes the seen-list function |
| ProcessingNodes.Texts | src/nodes/processing_nodes.py:94 | one document per chunk, so the store's length check cannot fire |
| ProcessingNodes.Metas | src/nodes/processing_nodes.py:95 | one metadata entry per chunk |
| ProcessingNodes.Ids | src/nodes/processing_nodes.py:96 | one id per chunk |
| ProcessingNodes.DistinctSplit | src/nodes/processing_nodes.py:88-100 | distinct ids of several papers are distinct per paper and disjoint across papers |
| ProcessingNodes.StoreAfterKeys | src/nodes/processing_nodes.py:88-100 | when no add fails, the stored ids afterwards are the old ones plus every chunk id |
| ProcessingNodes.StoreGrowsByChunksAdded | src/nodes/processing_nodes.py:87-100 | with fresh distinct chunk ids and no failure, the count grows by exactly `total_chunks_added` |
| ProcessingNodes.AllRejectedChangesNothing | src/nodes/processing_nodes.py:103-106 | when every paper fails, the store is unchanged and nothing is counted |
| ProcessingNodes.AddToChroma | src/nodes/processing_nodes.py:83-114 | the store becomes the old store with each successful paper's chunks upserted in order; failures are skipped; the total counts the chunks of successful papers; `papers_added` becomes true and nothing else changes |
| ProcessingNodes.AddStep | src/nodes/processing_nodes.py:88-106 | one iteration upserts the paper's chunks and adds their number, or changes nothing when the add fails |
| ProcessingNodes.AddPaper | src/nodes/processing_nodes.py:89-106 | one paper's try block: its records are added and counted, or on failure nothing changes and 0 is counted |
| GraphBuilding.TypeName | src/graph_builder.py:141-150 | a class resolves to its name, a string hint to itself; a stringified annotation resolves to a name without quotes or dots |
| GraphBuilding.DottedHintResolvesToLast | src/graph_builder.py:149-150 | a dotted annotation resolves to its last component |
| GraphBuilding.InjectedMeaning | src/graph_builder.py:126 | the injected parameters are exactly those not named `state` |
| GraphBuilding.FirstUnhinted | src/graph_builder.py:132-138 | the reported position is a parameter position |
| GraphBuilding.FirstUnhintedMeaning | src/graph_builder.py:132-138 | the first unhinted parameter is found, with every earlier one hinted; None iff all are hinted |
| GraphBuilding.FirstUnhintedAt | src/graph_builder.py:132-138 | the loop's early exit is at the first unhinted parameter |
| GraphBuilding.MissingParamsMeaning | src/graph_builder.py:152-156 | the missing list holds exactly the hinted parameters whose type name is not registered |
| GraphBuilding.LabelsListMissing | src/graph_builder.py:156-162 | the error lists one "name: TypeName" entry per missing parameter, in declaration order |
| GraphBuilding.BindingsMeaning | src/graph_builder.py:153-154 | every binding belongs to a parameter, and each registered parameter is bound to its registry entry |
| GraphBuilding.ResolveStep | src/graph_builder.py:132-156 | one loop iteration extends either the error labels or the bindings |
| GraphBuilding.MissingHintTakesPrecedence | src/graph_builder.py:132-138 | TypeError is raised exactly when some non-state parameter lacks a hint, whatever else is missing, and it names such a parameter |
| GraphBuilding.MissingDependenciesExact | src/graph_builder.py:152-164 | with all hints present, ValueError is raised exactly when some type name is unregistered, listing exactly those parameters in order |
| GraphBuilding.Resolve | src/graph_builder.py:126-177 | the outcome of `create_node` for a node function: TypeError, ValueError or the wrapper; computes only (its properties are the lemmas in the neighbouring rows) |
| GraphBuilding.ResolvedBindings | src/graph_builder.py:153-177 | on success every non-state parameter is bound to `dependencies[typeName]`, and the wrapper calls the node function with those bindings |
| GraphBuilding.WorkflowBuilder.constructor | src/graph_builder.py:78-81 | a non-empty registry is kept |
| GraphBuilding.WorkflowBuilder.Create | src/graph_builder.py:78-81 | an error iff the registry is empty; otherwise a builder holding it |
| GraphBuilding.WorkflowBuilder.CreateNode | src/graph_builder.py:83-177 | the loop's outcome is the resolution function's: TypeError first, then ValueError, else the wrapper |
| GraphBuilding.WorkflowBuilder.NonStateParams | src/graph_builder.py:126 | the list comprehension keeps the non-state parameters in order |
| GraphBuilding.WorkflowBuilder.GetDependencies | src/graph_builder.py:186 | returns the registry as a value, so changing the copy cannot change the builder |
| GraphBuilding.WorkflowBuilder.AddDependency | src/graph_builder.py:196 | sets one key, keeps every other entry, and the registry stays non-empty |
| PdfDownload.FileNameFor | src/pdf_downloader.py:99-119 | the derived file name always ends in ".pdf" |
| PdfDownload.FileNameIsPlain | src/pdf_downloader.py:99-119 | the derived name contains no '/' |
| PdfDownload.PdfSegmentKept | src/pdf_downloader.py:104-107 | a path whose last segment ends in ".pdf" keeps that segment |
| PdfDownload.PlainSegmentGetsExtension | src/pdf_downloader.py:113-116 | a path without "/pdf/" gets ".pdf" appended to its last segment |
| PdfDownload.ArxivPdfPath | src/pdf_downloader.py:109-111 | "/pdf/<id>" gives "<id>.pdf", or "<id>" when it already ends in ".pdf" |
| PdfDownload.DirectoryPathFallsBack | src/pdf_downloader.py:114 | a path ending in '/' (not an arxiv path) gives "downloaded.pdf" |
| PdfDownload.JoinPath | src/pdf_downloader.py:122 | the joined path ends with the file name |
| PdfDownload.PdfDownloader.Download | src/pdf_downloader.py:92-160 | the attempt is logged; the path is returned iff the transfer left a file, and it is the target path; otherwise None and no exception |
| PdfDownload.SavedFileInDirectory | src/pdf_downloader.py:121-122 | the saved file is a ".pdf" directly inside the download directory |
| PdfNodes.SavedAfter | src/nodes/pdf_nodes.py:98-100 | one attempt appends its path iff the download returned one |
| PdfNodes.SavedLength | src/nodes/pdf_nodes.py:95-100 | at most one path per attempted URL, exactly one when every attempt works |
| PdfNodes.SavedAreTargets | src/nodes/pdf_nodes.py:96-106 | every kept path is the target of an attempt that worked |
| PdfNodes.CollectMetadataUrls | src/nodes/pdf_nodes.py:78-85 | collects the set of non-empty pdf URLs of the first metadata list |
| PdfNodes.CollectPaperUrls | src/nodes/pdf_nodes.py:142-146 | collects the set of non-empty pdf URLs of the papers |
| PdfNodes.Enumerate | src/nodes/pdf_nodes.py:96 | an iteration order visits each URL of the set exactly once |
| PdfNodes.DownloadAll | src/nodes/pdf_nodes.py:95-106 | every URL is attempted exactly once, in some order; the kept paths are the successful results in that order; no more paths than URLs |
| PdfNodes.DownloadOne | src/nodes/pdf_nodes.py:97-104 | one iteration logs the attempt and keeps its path iff it worked |
| PdfNodes.ExtractPdfUrlsFromResults | src/nodes/pdf_nodes.py:75-109 | each distinct non-empty metadata URL is downloaded once; `downloaded_pdfs` holds the successful paths; with no URL it is [] and nothing is downloaded; no other field changes |
| PdfNodes.DownloadPdfsFromState | src/nodes/pdf_nodes.py:139-160 | the same over the papers' URLs; with no papers `downloaded_pdfs` is [] and nothing is downloaded |
| Workflow.StateGraph.constructor | src/workflow.py:236 | an empty graph |
| Workflow.StateGraph.AddNode | src/workflow.py:240-274 | adds one node and changes nothing else |
| Workflow.StateGraph.SetEntryPoint | src/workflow.py:277 | sets the entry and changes nothing else |
| Workflow.StateGraph.AddEdge | src/workflow.py:290-310 | sets one fixed edge and changes nothing else |
| Workflow.StateGraph.AddConditionalEdges | src/workflow.py:280-299 | sets one routed edge and changes nothing else |
| Workflow.BuildWorkflowUncompiled | src/workflow.py:225-312 | the calls build exactly the wired topology |
| Workflow.TopologyNext | src/workflow.py:277-310 | from every node and state the wired graph leads to the successor table's target |
| Workflow.RouterOutputsAreBranches | src/workflow.py:280-299 | every router output is a key of its branch map; the map leads to retrieval iff `needs_context` and to the answer iff `relevant_context` |
| Workflow.Topology | src/workflow.py:236-310 | the graph `build` wires, as a value; computes only (its properties are the lemmas in the neighbouring rows) |
| Workflow.TopologyWellFormed | src/workflow.py:236-310 | the entry is `check_needs_context`; every node has an edge; every edge ends at a node or END; only `generate_response` leads to END |
| Workflow.RunNode | src/workflow.py:240-274 | running a node writes only that node's fields, keeps at most three retrieved documents, and takes the no-document paths of relevance and answer |
| Workflow.StepsMeaning | src/workflow.py:277-310 | a run is read position by position: each step is a node effect, and each next node is where the graph leads |
| Workflow.RunStep | src/workflow.py:277-310 | running the pending node extends a run |
| Workflow.Invoke | src/workflow.py:384 | a fuelled run from the entry: Finished iff the last edge leads to END, NoRoute iff there is no edge, OutOfFuel iff a node is still pending after `fuel` steps |
| Workflow.NeverNoRoute | src/workflow.py:277-310 | a run of the workflow always has a next node or has finished |
| Workflow.EntryRunsOnce | src/workflow.py:277 | every run starts at `check_needs_context`, and that node never runs again |
| Workflow.FixedSuccessors | src/workflow.py:290-307 | `pull_from_chroma` is followed by `check_relevance`, `search_arxiv` by `add_to_chroma` (unfiltered papers), and `add_to_chroma` by `pull_from_chroma` |
| Workflow.RelevanceDecidesExit | src/workflow.py:293-307 | after `check_relevance` the run answers iff the context was judged relevant, else it searches |
| Workflow.ResponseEndsRun | src/workflow.py:310 | `generate_response` runs at most once, as the last step, and a run is finished iff it ends with it |
| Workflow.NoContextRun | src/workflow.py:280-287 | a query judged off-topic runs exactly `check_needs_context`, `generate_response` and gets the fallback sentence, with no retrieval or search |
| Workflow.Query | src/workflow.py:369-385 | runs from the initial state (flags false, empty lists, `{}` results); returns the final `final_response` iff the run finished; an off-topic query returns the fallback |
| Workflow.EveryNodeResolves | src/workflow.py:212-274 | every node is created without error from the registry and receives exactly its collaborators |
| Workflow.InjectedPair | src/graph_builder.py:126 | a two-parameter node injects only its second parameter |
| Workflow.InjectedTriple | src/graph_builder.py:126 | a three-parameter node injects its last two parameters |
| Workflow.ResolvesSingle | src/graph_builder.py:132-177 | a node with one registered dependency is bound to it |
| Workflow.ResolvesPair | src/graph_builder.py:132-177 | a node with two registered dependencies is bound to both |
| EvaluationMetrics.SucceededMeaning | evaluation_metrics.py:80 | a response counts as successful iff it has a non-whitespace character |
| EvaluationMetrics.TotalGrowthAppend | evaluation_metrics.py:142 | appending a record adds its growth to the total |
| EvaluationMetrics.TotalGrowthBounds | evaluation_metrics.py:142-153 | with positive growths, `total_growth` is at least `growth_events`, and positive iff there is an event |
| EvaluationMetrics.CountTools | evaluation_metrics.py:96-103 | the search counters grow by one iff their flag is set; `papers_added` and `papers_filtered` grow only by positive amounts |
| EvaluationMetrics.CountResponse | evaluation_metrics.py:106-111 | the total length grows by the response length; exactly one of with/without context grows by one |
| EvaluationMetrics.CountLoop | evaluation_metrics.py:114-117 | total iterations grow by `iterations` (default 1); `queries_with_loop` grows iff iterations > 1 |
| EvaluationMetrics.CollectInto | evaluation_metrics.py:77-117 | one collection: total + 1; success or failure by the stripped response; a growth record (query cut to 50 characters) iff the count grew; tool, response and loop counters as above |
| EvaluationMetrics.CollectedKeepsConsistent | evaluation_metrics.py:77-117 | a collection keeps total = successful + failed and the other counter invariants |
| EvaluationMetrics.CollectedCountsOutcome | evaluation_metrics.py:80-83 | exactly one of successful and failed grows, successful iff the response has a non-whitespace character |
| EvaluationMetrics.CollectedGrowth | evaluation_metrics.py:86-93 | the total growth grows by the positive part of after - before, and the event count by one iff it is positive |
| EvaluationMetrics.MetricsCollector.constructor | evaluation_metrics.py:27-51 | all counters are zero and the log is empty |
| EvaluationMetrics.MetricsCollector.CollectQueryMetrics | evaluation_metrics.py:53-117 | the new metrics are the collection of the old ones, and the counter invariants are kept |
| EvaluationMetrics.MetricsCollector.RecordFailedQuery | evaluation_metrics.py:286-289 | the exception path adds one failed query and one query, keeping total = successful + failed |
| EvaluationMetrics.MetricsCollector.GrowthSummary | evaluation_metrics.py:142-153 | `growth_events` is the number of recorded growth entries, and with none `total_growth` is 0 |
| EvaluationMetrics.GrowthSummaryBounds | evaluation_metrics.py:142-153 | the summary's `total_growth` is at least `growth_events` and positive iff there are events |

## Left out

- Prompt wording: the chat model is an oracle from (call position, prompt) to a reply, so
  only which prompt is sent, and how often, is modelled.
- ChromaDB internals (embeddings, cosine distances, persistence to disk): nearness is an
  oracle distance on natural numbers, and a backend failure is an oracle on the id batch.
  `add` on an existing id is modelled as an update, as the `add_documents` documentation
  states.
- The `arxiv` library and the network: a search is an oracle from (call position, query) to
  papers; `download_paper` is not part of this model.
- PDF download I/O (directory creation, SSL, `urlretrieve`, file-size check): a transfer
  oracle says whether the attempt left a non-empty file. `urlparse` is an oracle giving the
  URL's path.
- Python reflection in `create_node` (`signature`, `get_type_hints`, `__name__`): a node
  signature is given as a list of (name, optional hint).
- LLM selection, environment configuration and `.env` loading in the workflow's constructor,
  the `compile` step, tracing, and the `BaseChatModel`-to-`object` import fallback.
- LangGraph's recursion limit (25 steps by default) is modelled by the fuel parameter of
  `Workflow.Invoke` and `Workflow.Query`; running out of fuel yields `None` instead of an
  exception.
- Workflow.RunNode: states only the fields each node writes and the facts the routing
  depends on; the exact effect of each node is stated by that node's own method.
- The wrappers `create_node` returns are not stored in `Workflow.StateGraph`; the graph
  names its nodes, and `Workflow.RunNode` dispatches to the node methods directly.
- The registry is a map value, so the aliasing between the builder's registry and the
  workflow's `dependencies` dict is not modelled.
- The filter node and the two PDF nodes are modelled but, as in the source, not wired into
  the graph.
- The order in which Python iterates a set of URLs: `PdfNodes.Enumerate` fixes some order,
  and no contract depends on which.
- Exceptions other than a failed store add in `add_to_chroma`: the chunker's own failures
  (the IndexError described for `ChunkText` below) are not modelled; the modelled chunker
  always returns.
- Float metrics: `calculate_averages`, the success rate, `growth_per_event`, `round`, the
  printing in `print_summary`, and `run_evaluation_queries`/`main`, which call the live
  system. `query_times` is never written by the source and is omitted.
- Lowercasing is ASCII-only. The regex `\s+` is not run by a regex engine: the `\s` class is
  the fixed set of characters Python's `str.isspace` accepts.
- DocumentProcessing.DocumentProcessor.ChunkText: follows the corrected step
  (`NextStart`). From a start inside the text it keeps the same chunk as the source and
  differs from it exactly on steps where `end - overlap <= start` (`StepAsWrittenAgrees`);
  no such step occurs when size - min(100, size) + 2 > overlap (`StepsForwardAgrees`). On
  such a step the source does not advance: it may loop forever (see Findings), reach a
  start below `-len(text)` and raise IndexError in the boundary search, or advance again
  on a later step; which of these happens is not modelled.
- Chunk sizes and overlaps are natural numbers; negative settings are not modelled, and a
  chunk size of 0 is excluded (next line).
- DocumentProcessing.DocumentProcessor.constructor: requires `0 < chunkSize` (kept as
  `Valid()`), while `__init__` (src/document_processor.py:57-78) accepts size 0. At size 0
  the chunk loop (src/document_processor.py:121-138) never ends on any non-empty text: each
  window ends where it starts, the boundary search range `range(min(100, 0))` is empty, the
  empty slice is skipped, and `start` stays put or moves back by the overlap. The model
  leaves this non-terminating case out. Every construction in the repository uses size
  1000 (the default, src/workflow.py:208) or 100 (tests/test_document_processor.py:13).
- The state field `chroma_results` is annotated as a list in the state declaration but used
  as a dict; it is modelled as an optional query result, absent for the initial `{}`.
  `papers_seen`, which the state declaration omits, is modelled as a field starting empty.

## Findings

| source | as written | input that shows it | evidently intended | confidence | as-written member | corrected member |
|---|---|---|---|---|---|---|
| src/document_processor.py:121-138 | `start = end - chunk_overlap`, after a boundary search that can pull `end` back to `start + 2`, can move `start` backwards or leave it unchanged, so the loop never ends | chunk size 100, overlap 20 (the documented example settings, overlap < size), a normalised 200-character text whose only '.' is at index 1: start goes 0 → -18 → -18 → … | each window starts after the previous one, so chunking terminates | not executed | DocumentProcessing.ChunkerStallsAsWritten | DocumentProcessing.NextStart |
