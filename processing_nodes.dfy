/** The node that stores new papers: each paper is chunked and its chunks are added to the
    document store; a paper whose add fails is skipped and the others still go in. */
module ProcessingNodes {
  import opened Wrappers
  import opened Records
  import opened VectorDb
  import opened DocumentProcessing

  /** The three parallel lists passed to the store for one paper's chunks. */
  function Texts(records: seq<ChunkRecord>): (r: seq<string>)
    ensures |r| == |records|
  {
    seq(|records|, j requires 0 <= j < |records| => records[j].text)
  }

  function Metas(records: seq<ChunkRecord>): (r: seq<ChunkMetadata>)
    ensures |r| == |records|
  {
    seq(|records|, j requires 0 <= j < |records| => records[j].metadata)
  }

  function Ids(records: seq<ChunkRecord>): (r: seq<string>)
    ensures |r| == |records|
  {
    seq(|records|, j requires 0 <= j < |records| => records[j].id)
  }

  /** The chunking a processor applies to each paper. */
  function ChunkerOf(size: nat, overlap: nat): Paper -> seq<ChunkRecord>
    requires 0 < size
  {
    p => PaperChunks(p, size, overlap)
  }

  predicate Rejected(rejects: seq<string> -> bool, chunksOf: Paper -> seq<ChunkRecord>, p: Paper)
  {
    rejects(Ids(chunksOf(p)))
  }

  /** The store after adding the papers in order, a rejected paper leaving it as it was. */
  function StoreAfter(m: map<string, Entry>, papers: seq<Paper>, chunksOf: Paper -> seq<ChunkRecord>,
                      rejects: seq<string> -> bool): map<string, Entry>
  {
    if papers == [] then m
    else
      var k := |papers| - 1;
      var before := StoreAfter(m, papers[..k], chunksOf, rejects);
      var records := chunksOf(papers[k]);
      if Rejected(rejects, chunksOf, papers[k]) then before
      else Upserted(before, Texts(records), Metas(records), Ids(records))
  }

  /** `total_chunks_added`: the chunk counts of the papers that went in. */
  function ChunksAdded(papers: seq<Paper>, chunksOf: Paper -> seq<ChunkRecord>, rejects: seq<string> -> bool): nat
  {
    if papers == [] then 0
    else
      var k := |papers| - 1;
      ChunksAdded(papers[..k], chunksOf, rejects) +
        (if Rejected(rejects, chunksOf, papers[k]) then 0 else |chunksOf(papers[k])|)
  }

  /** Every chunk id of the papers, paper after paper. */
  function AllIds(papers: seq<Paper>, chunksOf: Paper -> seq<ChunkRecord>): seq<string>
  {
    if papers == [] then []
    else
      var k := |papers| - 1;
      AllIds(papers[..k], chunksOf) + Ids(chunksOf(papers[k]))
  }

  lemma DistinctSplit(a: seq<string>, b: seq<string>)
    requires Distinct(a + b)
    ensures Distinct(a) && Distinct(b)
    ensures forall id :: id in a ==> id !in b
  {
    forall i, j | 0 <= i < j < |a|
      ensures a[i] != a[j]
    {
      assert a[i] == (a + b)[i] && a[j] == (a + b)[j];
    }
    forall i, j | 0 <= i < j < |b|
      ensures b[i] != b[j]
    {
      assert b[i] == (a + b)[|a| + i] && b[j] == (a + b)[|a| + j];
    }
    forall id | id in a
      ensures id !in b
    {
      var i :| 0 <= i < |a| && a[i] == id;
      assert (a + b)[i] == id;
      forall j | 0 <= j < |b|
        ensures b[j] != id
      {
        assert b[j] == (a + b)[|a| + j];
      }
    }
  }

  /** When nothing is rejected, the store ends up holding exactly its old ids and the ids of
      every chunk of every paper. */
  lemma {:induction false} StoreAfterKeys(m: map<string, Entry>, papers: seq<Paper>,
                                          chunksOf: Paper -> seq<ChunkRecord>, rejects: seq<string> -> bool)
    requires forall p :: p in papers ==> !Rejected(rejects, chunksOf, p)
    ensures StoreAfter(m, papers, chunksOf, rejects).Keys == m.Keys + set id | id in AllIds(papers, chunksOf)
  {
    if papers != [] {
      var k := |papers| - 1;
      StoreAfterKeys(m, papers[..k], chunksOf, rejects);
      var records := chunksOf(papers[k]);
      UpsertedKeys(StoreAfter(m, papers[..k], chunksOf, rejects), Texts(records), Metas(records), Ids(records));
    }
  }

  /** The store grows by exactly `total_chunks_added` when no paper is rejected and all the
      chunk ids are new and distinct: the reported total and the count agree. */
  lemma {:induction false} StoreGrowsByChunksAdded(m: map<string, Entry>, papers: seq<Paper>,
                                                   chunksOf: Paper -> seq<ChunkRecord>, rejects: seq<string> -> bool)
    requires forall p :: p in papers ==> !Rejected(rejects, chunksOf, p)
    requires Distinct(AllIds(papers, chunksOf))
    requires forall id :: id in AllIds(papers, chunksOf) ==> id !in m
    ensures |StoreAfter(m, papers, chunksOf, rejects)| == |m| + ChunksAdded(papers, chunksOf, rejects)
  {
    if papers != [] {
      var k := |papers| - 1;
      var init := papers[..k];
      var records := chunksOf(papers[k]);
      DistinctSplit(AllIds(init, chunksOf), Ids(records));
      StoreGrowsByChunksAdded(m, init, chunksOf, rejects);
      StoreAfterKeys(m, init, chunksOf, rejects);
      UpsertFreshGrowsCount(StoreAfter(m, init, chunksOf, rejects), Texts(records), Metas(records), Ids(records));
    }
  }

  /** A store that rejects every paper is left as it was, and nothing is counted. */
  lemma {:induction false} AllRejectedChangesNothing(m: map<string, Entry>, papers: seq<Paper>,
                                                     chunksOf: Paper -> seq<ChunkRecord>, rejects: seq<string> -> bool)
    requires forall p :: p in papers ==> Rejected(rejects, chunksOf, p)
    ensures StoreAfter(m, papers, chunksOf, rejects) == m
    ensures ChunksAdded(papers, chunksOf, rejects) == 0
  {
    if papers != [] {
      AllRejectedChangesNothing(m, papers[..|papers| - 1], chunksOf, rejects);
    }
  }

  /** `add_to_chroma`: the papers go into the store one by one, a rejected one being skipped;
      `papers_added` becomes true whatever happened and no other field changes. The second
      result is the printed `total_chunks_added`. */
  method AddToChroma(s: GraphState, db: VectorDbManager, processor: DocumentProcessor)
    returns (s': GraphState, added: nat)
    requires processor.Valid()
    modifies db
    ensures var chunksOf := ChunkerOf(processor.chunkSize, processor.chunkOverlap);
      db.collection == StoreAfter(old(db.collection), s.arxivPapers, chunksOf, db.rejects) &&
      added == ChunksAdded(s.arxivPapers, chunksOf, db.rejects)
    ensures s' == s.(papersAdded := true)
  {
    var papers := s.arxivPapers;
    ghost var chunksOf := ChunkerOf(processor.chunkSize, processor.chunkOverlap);
    added := 0;
    for i := 0 to |papers|
      invariant db.collection == StoreAfter(old(db.collection), papers[..i], chunksOf, db.rejects)
      invariant added == ChunksAdded(papers[..i], chunksOf, db.rejects)
    {
      AddStep(old(db.collection), papers, i, chunksOf, db.rejects);
      var n := AddPaper(papers[i], db, processor);
      added := added + n;
    }
    assert papers[..|papers|] == papers;
    s' := s.(papersAdded := true);
  }

  lemma AddStep(m: map<string, Entry>, papers: seq<Paper>, i: nat,
                chunksOf: Paper -> seq<ChunkRecord>, rejects: seq<string> -> bool)
    requires i < |papers|
    ensures var before := StoreAfter(m, papers[..i], chunksOf, rejects);
      var records := chunksOf(papers[i]);
      StoreAfter(m, papers[..i + 1], chunksOf, rejects) ==
        (if Rejected(rejects, chunksOf, papers[i]) then before
         else Upserted(before, Texts(records), Metas(records), Ids(records)))
    ensures ChunksAdded(papers[..i + 1], chunksOf, rejects) == ChunksAdded(papers[..i], chunksOf, rejects) +
      (if Rejected(rejects, chunksOf, papers[i]) then 0 else |chunksOf(papers[i])|)
  {
    assert papers[..i + 1][..i] == papers[..i];
  }

  /** The body of the per-paper loop: chunk the paper and add its chunks; a failed add is
      caught and counts nothing. */
  method AddPaper(paper: Paper, db: VectorDbManager, processor: DocumentProcessor) returns (n: nat)
    requires processor.Valid()
    modifies db
    ensures var chunksOf := ChunkerOf(processor.chunkSize, processor.chunkOverlap);
      var records := chunksOf(paper);
      if Rejected(db.rejects, chunksOf, paper) then db.collection == old(db.collection) && n == 0
      else db.collection == Upserted(old(db.collection), Texts(records), Metas(records), Ids(records)) && n == |records|
  {
    var chunks := processor.ProcessPaper(paper);
    var r := db.AddDocuments(Texts(chunks), Metas(chunks), Ids(chunks));
    n := if r.Ok? then |chunks| else 0;
  }
}
