/** The document store: an id-keyed collection with validated batch upsert, a k-nearest
    query and a count. Embeddings and persistence are abstracted away: `distance` stands for
    the embedding distance between a query text and a stored document. */
module VectorDb {
  import opened Wrappers
  import opened Records

  datatype Entry = Entry(document: string, metadata: ChunkMetadata)

  datatype AddError =
    | LengthMismatch(documents: nat, metadatas: nat, ids: nat)
    | BackendError

  predicate Distinct(ids: seq<string>)
  {
    forall i, j :: 0 <= i < j < |ids| ==> ids[i] != ids[j]
  }

  /** The collection after upserting a batch id by id, so a later duplicate id wins. */
  function Upserted(m: map<string, Entry>, documents: seq<string>, metadatas: seq<ChunkMetadata>,
                    ids: seq<string>): map<string, Entry>
    requires |documents| == |metadatas| == |ids|
    decreases |ids|
  {
    if ids == [] then m
    else Upserted(m[ids[0] := Entry(documents[0], metadatas[0])], documents[1..], metadatas[1..], ids[1..])
  }

  /** Upserting stores exactly the old ids plus the batch's ids. */
  lemma {:induction false} UpsertedKeys(m: map<string, Entry>, documents: seq<string>,
                                        metadatas: seq<ChunkMetadata>, ids: seq<string>)
    requires |documents| == |metadatas| == |ids|
    ensures Upserted(m, documents, metadatas, ids).Keys == m.Keys + set id | id in ids
    decreases |ids|
  {
    if ids != [] {
      UpsertedKeys(m[ids[0] := Entry(documents[0], metadatas[0])], documents[1..], metadatas[1..], ids[1..]);
      assert (set id | id in ids) == {ids[0]} + set id | id in ids[1..];
    }
  }

  /** An id outside the batch keeps its old entry; the last occurrence of an id in the batch
      decides its new entry. */
  lemma {:induction false} UpsertedValues(m: map<string, Entry>, documents: seq<string>,
                                          metadatas: seq<ChunkMetadata>, ids: seq<string>)
    requires |documents| == |metadatas| == |ids|
    ensures forall id :: id in m && id !in ids ==>
      id in Upserted(m, documents, metadatas, ids) && Upserted(m, documents, metadatas, ids)[id] == m[id]
    ensures forall i :: 0 <= i < |ids| && ids[i] !in ids[i + 1..] ==>
      ids[i] in Upserted(m, documents, metadatas, ids) &&
      Upserted(m, documents, metadatas, ids)[ids[i]] == Entry(documents[i], metadatas[i])
    decreases |ids|
  {
    if ids != [] {
      var m' := m[ids[0] := Entry(documents[0], metadatas[0])];
      UpsertedValues(m', documents[1..], metadatas[1..], ids[1..]);
      UpsertedKeys(m', documents[1..], metadatas[1..], ids[1..]);
      forall i | 0 <= i < |ids| && ids[i] !in ids[i + 1..]
        ensures Upserted(m, documents, metadatas, ids)[ids[i]] == Entry(documents[i], metadatas[i])
      {
        if i > 0 {
          assert ids[1..][i - 1] == ids[i] && ids[1..][i..] == ids[i + 1..];
        } else {
          assert ids[0] !in ids[1..];
        }
      }
    }
  }

  /** Adding k new, distinct ids grows the count by k. */
  lemma UpsertFreshGrowsCount(m: map<string, Entry>, documents: seq<string>,
                              metadatas: seq<ChunkMetadata>, ids: seq<string>)
    requires |documents| == |metadatas| == |ids|
    requires Distinct(ids)
    requires forall id :: id in ids ==> id !in m
    ensures |Upserted(m, documents, metadatas, ids)| == |m| + |ids|
  {
    UpsertedKeys(m, documents, metadatas, ids);
    var batch := set id | id in ids;
    DistinctCardinality(ids);
    assert m.Keys !! batch;
    assert |m.Keys + batch| == |m.Keys| + |batch|;
  }

  /** A sequence of distinct ids holds as many ids as its length. */
  lemma {:induction false} DistinctCardinality(ids: seq<string>)
    requires Distinct(ids)
    ensures |set id | id in ids| == |ids|
  {
    if ids != [] {
      DistinctCardinality(ids[1..]);
      assert (set id | id in ids) == {ids[0]} + set id | id in ids[1..];
      assert ids[0] !in ids[1..];
    }
  }

  /** Re-adding ids that are all stored already updates them and leaves the count alone. */
  lemma UpsertExistingKeepsCount(m: map<string, Entry>, documents: seq<string>,
                                 metadatas: seq<ChunkMetadata>, ids: seq<string>)
    requires |documents| == |metadatas| == |ids|
    requires forall id :: id in ids ==> id in m
    ensures |Upserted(m, documents, metadatas, ids)| == |m|
  {
    UpsertedKeys(m, documents, metadatas, ids);
    assert Upserted(m, documents, metadatas, ids).Keys == m.Keys;
  }

  /** Adding the same batch twice leaves the same count as adding it once. */
  lemma UpsertTwiceSameCount(m: map<string, Entry>, documents: seq<string>,
                             metadatas: seq<ChunkMetadata>, ids: seq<string>)
    requires |documents| == |metadatas| == |ids|
    ensures |Upserted(Upserted(m, documents, metadatas, ids), documents, metadatas, ids)|
         == |Upserted(m, documents, metadatas, ids)|
  {
    var once := Upserted(m, documents, metadatas, ids);
    UpsertedKeys(m, documents, metadatas, ids);
    UpsertExistingKeepsCount(once, documents, metadatas, ids);
  }

  /** The manager of one collection. `rejects(ids)` says whether the store backend raises
      while adding a batch with those ids (an embedding or storage failure). */
  class VectorDbManager {
    var collection: map<string, Entry>
    const distance: (string, string) -> nat
    const rejects: seq<string> -> bool

    /** Opening a persistent collection that already holds `existing`. */
    constructor (existing: map<string, Entry>, distance: (string, string) -> nat, rejects: seq<string> -> bool)
      ensures collection == existing && this.distance == distance && this.rejects == rejects
    {
      collection := existing;
      this.distance := distance;
      this.rejects := rejects;
    }

    /** `count()`: the number of distinct ids stored. */
    function Count(): (n: nat)
      reads this
      ensures n == 0 <==> collection == map[]
    {
      |collection|
    }

    /** Embedding distance of the stored document `id` from `queryText`. */
    function DistanceTo(queryText: string, id: string): nat
      reads this
      requires id in collection
    {
      distance(queryText, collection[id].document)
    }

    /** `add_documents`: a ValueError unless the three lists have the same length; otherwise
        the batch is upserted, unless the backend raises. A failed call changes nothing. */
    method AddDocuments(documents: seq<string>, metadatas: seq<ChunkMetadata>, ids: seq<string>)
      returns (r: Result<(), AddError>)
      modifies this
      ensures !(|documents| == |metadatas| == |ids|) ==>
        r == Err(LengthMismatch(|documents|, |metadatas|, |ids|)) && collection == old(collection)
      ensures |documents| == |metadatas| == |ids| && rejects(ids) ==>
        r == Err(BackendError) && collection == old(collection)
      ensures |documents| == |metadatas| == |ids| && !rejects(ids) ==>
        r == Ok(()) && collection == Upserted(old(collection), documents, metadatas, ids)
    {
      if !(|documents| == |metadatas| == |ids|) {
        return Err(LengthMismatch(|documents|, |metadatas|, |ids|));
      }
      if rejects(ids) {
        return Err(BackendError);
      }
      var i := 0;
      while i < |ids|
        invariant 0 <= i <= |ids|
        invariant Upserted(collection, documents[i..], metadatas[i..], ids[i..])
               == Upserted(old(collection), documents, metadatas, ids)
      {
        collection := collection[ids[i] := Entry(documents[i], metadatas[i])];
        assert documents[i..][1..] == documents[i + 1..];
        assert metadatas[i..][1..] == metadatas[i + 1..];
        assert ids[i..][1..] == ids[i + 1..];
        i := i + 1;
      }
      r := Ok(());
    }

    /** A stored id nearest to `queryText` among `pool`. */
    method NearestIn(queryText: string, pool: set<string>) returns (best: string)
      requires pool != {} && pool <= collection.Keys
      ensures best in pool
      ensures forall id :: id in pool ==> DistanceTo(queryText, best) <= DistanceTo(queryText, id)
    {
      best :| best in pool;
      var rest := pool - {best};
      while rest != {}
        invariant rest <= pool && best in pool && best !in rest
        invariant forall id :: id in pool && id !in rest ==> DistanceTo(queryText, best) <= DistanceTo(queryText, id)
        decreases rest
      {
        var id :| id in rest;
        if DistanceTo(queryText, id) < DistanceTo(queryText, best) {
          best := id;
        }
        rest := rest - {id};
      }
    }

    /** `query(query_text, n_results)`: the min(n, count) stored entries nearest to the query,
        nearest first, each id once. */
    method Query(queryText: string, nResults: nat) returns (r: QueryResult)
      ensures |r.ids| == |r.documents| == |r.metadatas| == Min(nResults, Count())
      ensures Distinct(r.ids)
      ensures forall i :: 0 <= i < |r.ids| ==>
        r.ids[i] in collection && collection[r.ids[i]] == Entry(r.documents[i], r.metadatas[i])
      ensures forall i, j :: 0 <= i < j < |r.ids| ==>
        DistanceTo(queryText, r.ids[i]) <= DistanceTo(queryText, r.ids[j])
      ensures forall i, id :: 0 <= i < |r.ids| && id in collection && id !in r.ids ==>
        DistanceTo(queryText, r.ids[i]) <= DistanceTo(queryText, id)
    {
      var remaining := collection.Keys;
      var ids: seq<string> := [];
      while |ids| < nResults && remaining != {}
        invariant remaining <= collection.Keys
        invariant |ids| <= nResults
        invariant Distinct(ids)
        invariant forall id :: id in ids ==> id in collection && id !in remaining
        invariant forall id :: id in collection ==> id in ids || id in remaining
        invariant |ids| + |remaining| == |collection|
        invariant forall i, j :: 0 <= i < j < |ids| ==>
          DistanceTo(queryText, ids[i]) <= DistanceTo(queryText, ids[j])
        invariant forall i, id :: 0 <= i < |ids| && id in remaining ==>
          DistanceTo(queryText, ids[i]) <= DistanceTo(queryText, id)
        decreases remaining
      {
        var best := NearestIn(queryText, remaining);
        ids := ids + [best];
        remaining := remaining - {best};
      }
      var stored := collection;
      r := QueryResult(ids,
                       seq(|ids|, i requires 0 <= i < |ids| && ids[i] in stored => stored[ids[i]].document),
                       seq(|ids|, i requires 0 <= i < |ids| && ids[i] in stored => stored[ids[i]].metadata));
    }
  }
}
