/** Rebuilding the vector index in batches. */
module Reindex {
  import opened Statuses
  import opened Arith
  import opened Orders

  datatype Channel = StaticText | DynamicText

  datatype Record = Record(id: string, staticText: string, dynamicText: string)

  /** Vectors are stored by record and channel. */
  datatype Key = Key(id: string, channel: Channel)

  datatype StoredVector = StoredVector(embedding: seq<real>, model: string, dimension: nat)

  /** The embedding model; it embeds each text by itself. */
  datatype Embedder = Embedder(model: string, dimension: nat, embed: string -> seq<real>)

  function VectorOf(e: Embedder, text: string): StoredVector {
    StoredVector(e.embed(text), e.model, e.dimension)
  }

  // ---- what has to be indexed --------------------------------------------------------------

  /** One text to index. */
  datatype Slot = Slot(key: Key, text: string)

  function SlotsOfRecord(r: Record): seq<Slot> {
    [Slot(Key(r.id, StaticText), r.staticText), Slot(Key(r.id, DynamicText), r.dynamicText)]
  }

  function SlotsOf(records: seq<Record>): (s: seq<Slot>)
    ensures |s| == 2 * |records|
  {
    if records == [] then [] else SlotsOf(records[..|records| - 1]) + SlotsOfRecord(records[|records| - 1])
  }

  lemma {:induction false} SlotsJoin(a: seq<Record>, b: seq<Record>)
    ensures SlotsOf(a + b) == SlotsOf(a) + SlotsOf(b)
  {
    if b == [] {
      assert a + b == a;
    } else {
      var n := |b| - 1;
      assert (a + b)[..|a + b| - 1] == a + b[..n];
      SlotsJoin(a, b[..n]);
    }
  }

  ghost predicate UniqueIds(records: seq<Record>) {
    forall i, j :: 0 <= i < j < |records| ==> records[i].id != records[j].id
  }

  ghost predicate DistinctKeys(slots: seq<Slot>) {
    forall i, j :: 0 <= i < j < |slots| ==> slots[i].key != slots[j].key
  }

  lemma {:induction false} SlotIds(records: seq<Record>, s: Slot)
    requires s in SlotsOf(records)
    ensures exists i :: 0 <= i < |records| && records[i].id == s.key.id
  {
    var n := |records| - 1;
    if s in SlotsOfRecord(records[n]) {
      assert records[n].id == s.key.id;
    } else {
      SlotIds(records[..n], s);
    }
  }

  lemma {:induction false} SlotsAreDistinct(records: seq<Record>)
    requires UniqueIds(records)
    ensures DistinctKeys(SlotsOf(records))
  {
    if records != [] {
      var n := |records| - 1;
      SlotsAreDistinct(records[..n]);
      forall s | s in SlotsOf(records[..n])
        ensures s.key.id != records[n].id
      {
        SlotIds(records[..n], s);
      }
    }
  }

  ghost function KeysOf(slots: seq<Slot>): set<Key> {
    set s | s in slots :: s.key
  }

  // ---- the rebuilt index -----------------------------------------------------------------------

  /** A vector is written when forced, missing, or made by another model. */
  predicate NeedsWrite(index: map<Key, StoredVector>, k: Key, force: bool, e: Embedder) {
    force || k !in index || index[k].model != e.model
  }

  predicate SlotDone(before: map<Key, StoredVector>, s: Slot, force: bool, e: Embedder, after: map<Key, StoredVector>) {
    && s.key in after
    && after[s.key] == if NeedsWrite(before, s.key, force, e) then VectorOf(e, s.text) else before[s.key]
  }

  /** `after` is `before` with every slot that needed it written, and nothing else touched. */
  ghost predicate IsRebuilt(before: map<Key, StoredVector>, slots: seq<Slot>, force: bool, e: Embedder, after: map<Key, StoredVector>) {
    && after.Keys == before.Keys + KeysOf(slots)
    && (forall s :: s in slots ==> SlotDone(before, s, force, e, after))
    && (forall k :: k in before && k !in KeysOf(slots) ==> after[k] == before[k])
  }

  /** The rebuilt index is determined, so it cannot depend on how the work was cut. */
  lemma RebuiltIsUnique(before: map<Key, StoredVector>, slots: seq<Slot>, force: bool, e: Embedder,
                        a: map<Key, StoredVector>, b: map<Key, StoredVector>)
    requires IsRebuilt(before, slots, force, e, a) && IsRebuilt(before, slots, force, e, b)
    ensures a == b
  {
    forall k | k in a
      ensures a[k] == b[k]
    {
      if k in KeysOf(slots) {
        var s :| s in slots && s.key == k;
        assert SlotDone(before, s, force, e, a) && SlotDone(before, s, force, e, b);
      }
    }
  }

  /** Two consecutive pieces of work are the work on their concatenation. */
  lemma RebuiltInSteps(before: map<Key, StoredVector>, s1: seq<Slot>, s2: seq<Slot>, force: bool, e: Embedder,
                       middle: map<Key, StoredVector>, after: map<Key, StoredVector>)
    requires DistinctKeys(s1 + s2) && IsRebuilt(before, s1, force, e, middle) && IsRebuilt(middle, s2, force, e, after)
    ensures IsRebuilt(before, s1 + s2, force, e, after)
  {
    Apart(s1, s2);
    assert KeysOf(s1 + s2) == KeysOf(s1) + KeysOf(s2);
    forall s | s in s1 + s2
      ensures SlotDone(before, s, force, e, after)
    {
      if s in s1 {
        assert SlotDone(before, s, force, e, middle);
      } else {
        assert SlotDone(middle, s, force, e, after);
        assert s.key in KeysOf(s2);
      }
    }
  }

  lemma Apart(s1: seq<Slot>, s2: seq<Slot>)
    requires DistinctKeys(s1 + s2)
    ensures KeysOf(s1) !! KeysOf(s2)
  {
    forall x, y | x in s1 && y in s2
      ensures x.key != y.key
    {
      var i :| 0 <= i < |s1| && s1[i] == x;
      var j :| 0 <= j < |s2| && s2[j] == y;
      assert (s1 + s2)[i] == x && (s1 + s2)[|s1| + j] == y;
    }
  }

  /** A run that stopped after any part of the work and is repeated ends where an uninterrupted
      run ends. */
  lemma RepeatedAfterFailure(before: map<Key, StoredVector>, done: seq<Slot>, rest: seq<Slot>, force: bool, e: Embedder,
                             middle: map<Key, StoredVector>, after: map<Key, StoredVector>)
    requires DistinctKeys(done + rest) && IsRebuilt(before, done, force, e, middle)
    requires IsRebuilt(middle, done + rest, force, e, after)
    ensures IsRebuilt(before, done + rest, force, e, after)
  {
    Apart(done, rest);
    forall s | s in done + rest
      ensures SlotDone(before, s, force, e, after)
    {
      assert SlotDone(middle, s, force, e, after);
      if s in done {
        assert SlotDone(before, s, force, e, middle);
      } else {
        assert s.key in KeysOf(rest);
      }
    }
  }

  /** The slots that need a vector, in order. */
  function PendingSlots(index: map<Key, StoredVector>, slots: seq<Slot>, force: bool, e: Embedder): (r: seq<Slot>)
    ensures |r| <= |slots|
  {
    if slots == [] then []
    else
      var last := |slots| - 1;
      PendingSlots(index, slots[..last], force, e) + if NeedsWrite(index, slots[last].key, force, e) then [slots[last]] else []
  }

  lemma {:induction false} PendingMembers(index: map<Key, StoredVector>, slots: seq<Slot>, force: bool, e: Embedder)
    ensures forall s :: s in PendingSlots(index, slots, force, e) <==> s in slots && NeedsWrite(index, s.key, force, e)
  {
    if slots != [] {
      var last := |slots| - 1;
      PendingMembers(index, slots[..last], force, e);
      assert slots == slots[..last] + [slots[last]];
    }
  }

  /** An unforced run right after any complete run finds nothing to write. */
  lemma {:induction false} SecondRunWritesNothing(before: map<Key, StoredVector>, slots: seq<Slot>, force: bool, e: Embedder,
                                                  after: map<Key, StoredVector>, part: seq<Slot>)
    requires IsRebuilt(before, slots, force, e, after) && forall s :: s in part ==> s in slots
    ensures PendingSlots(after, part, false, e) == []
  {
    if part != [] {
      var n := |part| - 1;
      assert part[n] in slots && SlotDone(before, part[n], force, e, after);
      SecondRunWritesNothing(before, slots, force, e, after, part[..n]);
    }
  }

  /** Writing elsewhere does not change what is pending here. */
  lemma {:induction false} PendingElsewhere(before: map<Key, StoredVector>, done: seq<Slot>, force: bool, e: Embedder,
                                            middle: map<Key, StoredVector>, s2: seq<Slot>)
    requires IsRebuilt(before, done, force, e, middle) && KeysOf(done) !! KeysOf(s2)
    ensures PendingSlots(middle, s2, force, e) == PendingSlots(before, s2, force, e)
  {
    if s2 != [] {
      var n := |s2| - 1;
      assert s2[n].key in KeysOf(s2);
      assert KeysOf(s2[..n]) <= KeysOf(s2);
      PendingElsewhere(before, done, force, e, middle, s2[..n]);
    }
  }

  lemma {:induction false} PendingJoin(index: map<Key, StoredVector>, a: seq<Slot>, b: seq<Slot>, force: bool, e: Embedder)
    ensures PendingSlots(index, a + b, force, e) == PendingSlots(index, a, force, e) + PendingSlots(index, b, force, e)
  {
    if b == [] {
      assert a + b == a;
    } else {
      var n := |b| - 1;
      assert (a + b)[..|a + b| - 1] == a + b[..n];
      PendingJoin(index, a, b[..n], force, e);
    }
  }

  lemma {:induction false} PendingDistinct(index: map<Key, StoredVector>, slots: seq<Slot>, force: bool, e: Embedder)
    requires DistinctKeys(slots)
    ensures DistinctKeys(PendingSlots(index, slots, force, e))
  {
    if slots != [] {
      var n := |slots| - 1;
      PendingDistinct(index, slots[..n], force, e);
      PendingMembers(index, slots[..n], force, e);
      var r := PendingSlots(index, slots[..n], force, e);
      forall i | 0 <= i < |r|
        ensures r[i].key != slots[n].key
      {
        assert r[i] in slots[..n];
      }
    }
  }

  /** Writing exactly the pending slots rebuilds the index. */
  lemma WrittenIsRebuilt(before: map<Key, StoredVector>, slots: seq<Slot>, force: bool, e: Embedder, after: map<Key, StoredVector>)
    requires DistinctKeys(slots) && IsWritten(before, PendingSlots(before, slots, force, e), e, after)
    ensures IsRebuilt(before, slots, force, e, after)
  {
    var pending := PendingSlots(before, slots, force, e);
    PendingMembers(before, slots, force, e);
    forall k | k in KeysOf(slots)
      ensures k in before || k in KeysOf(pending)
    {
      var s :| s in slots && s.key == k;
      assert k in before || s in pending;
    }
    forall s | s in slots
      ensures SlotDone(before, s, force, e, after)
    {
      if NeedsWrite(before, s.key, force, e) {
        assert s in pending;
      } else {
        assert s.key !in KeysOf(pending);
      }
    }
  }

  ghost predicate IsWritten(before: map<Key, StoredVector>, pending: seq<Slot>, e: Embedder, after: map<Key, StoredVector>) {
    && after.Keys == before.Keys + KeysOf(pending)
    && (forall s :: s in pending ==> after[s.key] == VectorOf(e, s.text))
    && (forall k :: k in before && k !in KeysOf(pending) ==> after[k] == before[k])
  }

  ghost function IdsOf(slots: seq<Slot>): set<string> {
    set s | s in slots :: s.key.id
  }

  // ---- the service ----------------------------------------------------------------------------------

  datatype BatchEnd = BatchDone(written: nat, ids: set<string>, skipped: nat) | BatchFailed

  datatype ReindexEnd =
    | Finished(scanned: nat, reindexed: nat, skipped: nat, written: nat)
    | CapabilityDenied
    | ValueError
    | EmbeddingFailed

  /** The channels of one record: pending, or skipped because their vector is current. */
  method CollectRecord(index: map<Key, StoredVector>, current: set<Key>, slots: seq<Slot>, e: Embedder, force: bool)
    returns (pending: seq<Slot>, skipped: nat)
    requires forall s :: s in slots ==> (s.key in current <==> !NeedsWrite(index, s.key, false, e))
    ensures pending == PendingSlots(index, slots, force, e) && |pending| + skipped == |slots|
  {
    pending, skipped := [], 0;
    for j := 0 to |slots|
      invariant pending == PendingSlots(index, slots[..j], force, e)
      invariant |pending| + skipped == j
    {
      assert slots[..j + 1][..j] == slots[..j];
      assert slots[j] in slots;
      if !force && slots[j].key in current {
        skipped := skipped + 1;
      } else {
        pending := pending + [slots[j]];
      }
    }
    assert slots[..|slots|] == slots;
  }

  /** The texts of a batch without a current vector. */
  method CollectPending(index: map<Key, StoredVector>, batch: seq<Record>, e: Embedder, force: bool)
    returns (pending: seq<Slot>, skipped: nat)
    ensures pending == PendingSlots(index, SlotsOf(batch), force, e) && |pending| + skipped == 2 * |batch|
  {
    var ids := set r | r in batch :: r.id;
    var current := set k | k in index && k.id in ids && index[k].model == e.model;
    pending, skipped := [], 0;
    for i := 0 to |batch|
      invariant pending == PendingSlots(index, SlotsOf(batch[..i]), force, e)
      invariant |pending| + skipped == 2 * i
    {
      var slots := SlotsOfRecord(batch[i]);
      assert batch[i] in batch;
      var more, passed := CollectRecord(index, current, slots, e, force);
      assert batch[..i + 1][..i] == batch[..i];
      PendingJoin(index, SlotsOf(batch[..i]), slots, force, e);
      pending, skipped := pending + more, skipped + passed;
    }
    assert batch[..|batch|] == batch;
  }

  class Maintenance {
    var vectors: map<Key, StoredVector>

    constructor ()
      ensures vectors == map[]
    {
      vectors := map[];
    }

    /** Inserts or replaces by key. */
    method UpsertVectors(pending: seq<Slot>, e: Embedder) returns (written: nat)
      requires DistinctKeys(pending)
      modifies this
      ensures written == |pending| && IsWritten(old(vectors), pending, e, vectors)
    {
      for i := 0 to |pending|
        invariant IsWritten(old(vectors), pending[..i], e, vectors)
      {
        WriteNext(old(vectors), pending, i, e, vectors);
        vectors := vectors[pending[i].key := VectorOf(e, pending[i].text)];
      }
      assert pending[..|pending|] == pending;
      written := |pending|;
    }

    /** `_reindex_batch`: everything of the batch that needs it is written, or nothing is. */
    method ReindexBatch(batch: seq<Record>, e: Embedder, force: bool, fails: bool) returns (end: BatchEnd)
      requires UniqueIds(batch)
      modifies this
      ensures end.BatchFailed? ==> fails && vectors == old(vectors)
      ensures end.BatchDone? ==> BatchOk(old(vectors), SlotsOf(batch), e, force, vectors, end)
    {
      var pending, skipped := CollectPending(vectors, batch, e, force);
      PendingOfBatch(vectors, batch, e, force);
      if pending == [] {
        BatchOutcome(vectors, batch, e, force, vectors, pending, skipped);
        return BatchDone(0, {}, skipped);
      }
      if fails {
        return BatchFailed;
      }
      var written := UpsertVectors(pending, e);
      BatchOutcome(old(vectors), batch, e, force, vectors, pending, skipped);
      end := BatchDone(written, set s | s in pending :: s.key.id, skipped);
    }
  }

  /** Adds one batch to the totals. */
  method OneMoreBatch(m: Maintenance, records: seq<Record>, start: nat, stop: nat, e: Embedder, force: bool, fails: bool,
                      ghost before: map<Key, StoredVector>, total: BatchEnd)
    returns (end: BatchEnd)
    requires UniqueIds(records) && start <= stop <= |records|
    requires total.BatchDone? && BatchOk(before, SlotsOf(records[..start]), e, force, m.vectors, total)
    modifies m
    ensures end.BatchDone? ==> BatchOk(before, SlotsOf(records[..stop]), e, force, m.vectors, end)
    ensures end.BatchFailed? ==> fails && m.vectors == old(m.vectors)
  {
    var next := m.ReindexBatch(records[start..stop], e, force, fails);
    if next.BatchFailed? {
      return BatchFailed;
    }
    NextBatch(before, records, start, stop, e, force, old(m.vectors), m.vectors, total, next);
    end := BatchDone(total.written + next.written, total.ids + next.ids, total.skipped + next.skipped);
  }

  /** Batches in order until the records run out or an embedding fails; what was written by
      then stays, and `reached` records were dealt with. */
  method RunBatches(m: Maintenance, records: seq<Record>, batchSize: nat, e: Embedder, force: bool, failAt: Option<nat>)
    returns (end: BatchEnd, ghost reached: nat)
    requires UniqueIds(records) && batchSize > 0
    modifies m
    ensures end.BatchDone? ==> BatchOk(old(m.vectors), SlotsOf(records), e, force, m.vectors, end)
    ensures end.BatchFailed? ==>
              && failAt.Some? && reached <= |records|
              && IsRebuilt(old(m.vectors), SlotsOf(records[..reached]), force, e, m.vectors)
    ensures failAt.None? ==> end.BatchDone?
  {
    var start, number := 0, 0;
    end, reached := BatchDone(0, {}, 0), 0;
    while start < |records|
      invariant 0 <= reached <= |records| && reached == Min(start, |records|)
      invariant end.BatchDone? && BatchOk(old(m.vectors), SlotsOf(records[..reached]), e, force, m.vectors, end)
      decreases |records| - start
    {
      var stop := Min(start + batchSize, |records|);
      end := OneMoreBatch(m, records, start, stop, e, force, failAt == Some(number), old(m.vectors), end);
      if end.BatchFailed? {
        return;
      }
      start, number, reached := start + batchSize, number + 1, stop;
    }
    assert records[..reached] == records;
  }

  /** `reindex`: for every batch size from one up the final index, the counts and the vectors
      written are the same; an embedding failure leaves a rebuilt part. A batch size of zero
      is refused and a negative one scans nothing. */
  method ReindexAll(m: Maintenance, mayManage: bool, records: seq<Record>, batchSize: int, e: Embedder, force: bool, failAt: Option<nat>)
    returns (end: ReindexEnd, ghost reached: nat)
    requires UniqueIds(records)
    modifies m
    ensures !mayManage ==> end == CapabilityDenied && m.vectors == old(m.vectors)
    ensures mayManage && batchSize == 0 ==> end == ValueError && m.vectors == old(m.vectors)
    ensures mayManage && batchSize < 0 ==> end == Finished(0, 0, 0, 0) && m.vectors == old(m.vectors)
    ensures mayManage && batchSize > 0 && end != EmbeddingFailed ==>
              var pending := PendingSlots(old(m.vectors), SlotsOf(records), force, e);
              && end == Finished(|records|, |IdsOf(pending)|, 2 * |records| - |pending|, |pending|)
              && IsRebuilt(old(m.vectors), SlotsOf(records), force, e, m.vectors)
    ensures end == EmbeddingFailed ==>
              && failAt.Some? && reached <= |records|
              && IsRebuilt(old(m.vectors), SlotsOf(records[..reached]), force, e, m.vectors)
  {
    reached := 0;
    if !mayManage {
      end := CapabilityDenied;
    } else if batchSize == 0 {
      end := ValueError;
    } else if batchSize < 0 {
      end := Finished(0, 0, 0, 0);
    } else {
      var run;
      run, reached := RunBatches(m, records, batchSize, e, force, failAt);
      end := if run.BatchFailed? then EmbeddingFailed else Finished(|records|, |run.ids|, run.skipped, run.written);
    }
  }

  lemma PrefixSlots(records: seq<Record>, start: nat, stop: nat)
    requires UniqueIds(records) && start <= stop <= |records|
    ensures SlotsOf(records[..stop]) == SlotsOf(records[..start]) + SlotsOf(records[start..stop])
    ensures DistinctKeys(SlotsOf(records[..start]) + SlotsOf(records[start..stop]))
  {
    assert records[..start] + records[start..stop] == records[..stop];
    SlotsJoin(records[..start], records[start..stop]);
    SlotsAreDistinct(records[..stop]);
  }

  lemma NextBatch(before: map<Key, StoredVector>, records: seq<Record>, start: nat, stop: nat, e: Embedder, force: bool,
                  middle: map<Key, StoredVector>, after: map<Key, StoredVector>, e1: BatchEnd, e2: BatchEnd)
    requires UniqueIds(records) && start <= stop <= |records| && e1.BatchDone? && e2.BatchDone?
    requires BatchOk(before, SlotsOf(records[..start]), e, force, middle, e1)
    requires BatchOk(middle, SlotsOf(records[start..stop]), e, force, after, e2)
    ensures BatchOk(before, SlotsOf(records[..stop]), e, force, after,
                    BatchDone(e1.written + e2.written, e1.ids + e2.ids, e1.skipped + e2.skipped))
  {
    PrefixSlots(records, start, stop);
    BatchesJoin(before, SlotsOf(records[..start]), SlotsOf(records[start..stop]), e, force, middle, after, e1, e2);
  }

  lemma BatchesJoin(before: map<Key, StoredVector>, s1: seq<Slot>, s2: seq<Slot>, e: Embedder, force: bool,
                    middle: map<Key, StoredVector>, after: map<Key, StoredVector>, e1: BatchEnd, e2: BatchEnd)
    requires DistinctKeys(s1 + s2) && e1.BatchDone? && e2.BatchDone?
    requires BatchOk(before, s1, e, force, middle, e1) && BatchOk(middle, s2, e, force, after, e2)
    ensures BatchOk(before, s1 + s2, e, force, after,
                    BatchDone(e1.written + e2.written, e1.ids + e2.ids, e1.skipped + e2.skipped))
  {
    RebuiltInSteps(before, s1, s2, force, e, middle, after);
    Apart(s1, s2);
    PendingElsewhere(before, s1, force, e, middle, s2);
    PendingJoin(before, s1, s2, force, e);
    IdsJoin(PendingSlots(before, s1, force, e), PendingSlots(before, s2, force, e));
  }

  lemma IdsJoin(a: seq<Slot>, b: seq<Slot>)
    ensures IdsOf(a + b) == IdsOf(a) + IdsOf(b)
  {
  }

  /** The index is rebuilt over the slots, and the counts are those of the pending slots. */
  ghost predicate BatchOk(before: map<Key, StoredVector>, slots: seq<Slot>, e: Embedder, force: bool,
                          after: map<Key, StoredVector>, end: BatchEnd)
    requires end.BatchDone?
  {
    && IsRebuilt(before, slots, force, e, after)
    && end.written == |PendingSlots(before, slots, force, e)|
    && end.ids == IdsOf(PendingSlots(before, slots, force, e))
    && end.written + end.skipped == |slots|
  }

  lemma PendingOfBatch(before: map<Key, StoredVector>, batch: seq<Record>, e: Embedder, force: bool)
    requires UniqueIds(batch)
    ensures DistinctKeys(PendingSlots(before, SlotsOf(batch), force, e))
  {
    SlotsAreDistinct(batch);
    PendingDistinct(before, SlotsOf(batch), force, e);
  }

  lemma BatchOutcome(before: map<Key, StoredVector>, batch: seq<Record>, e: Embedder, force: bool,
                     after: map<Key, StoredVector>, pending: seq<Slot>, skipped: nat)
    requires UniqueIds(batch) && pending == PendingSlots(before, SlotsOf(batch), force, e)
    requires |pending| + skipped == 2 * |batch|
    requires if pending == [] then after == before else IsWritten(before, pending, e, after)
    ensures BatchOk(before, SlotsOf(batch), e, force, after, BatchDone(|pending|, IdsOf(pending), skipped))
  {
    SlotsAreDistinct(batch);
    assert IsWritten(before, pending, e, after);
    WrittenIsRebuilt(before, SlotsOf(batch), force, e, after);
  }

  lemma WriteNext(before: map<Key, StoredVector>, pending: seq<Slot>, i: nat, e: Embedder, now: map<Key, StoredVector>)
    requires i < |pending| && DistinctKeys(pending) && IsWritten(before, pending[..i], e, now)
    ensures IsWritten(before, pending[..i + 1], e, now[pending[i].key := VectorOf(e, pending[i].text)])
  {
    assert pending[..i + 1] == pending[..i] + [pending[i]];
    assert KeysOf(pending[..i + 1]) == KeysOf(pending[..i]) + {pending[i].key};
  }

  // ---- failed runs and repeated runs -------------------------------------------------------------------

  /** Each failed run took the index from one state to the next by rebuilding a prefix. */
  ghost predicate FailedRuns(records: seq<Record>, force: bool, e: Embedder, states: seq<map<Key, StoredVector>>, reached: seq<nat>) {
    |states| == |reached| + 1 && forall i :: 0 <= i < |reached| ==> FailedRun(records, force, e, states, reached, i)
  }

  ghost predicate FailedRun(records: seq<Record>, force: bool, e: Embedder, states: seq<map<Key, StoredVector>>, reached: seq<nat>, i: nat)
    requires i < |reached| && i + 1 < |states|
  {
    reached[i] <= |records| && IsRebuilt(states[i], SlotsOf(records[..reached[i]]), force, e, states[i + 1])
  }

  /** However many runs failed, and wherever each stopped, the run that completes leaves exactly
      the index a single uninterrupted run would have left. */
  lemma {:induction false} FailedRunsDoNotMatter(records: seq<Record>, force: bool, e: Embedder,
                                                states: seq<map<Key, StoredVector>>, reached: seq<nat>, after: map<Key, StoredVector>)
    requires UniqueIds(records) && FailedRuns(records, force, e, states, reached)
    requires IsRebuilt(states[|reached|], SlotsOf(records), force, e, after)
    ensures IsRebuilt(states[0], SlotsOf(records), force, e, after)
    decreases |reached|
  {
    var n := |reached|;
    if n > 0 {
      assert FailedRun(records, force, e, states, reached, n - 1);
      RepeatedRun(records, reached[n - 1], force, e, states[n - 1], states[n], after);
      var earlier, fewer := states[..n], reached[..n - 1];
      forall i | 0 <= i < |fewer|
        ensures FailedRun(records, force, e, earlier, fewer, i)
      {
        assert FailedRun(records, force, e, states, reached, i);
      }
      FailedRunsDoNotMatter(records, force, e, earlier, fewer, after);
    }
  }

  lemma RepeatedRun(records: seq<Record>, reached: nat, force: bool, e: Embedder, before: map<Key, StoredVector>,
                    middle: map<Key, StoredVector>, after: map<Key, StoredVector>)
    requires UniqueIds(records) && reached <= |records|
    requires IsRebuilt(before, SlotsOf(records[..reached]), force, e, middle) && IsRebuilt(middle, SlotsOf(records), force, e, after)
    ensures IsRebuilt(before, SlotsOf(records), force, e, after)
  {
    PrefixSlots(records, reached, |records|);
    assert records[..|records|] == records;
    RepeatedAfterFailure(before, SlotsOf(records[..reached]), SlotsOf(records[reached..|records|]), force, e, middle, after);
  }

  // ---- what the rebuilt index holds, record by record -------------------------------------------------

  lemma {:induction false} SlotsOfMember(records: seq<Record>, i: nat)
    requires i < |records|
    ensures Slot(Key(records[i].id, StaticText), records[i].staticText) in SlotsOf(records)
    ensures Slot(Key(records[i].id, DynamicText), records[i].dynamicText) in SlotsOf(records)
  {
    var n := |records| - 1;
    if i < n {
      SlotsOfMember(records[..n], i);
    } else {
      var last := SlotsOfRecord(records[n]);
      assert last[0] in last && last[1] in last;
    }
  }

  /** A channel after a complete run: it has a vector of the present model; embedded from its own
      text when the run was forced or the stored vector was missing or of another model, and
      otherwise the one that was stored. */
  ghost predicate ChannelDone(before: map<Key, StoredVector>, k: Key, text: string, force: bool, e: Embedder, after: map<Key, StoredVector>) {
    k in after &&
    if !force && k in before && before[k].model == e.model then after[k] == before[k]
    else after[k].embedding == e.embed(text) && after[k].model == e.model && after[k].dimension == e.dimension
  }

  /** Both channels of every record are done, each from its own text. */
  lemma {:induction false} RebuiltMeaning(before: map<Key, StoredVector>, records: seq<Record>, force: bool, e: Embedder, after: map<Key, StoredVector>, i: nat)
    requires IsRebuilt(before, SlotsOf(records), force, e, after) && i < |records|
    ensures ChannelDone(before, Key(records[i].id, StaticText), records[i].staticText, force, e, after)
    ensures ChannelDone(before, Key(records[i].id, DynamicText), records[i].dynamicText, force, e, after)
    ensures after[Key(records[i].id, StaticText)].model == e.model && after[Key(records[i].id, DynamicText)].model == e.model
  {
    SlotsOfMember(records, i);
    var st := Slot(Key(records[i].id, StaticText), records[i].staticText);
    var dy := Slot(Key(records[i].id, DynamicText), records[i].dynamicText);
    assert SlotDone(before, st, force, e, after) && SlotDone(before, dy, force, e, after);
  }

  /** Nothing else in the index changes. */
  lemma {:induction false} OthersUntouched(before: map<Key, StoredVector>, records: seq<Record>, force: bool, e: Embedder, after: map<Key, StoredVector>, k: Key)
    requires IsRebuilt(before, SlotsOf(records), force, e, after) && forall i :: 0 <= i < |records| ==> records[i].id != k.id
    ensures k in after <==> k in before
    ensures k in before ==> after[k] == before[k]
  {
    if k in KeysOf(SlotsOf(records)) {
      var s :| s in SlotsOf(records) && s.key == k;
      SlotIds(records, s);
    }
  }
}
