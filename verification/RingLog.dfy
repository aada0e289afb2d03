// From one interleaved completion log to the four completions of each slot.
module RingLog {
  import opened Entries
  import opened Sequences
  import opened StreamReader
  import opened RingSlots

  predicate InRange(ring: seq<nat>, n: nat) {
    forall j | 0 <= j < |ring| :: ring[j] < n
  }

  /** Indices of the chunk's items that go through the ring; slot j serves the j-th of them. */
  function RingItems(items: seq<BatchItem>, start: nat, count: nat): (ring: seq<nat>)
    requires start + count <= |items|
    ensures |ring| <= count && InRange(ring, start + count)
  {
    if count == 0 then []
    else
      var rest := RingItems(items, start, count - 1);
      if FitsInSlot(items[start + count - 1]) then rest + [start + count - 1] else rest
  }

  /** They are exactly the fitting items of the chunk, in increasing order. */
  lemma {:induction false} RingItemsExact(items: seq<BatchItem>, start: nat, count: nat)
    requires start + count <= |items|
    ensures var ring := RingItems(items, start, count);
            && (forall i: nat :: i in ring <==> start <= i < start + count && FitsInSlot(items[i]))
            && (forall a, b | 0 <= a < b < |ring| :: ring[a] < ring[b])
  {
    if count > 0 {
      RingItemsExact(items, start, count - 1);
    }
  }

  function Chain(slot: nat, item: BatchItem): seq<Sqe> {
    [Request(slot, OP_OPENAT, item), Request(slot, OP_READ, item), Request(slot, OP_PROBE, item), Request(slot, OP_CLOSE, item)]
  }

  function Requests(items: seq<BatchItem>, ring: seq<nat>): (r: seq<Sqe>)
    requires InRange(ring, |items|)
    ensures |r| == 4 * |ring|
  {
    if ring == [] then []
    else Requests(items, ring[..|ring| - 1]) + Chain(|ring| - 1, items[ring[|ring| - 1]])
  }

  function Sqes(log: seq<Cqe>): (r: seq<Sqe>)
    ensures |r| == |log| && forall i | 0 <= i < |log| :: r[i] == log[i].sqe
  {
    seq(|log|, i requires 0 <= i < |log| => log[i].sqe)
  }

  ghost predicate IsRequest(items: seq<BatchItem>, ring: seq<nat>, x: Sqe, slot: nat, op: nat)
    requires InRange(ring, |items|)
  {
    slot < |ring| && op <= OP_CLOSE && x == Request(slot, op, items[ring[slot]])
  }

  lemma {:induction false} RequestAt(items: seq<BatchItem>, ring: seq<nat>, k: nat)
    requires InRange(ring, |items|)
    requires k < 4 * |ring|
    ensures IsRequest(items, ring, Requests(items, ring)[k], k / 4, k % 4)
  {
    var n := |ring| - 1;
    if k < 4 * n {
      RequestAt(items, ring[..n], k);
    } else {
      assert Requests(items, ring)[k] == Chain(n, items[ring[n]])[k - 4 * n];
    }
  }

  /** No two of a chunk's requests are equal, so at most one completion can answer each. */
  lemma RequestsDistinct(items: seq<BatchItem>, ring: seq<nat>, i: nat, j: nat)
    requires |ring| <= SLOT_COUNT && InRange(ring, |items|)
    requires i < j < 4 * |ring|
    ensures Requests(items, ring)[i] != Requests(items, ring)[j]
  {
    RequestAt(items, ring, i);
    RequestAt(items, ring, j);
    EncodeDecode(i / 4, i % 4);
    EncodeDecode(j / 4, j % 4);
  }

  /** The log answers only requests of this chunk, each at most once. */
  ghost predicate AnswersChunk(items: seq<BatchItem>, ring: seq<nat>, log: seq<Cqe>)
    requires InRange(ring, |items|)
  {
    |ring| <= SLOT_COUNT && (forall c <- log :: Plausible(c)) && multiset(Sqes(log)) <= multiset(Requests(items, ring))
  }

  ghost predicate DistinctSqes(log: seq<Cqe>) {
    forall i, j | 0 <= i < j < |log| :: log[i].sqe != log[j].sqe
  }

  lemma LogDistinct(items: seq<BatchItem>, ring: seq<nat>, log: seq<Cqe>)
    requires InRange(ring, |items|)
    requires AnswersChunk(items, ring, log)
    ensures DistinctSqes(log)
  {
    var all := Requests(items, ring);
    forall i, j | 0 <= i < j < |log|
      ensures log[i].sqe != log[j].sqe
    {
      if log[i].sqe == log[j].sqe {
        Twice(Sqes(log), i, j);
        forall a, b | 0 <= a < b < |all|
          ensures all[a] != all[b]
        {
          RequestsDistinct(items, ring, a, b);
        }
        Once(all, log[i].sqe);
        assert false;
      }
    }
  }

  lemma LogMember(items: seq<BatchItem>, ring: seq<nat>, log: seq<Cqe>, c: Cqe)
    requires InRange(ring, |items|)
    requires AnswersChunk(items, ring, log) && c in log
    ensures IsRequest(items, ring, c.sqe, SlotOf(c), OpOf(c))
  {
    var i :| 0 <= i < |log| && log[i] == c;
    assert Sqes(log)[i] == c.sqe;
    assert c.sqe in multiset(Sqes(log));
    assert c.sqe in Requests(items, ring);
    var k :| 0 <= k < 4 * |ring| && Requests(items, ring)[k] == c.sqe;
    RequestAt(items, ring, k);
    EncodeDecode(k / 4, k % 4);
  }

  lemma {:induction false} OnSlotMembers(log: seq<Cqe>, slot: nat)
    ensures forall c :: c in OnSlot(log, slot) <==> c in log && SlotOf(c) == slot
  {
    if log != [] {
      OnSlotMembers(log[..|log| - 1], slot);
      assert log == log[..|log| - 1] + [log[|log| - 1]];
    }
  }

  lemma {:induction false} OnSlotDistinct(log: seq<Cqe>, slot: nat)
    requires DistinctSqes(log)
    ensures DistinctSqes(OnSlot(log, slot))
  {
    if log != [] {
      var init, last := log[..|log| - 1], log[|log| - 1];
      OnSlotDistinct(init, slot);
      OnSlotMembers(init, slot);
      forall c | c in init
        ensures c.sqe != last.sqe
      {
        var i :| 0 <= i < |init| && init[i] == c;
        assert log[i] == c;
      }
      var p := OnSlot(init, slot);
      forall i | 0 <= i < |p|
        ensures p[i].sqe != last.sqe
      {
        assert p[i] in p;
      }
    }
  }

  /** Each slot sees at most one completion per operation, whatever the interleaving. */
  lemma SlotProjection(items: seq<BatchItem>, ring: seq<nat>, log: seq<Cqe>, slot: nat)
    requires InRange(ring, |items|)
    requires AnswersChunk(items, ring, log) && slot < |ring|
    ensures DistinctOps(OnSlot(log, slot))
    ensures forall c <- OnSlot(log, slot) :: c in log && Plausible(c) && IsRequest(items, ring, c.sqe, slot, OpOf(c))
  {
    var p := OnSlot(log, slot);
    OnSlotMembers(log, slot);
    forall c | c in p
      ensures c in log && Plausible(c) && IsRequest(items, ring, c.sqe, slot, OpOf(c))
    {
      LogMember(items, ring, log, c);
    }
    forall i, j | 0 <= i < j < |p|
      ensures OpOf(p[i]) != OpOf(p[j])
    {
      LogDistinct(items, ring, log);
      OnSlotDistinct(log, slot);
      assert p[i] in p && p[j] in p;
      assert p[i].sqe != p[j].sqe;
    }
  }

  lemma SameSize<T>(a: multiset<T>, b: multiset<T>)
    requires a <= b && |a| == |b|
    ensures a == b
  {
    assert b == a + (b - a);
    assert |b - a| == 0;
  }

  /** A log as long as the chunk's requests answers every one of them. */
  lemma EveryRequestAnswered(items: seq<BatchItem>, ring: seq<nat>, log: seq<Cqe>, k: nat) returns (m: nat)
    requires InRange(ring, |items|)
    requires AnswersChunk(items, ring, log) && |log| == 4 * |ring| && k < 4 * |ring|
    ensures m < |log| && log[m].sqe == Requests(items, ring)[k]
  {
    var sqes, all := Sqes(log), Requests(items, ring);
    SameSize(multiset(sqes), multiset(all));
    assert all[k] in multiset(all);
    assert all[k] in sqes;
    m :| 0 <= m < |sqes| && sqes[m] == all[k];
  }

  lemma SlotAndOperation(slot: nat, op: nat)
    requires op <= OP_CLOSE
    ensures (4 * slot + op) / 4 == slot && (4 * slot + op) % 4 == op
  {
  }

  lemma RequestOf(items: seq<BatchItem>, ring: seq<nat>, slot: nat, op: nat)
    requires InRange(ring, |items|) && slot < |ring| <= SLOT_COUNT && op <= OP_CLOSE
    ensures var x := Requests(items, ring)[4 * slot + op];
            DecodeSlot(x.userData) == slot && DecodeOperation(x.userData) == op
  {
    SlotAndOperation(slot, op);
    RequestAt(items, ring, 4 * slot + op);
    EncodeDecode(slot, op);
  }

  lemma CompleteLog(items: seq<BatchItem>, ring: seq<nat>, log: seq<Cqe>, slot: nat, op: nat) returns (i: nat)
    requires InRange(ring, |items|)
    requires AnswersChunk(items, ring, log) && slot < |ring| && op <= OP_CLOSE
    requires |log| == 4 * |ring|
    ensures i < |OnSlot(log, slot)| && OpOf(OnSlot(log, slot)[i]) == op
  {
    RequestOf(items, ring, slot, op);
    var m := EveryRequestAnswered(items, ring, log, 4 * slot + op);
    var c := log[m];
    assert SlotOf(c) == slot && OpOf(c) == op;
    OnSlotMembers(log, slot);
    assert c in OnSlot(log, slot);
    i :| 0 <= i < |OnSlot(log, slot)| && OnSlot(log, slot)[i] == c;
  }

  /** How a ring item stands: resolved or untouched, fed at most once, from its own full read, and failed exactly when one
      of its own completions was not fine. */
  ghost predicate RingFed(item: BatchItem, calls: seq<Chunk>, slot: nat, accepts: Acceptor, log: seq<Cqe>) {
    && (calls == [] || exists c :: c in log && c.sqe == Request(slot, OP_READ, item) && c.res == item.size && calls == [c.data]
                                   && |c.data| == item.size)
    && (item.success ==> item.errno == 0 && calls != [] && accepts([], calls[0]))
    && (item.success ==> exists c :: c in log && c.sqe == Request(slot, OP_PROBE, item) && c.res == 0)
    && (!item.success && item.errno == 0 ==> calls == [])
    && (item.errno == 0 <==> AllFine(item.size, accepts, OnSlot(log, slot)))
    && (forall c <- OnSlot(log, slot) :: c in log && OpOf(c) <= OP_CLOSE && c.sqe == Request(slot, OpOf(c), item))
  }

  /** The slot's completions are all answers to the item's own chain, at most one per operation. */
  ghost predicate OwnAnswers(item: BatchItem, slot: nat, log: seq<Cqe>) {
    && DistinctOps(OnSlot(log, slot))
    && forall c <- OnSlot(log, slot) ::
         c in log && Plausible(c) && OpOf(c) <= OP_CLOSE && c.sqe == Request(slot, OpOf(c), item)
  }

  /** What the consumer saw is a full read of the item's own, and success took a probe that found the end. */
  lemma SlotFed(log: seq<Cqe>, slot: nat, accepts: Acceptor, end: SlotState, item: BatchItem)
    requires OwnAnswers(item, slot, log) && SlotInvariant(item.size, accepts, OnSlot(log, slot), end)
    ensures end.calls == [] || exists c :: c in log && c.sqe == Request(slot, OP_READ, item) && c.res == item.size
                                           && end.calls == [c.data] && |c.data| == item.size
    ensures end.success ==> end.calls != [] && accepts([], end.calls[0])
    ensures end.success ==> exists c :: c in log && c.sqe == Request(slot, OP_PROBE, item) && c.res == 0
  {
    var p := OnSlot(log, slot);
    if end.calls != [] {
      var r :| 0 <= r < |p| && OpOf(p[r]) == OP_READ && p[r].res == item.size && end.calls == [p[r].data];
      assert p[r] in p;
      if end.success {
        var i :| 0 <= i < |p| && OpOf(p[i]) == OP_PROBE;
        assert p[i] in p;
        assert Fine(item.size, accepts, p, i);
        var q :| 0 <= q < i && OpOf(p[q]) == OP_READ && accepts([], p[q].data);
        assert q == r;
      }
    }
  }

  /** Every log of at most one answer per request leaves every ring item in order; a complete log resolves it. */
  lemma SlotOutcome(items: seq<BatchItem>, ring: seq<nat>, log: seq<Cqe>, slot: nat, accepts: Acceptor, st: SlotState, item: BatchItem)
    requires InRange(ring, |items|)
    requires AnswersChunk(items, ring, log) && slot < |ring| && FitsInSlot(items[ring[slot]]) && Fresh(st)
    requires var end := ApplyAll(item.size, accepts, st, OnSlot(log, slot));
             item == items[ring[slot]].(success := end.success, errno := end.errno)
    ensures RingFed(item, ApplyAll(item.size, accepts, st, OnSlot(log, slot)).calls, slot, accepts, log)
    ensures |log| == 4 * |ring| ==> item.success || item.errno != 0
  {
    var p := OnSlot(log, slot);
    SlotProjection(items, ring, log, slot);
    AnyOrder(item.size, accepts, st, p);
    assert OwnAnswers(item, slot, log);
    SlotFed(log, slot, accepts, ApplyAll(item.size, accepts, st, p), item);
    if |log| == 4 * |ring| {
      var i := CompleteLog(items, ring, log, slot, OP_PROBE);
      assert Completed(p, OP_PROBE);
    }
  }
}
