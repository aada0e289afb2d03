// The batch reader: chunks of linked chains on one ring, with a synchronous fallback.
module RingBatch {
  import opened Entries
  import opened StreamReader
  import opened RingSlots
  import opened RingKernel
  import opened RingLog

  /** A submission entry handed out by the ring but never filled in. */
  const BLANK := Sqe(0, [], 0, 0)

  class Ring {
    var pending: seq<Sqe>
    var inFlight: multiset<Sqe>
    const buffers: array<seq<Byte>>
    const depth: nat

    ghost predicate Valid()
      reads this, buffers
    {
      && buffers.Length == SLOT_COUNT && QUEUE_DEPTH <= depth
      && forall j | 0 <= j < SLOT_COUNT :: |buffers[j]| == SLOT_BYTES
    }

    /** Nothing prepared and nothing the kernel still owes a completion for. */
    predicate Quiescent()
      reads this
    {
      pending == [] && inFlight == multiset{}
    }

    function Outstanding(): multiset<Sqe>
      reads this
    {
      inFlight + multiset(pending)
    }

    constructor (depth: nat)
      requires QUEUE_DEPTH <= depth
      ensures Valid() && Quiescent() && fresh(buffers)
    {
      pending, inFlight := [], multiset{};
      buffers := new seq<Byte>[SLOT_COUNT](_ => seq(SLOT_BYTES, _ => 0));
      this.depth := depth;
    }

    method GetSqe() returns (ok: bool)
      modifies this`pending
      ensures ok <==> |old(pending)| < depth
      ensures pending == if ok then old(pending) + [BLANK] else old(pending)
    {
      ok := |pending| < depth;
      if ok {
        pending := pending + [BLANK];
      }
    }

    /** Prepares one linked chain; on failure the entries already taken stay behind, unfilled. */
    method SubmitSlot(slot: nat, item: BatchItem) returns (ok: bool)
      modifies this`pending
      ensures ok <==> |old(pending)| + 4 <= depth
      ensures ok ==> pending == old(pending) + Chain(slot, item)
    {
      ghost var before := pending;
      var gotOpen := GetSqe();
      var gotRead := GetSqe();
      var gotProbe := GetSqe();
      var gotClose := GetSqe();
      if !gotOpen || !gotRead || !gotProbe || !gotClose {
        return false;
      }
      assert pending == before + [BLANK, BLANK, BLANK, BLANK];
      pending := pending[..|pending| - 4] + Chain(slot, item);
      return true;
    }

    /** Hands everything prepared to the kernel. */
    method Submit(status: int) returns (ok: bool)
      modifies this`pending, this`inFlight
      ensures ok <==> status >= 0
      ensures Outstanding() == old(Outstanding())
      ensures pending == if ok then [] else old(pending)
    {
      ok := status >= 0;
      if ok {
        pending, inFlight := [], inFlight + multiset(pending);
      }
    }

    /** The kernel completes a request: it is no longer in flight, and a read lands in its slot buffer. */
    method Complete(c: Cqe)
      requires Valid() && c.sqe in inFlight && Plausible(c)
      modifies this`inFlight, buffers
      ensures Valid() && inFlight == old(inFlight) - multiset{c.sqe}
      ensures buffers[..] == Delivered(old(buffers[..]), c)
    {
      inFlight := inFlight - multiset{c.sqe};
      if OpOf(c) == OP_READ && c.res >= 0 && SlotOf(c) < SLOT_COUNT {
        buffers[SlotOf(c)] := Deliver(buffers[SlotOf(c)], c.data);
      }
    }
  }

  function Delivered(buffers: seq<seq<Byte>>, c: Cqe): seq<seq<Byte>> {
    if OpOf(c) == OP_READ && c.res >= 0 && SlotOf(c) < |buffers|
    then buffers[SlotOf(c) := Deliver(buffers[SlotOf(c)], c.data)]
    else buffers
  }

  /** The contents of every array a chunk works on. */
  datatype Snap = Snap(items: seq<BatchItem>, calls: seq<seq<Chunk>>, bytes: seq<nat>, buffers: seq<seq<Byte>>)

  ghost predicate Shape(s: Snap, ring: seq<nat>) {
    && |s.calls| == |s.items| && |s.bytes| == |s.buffers| == SLOT_COUNT && |ring| <= SLOT_COUNT
    && InRange(ring, |s.items|)
    && (forall a, b | 0 <= a < b < |ring| :: ring[a] < ring[b])
  }

  ghost function SlotView(s: Snap, ring: seq<nat>, j: nat): SlotState
    requires Shape(s, ring) && j < |ring|
  {
    var i := ring[j];
    SlotState(s.items[i].success, s.items[i].errno, s.bytes[j], s.buffers[j], s.calls[i])
  }

  ghost predicate SlotFollows(s0: Snap, s: Snap, ring: seq<nat>, accepts: nat -> Acceptor, log: seq<Cqe>, j: nat)
    requires Shape(s0, ring) && Shape(s, ring) && |s.items| == |s0.items| && j < |ring|
  {
    var i := ring[j];
    && SlotView(s, ring, j) == ApplyAll(s0.items[i].size, accepts(i), SlotView(s0, ring, j), OnSlot(log, j))
    && s.items[i].path == s0.items[i].path && s.items[i].size == s0.items[i].size
  }

  /** Every slot stands where its own completions put it, and nothing else has changed. */
  ghost predicate Follows(s0: Snap, s: Snap, ring: seq<nat>, accepts: nat -> Acceptor, log: seq<Cqe>) {
    && Shape(s0, ring) && Shape(s, ring) && |s.items| == |s0.items|
    && (forall j | 0 <= j < |ring| :: SlotFollows(s0, s, ring, accepts, log, j))
    && (forall i | 0 <= i < |s.items| && i !in ring :: s.items[i] == s0.items[i] && s.calls[i] == s0.calls[i])
  }

  /** The arrays after slot j has been moved to state st. */
  ghost function Updated(s: Snap, ring: seq<nat>, j: nat, st: SlotState): Snap
    requires Shape(s, ring) && j < |ring|
  {
    var i := ring[j];
    Snap(s.items[i := s.items[i].(success := st.success, errno := st.errno)], s.calls[i := st.calls],
         s.bytes[j := st.bytesRead], s.buffers[j := st.buffer])
  }

  lemma FollowsStep(s0: Snap, s: Snap, ring: seq<nat>, accepts: nat -> Acceptor, log: seq<Cqe>, c: Cqe)
    requires Follows(s0, s, ring, accepts, log) && SlotOf(c) < |ring|
    ensures var j := SlotOf(c);
            var st := Apply(s.items[ring[j]].size, accepts(ring[j]), SlotView(s, ring, j), c);
            Follows(s0, Updated(s, ring, j, st), ring, accepts, log + [c])
  {
    var j := SlotOf(c);
    var st := Apply(s.items[ring[j]].size, accepts(ring[j]), SlotView(s, ring, j), c);
    var s', log' := Updated(s, ring, j, st), log + [c];
    assert log'[..|log|] == log;
    forall k | 0 <= k < |ring|
      ensures SlotFollows(s0, s', ring, accepts, log', k)
    {
      assert SlotFollows(s0, s, ring, accepts, log, k);
      if k == j {
        assert OnSlot(log', j) == OnSlot(log, j) + [c];
        assert (OnSlot(log, j) + [c])[..|OnSlot(log, j)|] == OnSlot(log, j);
      } else {
        assert ring[k] != ring[j];
      }
    }
  }

  /** Handles one completion of an assigned slot. */
  method HandleCqe(items: array<BatchItem>, calls: array<seq<Chunk>>, slotToItem: array<nat>, slotBytes: array<nat>,
                   buffers: array<seq<Byte>>, accepts: nat -> Acceptor, c: Cqe)
    requires slotToItem.Length == slotBytes.Length == buffers.Length && slotToItem != slotBytes
    requires items.Length == calls.Length
    requires SlotOf(c) < slotToItem.Length && slotToItem[SlotOf(c)] < items.Length
    modifies items, calls, slotBytes
    ensures var j := SlotOf(c);
            var i := slotToItem[j];
            var st := Handle(old(items[i].size), accepts(i),
                             old(SlotState(items[i].success, items[i].errno, slotBytes[j], buffers[j], calls[i])), c);
            && items[..] == old(items[..])[i := old(items[i]).(success := st.success, errno := st.errno)]
            && calls[..] == old(calls[..])[i := st.calls]
            && slotBytes[..] == old(slotBytes[..])[j := st.bytesRead]
  {
    var slot := SlotOf(c);
    var i := slotToItem[slot];
    if OpOf(c) == OP_OPENAT {
      if c.res < 0 {
        items[i] := items[i].(success := false, errno := -c.res);
      }
      return;
    }
    if OpOf(c) == OP_READ {
      if c.res < 0 {
        if items[i].errno == 0 {
          items[i] := items[i].(success := false, errno := ErrnoOf(c.res));
        }
        return;
      }
      if c.res != items[i].size {
        items[i] := items[i].(success := false, errno := EIO);
        return;
      }
      slotBytes[slot] := c.res;
      return;
    }
    if OpOf(c) == OP_PROBE {
      if items[i].errno != 0 {
        return;
      }
      if c.res < 0 {
        items[i] := items[i].(success := false, errno := ErrnoOf(c.res));
        return;
      }
      if c.res > 0 {
        items[i] := items[i].(success := false, errno := EIO);
        return;
      }
      if slotBytes[slot] == 0 {
        items[i] := items[i].(success := false, errno := EIO);
        return;
      }
      var chunk := Prefix(buffers[slot], slotBytes[slot]);
      var accepted := accepts(i)(calls[i], chunk);
      calls[i] := calls[i] + [chunk];
      if !accepted {
        items[i] := items[i].(success := false, errno := EIO);
        return;
      }
      items[i] := items[i].(success := true, errno := 0);
    }
  }

  /** Everything the kernel may complete during a chunk: what was outstanding, and the chunk's own requests. */
  ghost function Total(outstanding: multiset<Sqe>, items: seq<BatchItem>, ring: seq<nat>): multiset<Sqe>
    requires InRange(ring, |items|)
  {
    outstanding + multiset(Requests(items, ring))
  }

  /** After offset items of the chunk: the slots assigned and the chains prepared. */
  ghost predicate Prepared(items: seq<BatchItem>, start: nat, offset: nat, slots: seq<nat>, submitted: nat,
                           pending0: seq<Sqe>, pending: seq<Sqe>) {
    && start + offset <= |items| && submitted <= offset && submitted <= |slots|
    && slots[..submitted] == RingItems(items, start, offset)
    && pending == pending0 + Requests(items, RingItems(items, start, offset))
  }

  lemma PrepareStep(items: seq<BatchItem>, start: nat, offset: nat, slots: seq<nat>, submitted: nat,
                    pending0: seq<Sqe>, pending: seq<Sqe>)
    requires Prepared(items, start, offset, slots, submitted, pending0, pending) && start + offset < |items|
    ensures |pending| == |pending0| + 4 * submitted
    ensures FitsInSlot(items[start + offset]) ==> |RingItems(items, start, offset + 1)| == submitted + 1
    ensures var i := start + offset;
            if FitsInSlot(items[i]) then
              submitted < |slots| ==>
                Prepared(items, start, offset + 1, slots[submitted := i], submitted + 1, pending0, pending + Chain(submitted, items[i]))
            else Prepared(items, start, offset + 1, slots, submitted, pending0, pending)
  {
    var i := start + offset;
    var r := RingItems(items, start, offset);
    assert |r| == submitted;
    if FitsInSlot(items[i]) && submitted < |slots| {
      var r' := r + [i];
      assert RingItems(items, start, offset + 1) == r';
      assert r'[..|r'| - 1] == r;
      assert Requests(items, r') == Requests(items, r) + Chain(submitted, items[i]);
      assert slots[submitted := i][..submitted + 1] == slots[..submitted] + [i];
      assert pending + Chain(submitted, items[i]) == pending0 + Requests(items, r');
    }
  }

  lemma JoinOutstanding(inFlight: multiset<Sqe>, pending0: seq<Sqe>, requests: seq<Sqe>)
    ensures inFlight + multiset(pending0 + requests) == inFlight + multiset(pending0) + multiset(requests)
  {
  }

  lemma PreparedAll(items: seq<BatchItem>, start: nat, count: nat, slots: seq<nat>, submitted: nat,
                    pending0: seq<Sqe>, pending: seq<Sqe>, inFlight: multiset<Sqe>, depth: nat)
    requires Prepared(items, start, count, slots, submitted, pending0, pending)
    requires submitted == 0 || |pending| <= depth
    ensures submitted == |RingItems(items, start, count)| && slots[..submitted] == RingItems(items, start, count)
    ensures inFlight + multiset(pending) == Total(inFlight + multiset(pending0), items, RingItems(items, start, count))
    ensures Prepares(depth, |pending0|, |RingItems(items, start, count)|)
  {
    var requests := Requests(items, RingItems(items, start, count));
    JoinOutstanding(inFlight, pending0, requests);
    assert |pending| == |pending0| + |requests|;
  }

  lemma {:induction false} RingItemsGrow(items: seq<BatchItem>, start: nat, offset: nat, count: nat)
    requires offset <= count && start + count <= |items|
    ensures |RingItems(items, start, offset)| <= |RingItems(items, start, count)| <= count
    decreases count
  {
    if offset < count {
      RingItemsGrow(items, start, offset, count - 1);
    } else if 0 < count {
      RingItemsGrow(items, start, count - 1, count - 1);
    }
  }

  /** The chains of a chunk fit in the ring. */
  predicate Prepares(depth: nat, pending: nat, slots: nat) {
    slots == 0 || pending + 4 * slots <= depth
  }

  /** A chain that does not fit is one the ring has no room for. */
  lemma PrepareFull(items: seq<BatchItem>, start: nat, offset: nat, count: nat, submitted: nat, pending0: nat, pending: nat, depth: nat)
    requires offset < count && start + count <= |items|
    requires |RingItems(items, start, offset + 1)| == submitted + 1 && pending == pending0 + 4 * submitted && depth < pending + 4
    ensures !Prepares(depth, pending0, |RingItems(items, start, count)|)
  {
    RingItemsGrow(items, start, offset + 1, count);
  }

  /** Prepares one item's chain and notes which item the slot holds. */
  method AssignSlot(ring: Ring, slotToItem: array<nat>, slot: nat, i: nat, item: BatchItem) returns (ok: bool)
    requires slot < slotToItem.Length
    modifies ring`pending, slotToItem
    ensures ok <==> |old(ring.pending)| + 4 <= ring.depth
    ensures ok ==> ring.pending == old(ring.pending) + Chain(slot, item) && slotToItem[..] == old(slotToItem[..])[slot := i]
  {
    ok := ring.SubmitSlot(slot, item);
    if ok {
      slotToItem[slot] := i;
    }
  }

  /** Prepares the item at one offset of the chunk, if it fits. */
  method PrepareItem(ring: Ring, items: array<BatchItem>, slotToItem: array<nat>, start: nat, offset: nat, count: nat,
                     submitted: nat, ghost pending0: seq<Sqe>)
    returns (ok: bool, submitted': nat)
    requires start + count <= items.Length && offset < count <= SLOT_COUNT == slotToItem.Length
    requires Prepared(items[..], start, offset, slotToItem[..], submitted, pending0, ring.pending)
    requires submitted == 0 || |ring.pending| <= ring.depth
    modifies ring`pending, slotToItem
    ensures ok ==> Prepared(items[..], start, offset + 1, slotToItem[..], submitted', pending0, ring.pending)
    ensures ok ==> submitted' == 0 || |ring.pending| <= ring.depth
    ensures !ok ==> !Prepares(ring.depth, |pending0|, |RingItems(items[..], start, count)|)
  {
    ghost var before := |ring.pending|;
    ok, submitted' := true, submitted;
    PrepareStep(items[..], start, offset, slotToItem[..], submitted, pending0, ring.pending);
    if FitsInSlot(items[start + offset]) {
      ok := AssignSlot(ring, slotToItem, submitted, start + offset, items[start + offset]);
      if ok {
        submitted' := submitted + 1;
      } else {
        PrepareFull(items[..], start, offset, count, submitted, |pending0|, before, ring.depth);
      }
    }
  }

  /** Assigns a slot to every item that fits and prepares its chain. */
  method PrepareChunk(ring: Ring, items: array<BatchItem>, slotToItem: array<nat>, start: nat, count: nat)
    returns (ok: bool, submitted: nat)
    requires ring.Valid() && start + count <= items.Length && count <= SLOT_COUNT == slotToItem.Length
    modifies ring`pending, slotToItem
    ensures ok ==> submitted == |RingItems(items[..], start, count)| && slotToItem[..submitted] == RingItems(items[..], start, count)
    ensures ok ==> ring.Outstanding() == Total(old(ring.Outstanding()), items[..], RingItems(items[..], start, count))
    ensures ok <==> Prepares(ring.depth, |old(ring.pending)|, |RingItems(items[..], start, count)|)
  {
    ok, submitted := true, 0;
    ghost var pending0 := ring.pending;
    for offset := 0 to count
      invariant Prepared(items[..], start, offset, slotToItem[..], submitted, pending0, ring.pending)
      invariant submitted == 0 || |ring.pending| <= ring.depth
    {
      ok, submitted := PrepareItem(ring, items, slotToItem, start, offset, count, submitted, pending0);
      if !ok {
        return;
      }
    }
    ok := true;
    PreparedAll(items[..], start, count, slotToItem[..], submitted, pending0, ring.pending, ring.inFlight, ring.depth);
    assert slotToItem[..submitted] == slotToItem[..][..submitted];
  }

  /** A chunk gets as far as its wait loop when its chains fit in the ring and the kernel takes them. */
  predicate Launches(depth: nat, pending: nat, slots: nat, submitStatus: int) {
    Prepares(depth, pending, slots) && (slots == 0 || submitStatus >= 0)
  }

  /** Prepares the chunk and, unless it has no ring item, submits it. */
  method LaunchChunk(ring: Ring, items: array<BatchItem>, slotToItem: array<nat>, start: nat, count: nat, submitStatus: int)
    returns (ok: bool, submitted: nat)
    requires ring.Valid() && start + count <= items.Length && count <= SLOT_COUNT == slotToItem.Length
    modifies ring`pending, ring`inFlight, slotToItem
    ensures ok <==> Launches(ring.depth, |old(ring.pending)|, |RingItems(items[..], start, count)|, submitStatus)
    ensures ok ==>
              var r := RingItems(items[..], start, count);
              && submitted == |r| && slotToItem[..submitted] == r
              && ring.Outstanding() == Total(old(ring.Outstanding()), items[..], r)
              && (submitted > 0 ==> ring.pending == [])
  {
    ok, submitted := PrepareChunk(ring, items, slotToItem, start, count);
    if ok && submitted > 0 {
      ok := ring.Submit(submitStatus);
    }
  }

  ghost function SnapOf(ring: Ring, items: array<BatchItem>, calls: array<seq<Chunk>>, slotBytes: array<nat>): Snap
    reads ring, ring.buffers, items, calls, slotBytes
  {
    Snap(items[..], calls[..], slotBytes[..], ring.buffers[..])
  }

  /** One completion end to end: delivery by the kernel, then the handler. */
  method TakeCompletion(ring: Ring, items: array<BatchItem>, calls: array<seq<Chunk>>, slotToItem: array<nat>, slotBytes: array<nat>,
                        accepts: nat -> Acceptor, c: Cqe, ghost s0: Snap, ghost r: seq<nat>, ghost log: seq<Cqe>)
    requires ring.Valid() && c.sqe in ring.inFlight && Plausible(c)
    requires slotToItem.Length == slotBytes.Length == SLOT_COUNT && slotToItem != slotBytes && items.Length == calls.Length
    requires Follows(s0, SnapOf(ring, items, calls, slotBytes), r, accepts, log)
    requires SlotOf(c) < |r| && slotToItem[..|r|] == r
    modifies ring`inFlight, ring.buffers, items, calls, slotBytes
    ensures ring.Valid() && ring.inFlight == old(ring.inFlight) - multiset{c.sqe}
    ensures Follows(s0, SnapOf(ring, items, calls, slotBytes), r, accepts, log + [c])
  {
    ghost var s := SnapOf(ring, items, calls, slotBytes);
    ghost var j := SlotOf(c);
    assert slotToItem[j] == slotToItem[..|r|][j] == r[j];
    ring.Complete(c);
    HandleCqe(items, calls, slotToItem, slotBytes, ring.buffers, accepts, c);
    ghost var st := Apply(s.items[r[j]].size, accepts(r[j]), SlotView(s, r, j), c);
    assert SnapOf(ring, items, calls, slotBytes) == Updated(s, r, j, st);
    FollowsStep(s0, s, r, accepts, log, c);
  }

  /** What a chunk has done to the arrays of items and consumers. */
  ghost predicate ChunkEffect(items0: seq<BatchItem>, items: seq<BatchItem>, calls0: seq<seq<Chunk>>, calls: seq<seq<Chunk>>,
                              buffers0: seq<seq<Byte>>, ring: seq<nat>, accepts: nat -> Acceptor, log: seq<Cqe>) {
    exists bytes, buffers ::
      Follows(Snap(items0, calls0, seq(SLOT_COUNT, _ => 0), buffers0), Snap(items, calls, bytes, buffers), ring, accepts, log)
  }

  ghost predicate Accounted(outcome: Driven, log: seq<Cqe>, total: multiset<Sqe>, slots: nat, waits: seq<Wait>) {
    && (forall c <- log :: Plausible(c) && Arrived(c) in waits)
    && multiset(Sqes(log)) <= total
    && (outcome == Done ==> |log| == 4 * slots)
    && (outcome == Undefined ==> exists x :: x in total && DecodeSlot(x.userData) >= slots)
  }

  /** The completions handled were all offered and plausible. */
  lemma {:induction false} HandledOffered(waits: seq<Wait>, total: multiset<Sqe>, need: nat, slots: nat)
    ensures var h := Handled(waits, total, need, slots);
            (forall c <- h.log :: Plausible(c) && Arrived(c) in waits) && (h.outcome == Done ==> |h.log| == need)
  {
    if need > 0 && waits != [] {
      var rest := waits[1..];
      assert forall w | w in rest :: w in waits;
      match waits[0]
      case WaitFailed(_) =>
        HandledOffered(rest, total, need, slots);
      case Arrived(c) =>
        HandledOffered(rest, total, need, slots);
        HandledOffered(rest, total - multiset{c.sqe}, need - 1, slots);
    }
  }

  /** They were all expected, and only an expected one can name a slot that is not assigned. */
  lemma {:induction false} HandledExpected(waits: seq<Wait>, total: multiset<Sqe>, need: nat, slots: nat)
    ensures var h := Handled(waits, total, need, slots);
            && multiset(Sqes(h.log)) <= total
            && (h.outcome == Undefined ==> exists x :: x in total && DecodeSlot(x.userData) >= slots)
  {
    assert Sqes([]) == [];
    if need > 0 && waits != [] {
      var rest := waits[1..];
      if Skipped(waits[0], total) {
        HandledExpected(rest, total, need, slots);
      } else if waits[0].Arrived? && SlotOf(waits[0].cqe) < slots {
        var left := total - multiset{waits[0].cqe.sqe};
        HandledExpected(rest, left, need - 1, slots);
        TakenFirst(waits[0].cqe, Handled(rest, left, need - 1, slots).log, total);
      }
    }
  }

  lemma TakenFirst(c: Cqe, log: seq<Cqe>, total: multiset<Sqe>)
    requires c.sqe in total && multiset(Sqes(log)) <= total - multiset{c.sqe}
    ensures multiset(Sqes([c] + log)) <= total
  {
    assert Sqes([c] + log) == [c.sqe] + Sqes(log);
  }

  /** The bookkeeping of the wait loop: total is everything the kernel was ever handed and had not completed before. */
  ghost predicate Waiting(ring: Ring, total: multiset<Sqe>, log: seq<Cqe>)
    reads ring
  {
    ring.pending == [] && ring.inFlight + multiset(Sqes(log)) == total
  }

  lemma WaitingStep(inFlight: multiset<Sqe>, total: multiset<Sqe>, log: seq<Cqe>, c: Cqe)
    requires inFlight + multiset(Sqes(log)) == total && c.sqe in inFlight
    ensures inFlight - multiset{c.sqe} + multiset(Sqes(log + [c])) == total
  {
    assert Sqes(log + [c]) == Sqes(log) + [c.sqe];
  }

  /** Takes expected completions. log lists the completions that were handled. */
  method WaitForCompletions(ring: Ring, items: array<BatchItem>, calls: array<seq<Chunk>>, slotToItem: array<nat>,
                            slotBytes: array<nat>, submitted: nat, accepts: nat -> Acceptor, waits: seq<Wait>,
                            ghost s0: Snap, ghost r: seq<nat>, ghost total: multiset<Sqe>)
    returns (outcome: Driven, ghost log: seq<Cqe>)
    requires ring.Valid() && Waiting(ring, total, [])
    requires slotToItem.Length == slotBytes.Length == SLOT_COUNT && slotToItem != slotBytes && items.Length == calls.Length
    requires Follows(s0, SnapOf(ring, items, calls, slotBytes), r, accepts, [])
    requires submitted == |r| && slotToItem[..|r|] == r
    modifies ring`inFlight, ring.buffers, items, calls, slotBytes
    ensures ring.Valid()
    ensures exists bytes, buffers :: Follows(s0, Snap(items[..], calls[..], bytes, buffers), r, accepts, log)
    ensures Handling(outcome, log) == Handled(waits, total, 4 * |r|, |r|)
    ensures outcome != Undefined ==> ring.pending == [] && ring.Outstanding() + multiset(Sqes(log)) == total
  {
    log := [];
    assert Sqes(log) == [];
    var seen, next := 0, 0;
    outcome := Done;
    assert ring.inFlight == total;
    CourseStarts(waits, total, 4 * submitted, submitted);
    while seen < 4 * submitted
      invariant next <= |waits| && seen == |log| <= 4 * submitted
      invariant ring.Valid() && Waiting(ring, total, log)
      invariant Follows(s0, SnapOf(ring, items, calls, slotBytes), r, accepts, log)
      invariant OnCourse(waits, total, 4 * submitted, submitted, next, ring.inFlight, log)
      decreases |waits| - next
    {
      CourseEnds(waits, total, 4 * submitted, submitted, next, ring.inFlight, log);
      if next == |waits| {
        return GaveUp, log;
      }
      CourseStep(waits, total, 4 * submitted, submitted, next, ring.inFlight, log);
      var event := waits[next];
      next := next + 1;
      if event.WaitFailed? {
        if event.errno == EINTR {
          continue;
        }
        return GaveUp, log;
      }
      var c := event.cqe;
      if c.sqe !in ring.inFlight || !Plausible(c) {
        continue;
      }
      WaitingStep(ring.inFlight, total, log, c);
      if SlotOf(c) >= submitted {
        return Undefined, log;
      }
      TakeCompletion(ring, items, calls, slotToItem, slotBytes, accepts, c, s0, r, log);
      log := log + [c];
      seen := seen + 1;
    }
    CourseEnds(waits, total, 4 * submitted, submitted, next, ring.inFlight, log);
  }

  lemma ChunkStarts(s: Snap, start: nat, count: nat, accepts: nat -> Acceptor)
    requires |s.calls| == |s.items| && |s.bytes| == |s.buffers| == SLOT_COUNT
    requires start + count <= |s.items| && count <= SLOT_COUNT
    ensures Follows(s, s, RingItems(s.items, start, count), accepts, [])
  {
    var ring := RingItems(s.items, start, count);
    RingItemsExact(s.items, start, count);
    forall j | 0 <= j < |ring|
      ensures SlotFollows(s, s, ring, accepts, [], j)
    {
    }
  }

  lemma RequestSlots(items: seq<BatchItem>, ring: seq<nat>, x: Sqe)
    requires InRange(ring, |items|) && |ring| <= SLOT_COUNT
    requires x in multiset(Requests(items, ring))
    ensures DecodeSlot(x.userData) < |ring|
  {
    var k :| 0 <= k < 4 * |ring| && Requests(items, ring)[k] == x;
    RequestAt(items, ring, k);
    EncodeDecode(k / 4, k % 4);
  }

  /** Started with nothing outstanding, a chunk only sees answers to its own requests and never an unassigned slot. */
  lemma QuiescentChunk(outcome: Driven, log: seq<Cqe>, items: seq<BatchItem>, ring: seq<nat>, waits: seq<Wait>)
    requires InRange(ring, |items|) && |ring| <= SLOT_COUNT
    requires Accounted(outcome, log, Total(multiset{}, items, ring), |ring|, waits)
    ensures outcome != Undefined && AnswersChunk(items, ring, log)
  {
    var all := multiset(Requests(items, ring));
    assert Total(multiset{}, items, ring) == all;
    if outcome == Undefined {
      var x :| x in all && DecodeSlot(x.userData) >= |ring|;
      RequestSlots(items, ring, x);
    }
  }

  /** How a chunk ends: it may fail to launch, have nothing to wait for, or wait. */
  function Driving(depth: nat, pending: nat, script: ChunkScript, total: multiset<Sqe>, slots: nat): Handling {
    if !Launches(depth, pending, slots, script.submitStatus) then Handling(GaveUp, [])
    else Handled(script.waits, total, 4 * slots, slots)
  }

  lemma DrivingAccounted(depth: nat, pending: nat, script: ChunkScript, total: multiset<Sqe>, slots: nat)
    ensures var h := Driving(depth, pending, script, total, slots); Accounted(h.outcome, h.log, total, slots, script.waits)
  {
    HandledOffered(script.waits, total, 4 * slots, slots);
    HandledExpected(script.waits, total, 4 * slots, slots);
    assert Sqes([]) == [];
  }

  lemma QuietTotal(items: seq<BatchItem>, ring: seq<nat>)
    requires InRange(ring, |items|)
    ensures Total(multiset{}, items, ring) == multiset(Requests(items, ring)) && |multiset(Requests(items, ring))| == 4 * |ring|
  {
  }

  lemma FairDrives(depth: nat, script: ChunkScript, requests: multiset<Sqe>, slots: nat)
    requires |requests| == 4 * slots && Assigned(requests, slots) && slots <= SLOT_COUNT && QUEUE_DEPTH <= depth
    requires Fair(script, requests)
    ensures Driving(depth, 0, script, requests, slots).outcome == Done
  {
    if slots > 0 {
      assert requests != multiset{};
      FairFinishes(script.waits, requests, 4 * slots, slots);
    }
  }

  /** A chunk started on an empty ring under a fair kernel takes all its completions. */
  lemma FairChunk(depth: nat, script: ChunkScript, items: seq<BatchItem>, ring: seq<nat>)
    requires InRange(ring, |items|) && |ring| <= SLOT_COUNT && QUEUE_DEPTH <= depth
    requires Fair(script, multiset(Requests(items, ring)))
    ensures Driving(depth, 0, script, Total(multiset{}, items, ring), |ring|).outcome == Done
  {
    QuietTotal(items, ring);
    RequestsAssigned(items, ring);
    FairDrives(depth, script, multiset(Requests(items, ring)), |ring|);
  }

  lemma RequestsAssigned(items: seq<BatchItem>, ring: seq<nat>)
    requires InRange(ring, |items|) && |ring| <= SLOT_COUNT
    ensures Assigned(multiset(Requests(items, ring)), |ring|)
  {
    forall x | x in multiset(Requests(items, ring))
      ensures DecodeSlot(x.userData) < |ring|
    {
      RequestSlots(items, ring, x);
    }
  }

  /** What a chunk finds and leaves: the items, their consumers, the slot buffers, the room in the ring, and everything the
      kernel may still complete. */
  datatype Scene = Scene(items: seq<BatchItem>, calls: seq<seq<Chunk>>, buffers: seq<seq<Byte>>, depth: nat, pending: nat,
                         outstanding: multiset<Sqe>)

  function SceneOf(ring: Ring, items: array<BatchItem>, calls: array<seq<Chunk>>): Scene
    reads ring, ring.buffers, items, calls
  {
    Scene(items[..], calls[..], ring.buffers[..], ring.depth, |ring.pending|, ring.Outstanding())
  }

  /** How driving a chunk moves the scene: the completions handled are those the wait loop takes, they act on the chunk's
      items, and they are no longer outstanding. */
  ghost predicate DrivenBy(before: Scene, after: Scene, start: nat, count: nat, accepts: nat -> Acceptor, script: ChunkScript,
                           outcome: Driven, log: seq<Cqe>) {
    start + count <= |before.items| &&
    var r := RingItems(before.items, start, count);
    var total := Total(before.outstanding, before.items, r);
    && Handling(outcome, log) == Driving(before.depth, before.pending, script, total, |r|)
    && ChunkEffect(before.items, after.items, before.calls, after.calls, before.buffers, r, accepts, log)
    && (outcome != Undefined && Launches(before.depth, before.pending, |r|, script.submitStatus) ==>
          after.outstanding + multiset(Sqes(log)) == total && (r != [] ==> after.pending == 0))
  }

  /** Runs one chunk against the kernel's script. */
  method DriveChunk(ring: Ring, items: array<BatchItem>, calls: array<seq<Chunk>>, start: nat, count: nat,
                    accepts: nat -> Acceptor, script: ChunkScript)
    returns (outcome: Driven, ghost log: seq<Cqe>)
    requires ring.Valid() && items.Length == calls.Length && start + count <= items.Length && count <= SLOT_COUNT
    modifies ring, ring.buffers, items, calls
    ensures ring.Valid()
    ensures DrivenBy(old(SceneOf(ring, items, calls)), SceneOf(ring, items, calls), start, count, accepts, script, outcome, log)
  {
    var slotToItem := new nat[SLOT_COUNT];
    var slotBytes := new nat[SLOT_COUNT](_ => 0);
    ghost var r := RingItems(items[..], start, count);
    ghost var s0 := SnapOf(ring, items, calls, slotBytes);
    ghost var total := Total(ring.Outstanding(), items[..], r);
    assert slotBytes[..] == seq(SLOT_COUNT, _ => 0);
    ChunkStarts(s0, start, count, accepts);
    log := [];
    assert Sqes(log) == [];
    var launched, submitted := LaunchChunk(ring, items, slotToItem, start, count, script.submitStatus);
    assert SnapOf(ring, items, calls, slotBytes) == s0;
    if !launched {
      return GaveUp, log;
    }
    if submitted == 0 {
      return Done, log;
    }
    outcome, log := WaitForCompletions(ring, items, calls, slotToItem, slotBytes, submitted, accepts, script.waits, s0, r, total);
  }
}
