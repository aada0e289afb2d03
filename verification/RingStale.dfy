// Answers left over from an earlier chunk: exactly when a chunk can meet them, and what they do to its items.
module RingStale {
  import opened Entries
  import opened StreamReader
  import opened RingSlots
  import opened RingLog
  import opened RingKernel
  import opened RingBatch
  import opened RingTurns
  import opened RingConsume

  // ---------------------------------------------------------------- exactly when

  /** The chunk stayed within its slots and handled answers to its own requests alone. */
  ghost predicate Clean(h: Handling, items: seq<BatchItem>, ring: seq<nat>)
    requires InRange(ring, |items|)
  {
    h.outcome != Undefined && AnswersChunk(items, ring, h.log)
  }

  /** Two answers to x, as failed as they can be. */
  function Intrusion(x: Sqe): seq<Wait> {
    [Arrived(Cqe(x, -1, [])), Arrived(Cqe(x, -1, []))]
  }

  lemma IntrusionHandled(x: Sqe, total: multiset<Sqe>, need: nat, slots: nat)
    requires x in total && need > 2
    ensures var c := Cqe(x, -1, []);
            Handled(Intrusion(x), total, need, slots)
            == if DecodeSlot(x.userData) >= slots then Handling(Undefined, [])
               else Handling(GaveUp, if total[x] >= 2 then [c, c] else [c])
  {
    var c := Cqe(x, -1, []);
    var left, waits := total - multiset{x}, [Arrived(c)];
    assert Intrusion(x)[1..] == waits && waits[1..] == [];
    if DecodeSlot(x.userData) < slots {
      assert Handled(Intrusion(x), total, need, slots) == After([c], Handled(waits, left, need - 1, slots));
      if x in left {
        assert Handled(waits, left, need - 1, slots) == After([c], Handled([], left - multiset{x}, need - 2, slots));
        assert [c] + [] == [c] && [c] + [c] == [c, c];
      } else {
        assert Handled(waits, left, need - 1, slots) == Handled([], left, need - 1, slots);
        assert [c] + [] == [c];
      }
    }
  }

  /** The answers exceed what the chunk itself requested. */
  lemma IntrusionExceeds(x: Sqe, outstanding: multiset<Sqe>, own: multiset<Sqe>, need: nat, slots: nat)
    requires x in outstanding && own[x] <= 1 && need > 2
    ensures var h := Handled(Intrusion(x), outstanding + own, need, slots);
            h.outcome == Undefined || multiset(Sqes(h.log))[x] > own[x]
  {
    var c, total := Cqe(x, -1, []), outstanding + own;
    assert total[x] == outstanding[x] + own[x];
    IntrusionHandled(x, total, need, slots);
    assert Sqes([c]) == [x] && Sqes([c, c]) == [x, x];
  }

  /** Whatever is outstanding, the kernel can answer it during the chunk, and then the chunk is not clean. */
  lemma IntrusionSpoils(x: Sqe, outstanding: multiset<Sqe>, items: seq<BatchItem>, ring: seq<nat>)
    requires InRange(ring, |items|) && 0 < |ring| <= SLOT_COUNT && x in outstanding
    ensures !Clean(Handled(Intrusion(x), Total(outstanding, items, ring), 4 * |ring|, |ring|), items, ring)
  {
    RequestOnce(items, ring, x);
    IntrusionExceeds(x, outstanding, multiset(Requests(items, ring)), 4 * |ring|, |ring|);
  }

  /** The wait loop of a chunk that waits at all is clean, whatever the kernel does, if and only if nothing was outstanding
      when it began. */
  lemma WaitsCleanIff(outstanding: multiset<Sqe>, items: seq<BatchItem>, ring: seq<nat>)
    requires InRange(ring, |items|) && 0 < |ring| <= SLOT_COUNT
    ensures (forall waits: seq<Wait> :: Clean(Handled(waits, Total(outstanding, items, ring), 4 * |ring|, |ring|), items, ring))
            <==> outstanding == multiset{}
  {
    if outstanding == multiset{} {
      forall waits: seq<Wait>
        ensures Clean(Handled(waits, Total(outstanding, items, ring), 4 * |ring|, |ring|), items, ring)
      {
        QuietWaits(waits, items, ring);
      }
    } else {
      var x :| x in outstanding;
      IntrusionSpoils(x, outstanding, items, ring);
    }
  }

  lemma QuietWaits(waits: seq<Wait>, items: seq<BatchItem>, ring: seq<nat>)
    requires InRange(ring, |items|) && |ring| <= SLOT_COUNT
    ensures Clean(Handled(waits, Total(multiset{}, items, ring), 4 * |ring|, |ring|), items, ring)
  {
    var h := Handled(waits, Total(multiset{}, items, ring), 4 * |ring|, |ring|);
    HandledOffered(waits, Total(multiset{}, items, ring), 4 * |ring|, |ring|);
    HandledExpected(waits, Total(multiset{}, items, ring), 4 * |ring|, |ring|);
    QuiescentChunk(h.outcome, h.log, items, ring, waits);
  }

  /** The driver as a whole: a chunk is clean under every kernel if and only if nothing is outstanding when it starts, or it
      has no ring item, or its chains do not fit in the ring. */
  lemma DriverCleanIff(depth: nat, pending: nat, outstanding: multiset<Sqe>, items: seq<BatchItem>, ring: seq<nat>)
    requires InRange(ring, |items|) && |ring| <= SLOT_COUNT
    ensures (forall script: ChunkScript :: Clean(Driving(depth, pending, script, Total(outstanding, items, ring), |ring|), items, ring))
            <==> outstanding == multiset{} || ring == [] || !Prepares(depth, pending, |ring|)
  {
    assert Sqes([]) == [];
    if outstanding == multiset{} || ring == [] || !Prepares(depth, pending, |ring|) {
      forall script: ChunkScript
        ensures Clean(Driving(depth, pending, script, Total(outstanding, items, ring), |ring|), items, ring)
      {
        if ring != [] && Launches(depth, pending, |ring|, script.submitStatus) {
          QuietWaits(script.waits, items, ring);
        }
      }
    } else {
      var x :| x in outstanding;
      IntrusionSpoils(x, outstanding, items, ring);
      var script := ChunkScript(0, Intrusion(x));
      assert Driving(depth, pending, script, Total(outstanding, items, ring), |ring|)
             == Handled(script.waits, Total(outstanding, items, ring), 4 * |ring|, |ring|);
    }
  }

  // ---------------------------------------------------------------- what stale answers do

  function Arrivals(log: seq<Cqe>): seq<Wait> {
    seq(|log|, i requires 0 <= i < |log| => Arrived(log[i]))
  }

  predicate Deliverable(log: seq<Cqe>, slots: nat) {
    forall i | 0 <= i < |log| :: Plausible(log[i]) && SlotOf(log[i]) < slots
  }

  ghost predicate Expected(log: seq<Cqe>, total: multiset<Sqe>) {
    multiset(Sqes(log)) <= total
  }

  lemma RestExpected(log: seq<Cqe>, total: multiset<Sqe>)
    requires log != [] && Expected(log, total)
    ensures log[0].sqe in total && Expected(log[1..], total - multiset{log[0].sqe})
  {
    var x, rest := log[0].sqe, Sqes(log[1..]);
    assert Sqes(log) == [x] + rest;
    assert multiset(Sqes(log)) == multiset{x} + multiset(rest);
  }

  /** The wait loop takes exactly these completions from a kernel that delivers nothing else. */
  ghost predicate Takes(log: seq<Cqe>, total: multiset<Sqe>, need: nat, slots: nat) {
    Handled(Arrivals(log), total, need, slots) == Handling(if |log| == need then Done else GaveUp, log)
  }

  lemma TakesNothing(total: multiset<Sqe>, need: nat, slots: nat)
    ensures Takes([], total, need, slots)
  {
    assert Arrivals([]) == [];
  }

  lemma TakesFirst(log: seq<Cqe>, total: multiset<Sqe>, need: nat, slots: nat)
    requires log != [] && Deliverable(log, slots) && log[0].sqe in total && need > 0
    requires Takes(log[1..], total - multiset{log[0].sqe}, need - 1, slots)
    ensures Takes(log, total, need, slots)
  {
    assert Arrivals(log)[0] == Arrived(log[0]) && Arrivals(log)[1..] == Arrivals(log[1..]);
    assert [log[0]] + log[1..] == log;
  }

  /** Any plausible answers to what the kernel may complete can come next, and the wait loop handles them. */
  lemma {:induction false} ArrivalsHandled(log: seq<Cqe>, total: multiset<Sqe>, need: nat, slots: nat)
    requires Deliverable(log, slots) && Expected(log, total) && |log| <= need
    ensures Takes(log, total, need, slots)
  {
    if log == [] {
      TakesNothing(total, need, slots);
    } else {
      RestExpected(log, total);
      ArrivalsHandled(log[1..], total - multiset{log[0].sqe}, need - 1, slots);
      TakesFirst(log, total, need, slots);
    }
  }

  /** A full set of answers to one item's chain in a slot, with no error. */
  function CleanAnswers(slot: nat, item: BatchItem, bytes: seq<Byte>): seq<Cqe> {
    [Cqe(Request(slot, OP_OPENAT, item), 0, []), Cqe(Request(slot, OP_READ, item), |bytes|, bytes),
     Cqe(Request(slot, OP_PROBE, item), 0, []), Cqe(Request(slot, OP_CLOSE, item), 0, [])]
  }

  lemma CleanAnswersFacts(slot: nat, item: BatchItem, bytes: seq<Byte>)
    requires slot < SLOT_COUNT && FitsInSlot(item) && |bytes| == item.size
    ensures var log := CleanAnswers(slot, item, bytes);
            && (forall i | 0 <= i < 4 :: OpOf(log[i]) == i && Plausible(log[i]) && SlotOf(log[i]) == slot)
            && Sqes(log) == Chain(slot, item)
  {
    var log := CleanAnswers(slot, item, bytes);
    forall i | 0 <= i < 4
      ensures OpOf(log[i]) == i && Plausible(log[i]) && SlotOf(log[i]) == slot
    {
      EncodeDecode(slot, i);
      assert log[i].sqe == Request(slot, i, item);
    }
  }

  lemma {:induction false} AllOnSlot(log: seq<Cqe>, slot: nat)
    requires forall c <- log :: SlotOf(c) == slot
    ensures OnSlot(log, slot) == log
  {
    if log != [] {
      AllOnSlot(log[..|log| - 1], slot);
    }
  }

  /** The four answers to an earlier chain of a slot make whatever item is now in the slot succeed, fed with the earlier
      file's bytes, if it has the earlier file's size. */
  lemma StaleAnswersFeed(slot: nat, earlier: BatchItem, size: nat, bytes: seq<Byte>, accepts: Acceptor, st: SlotState)
    requires slot < SLOT_COUNT && FitsInSlot(earlier) && earlier.size == size == |bytes| && Fresh(st) && accepts([], bytes)
    ensures var end := ApplyAll(size, accepts, st, OnSlot(CleanAnswers(slot, earlier, bytes), slot));
            end.success && end.errno == 0 && end.calls == [bytes]
  {
    var log := CleanAnswers(slot, earlier, bytes);
    CleanAnswersFacts(slot, earlier, bytes);
    AllOnSlot(log, slot);
    ChainOutcome(size, accepts, st, log, 0, 1, 2);
  }

  ghost predicate StaleIn(before: Scene, ring: seq<nat>, j: nat, earlier: BatchItem, bytes: seq<Byte>, accepts: nat -> Acceptor) {
    && InRange(ring, |before.items|) && j < |ring| <= SLOT_COUNT && Roomy(before.buffers) && |before.items| == |before.calls|
    && FitsInSlot(earlier) && before.items[ring[j]].size == earlier.size == |bytes| && accepts(ring[j])([], bytes)
    && Untouched(before.items[ring[j]], before.calls[ring[j]])
    && multiset(Chain(j, earlier)) <= before.outstanding && Prepares(before.depth, before.pending, |ring|)
  }

  /** The kernel may answer the earlier chain during the chunk, and the driver then handles just that. */
  lemma StaleDriving(before: Scene, ring: seq<nat>, j: nat, earlier: BatchItem, bytes: seq<Byte>, accepts: nat -> Acceptor)
    requires StaleIn(before, ring, j, earlier, bytes, accepts)
    ensures var log := CleanAnswers(j, earlier, bytes);
            Driving(before.depth, before.pending, ChunkScript(0, Arrivals(log)), Total(before.outstanding, before.items, ring), |ring|)
            == Handling(if |ring| == 1 then Done else GaveUp, log)
  {
    var log := CleanAnswers(j, earlier, bytes);
    CleanAnswersFacts(j, earlier, bytes);
    assert multiset(Sqes(log)) <= before.outstanding <= Total(before.outstanding, before.items, ring);
    ArrivalsHandled(log, Total(before.outstanding, before.items, ring), 4 * |ring|, |ring|);
  }

  /** What goes wrong, at the driver: with an earlier chain of slot j outstanding there is a kernel under which the chunk's
      item in that slot succeeds, fed with the bytes of the earlier file, while none of its own requests is answered. */
  lemma StaleAnswersFeedWrongBytes(before: Scene, mid: Scene, start: nat, count: nat, accepts: nat -> Acceptor, outcome: Driven,
                                   log: seq<Cqe>, j: nat, earlier: BatchItem, bytes: seq<Byte>)
    requires start + count <= |before.items| && StaleIn(before, RingItems(before.items, start, count), j, earlier, bytes, accepts)
    requires DrivenBy(before, mid, start, count, accepts, ChunkScript(0, Arrivals(CleanAnswers(j, earlier, bytes))), outcome, log)
    ensures log == CleanAnswers(j, earlier, bytes) && outcome != Undefined
    ensures |RingItems(before.items, start, count)| == 1 ==> outcome == Done
    ensures var i := RingItems(before.items, start, count)[j];
            && i < |mid.items| == |mid.calls| && mid.items[i].path == before.items[i].path
            && mid.items[i].success && mid.items[i].errno == 0 && mid.calls[i] == [bytes]
  {
    var ring := RingItems(before.items, start, count);
    StaleDriving(before, ring, j, earlier, bytes, accepts);
    var s0 := Snap(before.items, before.calls, seq(SLOT_COUNT, _ => 0), before.buffers);
    var b, buffers :| Follows(s0, Snap(mid.items, mid.calls, b, buffers), ring, accepts, log);
    assert SlotFollows(s0, Snap(mid.items, mid.calls, b, buffers), ring, accepts, log, j);
    StaleAnswersFeed(j, earlier, before.items[ring[j]].size, bytes, accepts(ring[j]), SlotView(s0, ring, j));
  }

  // ---------------------------------------------------------------- a run of two batches

  function Ending(ok: bool, gaveUp: bool): Driven {
    if !ok then Undefined else if gaveUp then GaveUp else Done
  }

  lemma OneOut(scenes: seq<Scene>, outs: seq<Driven>, n: nat, accepts: nat -> Acceptor, chunks: seq<ChunkScript>,
               syncs: nat -> FileScript, ok: bool, gaveUp: bool)
    requires ChunksRan(scenes, outs, n, accepts, chunks, syncs) && Ends(outs, n, ok, gaveUp) && 0 < n <= SLOT_COUNT
    ensures outs == [Ending(ok, gaveUp)]
  {
    assert ChunkAt(scenes, outs, |outs| - 1, n, accepts, chunks, syncs);
    assert outs == [outs[0]];
  }

  /** A batch of no more items than there are slots is one chunk. */
  lemma SoleChunk(before: Scene, after: Scene, n: nat, accepts: nat -> Acceptor, chunks: seq<ChunkScript>, syncs: nat -> FileScript,
                  ok: bool, gaveUp: bool)
    returns (mid: Scene, log: seq<Cqe>)
    requires BatchRan(before, after, n, accepts, chunks, syncs, ok, gaveUp) && 0 < n <= SLOT_COUNT
    ensures ChunkBy(before, mid, after, 0, n, accepts, ScriptFor(chunks, 0), syncs, Ending(ok, gaveUp), log)
  {
    var scenes, outs :| ChunksRan(scenes, outs, n, accepts, chunks, syncs) && scenes[0] == before && scenes[|outs|] == after
                        && Ends(outs, n, ok, gaveUp);
    OneOut(scenes, outs, n, accepts, chunks, syncs, ok, gaveUp);
    assert ChunkAt(scenes, outs, 0, n, accepts, chunks, syncs) && ChunkCount(n, 0) == n;
    mid, log :| ChunkBy(before, mid, after, 0, n, accepts, ScriptFor(chunks, 0), syncs, outs[0], log);
  }

  ghost predicate OneItem(scene: Scene, item: BatchItem) {
    && scene.items == [item] && scene.calls == [[]] && Untouched(item, []) && FitsInSlot(item)
    && Roomy(scene.buffers) && QUEUE_DEPTH <= scene.depth && scene.pending == 0
  }

  lemma OneItemRing(item: BatchItem)
    requires FitsInSlot(item)
    ensures RingItems([item], 0, 1) == [0] && Requests([item], [0]) == Chain(0, item)
  {
    assert RingItems([item], 0, 0) == [];
    assert [0][..0] == [] && Requests([item], []) == [];
  }

  /** A wait that fails before any completion arrives leaves the whole chain outstanding. */
  lemma FirstGivesUp(before: Scene, mid: Scene, after: Scene, item: BatchItem, accepts: nat -> Acceptor, syncs: nat -> FileScript,
                     outcome: Driven, log: seq<Cqe>)
    requires OneItem(before, item) && before.outstanding == multiset{}
    requires ChunkBy(before, mid, after, 0, 1, accepts, ChunkScript(0, [WaitFailed(EIO)]), syncs, outcome, log)
    ensures outcome == GaveUp && after.outstanding == multiset(Chain(0, item)) && after.pending == 0
  {
    OneItemRing(item);
    var total := Total(multiset{}, before.items, [0]);
    assert total == multiset(Chain(0, item));
    assert Handled([WaitFailed(EIO)], total, 4, 1) == Handling(GaveUp, []);
    assert Sqes([]) == [];
  }

  lemma FirstBatch(before: Scene, after: Scene, item: BatchItem, script: ChunkScript, accepts: nat -> Acceptor,
                   syncs: nat -> FileScript, ok: bool, gaveUp: bool)
    requires OneItem(before, item) && before.outstanding == multiset{} && script == ChunkScript(0, [WaitFailed(EIO)])
    requires BatchRan(before, after, 1, accepts, [script], syncs, ok, gaveUp)
    ensures after.outstanding == multiset(Chain(0, item)) && after.pending == 0
  {
    var mid, log := SoleChunk(before, after, 1, accepts, [script], syncs, ok, gaveUp);
    FirstGivesUp(before, mid, after, item, accepts, syncs, Ending(ok, gaveUp), log);
  }

  /** The next batch then reports its item read, fed with the earlier file. */
  lemma SecondIsWrong(before: Scene, mid: Scene, after: Scene, earlier: BatchItem, item: BatchItem, bytes: seq<Byte>,
                      accepts: nat -> Acceptor, syncs: nat -> FileScript, outcome: Driven, log: seq<Cqe>)
    requires OneItem(before, item) && before.outstanding == multiset(Chain(0, earlier))
    requires FitsInSlot(earlier) && earlier.size == item.size == |bytes| && accepts(0)([], bytes)
    requires ChunkBy(before, mid, after, 0, 1, accepts, ChunkScript(0, Arrivals(CleanAnswers(0, earlier, bytes))), syncs, outcome, log)
    ensures outcome == Done && |after.items| == |after.calls| == 1
    ensures after.items[0] == item.(success := true, errno := 0) && after.calls[0] == [bytes]
  {
    OneItemRing(item);
    StaleAnswersFeedWrongBytes(before, mid, 0, 1, accepts, outcome, log, 0, earlier, bytes);
    ChunkItem(before.items, mid.items, before.calls, mid.calls, before.buffers, 0, 1, accepts, log, 0);
  }

  lemma SecondBatch(before: Scene, after: Scene, earlier: BatchItem, item: BatchItem, bytes: seq<Byte>, script: ChunkScript,
                    accepts: nat -> Acceptor, syncs: nat -> FileScript, ok: bool, gaveUp: bool)
    requires OneItem(before, item) && before.outstanding == multiset(Chain(0, earlier))
    requires FitsInSlot(earlier) && earlier.size == item.size == |bytes| && accepts(0)([], bytes)
    requires script == ChunkScript(0, Arrivals(CleanAnswers(0, earlier, bytes)))
    requires BatchRan(before, after, 1, accepts, [script], syncs, ok, gaveUp)
    ensures |after.items| == |after.calls| == 1
    ensures after.items[0] == item.(success := true, errno := 0) && after.calls[0] == [bytes]
  {
    var mid, log := SoleChunk(before, after, 1, accepts, [script], syncs, ok, gaveUp);
    SecondIsWrong(before, mid, after, earlier, item, bytes, accepts, syncs, Ending(ok, gaveUp), log);
  }

  /** A batch of one item on a ring with nothing prepared. */
  method RunOne(ring: Ring, items: array<BatchItem>, fed: array<seq<Chunk>>, item: BatchItem, script: ChunkScript,
                accepts: nat -> Acceptor, syncs: nat -> FileScript)
    returns (ok: bool, gaveUp: bool, ghost before: Scene, ghost after: Scene)
    requires ring.Valid() && |ring.pending| == 0 && FitsInSlot(item)
    requires items.Length == fed.Length == 1 && items[0] == item && fed[0] == []
    modifies ring, ring.buffers, items, fed
    ensures ring.Valid() && after == SceneOf(ring, items, fed)
    ensures OneItem(before, item.(success := false, errno := 0)) && before.outstanding == old(ring.Outstanding())
    ensures BatchRan(before, after, 1, accepts, [script], syncs, ok, gaveUp)
  {
    before := SceneOf(ring, items, fed).(items := Reset(items[..], 1));
    assert before.items == [item.(success := false, errno := 0)] && before.calls == [[]];
    var trusted;
    ok, gaveUp, trusted := ConsumeBatch(ring, items, fed, 1, accepts, [script], syncs, false);
    after := SceneOf(ring, items, fed);
  }

  /** Two batches of one item each on one ring. The first chunk gives up on a failing wait; during the second the kernel
      answers the first one's requests. The second item is reported as read, with the bytes of the first file. */
  method TwoBatches(first: BatchItem, second: BatchItem, bytes: seq<Byte>, accepts: nat -> Acceptor, syncs: nat -> FileScript)
    returns (item: BatchItem, calls: seq<Chunk>)
    requires FitsInSlot(first) && FitsInSlot(second) && first.size == second.size == |bytes| && accepts(0)([], bytes)
    ensures item == second.(success := true, errno := 0) && calls == [bytes]
  {
    var ring := new Ring(QUEUE_DEPTH);
    var items := new BatchItem[1](_ => first);
    var fed := new seq<Chunk>[1](_ => []);
    ghost var before, after;
    var script := ChunkScript(0, [WaitFailed(EIO)]);
    var ok, gaveUp;
    ok, gaveUp, before, after := RunOne(ring, items, fed, first, script, accepts, syncs);
    FirstBatch(before, after, first.(success := false, errno := 0), script, accepts, syncs, ok, gaveUp);
    assert ring.Outstanding() == after.outstanding && |ring.pending| == after.pending;
    items[0], fed[0] := second, [];
    script := ChunkScript(0, Arrivals(CleanAnswers(0, first, bytes)));
    ok, gaveUp, before, after := RunOne(ring, items, fed, second, script, accepts, syncs);
    SecondBatch(before, after, first, second.(success := false, errno := 0), bytes, script, accepts, syncs, ok, gaveUp);
    item, calls := items[0], fed[0];
    assert item == after.items[0] && calls == after.calls[0];
  }
}
