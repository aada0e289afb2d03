// Whole batches: every chunk driven, then settled, synchronously where the ring did not decide.
module RingConsume {
  import opened Entries
  import opened StreamReader
  import opened RingSlots
  import opened RingLog
  import opened RingKernel
  import opened RingBatch
  import opened RingTurns

  ghost predicate Resolved(item: BatchItem) {
    item.success <==> item.errno == 0
  }

  /** The consumer saw exactly what one synchronous reading feeds. */
  ghost predicate SyncFed(item: BatchItem, calls: seq<Chunk>, accepts: Acceptor, sync: FileScript) {
    Reading(item.success, item.errno, calls) == Consumed(sync, accepts, [])
  }

  /** The consumer saw at most one chunk, the item's own full read. */
  ghost predicate ViaRing(item: BatchItem, calls: seq<Chunk>, accepts: Acceptor, waits: seq<Wait>) {
    FitsInSlot(item) &&
    exists slot: nat, log: seq<Cqe> :: slot < SLOT_COUNT && RingFed(item, calls, slot, accepts, log) && Heard(log, waits)
  }

  /** Resolved, and fed along one path only. */
  ghost predicate ItemDone(item: BatchItem, calls: seq<Chunk>, accepts: Acceptor, sync: FileScript, waits: seq<Wait>) {
    Resolved(item) && (SyncFed(item, calls, accepts, sync) || ViaRing(item, calls, accepts, waits))
  }

  /** An item between the ring and the settling loop; done says that the chunk took all its completions. */
  ghost predicate LeftByRing(item: BatchItem, calls: seq<Chunk>, accepts: Acceptor, waits: seq<Wait>, done: bool) {
    if FitsInSlot(item) then
      ViaRing(item, calls, accepts, waits) && (item.success ==> item.errno == 0) && (done ==> item.success || item.errno != 0)
      && (!item.success && item.errno == 0 ==> calls == [])
    else !item.success && item.errno == 0 && calls == []
  }

  lemma {:induction false} SuccessClearsErrno(size: nat, accepts: Acceptor, st: SlotState, cs: seq<Cqe>)
    requires st.success ==> st.errno == 0
    ensures var end := ApplyAll(size, accepts, st, cs); end.success ==> end.errno == 0
  {
    if cs != [] {
      SuccessClearsErrno(size, accepts, st, cs[..|cs| - 1]);
    }
  }

  /** What every chunk leaves of one item, whatever was outstanding before it. */
  lemma ChunkItem(items0: seq<BatchItem>, items: seq<BatchItem>, calls0: seq<seq<Chunk>>, calls: seq<seq<Chunk>>,
                  buffers0: seq<seq<Byte>>, start: nat, count: nat, accepts: nat -> Acceptor, log: seq<Cqe>, i: nat)
    requires start + count <= |items0| && i < |items0|
    requires ChunkEffect(items0, items, calls0, calls, buffers0, RingItems(items0, start, count), accepts, log)
    ensures |items| == |items0| && |calls| == |calls0| == |items|
    ensures items[i].path == items0[i].path && items[i].size == items0[i].size
    ensures !(start <= i < start + count && FitsInSlot(items0[i])) ==> items[i] == items0[i] && calls[i] == calls0[i]
    ensures (items0[i].success ==> items0[i].errno == 0) ==> (items[i].success ==> items[i].errno == 0)
  {
    var ring := RingItems(items0, start, count);
    RingItemsExact(items0, start, count);
    var s0 := Snap(items0, calls0, seq(SLOT_COUNT, _ => 0), buffers0);
    var bytes, buffers :| Follows(s0, Snap(items, calls, bytes, buffers), ring, accepts, log);
    if i in ring {
      var j :| 0 <= j < |ring| && ring[j] == i;
      assert SlotFollows(s0, Snap(items, calls, bytes, buffers), ring, accepts, log, j);
      if items0[i].success ==> items0[i].errno == 0 {
        SuccessClearsErrno(items0[i].size, accepts(i), SlotView(s0, ring, j), OnSlot(log, j));
      }
    }
  }

  /** A slot whose chunk's log answers only the chunk's own requests leaves its item driven. */
  lemma SlotDriven(s0: Snap, s: Snap, ring: seq<nat>, accepts: nat -> Acceptor, log: seq<Cqe>, waits: seq<Wait>, done: bool, j: nat)
    requires Follows(s0, s, ring, accepts, log) && AnswersChunk(s0.items, ring, log) && j < |ring|
    requires Roomy(s0.buffers) && s0.bytes[j] == 0 && FitsInSlot(s0.items[ring[j]])
    requires Untouched(s0.items[ring[j]], s0.calls[ring[j]])
    requires Heard(log, waits) && (done ==> |log| == 4 * |ring|)
    ensures LeftByRing(s.items[ring[j]], s.calls[ring[j]], accepts(ring[j]), waits, done)
  {
    var i, st := ring[j], SlotView(s0, ring, j);
    assert SlotFollows(s0, s, ring, accepts, log, j);
    assert Fresh(st);
    SlotOutcome(s0.items, ring, log, j, accepts(i), st, s.items[i]);
    assert RingFed(s.items[i], s.calls[i], j, accepts(i), log);
  }

  /** Every slot has its buffer. */
  ghost predicate Roomy(buffers: seq<seq<Byte>>) {
    |buffers| == SLOT_COUNT && forall j | 0 <= j < SLOT_COUNT :: |buffers[j]| == SLOT_BYTES
  }

  /** An item as a batch starts. */
  ghost predicate Untouched(item: BatchItem, calls: seq<Chunk>) {
    !item.success && item.errno == 0 && calls == []
  }

  /** Reads one item synchronously and records the result in it. */
  method FallbackSync(items: array<BatchItem>, calls: array<seq<Chunk>>, i: nat, accepts: Acceptor, sync: FileScript)
    requires i < items.Length == calls.Length
    modifies items, calls
    ensures var reading := Consumed(sync, accepts, old(calls[i]));
            && items[..] == old(items[..])[i := old(items[i]).(success := reading.ok, errno := reading.errno)]
            && calls[..] == old(calls[..])[i := reading.calls]
            && (reading.ok <==> reading.errno == 0)
  {
    var ok, errno, calls' := ConsumeFile(sync, accepts, calls[i]);
    calls[i] := calls';
    if ok {
      items[i] := items[i].(success := true, errno := 0);
    } else {
      items[i] := items[i].(success := false, errno := errno);
    }
  }

  /** An item after settling, compared with how the ring left it. */
  ghost predicate Settled(before: BatchItem, callsBefore: seq<Chunk>, after: BatchItem, callsAfter: seq<Chunk>, done: bool,
                          accepts: Acceptor, sync: FileScript) {
    if (if done then before.success || (FitsInSlot(before) && before.errno != 0) else before.success || before.errno != 0)
    then after == before && callsAfter == callsBefore
    else
      var reading := Consumed(sync, accepts, callsBefore);
      after == before.(success := reading.ok, errno := reading.errno) && callsAfter == reading.calls
      && (reading.ok <==> reading.errno == 0)
  }

  /** The chunk's items are settled, the others untouched. */
  ghost predicate SettledItems(items0: seq<BatchItem>, calls0: seq<seq<Chunk>>, items: seq<BatchItem>, calls: seq<seq<Chunk>>,
                               start: nat, count: nat, done: bool, accepts: nat -> Acceptor, syncs: nat -> FileScript) {
    && SameOutside(items0, items, calls0, calls, start, count)
    && forall i | start <= i < start + count :: Settled(items0[i], calls0[i], items[i], calls[i], done, accepts(i), syncs(i))
  }

  /** The loop after a chunk: items the ring did not decide are read synchronously. */
  method SettleChunk(items: array<BatchItem>, calls: array<seq<Chunk>>, start: nat, count: nat, done: bool,
                     accepts: nat -> Acceptor, syncs: nat -> FileScript)
    requires start + count <= items.Length == calls.Length
    modifies items, calls
    ensures SettledItems(old(items[..]), old(calls[..]), items[..], calls[..], start, count, done, accepts, syncs)
  {
    for offset := 0 to count
      invariant forall i | 0 <= i < items.Length && !(start <= i < start + offset) :: items[i] == old(items[i]) && calls[i] == old(calls[i])
      invariant forall i | start <= i < start + offset ::
                  Settled(old(items[i]), old(calls[i]), items[i], calls[i], done, accepts(i), syncs(i))
    {
      var i := start + offset;
      ghost var itemsNow, callsNow := items[..], calls[..];
      var item := items[i];
      if !done {
        if !item.success && item.errno == 0 {
          FallbackSync(items, calls, i, accepts(i), syncs(i));
        }
      } else {
        if item.success {
          continue;
        }
        if FitsInSlot(item) && item.errno != 0 {
          continue;
        }
        FallbackSync(items, calls, i, accepts(i), syncs(i));
      }
      assert forall k | 0 <= k < items.Length && k != i :: items[..][k] == itemsNow[k] && calls[..][k] == callsNow[k];
    }
  }

  lemma SettledDone(before: BatchItem, callsBefore: seq<Chunk>, after: BatchItem, callsAfter: seq<Chunk>, done: bool,
                    accepts: Acceptor, sync: FileScript, waits: seq<Wait>)
    requires LeftByRing(before, callsBefore, accepts, waits, done)
    requires Settled(before, callsBefore, after, callsAfter, done, accepts, sync)
    ensures ItemDone(after, callsAfter, accepts, sync, waits)
  {
  }

  lemma SettledResolved(before: BatchItem, callsBefore: seq<Chunk>, after: BatchItem, callsAfter: seq<Chunk>, done: bool,
                        accepts: Acceptor, sync: FileScript)
    requires before.success ==> before.errno == 0
    requires Settled(before, callsBefore, after, callsAfter, done, accepts, sync)
    ensures Resolved(after)
  {
  }

  /** A completion consistent with a file that does not change. */
  ghost predicate Stable(c: Cqe, content: seq<Byte>) {
    c.res >= 0 ==>
      if OpOf(c) == OP_READ then
        c.sqe.offset + c.res <= |content| && c.data == content[c.sqe.offset..c.sqe.offset + c.res]
      else
        OpOf(c) == OP_PROBE && c.res == 0 ==> |content| <= c.sqe.offset
  }

  ghost predicate StableWaits(waits: seq<Wait>, content: seq<Byte> -> seq<Byte>) {
    forall c | Arrived(c) in waits :: Stable(c, content(c.sqe.path))
  }

  /** Reading the file in full, whichever path serves it: the one hypothesis on synchronous reads is that none stops early. */
  ghost predicate StableSync(sync: FileScript, content: seq<Byte>) {
    Serves(content, 0, sync.events) && !CutShort(content, 0, sync.events)
  }

  lemma OneChunkFlat(chunk: Chunk)
    ensures Flat([chunk]) == chunk
  {
    FlatAppend([], chunk);
    assert [] + [chunk] == [chunk];
  }

  lemma RingPathAgrees(item: BatchItem, calls: seq<Chunk>, slot: nat, accepts: Acceptor, log: seq<Cqe>, content: seq<Byte>)
    requires slot < SLOT_COUNT && RingFed(item, calls, slot, accepts, log) && item.success
    requires forall c <- log | c.sqe.path == item.path :: Stable(c, content)
    ensures Flat(calls) == content
  {
    var r :| r in log && r.sqe == Request(slot, OP_READ, item) && r.res == item.size && calls == [r.data] && |r.data| == item.size;
    var p :| p in log && p.sqe == Request(slot, OP_PROBE, item) && p.res == 0;
    EncodeDecode(slot, OP_READ);
    EncodeDecode(slot, OP_PROBE);
    assert Stable(r, content) && Stable(p, content);
    assert |content| == item.size && r.data == content[0..|content|] == content;
    OneChunkFlat(r.data);
  }

  /** On a stable file the consumer ends up with the same bytes through the ring or synchronously. */
  lemma ReadPathsAgree(item: BatchItem, calls: seq<Chunk>, accepts: Acceptor, sync: FileScript, waits: seq<Wait>,
                       content: seq<Byte> -> seq<Byte>)
    requires ItemDone(item, calls, accepts, sync, waits) && item.success
    requires StableWaits(waits, content) && StableSync(sync, content(item.path))
    ensures Flat(calls) == content(item.path)
  {
    if SyncFed(item, calls, accepts, sync) {
      SyncReadsWhole(content(item.path), sync, accepts);
    } else {
      var slot: nat, log: seq<Cqe> :| slot < SLOT_COUNT && RingFed(item, calls, slot, accepts, log) && Heard(log, waits);
      forall c | c in log && c.sqe.path == item.path
        ensures Stable(c, content(item.path))
      {
        assert Arrived(c) in waits;
      }
      RingPathAgrees(item, calls, slot, accepts, log, content(item.path));
    }
  }

  // ---------------------------------------------------------------- when reading cannot fail

  /** How many bytes of a file there are to read. */
  function Available(content: seq<Byte>, offset: nat, length: nat): nat {
    if offset + length <= |content| then length else if offset <= |content| then |content| - offset else 0
  }

  /** An operation that does not fail: a read returns all there is. */
  predicate Obliged(c: Cqe, content: seq<Byte>) {
    && (OpOf(c) == OP_OPENAT ==> c.res >= 0)
    && (OpOf(c) == OP_READ || OpOf(c) == OP_PROBE ==> c.res == Available(content, c.sqe.offset, c.sqe.length))
  }

  /** No operation of the ring fails, and linked operations are answered in turn. */
  ghost predicate ObligingWaits(waits: seq<Wait>, content: seq<Byte> -> seq<Byte>) {
    InTurn(waits) && forall c | Arrived(c) in waits :: Obliged(c, content(c.sqe.path))
  }

  /** The file can be opened and read synchronously; reads may be interrupted. */
  predicate ObligingSync(sync: FileScript) {
    && OpenReadOnly(sync.noAtime, sync.plain).Opened?
    && forall i | 0 <= i < |sync.events| :: sync.events[i].Failed? ==> sync.events[i].errno == EINTR
  }

  ghost predicate AcceptsAll(accepts: Acceptor) {
    forall past: seq<Chunk>, chunk: Chunk :: accepts(past, chunk)
  }

  lemma OwnAnswersFine(item: BatchItem, slot: nat, accepts: Acceptor, cs: seq<Cqe>, content: seq<Byte>)
    requires FitsInSlot(item) && slot < SLOT_COUNT && |content| == item.size && AcceptsAll(accepts) && LogInTurn(cs)
    requires forall c <- cs :: OpOf(c) <= OP_CLOSE && c.sqe == Request(slot, OpOf(c), item) && Obliged(c, content)
    ensures AllFine(item.size, accepts, cs)
  {
    forall i | 0 <= i < |cs|
      ensures Fine(item.size, accepts, cs, i)
    {
      assert cs[i] in cs;
      if OpOf(cs[i]) == OP_PROBE {
        EncodeDecode(slot, OP_PROBE);
        EncodeDecode(slot, OP_READ);
        assert LoggedBefore(cs, i, ReadBehind(cs[i].sqe));
        var r :| 0 <= r < i && cs[r].sqe == ReadBehind(cs[i].sqe);
        assert OpOf(cs[r]) == OP_READ;
      }
    }
  }

  /** A resolved item that went through the ring of an obliging kernel succeeded. */
  lemma RingServed(item: BatchItem, calls: seq<Chunk>, accepts: Acceptor, waits: seq<Wait>, content: seq<Byte> -> seq<Byte>)
    requires ViaRing(item, calls, accepts, waits) && ObligingWaits(waits, content)
    requires |content(item.path)| == item.size && AcceptsAll(accepts)
    ensures item.errno == 0
  {
    var slot: nat, log: seq<Cqe> :| slot < SLOT_COUNT && RingFed(item, calls, slot, accepts, log) && Heard(log, waits);
    OnSlotInTurn(log, slot);
    forall c | c in OnSlot(log, slot)
      ensures OpOf(c) <= OP_CLOSE && c.sqe == Request(slot, OpOf(c), item) && Obliged(c, content(item.path))
    {
      assert c in log && Arrived(c) in waits;
    }
    OwnAnswersFine(item, slot, accepts, OnSlot(log, slot), content(item.path));
  }

  /** When nothing outside the program fails, no reading of a file of the recorded size does. */
  lemma ServedSucceeds(item: BatchItem, calls: seq<Chunk>, accepts: Acceptor, sync: FileScript, waits: seq<Wait>,
                       content: seq<Byte> -> seq<Byte>)
    requires ItemDone(item, calls, accepts, sync, waits)
    requires ObligingWaits(waits, content) && ObligingSync(sync) && AcceptsAll(accepts)
    requires |content(item.path)| == item.size
    ensures item.success && item.errno == 0
  {
    if SyncFed(item, calls, accepts, sync) {
      StreamSucceeds(sync.events, accepts, []);
    } else {
      RingServed(item, calls, accepts, waits, content);
    }
  }

  /** A chunk that takes all its completions hands the ring on with as much outstanding as it found. */
  lemma OutstandingConserved(before: multiset<Sqe>, after: multiset<Sqe>, log: seq<Cqe>, items: seq<BatchItem>, ring: seq<nat>)
    requires InRange(ring, |items|)
    requires after + multiset(Sqes(log)) == Total(before, items, ring)
    requires |log| == 4 * |ring|
    ensures |after| == |before|
    ensures after == multiset{} <==> before == multiset{}
  {
    assert |multiset(Sqes(log))| == |multiset(Requests(items, ring))|;
    assert |after + multiset(Sqes(log))| == |after| + |multiset(Sqes(log))|;
  }

  ghost predicate SameFiles(items0: seq<BatchItem>, items: seq<BatchItem>) {
    |items| == |items0| && forall i | 0 <= i < |items| :: items[i].path == items0[i].path && items[i].size == items0[i].size
  }

  ghost predicate SameOutside(items0: seq<BatchItem>, items: seq<BatchItem>, calls0: seq<seq<Chunk>>, calls: seq<seq<Chunk>>,
                              start: nat, count: nat) {
    && |items| == |items0| == |calls0| == |calls| && start + count <= |items|
    && forall i | 0 <= i < |items| && !(start <= i < start + count) :: items[i] == items0[i] && calls[i] == calls0[i]
  }

  /** A chunk started with nothing outstanding is driven by answers to its own requests alone, and never into undefined
      behaviour. */
  lemma QuietDrive(before: Scene, mid: Scene, start: nat, count: nat, accepts: nat -> Acceptor, script: ChunkScript,
                   outcome: Driven, log: seq<Cqe>)
    requires DrivenBy(before, mid, start, count, accepts, script, outcome, log) && count <= SLOT_COUNT
    requires before.outstanding == multiset{}
    ensures outcome != Undefined && AnswersChunk(before.items, RingItems(before.items, start, count), log)
    ensures Heard(log, script.waits)
    ensures outcome == Done ==> |log| == 4 * |RingItems(before.items, start, count)|
  {
    var r := RingItems(before.items, start, count);
    DrivingAccounted(before.depth, before.pending, script, Total(before.outstanding, before.items, r), |r|);
    QuiescentChunk(outcome, log, before.items, r, script.waits);
    QuietHeard(before.depth, before.pending, script, before.items, r);
  }

  /** What driving leaves, whatever was outstanding before. */
  lemma DriveLeaves(before: Scene, mid: Scene, start: nat, count: nat, accepts: nat -> Acceptor, script: ChunkScript,
                    outcome: Driven, log: seq<Cqe>)
    requires DrivenBy(before, mid, start, count, accepts, script, outcome, log)
    requires |before.items| == |before.calls| && forall i | start <= i < start + count :: Untouched(before.items[i], before.calls[i])
    ensures SameFiles(before.items, mid.items) && SameOutside(before.items, mid.items, before.calls, mid.calls, start, count)
    ensures forall i | start <= i < start + count :: mid.items[i].success ==> mid.items[i].errno == 0
  {
    forall i | 0 <= i < |before.items|
      ensures |mid.items| == |before.items| == |mid.calls|
      ensures mid.items[i].path == before.items[i].path && mid.items[i].size == before.items[i].size
      ensures !(start <= i < start + count) ==> mid.items[i] == before.items[i] && mid.calls[i] == before.calls[i]
      ensures start <= i < start + count ==> (mid.items[i].success ==> mid.items[i].errno == 0)
    {
      ChunkItem(before.items, mid.items, before.calls, mid.calls, before.buffers, start, count, accepts, log, i);
    }
    if |before.items| == 0 {
      var bytes, buffers :| Follows(Snap(before.items, before.calls, seq(SLOT_COUNT, _ => 0), before.buffers),
                                    Snap(mid.items, mid.calls, bytes, buffers), RingItems(before.items, start, count), accepts, log);
    }
  }

  lemma QuietDriveLeaves(before: Scene, mid: Scene, start: nat, count: nat, accepts: nat -> Acceptor, script: ChunkScript,
                         outcome: Driven, log: seq<Cqe>, i: nat)
    requires DrivenBy(before, mid, start, count, accepts, script, outcome, log) && count <= SLOT_COUNT && Roomy(before.buffers)
    requires before.outstanding == multiset{} && start <= i < start + count && |before.items| == |before.calls|
    requires Untouched(before.items[i], before.calls[i])
    ensures |mid.items| == |before.items| == |mid.calls|
    ensures LeftByRing(mid.items[i], mid.calls[i], accepts(i), script.waits, outcome == Done)
  {
    var ring := RingItems(before.items, start, count);
    QuietDrive(before, mid, start, count, accepts, script, outcome, log);
    ChunkItem(before.items, mid.items, before.calls, mid.calls, before.buffers, start, count, accepts, log, i);
    if FitsInSlot(before.items[i]) {
      RingItemsExact(before.items, start, count);
      assert i in ring;
      var j :| 0 <= j < |ring| && ring[j] == i;
      var s0 := Snap(before.items, before.calls, seq(SLOT_COUNT, _ => 0), before.buffers);
      var bytes, buffers :| Follows(s0, Snap(mid.items, mid.calls, bytes, buffers), ring, accepts, log);
      SlotDriven(s0, Snap(mid.items, mid.calls, bytes, buffers), ring, accepts, log, script.waits, outcome == Done, j);
    }
  }

  /** After a chunk. */
  ghost predicate ChunkDone(items0: seq<BatchItem>, items: seq<BatchItem>, calls0: seq<seq<Chunk>>, calls: seq<seq<Chunk>>,
                            start: nat, count: nat, accepts: nat -> Acceptor, syncs: nat -> FileScript, waits: seq<Wait>, quiet: bool) {
    && SameFiles(items0, items) && SameOutside(items0, items, calls0, calls, start, count)
    && (forall i | start <= i < start + count :: Resolved(items[i]))
    && (quiet ==> forall i | start <= i < start + count :: ItemDone(items[i], calls[i], accepts(i), syncs(i), waits))
  }

  /** How settling it moves the items. */
  ghost predicate SettledTo(mid: Scene, after: Scene, start: nat, count: nat, done: bool, accepts: nat -> Acceptor,
                            syncs: nat -> FileScript) {
    && after.outstanding == mid.outstanding && after.pending == mid.pending
    && SettledItems(mid.items, mid.calls, after.items, after.calls, start, count, done, accepts, syncs)
  }

  /** A whole chunk, by way of the scene between driving and settling. */
  ghost predicate ChunkBy(before: Scene, mid: Scene, after: Scene, start: nat, count: nat, accepts: nat -> Acceptor, script: ChunkScript,
                          syncs: nat -> FileScript, outcome: Driven, log: seq<Cqe>) {
    && DrivenBy(before, mid, start, count, accepts, script, outcome, log)
    && if outcome == Undefined then after == mid else SettledTo(mid, after, start, count, outcome == Done, accepts, syncs)
  }

  ghost predicate ChunkRan(before: Scene, after: Scene, start: nat, count: nat, accepts: nat -> Acceptor, script: ChunkScript,
                           syncs: nat -> FileScript, outcome: Driven) {
    exists mid: Scene, log: seq<Cqe> :: ChunkBy(before, mid, after, start, count, accepts, script, syncs, outcome, log)
  }

  /** What a chunk asks of the kernel. */
  ghost function ChunkRequests(items: seq<BatchItem>, start: nat, count: nat): multiset<Sqe>
    requires start + count <= |items|
  {
    multiset(Requests(items, RingItems(items, start, count)))
  }

  lemma ItemLeaves(before: Scene, mid: Scene, after: Scene, start: nat, count: nat, accepts: nat -> Acceptor, script: ChunkScript,
                   syncs: nat -> FileScript, outcome: Driven, log: seq<Cqe>, i: nat)
    requires DrivenBy(before, mid, start, count, accepts, script, outcome, log) && start <= i < start + count <= |mid.items|
    requires SettledTo(mid, after, start, count, outcome == Done, accepts, syncs)
    requires count <= SLOT_COUNT && Roomy(before.buffers) && |before.items| == |before.calls|
    requires Untouched(before.items[i], before.calls[i]) && (mid.items[i].success ==> mid.items[i].errno == 0)
    ensures Resolved(after.items[i]) && after.items[i].path == mid.items[i].path && after.items[i].size == mid.items[i].size
    ensures before.outstanding == multiset{} ==> ItemDone(after.items[i], after.calls[i], accepts(i), syncs(i), script.waits)
  {
    SettledResolved(mid.items[i], mid.calls[i], after.items[i], after.calls[i], outcome == Done, accepts(i), syncs(i));
    if before.outstanding == multiset{} {
      QuietDriveLeaves(before, mid, start, count, accepts, script, outcome, log, i);
      SettledDone(mid.items[i], mid.calls[i], after.items[i], after.calls[i], outcome == Done, accepts(i), syncs(i), script.waits);
    }
  }

  /** A chunk leaves every item resolved and the others alone, and on a quiet ring every item was fed along one path. */
  lemma ChunkLeaves(before: Scene, after: Scene, start: nat, count: nat, accepts: nat -> Acceptor, script: ChunkScript,
                    syncs: nat -> FileScript, outcome: Driven)
    requires ChunkRan(before, after, start, count, accepts, script, syncs, outcome)
    requires count <= SLOT_COUNT && Roomy(before.buffers) && |before.items| == |before.calls|
    requires forall i | start <= i < start + count :: Untouched(before.items[i], before.calls[i])
    ensures SameFiles(before.items, after.items)
    ensures outcome != Undefined ==>
              ChunkDone(before.items, after.items, before.calls, after.calls, start, count, accepts, syncs, script.waits,
                        before.outstanding == multiset{})
  {
    var mid, log :| ChunkBy(before, mid, after, start, count, accepts, script, syncs, outcome, log);
    DriveLeaves(before, mid, start, count, accepts, script, outcome, log);
    if outcome != Undefined {
      forall i | start <= i < start + count
        ensures Resolved(after.items[i]) && after.items[i].path == mid.items[i].path && after.items[i].size == mid.items[i].size
        ensures before.outstanding == multiset{} ==> ItemDone(after.items[i], after.calls[i], accepts(i), syncs(i), script.waits)
      {
        ItemLeaves(before, mid, after, start, count, accepts, script, syncs, outcome, log, i);
      }
    }
  }

  /** A chunk that takes all its completions leaves the ring as quiet as it was; one on a quiet ring is never undefined, and
      takes all its completions under a fair kernel. */
  lemma ChunkQuiet(before: Scene, after: Scene, start: nat, count: nat, accepts: nat -> Acceptor, script: ChunkScript,
                   syncs: nat -> FileScript, outcome: Driven)
    requires ChunkRan(before, after, start, count, accepts, script, syncs, outcome) && count <= SLOT_COUNT
    requires QUEUE_DEPTH <= before.depth
    ensures outcome == Done ==> (after.outstanding == multiset{} <==> before.outstanding == multiset{})
    ensures before.outstanding == multiset{} ==> outcome != Undefined
    ensures before.outstanding == multiset{} && before.pending == 0 && Fair(script, ChunkRequests(before.items, start, count)) ==>
              outcome == Done
  {
    var mid, log :| ChunkBy(before, mid, after, start, count, accepts, script, syncs, outcome, log);
    var r := RingItems(before.items, start, count);
    if outcome == Done {
      DrivingAccounted(before.depth, before.pending, script, Total(before.outstanding, before.items, r), |r|);
      OutstandingConserved(before.outstanding, mid.outstanding, log, before.items, r);
    }
    if before.outstanding == multiset{} {
      QuietDrive(before, mid, start, count, accepts, script, outcome, log);
      if before.pending == 0 && Fair(script, ChunkRequests(before.items, start, count)) {
        FairChunk(before.depth, script, before.items, r);
      }
    }
  }

  /** One chunk: driven, then settled. */
  method ProcessChunk(ring: Ring, items: array<BatchItem>, calls: array<seq<Chunk>>, start: nat, count: nat,
                      accepts: nat -> Acceptor, script: ChunkScript, syncs: nat -> FileScript)
    returns (outcome: Driven, ghost mid: Scene, ghost log: seq<Cqe>)
    requires ring.Valid() && items.Length == calls.Length && start + count <= items.Length && count <= SLOT_COUNT
    modifies ring, ring.buffers, items, calls
    ensures ring.Valid()
    ensures ChunkBy(old(SceneOf(ring, items, calls)), mid, SceneOf(ring, items, calls), start, count, accepts, script, syncs, outcome, log)
  {
    outcome, log := DriveChunk(ring, items, calls, start, count, accepts, script);
    mid := SceneOf(ring, items, calls);
    if outcome != Undefined {
      SettleChunk(items, calls, start, count, outcome == Done, accepts, syncs);
    }
  }

  /** The kernel plays fair to every chunk of the batch. */
  ghost predicate FairToBatch(items: seq<BatchItem>, n: nat, chunks: seq<ChunkScript>)
    requires n <= |items|
  {
    forall k: nat, count: nat | k * SLOT_COUNT < n && count == ChunkCount(n, k * SLOT_COUNT) ::
      Fair(ScriptFor(chunks, k), ChunkRequests(items, k * SLOT_COUNT, count))
  }

  function ChunkCount(n: nat, processed: nat): (count: nat)
    requires processed <= n
    ensures processed + count <= n && count <= SLOT_COUNT
  {
    if n - processed < SLOT_COUNT then n - processed else SLOT_COUNT
  }

  lemma {:induction false} RingItemsShifted(items: seq<BatchItem>, items': seq<BatchItem>, start: nat, count: nat)
    requires start + count <= |items| && start + count <= |items'|
    requires forall i | start <= i < start + count :: items'[i].path == items[i].path && items'[i].size == items[i].size
    ensures RingItems(items', start, count) == RingItems(items, start, count)
  {
    if count > 0 {
      RingItemsShifted(items, items', start, count - 1);
    }
  }

  lemma {:induction false} RequestsShifted(items: seq<BatchItem>, items': seq<BatchItem>, ring: seq<nat>)
    requires InRange(ring, |items|) && InRange(ring, |items'|)
    requires forall j | 0 <= j < |ring| :: items'[ring[j]].path == items[ring[j]].path && items'[ring[j]].size == items[ring[j]].size
    ensures Requests(items', ring) == Requests(items, ring)
  {
    if ring != [] {
      RequestsShifted(items, items', ring[..|ring| - 1]);
    }
  }

  /** What a chunk asks of the kernel depends on nothing but the paths and sizes of its items. */
  lemma ChunkRequestsSame(items: seq<BatchItem>, items': seq<BatchItem>, start: nat, count: nat)
    requires start + count <= |items| && start + count <= |items'|
    requires forall i | start <= i < start + count :: items'[i].path == items[i].path && items'[i].size == items[i].size
    ensures ChunkRequests(items', start, count) == ChunkRequests(items, start, count)
  {
    var ring := RingItems(items, start, count);
    RingItemsShifted(items, items', start, count);
    RingItemsExact(items, start, count);
    forall j | 0 <= j < |ring|
      ensures items'[ring[j]].path == items[ring[j]].path && items'[ring[j]].size == items[ring[j]].size
    {
      assert ring[j] in ring;
    }
    RequestsShifted(items, items', ring);
  }

  lemma FairNow(items0: seq<BatchItem>, items: seq<BatchItem>, n: nat, processed: nat, chunks: seq<ChunkScript>)
    requires SameFiles(items0, items) && processed < n <= |items| && processed % SLOT_COUNT == 0
    requires FairToBatch(items0, n, chunks)
    ensures Fair(ScriptFor(chunks, processed / SLOT_COUNT), ChunkRequests(items, processed, ChunkCount(n, processed)))
  {
    var k := processed / SLOT_COUNT;
    assert processed == k * SLOT_COUNT;
    ChunkRequestsSame(items0, items, processed, ChunkCount(n, processed));
  }

  function ScriptFor(chunks: seq<ChunkScript>, k: nat): ChunkScript {
    if k < |chunks| then chunks[k] else ChunkScript(-1, [])
  }

  /** The batch after its first processed items; quiet says that nothing was outstanding when the batch began. */
  ghost predicate BatchSoFar(items0: seq<BatchItem>, items: seq<BatchItem>, calls: seq<seq<Chunk>>, processed: nat, trusted: nat, n: nat,
                             accepts: nat -> Acceptor, syncs: nat -> FileScript, chunks: seq<ChunkScript>, quiet: bool) {
    && SameFiles(items0, items) && |calls| == |items| && trusted <= processed <= n <= |items|
    && (forall i | processed <= i < n :: Untouched(items[i], calls[i]))
    && (forall i | 0 <= i < processed :: Resolved(items[i]))
    && (quiet ==> forall i | 0 <= i < trusted ::
          ItemDone(items[i], calls[i], accepts(i), syncs(i), ScriptFor(chunks, i / SLOT_COUNT).waits))
  }

  lemma BatchStarts(items0: seq<BatchItem>, items: seq<BatchItem>, calls: seq<seq<Chunk>>, n: nat, accepts: nat -> Acceptor,
                    syncs: nat -> FileScript, chunks: seq<ChunkScript>, quiet: bool)
    requires SameFiles(items0, items) && n <= |items| == |calls|
    requires forall i | 0 <= i < n :: Untouched(items[i], calls[i])
    ensures BatchSoFar(items0, items, calls, 0, 0, n, accepts, syncs, chunks, quiet)
  {
  }

  lemma BatchStep(items0: seq<BatchItem>, items: seq<BatchItem>, items': seq<BatchItem>, calls: seq<seq<Chunk>>,
                  calls': seq<seq<Chunk>>, processed: nat, count: nat, trusted: nat, n: nat, accepts: nat -> Acceptor,
                  syncs: nat -> FileScript, chunks: seq<ChunkScript>, quiet: bool, quietNow: bool)
    requires BatchSoFar(items0, items, calls, processed, trusted, n, accepts, syncs, chunks, quiet)
    requires processed % SLOT_COUNT == 0 && count <= SLOT_COUNT && processed + count <= n
    requires ChunkDone(items, items', calls, calls', processed, count, accepts, syncs,
                       ScriptFor(chunks, processed / SLOT_COUNT).waits, quietNow)
    ensures BatchSoFar(items0, items', calls', processed + count, trusted, n, accepts, syncs, chunks, quiet)
    ensures (quiet ==> quietNow) && trusted == processed ==>
              BatchSoFar(items0, items', calls', processed + count, processed + count, n, accepts, syncs, chunks, quiet)
  {
    forall i | processed <= i < processed + count
      ensures i / SLOT_COUNT == processed / SLOT_COUNT
    {
    }
  }

  function Reset(items: seq<BatchItem>, n: nat): seq<BatchItem> {
    seq(|items|, i requires 0 <= i < |items| => if i < n then items[i].(success := false, errno := 0) else items[i])
  }

  method ResetItems(items: array<BatchItem>, n: nat)
    requires n <= items.Length
    modifies items
    ensures items[..] == Reset(old(items[..]), n)
  {
    ghost var before := items[..];
    for i := 0 to n
      invariant items[..] == Reset(before, i)
    {
      items[i] := items[i].(success := false, errno := 0);
    }
  }

  /** How far a batch is: until a chunk gives up everything is trusted and the ring is as quiet as it was. */
  ghost predicate Progress(processed: nat, trusted: nat, n: nat, gaveUp: bool, quiet: bool, quietNow: bool, fair: bool) {
    && trusted <= processed <= n && (processed % SLOT_COUNT == 0 || processed == n)
    && (!gaveUp ==> trusted == processed && (quietNow <==> quiet))
    && (gaveUp ==> 0 < processed && (n <= SLOT_COUNT ==> trusted == processed == n))
    && (quiet && fair ==> !gaveUp)
  }

  lemma ProgressStep(processed: nat, trusted: nat, n: nat, gaveUp: bool, quiet: bool, quietNow: bool, fair: bool, outcome: Driven,
                     quietNext: bool)
    requires Progress(processed, trusted, n, gaveUp, quiet, quietNow, fair) && processed < n && outcome != Undefined
    requires outcome == Done ==> (quietNext <==> quietNow)
    requires quietNow && fair ==> outcome == Done
    ensures var next := processed + ChunkCount(n, processed);
            Progress(next, if gaveUp then trusted else next, n, gaveUp || outcome == GaveUp, quiet, quietNext, fair)
  {
  }

  /** A quiet ring has no entries prepared. */
  lemma QuietIsEmpty(inFlight: multiset<Sqe>, pending: seq<Sqe>)
    ensures inFlight + multiset(pending) == multiset{} ==> |pending| == 0
  {
    if pending != [] {
      assert pending[0] in multiset(pending);
      assert pending[0] in inFlight + multiset(pending);
    }
  }

  ghost predicate Working(now: Scene) {
    Roomy(now.buffers) && QUEUE_DEPTH <= now.depth && (now.outstanding == multiset{} ==> now.pending == 0)
  }

  lemma RingWorks(ring: Ring, items: array<BatchItem>, calls: array<seq<Chunk>>)
    requires ring.Valid()
    ensures Working(SceneOf(ring, items, calls))
  {
    QuietIsEmpty(ring.inFlight, ring.pending);
  }

  /** The items of a batch that its first k chunks cover. */
  function Upto(n: nat, k: nat): nat {
    if k * SLOT_COUNT < n then k * SLOT_COUNT else n
  }

  /** Chunk k of a batch leads from one scene to the next. */
  ghost predicate ChunkAt(scenes: seq<Scene>, outs: seq<Driven>, k: nat, n: nat, accepts: nat -> Acceptor, chunks: seq<ChunkScript>,
                          syncs: nat -> FileScript) {
    k < |outs| && k + 1 < |scenes| && k * SLOT_COUNT < n &&
    ChunkRan(scenes[k], scenes[k + 1], k * SLOT_COUNT, ChunkCount(n, k * SLOT_COUNT), accepts, ScriptFor(chunks, k), syncs, outs[k])
  }

  /** A batch as the chunks it runs, one after another, from scene to scene. */
  ghost predicate ChunksRan(scenes: seq<Scene>, outs: seq<Driven>, n: nat, accepts: nat -> Acceptor, chunks: seq<ChunkScript>,
                            syncs: nat -> FileScript) {
    |scenes| == |outs| + 1 && forall k: nat | k < |outs| :: ChunkAt(scenes, outs, k, n, accepts, chunks, syncs)
  }

  ghost predicate AllWorking(scenes: seq<Scene>) {
    forall k | 0 <= k < |scenes| :: Working(scenes[k])
  }

  lemma ChunksRanStep(scenes: seq<Scene>, outs: seq<Driven>, now: Scene, mid: Scene, next: Scene, at: nat, count: nat,
                      script: ChunkScript, out: Driven, log: seq<Cqe>, n: nat, accepts: nat -> Acceptor, chunks: seq<ChunkScript>,
                      syncs: nat -> FileScript)
    requires ChunksRan(scenes, outs, n, accepts, chunks, syncs) && at == |outs| * SLOT_COUNT < n && count == ChunkCount(n, at)
    requires now == scenes[|outs|] && script == ScriptFor(chunks, |outs|)
    requires ChunkBy(now, mid, next, at, count, accepts, script, syncs, out, log)
    ensures ChunksRan(scenes + [next], outs + [out], n, accepts, chunks, syncs)
  {
    forall k: nat | k < |outs| + 1
      ensures ChunkAt(scenes + [next], outs + [out], k, n, accepts, chunks, syncs)
    {
      if k < |outs| {
        assert ChunkAt(scenes, outs, k, n, accepts, chunks, syncs);
      }
    }
  }

  /** What chunk k leaves, whatever was outstanding, and what more on a quiet ring. */
  ghost predicate LeavesAt(scenes: seq<Scene>, outs: seq<Driven>, k: nat, n: nat, accepts: nat -> Acceptor, chunks: seq<ChunkScript>,
                           syncs: nat -> FileScript) {
    k < |outs| && k + 1 < |scenes| && k * SLOT_COUNT < n &&
    var now, next, at := scenes[k], scenes[k + 1], k * SLOT_COUNT;
    && SameFiles(now.items, next.items)
    && (outs[k] != Undefined ==>
          ChunkDone(now.items, next.items, now.calls, next.calls, at, ChunkCount(n, at), accepts, syncs, ScriptFor(chunks, k).waits,
                    now.outstanding == multiset{}))
    && (outs[k] == Done ==> (next.outstanding == multiset{} <==> now.outstanding == multiset{}))
    && (now.outstanding == multiset{} ==> outs[k] != Undefined)
    && (now.outstanding == multiset{} && n <= |now.items| ==>
          Fair(ScriptFor(chunks, k), ChunkRequests(now.items, at, ChunkCount(n, at))) ==> outs[k] == Done)
  }

  lemma ChunkAtLeaves(scenes: seq<Scene>, outs: seq<Driven>, k: nat, n: nat, accepts: nat -> Acceptor, chunks: seq<ChunkScript>,
                      syncs: nat -> FileScript)
    requires ChunkAt(scenes, outs, k, n, accepts, chunks, syncs) && Working(scenes[k]) && |scenes[k].items| == |scenes[k].calls|
    requires forall i | k * SLOT_COUNT <= i < n <= |scenes[k].items| :: Untouched(scenes[k].items[i], scenes[k].calls[i])
    requires n <= |scenes[k].items|
    ensures LeavesAt(scenes, outs, k, n, accepts, chunks, syncs)
  {
    var at := k * SLOT_COUNT;
    ChunkLeaves(scenes[k], scenes[k + 1], at, ChunkCount(n, at), accepts, ScriptFor(chunks, k), syncs, outs[k]);
    ChunkQuiet(scenes[k], scenes[k + 1], at, ChunkCount(n, at), accepts, ScriptFor(chunks, k), syncs, outs[k]);
  }

  /** The items up to the end of the first chunk that gave up, or of all chunks. */
  function Trusted(outs: seq<Driven>, n: nat): nat {
    if outs == [] then 0
    else if GaveUp in outs[..|outs| - 1] then Trusted(outs[..|outs| - 1], n)
    else Upto(n, |outs|)
  }

  lemma TrustedStep(outs: seq<Driven>, out: Driven, n: nat)
    ensures Trusted(outs + [out], n) == if GaveUp in outs then Trusted(outs, n) else Upto(n, |outs| + 1)
  {
    assert (outs + [out])[..|outs|] == outs;
  }

  /** Everything known of a batch after its first k chunks. */
  ghost predicate BatchState(items0: seq<BatchItem>, scenes: seq<Scene>, outs: seq<Driven>, k: nat, n: nat, fair: bool,
                             accepts: nat -> Acceptor, chunks: seq<ChunkScript>, syncs: nat -> FileScript)
    requires k <= |outs| < |scenes|
  {
    var trusted, quiet := Trusted(outs[..k], n), scenes[0].outstanding == multiset{};
    && Progress(Upto(n, k), trusted, n, GaveUp in outs[..k], quiet, scenes[k].outstanding == multiset{}, fair)
    && BatchSoFar(items0, scenes[k].items, scenes[k].calls, Upto(n, k), trusted, n, accepts, syncs, chunks, quiet)
  }

  lemma {:induction false} BatchUpto(items0: seq<BatchItem>, scenes: seq<Scene>, outs: seq<Driven>, k: nat, n: nat, fair: bool,
                                     accepts: nat -> Acceptor, chunks: seq<ChunkScript>, syncs: nat -> FileScript)
    requires ChunksRan(scenes, outs, n, accepts, chunks, syncs) && AllWorking(scenes) && k <= |outs| && Undefined !in outs[..k]
    requires n <= |items0| && (fair ==> FairToBatch(items0, n, chunks))
    requires BatchState(items0, scenes, outs, 0, n, fair, accepts, chunks, syncs)
    ensures BatchState(items0, scenes, outs, k, n, fair, accepts, chunks, syncs)
  {
    if k > 0 {
      assert outs[..k] == outs[..k - 1] + [outs[k - 1]];
      BatchUpto(items0, scenes, outs, k - 1, n, fair, accepts, chunks, syncs);
      StateLeaves(items0, scenes, outs, k - 1, n, fair, accepts, chunks, syncs);
      BatchNext(items0, scenes, outs, k - 1, n, fair, accepts, chunks, syncs);
    }
  }

  lemma StateLeaves(items0: seq<BatchItem>, scenes: seq<Scene>, outs: seq<Driven>, k: nat, n: nat, fair: bool,
                    accepts: nat -> Acceptor, chunks: seq<ChunkScript>, syncs: nat -> FileScript)
    requires ChunksRan(scenes, outs, n, accepts, chunks, syncs) && AllWorking(scenes) && k < |outs|
    requires BatchState(items0, scenes, outs, k, n, fair, accepts, chunks, syncs)
    ensures LeavesAt(scenes, outs, k, n, accepts, chunks, syncs)
  {
    assert ChunkAt(scenes, outs, k, n, accepts, chunks, syncs);
    ChunkAtLeaves(scenes, outs, k, n, accepts, chunks, syncs);
  }

  lemma BatchNext(items0: seq<BatchItem>, scenes: seq<Scene>, outs: seq<Driven>, k: nat, n: nat, fair: bool,
                  accepts: nat -> Acceptor, chunks: seq<ChunkScript>, syncs: nat -> FileScript)
    requires LeavesAt(scenes, outs, k, n, accepts, chunks, syncs) && |scenes| == |outs| + 1
    requires n <= |items0| && (fair ==> FairToBatch(items0, n, chunks))
    requires BatchState(items0, scenes, outs, k, n, fair, accepts, chunks, syncs)
    ensures SameFiles(items0, scenes[k + 1].items)
    ensures outs[k] != Undefined ==> BatchState(items0, scenes, outs, k + 1, n, fair, accepts, chunks, syncs)
    ensures outs[k] == Undefined && scenes[0].outstanding == multiset{} ==> GaveUp in outs[..k] && n > SLOT_COUNT
  {
    var at, now, next, quiet := k * SLOT_COUNT, scenes[k], scenes[k + 1], scenes[0].outstanding == multiset{};
    var trusted, gaveUp := Trusted(outs[..k], n), GaveUp in outs[..k];
    assert at / SLOT_COUNT == k && Upto(n, k) == at && Upto(n, k + 1) == at + ChunkCount(n, at);
    assert outs[..k + 1] == outs[..k] + [outs[k]];
    TrustedStep(outs[..k], outs[k], n);
    if outs[k] != Undefined {
      if fair {
        FairNow(items0, now.items, n, at, chunks);
      }
      BatchStep(items0, now.items, next.items, now.calls, next.calls, at, ChunkCount(n, at), trusted, n, accepts, syncs, chunks,
                quiet, now.outstanding == multiset{});
      ProgressStep(at, trusted, n, gaveUp, quiet, now.outstanding == multiset{}, fair, outs[k], next.outstanding == multiset{});
    }
  }

  /** A batch goes on to its end, or to the first chunk that meets an unassigned slot. */
  ghost predicate Ends(outs: seq<Driven>, n: nat, ok: bool, gaveUp: bool) {
    && (ok <==> Undefined !in outs) && (gaveUp <==> GaveUp in outs)
    && if ok then Upto(n, |outs|) == n else outs != [] && outs[|outs| - 1] == Undefined && Undefined !in outs[..|outs| - 1]
  }

  /** How a batch goes: its chunks, one after another. */
  ghost predicate BatchRan(before: Scene, after: Scene, n: nat, accepts: nat -> Acceptor, chunks: seq<ChunkScript>,
                           syncs: nat -> FileScript, ok: bool, gaveUp: bool) {
    exists scenes, outs ::
      ChunksRan(scenes, outs, n, accepts, chunks, syncs) && scenes[0] == before && scenes[|outs|] == after && Ends(outs, n, ok, gaveUp)
  }

  /** Runs the next chunk of a batch. */
  method RunNext(ring: Ring, items: array<BatchItem>, calls: array<seq<Chunk>>, n: nat, processed: nat, count: nat,
                 accepts: nat -> Acceptor, chunks: seq<ChunkScript>, syncs: nat -> FileScript,
                 ghost scenes: seq<Scene>, ghost outs: seq<Driven>)
    returns (outcome: Driven)
    requires ring.Valid() && processed < n <= items.Length == calls.Length && count == ChunkCount(n, processed)
    requires processed == |outs| * SLOT_COUNT
    requires ChunksRan(scenes, outs, n, accepts, chunks, syncs) && scenes[|outs|] == SceneOf(ring, items, calls)
    modifies ring, ring.buffers, items, calls
    ensures ring.Valid()
    ensures ChunksRan(scenes + [SceneOf(ring, items, calls)], outs + [outcome], n, accepts, chunks, syncs)
  {
    ghost var now := SceneOf(ring, items, calls);
    var script := ScriptFor(chunks, processed / SLOT_COUNT);
    ghost var mid, log;
    outcome, mid, log := ProcessChunk(ring, items, calls, processed, count, accepts, script, syncs);
    ghost var next := SceneOf(ring, items, calls);
    ChunksRanStep(scenes, outs, now, mid, next, processed, count, script, outcome, log, n, accepts, chunks, syncs);
  }

  /** The chunks of a batch, one after another. */
  method ConsumeChunks(ring: Ring, items: array<BatchItem>, calls: array<seq<Chunk>>, n: nat, accepts: nat -> Acceptor,
                       chunks: seq<ChunkScript>, syncs: nat -> FileScript)
    returns (ok: bool, gaveUp: bool, trusted: nat, ghost scenes: seq<Scene>, ghost outs: seq<Driven>)
    requires ring.Valid() && n <= items.Length == calls.Length
    modifies ring, ring.buffers, items, calls
    ensures ring.Valid() && ChunksRan(scenes, outs, n, accepts, chunks, syncs) && AllWorking(scenes)
    ensures scenes[0] == old(SceneOf(ring, items, calls)) && scenes[|outs|] == SceneOf(ring, items, calls)
    ensures Ends(outs, n, ok, gaveUp) && (ok ==> trusted == Trusted(outs, n))
  {
    scenes, outs := [SceneOf(ring, items, calls)], [];
    var processed := 0;
    ok, gaveUp, trusted := true, false, 0;
    RingWorks(ring, items, calls);
    while processed < n
      invariant ring.Valid() && ChunksRan(scenes, outs, n, accepts, chunks, syncs) && AllWorking(scenes)
      invariant scenes[0] == old(SceneOf(ring, items, calls)) && scenes[|outs|] == SceneOf(ring, items, calls)
      invariant processed == Upto(n, |outs|) && trusted == Trusted(outs, n) && gaveUp == (GaveUp in outs) && Undefined !in outs
    {
      var count := ChunkCount(n, processed);
      var outcome := RunNext(ring, items, calls, n, processed, count, accepts, chunks, syncs, scenes, outs);
      RingWorks(ring, items, calls);
      TrustedStep(outs, outcome, n);
      assert (outs + [outcome])[..|outs|] == outs;
      scenes, outs := scenes + [SceneOf(ring, items, calls)], outs + [outcome];
      if outcome == Undefined {
        return false, gaveUp, trusted, scenes, outs;
      }
      processed := processed + count;
      if !gaveUp {
        trusted := processed;
      }
      gaveUp := gaveUp || outcome == GaveUp;
    }
  }

  lemma BatchBegins(items0: seq<BatchItem>, scenes: seq<Scene>, outs: seq<Driven>, n: nat, fair: bool,
                    accepts: nat -> Acceptor, chunks: seq<ChunkScript>, syncs: nat -> FileScript)
    requires |scenes| == |outs| + 1
    requires BatchSoFar(items0, scenes[0].items, scenes[0].calls, 0, 0, n, accepts, syncs, chunks, scenes[0].outstanding == multiset{})
    ensures BatchState(items0, scenes, outs, 0, n, fair, accepts, chunks, syncs)
  {
    assert outs[..0] == [];
  }

  /** A batch that meets an unassigned slot started on a ring with something outstanding, or after a chunk gave up. */
  lemma BatchFails(items0: seq<BatchItem>, scenes: seq<Scene>, outs: seq<Driven>, k: nat, n: nat, fair: bool,
                   accepts: nat -> Acceptor, chunks: seq<ChunkScript>, syncs: nat -> FileScript)
    requires ChunksRan(scenes, outs, n, accepts, chunks, syncs) && AllWorking(scenes)
    requires |outs| == k + 1 && outs[k] == Undefined && Undefined !in outs[..k]
    requires n <= |items0| && (fair ==> FairToBatch(items0, n, chunks))
    requires BatchState(items0, scenes, outs, 0, n, fair, accepts, chunks, syncs)
    ensures SameFiles(items0, scenes[|outs|].items)
    ensures scenes[0].outstanding == multiset{} ==> GaveUp in outs && n > SLOT_COUNT && !fair
  {
    BatchUpto(items0, scenes, outs, k, n, fair, accepts, chunks, syncs);
    StateLeaves(items0, scenes, outs, k, n, fair, accepts, chunks, syncs);
    BatchNext(items0, scenes, outs, k, n, fair, accepts, chunks, syncs);
    assert outs == outs[..k] + [outs[k]];
  }

  lemma BatchEnds(items0: seq<BatchItem>, scenes: seq<Scene>, outs: seq<Driven>, n: nat, fair: bool,
                  accepts: nat -> Acceptor, chunks: seq<ChunkScript>, syncs: nat -> FileScript, ok: bool, gaveUp: bool)
    requires ChunksRan(scenes, outs, n, accepts, chunks, syncs) && AllWorking(scenes) && Ends(outs, n, ok, gaveUp)
    requires n <= |items0| && (fair ==> FairToBatch(items0, n, chunks))
    requires BatchSoFar(items0, scenes[0].items, scenes[0].calls, 0, 0, n, accepts, syncs, chunks, scenes[0].outstanding == multiset{})
    ensures SameFiles(items0, scenes[|outs|].items)
    ensures ok ==> BatchState(items0, scenes, outs, |outs|, n, fair, accepts, chunks, syncs)
    ensures !ok && scenes[0].outstanding == multiset{} ==> gaveUp && n > SLOT_COUNT && !fair
  {
    BatchBegins(items0, scenes, outs, n, fair, accepts, chunks, syncs);
    if ok {
      assert outs[..|outs|] == outs;
      BatchUpto(items0, scenes, outs, |outs|, n, fair, accepts, chunks, syncs);
    } else {
      BatchFails(items0, scenes, outs, |outs| - 1, n, fair, accepts, chunks, syncs);
    }
  }

  /** A whole batch: reset, then chunk by chunk. trusted counts the items up to the end of the first chunk that gave up, or
      all of them. ok is false only after a chunk met an unassigned slot, from where the program's behaviour is undefined.
      fair says that the kernel plays fair to every chunk, and then none gives up. */
  method ConsumeBatch(ring: Ring, items: array<BatchItem>, calls: array<seq<Chunk>>, n: nat, accepts: nat -> Acceptor,
                      chunks: seq<ChunkScript>, syncs: nat -> FileScript, ghost fair: bool)
    returns (ok: bool, gaveUp: bool, trusted: nat)
    requires ring.Valid() && n <= items.Length == calls.Length
    requires fair ==> FairToBatch(items[..], n, chunks)
    requires forall i | 0 <= i < n :: calls[i] == []
    modifies ring, ring.buffers, items, calls
    ensures ring.Valid() && SameFiles(old(items[..]), items[..])
    ensures BatchRan(old(SceneOf(ring, items, calls)).(items := Reset(old(items[..]), n)), SceneOf(ring, items, calls), n, accepts,
                     chunks, syncs, ok, gaveUp)
    ensures ok ==> trusted <= n && forall i | 0 <= i < n :: Resolved(items[i])
    ensures ok && old(ring.Outstanding()) == multiset{} ==>
              forall i | 0 <= i < trusted ::
                ItemDone(items[i], calls[i], accepts(i), syncs(i), ScriptFor(chunks, i / SLOT_COUNT).waits)
    ensures old(ring.Outstanding()) == multiset{} && (!gaveUp || n <= SLOT_COUNT) ==> ok && trusted == n
    ensures ok && !gaveUp ==> (ring.Outstanding() == multiset{} <==> old(ring.Outstanding()) == multiset{})
    ensures old(ring.Outstanding()) == multiset{} && fair ==> ok && !gaveUp
  {
    ghost var items0 := items[..];
    ResetItems(items, n);
    BatchStarts(items0, items[..], calls[..], n, accepts, syncs, chunks, ring.Outstanding() == multiset{});
    ghost var scenes, outs;
    ok, gaveUp, trusted, scenes, outs := ConsumeChunks(ring, items, calls, n, accepts, chunks, syncs);
    BatchEnds(items0, scenes, outs, n, fair, accepts, chunks, syncs, ok, gaveUp);
    assert outs[..|outs|] == outs;
  }
}
