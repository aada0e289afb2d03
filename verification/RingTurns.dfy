// The order of answers: a kernel that keeps the order of linked requests answers every read before the probe behind it, and
// then so does what a quiet chunk handles.
module RingTurns {
  import opened Sequences
  import opened RingSlots
  import opened RingLog
  import opened RingKernel
  import opened RingBatch

  /** The read that a probe comes after in its chain. */
  function ReadBehind(probe: Sqe): Sqe {
    Sqe(EncodeUserData(DecodeSlot(probe.userData), OP_READ), probe.path, probe.offset, 0)
  }

  predicate Answers(event: Wait, x: Sqe) {
    event.Arrived? && Plausible(event.cqe) && event.cqe.sqe == x
  }

  predicate AnswersProbe(event: Wait) {
    event.Arrived? && Plausible(event.cqe) && OpOf(event.cqe) == OP_PROBE
  }

  /** No probe is answered before the read it is linked behind. */
  ghost predicate InTurn(waits: seq<Wait>) {
    forall i | 0 <= i < |waits| && AnswersProbe(waits[i]) :: AnsweredBefore(waits, i, ReadBehind(waits[i].cqe.sqe))
  }

  ghost predicate AnsweredBefore(waits: seq<Wait>, i: nat, x: Sqe)
    requires i <= |waits|
  {
    exists r :: 0 <= r < i && Answers(waits[r], x)
  }

  ghost predicate LoggedBefore(log: seq<Cqe>, k: nat, x: Sqe)
    requires k <= |log|
  {
    exists r :: 0 <= r < k && log[r].sqe == x
  }

  ghost predicate LogInTurn(log: seq<Cqe>) {
    forall k | 0 <= k < |log| && OpOf(log[k]) == OP_PROBE :: LoggedBefore(log, k, ReadBehind(log[k].sqe))
  }

  /** What was handled arrived, and in turn if it arrived in turn. */
  ghost predicate Heard(log: seq<Cqe>, waits: seq<Wait>) {
    && (forall c <- log :: Plausible(c) && Arrived(c) in waits)
    && (InTurn(waits) ==> LogInTurn(log))
  }

  /** InTurn, as far as reads that are still in flight go. */
  ghost predicate TurnsLeft(waits: seq<Wait>, inFlight: multiset<Sqe>) {
    forall i | 0 <= i < |waits| && AnswersProbe(waits[i]) && ReadBehind(waits[i].cqe.sqe) in inFlight ::
      AnsweredBefore(waits, i, ReadBehind(waits[i].cqe.sqe))
  }

  ghost predicate LogTurnsLeft(log: seq<Cqe>, inFlight: multiset<Sqe>) {
    forall k | 0 <= k < |log| && OpOf(log[k]) == OP_PROBE && ReadBehind(log[k].sqe) in inFlight ::
      LoggedBefore(log, k, ReadBehind(log[k].sqe))
  }

  ghost predicate AtMostOnce(inFlight: multiset<Sqe>) {
    forall x :: inFlight[x] <= 1
  }

  /** The first event does not answer a read that stays in flight. */
  lemma TurnsStep(waits: seq<Wait>, inFlight: multiset<Sqe>, left: multiset<Sqe>)
    requires waits != [] && TurnsLeft(waits, inFlight) && left <= inFlight
    requires forall x | x in left :: !Answers(waits[0], x)
    ensures TurnsLeft(waits[1..], left)
  {
    var rest := waits[1..];
    forall i | 0 <= i < |rest| && AnswersProbe(rest[i]) && ReadBehind(rest[i].cqe.sqe) in left
      ensures AnsweredBefore(rest, i, ReadBehind(rest[i].cqe.sqe))
    {
      var x := ReadBehind(rest[i].cqe.sqe);
      assert waits[i + 1] == rest[i] && x in inFlight;
      assert AnsweredBefore(waits, i + 1, x);
      var r :| 0 <= r < i + 1 && Answers(waits[r], x);
      assert rest[r - 1] == waits[r];
    }
  }

  lemma LogStep(c: Cqe, log: seq<Cqe>, inFlight: multiset<Sqe>)
    requires LogTurnsLeft(log, inFlight - multiset{c.sqe}) && AtMostOnce(inFlight)
    requires OpOf(c) == OP_PROBE ==> ReadBehind(c.sqe) !in inFlight
    ensures LogTurnsLeft([c] + log, inFlight)
  {
    var all := [c] + log;
    forall k | 0 <= k < |all| && OpOf(all[k]) == OP_PROBE && ReadBehind(all[k].sqe) in inFlight
      ensures LoggedBefore(all, k, ReadBehind(all[k].sqe))
    {
      var x := ReadBehind(all[k].sqe);
      if x == c.sqe {
        assert all[0].sqe == x;
      } else {
        assert log[k - 1] == all[k];
        assert LoggedBefore(log, k - 1, x);
        var r :| 0 <= r < k - 1 && log[r].sqe == x;
        assert all[r + 1] == log[r];
      }
    }
  }

  /** The wait loop handles a probe only after the read behind it, if that read is in flight at all, each request once. */
  lemma {:induction false} HandledInTurn(waits: seq<Wait>, inFlight: multiset<Sqe>, need: nat, slots: nat)
    requires TurnsLeft(waits, inFlight) && AtMostOnce(inFlight)
    ensures LogTurnsLeft(Handled(waits, inFlight, need, slots).log, inFlight)
  {
    if need > 0 && waits != [] {
      if Skipped(waits[0], inFlight) {
        TurnsStep(waits, inFlight, inFlight);
        HandledInTurn(waits[1..], inFlight, need, slots);
      } else if waits[0].Arrived? {
        var c := waits[0].cqe;
        var left := inFlight - multiset{c.sqe};
        assert !AnsweredBefore(waits, 0, ReadBehind(c.sqe));
        TurnsStep(waits, inFlight, left);
        HandledInTurn(waits[1..], left, need - 1, slots);
        LogStep(c, Handled(waits[1..], left, need - 1, slots).log, inFlight);
      }
    }
  }

  /** A chunk requests the read behind each of its probes. */
  lemma OwnRead(items: seq<BatchItem>, ring: seq<nat>, x: Sqe)
    requires InRange(ring, |items|) && |ring| <= SLOT_COUNT
    requires x in Requests(items, ring) && DecodeOperation(x.userData) == OP_PROBE
    ensures ReadBehind(x) in Requests(items, ring)
  {
    var all := Requests(items, ring);
    var k :| 0 <= k < 4 * |ring| && all[k] == x;
    var slot := k / 4;
    RequestAt(items, ring, k);
    EncodeDecode(slot, k % 4);
    ReadAt(items, ring, slot);
    assert x == Request(slot, OP_PROBE, items[ring[slot]]);
    assert ReadBehind(x) == Request(slot, OP_READ, items[ring[slot]]);
  }

  lemma ReadAt(items: seq<BatchItem>, ring: seq<nat>, slot: nat)
    requires InRange(ring, |items|) && slot < |ring|
    ensures Request(slot, OP_READ, items[ring[slot]]) in Requests(items, ring)
  {
    SlotAndOperation(slot, OP_READ);
    RequestAt(items, ring, 4 * slot + OP_READ);
    assert Requests(items, ring)[4 * slot + OP_READ] == Request(slot, OP_READ, items[ring[slot]]);
  }

  /** A chunk requests nothing twice. */
  lemma RequestOnce(items: seq<BatchItem>, ring: seq<nat>, x: Sqe)
    requires InRange(ring, |items|) && |ring| <= SLOT_COUNT
    ensures multiset(Requests(items, ring))[x] <= 1
  {
    var all := Requests(items, ring);
    forall i, j | 0 <= i < j < |all|
      ensures all[i] != all[j]
    {
      RequestsDistinct(items, ring, i, j);
    }
    Once(all, x);
  }

  /** A chunk that started on a quiet ring hears its answers in turn. */
  lemma QuietHeard(depth: nat, pending: nat, script: ChunkScript, items: seq<BatchItem>, ring: seq<nat>)
    requires InRange(ring, |items|) && |ring| <= SLOT_COUNT
    ensures Heard(Driving(depth, pending, script, Total(multiset{}, items, ring), |ring|).log, script.waits)
  {
    var total := Total(multiset{}, items, ring);
    var h := Driving(depth, pending, script, total, |ring|);
    DrivingAccounted(depth, pending, script, total, |ring|);
    if InTurn(script.waits) {
      QuietTotal(items, ring);
      forall x
        ensures total[x] <= 1
      {
        RequestOnce(items, ring, x);
      }
      HandledInTurn(script.waits, total, 4 * |ring|, |ring|);
      forall k | 0 <= k < |h.log| && OpOf(h.log[k]) == OP_PROBE
        ensures LoggedBefore(h.log, k, ReadBehind(h.log[k].sqe))
      {
        assert Sqes(h.log)[k] == h.log[k].sqe;
        assert h.log[k].sqe in multiset(Sqes(h.log));
        assert h.log[k].sqe in Requests(items, ring);
        OwnRead(items, ring, h.log[k].sqe);
        assert ReadBehind(h.log[k].sqe) in total;
      }
    }
  }

  /** On one slot the turns are kept: a probe there comes after the read behind it. */
  lemma {:induction false} OnSlotInTurn(log: seq<Cqe>, slot: nat)
    requires LogInTurn(log) && slot < SLOT_COUNT
    ensures LogInTurn(OnSlot(log, slot))
  {
    if log != [] {
      var init, last := log[..|log| - 1], log[|log| - 1];
      forall k | 0 <= k < |init| && OpOf(init[k]) == OP_PROBE
        ensures LoggedBefore(init, k, ReadBehind(init[k].sqe))
      {
        assert LoggedBefore(log, k, ReadBehind(log[k].sqe));
        var r :| 0 <= r < k && log[r].sqe == ReadBehind(log[k].sqe);
        assert init[r] == log[r];
      }
      OnSlotInTurn(init, slot);
      assert log == init + [last];
      if SlotOf(last) == slot {
        LastInTurn(init, last, slot);
      }
    }
  }

  lemma LastInTurn(init: seq<Cqe>, last: Cqe, slot: nat)
    requires LogInTurn(init + [last]) && LogInTurn(OnSlot(init, slot)) && SlotOf(last) == slot < SLOT_COUNT
    ensures LogInTurn(OnSlot(init, slot) + [last])
  {
    var log, before := init + [last], OnSlot(init, slot);
    var on := before + [last];
    forall k | 0 <= k < |on| && OpOf(on[k]) == OP_PROBE
      ensures LoggedBefore(on, k, ReadBehind(on[k].sqe))
    {
      var x := ReadBehind(on[k].sqe);
      if k < |before| {
        assert LoggedBefore(before, k, x);
        var r :| 0 <= r < k && before[r].sqe == x;
        assert on[r] == before[r];
      } else {
        assert on[k] == last == log[|init|];
        assert LoggedBefore(log, |init|, x);
        var r :| 0 <= r < |init| && log[r].sqe == x;
        EncodeDecode(slot, OP_READ);
        OnSlotMembers(init, slot);
        assert init[r] in before;
        var q :| 0 <= q < |before| && before[q] == init[r];
        assert on[q] == before[q];
      }
    }
  }
}
