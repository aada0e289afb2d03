// The kernel as the batch reader meets it: a script of waits, and what the wait loop makes of it.
module RingKernel {
  import opened StreamReader
  import opened RingSlots

  /** What one wait on the completion queue yields. */
  datatype Wait = WaitFailed(errno: Errno) | Arrived(cqe: Cqe)

  /** The kernel's behaviour during one chunk. A wait list that has run out stands for a failing wait. */
  datatype ChunkScript = ChunkScript(submitStatus: int, waits: seq<Wait>)

  /** Undefined: a completion names a slot this chunk never assigned, so the item index is indeterminate. */
  datatype Driven = Done | GaveUp | Undefined

  /** How a chunk ends, and the completions it has handled. */
  datatype Handling = Handling(outcome: Driven, log: seq<Cqe>)

  /** The wait loop with need completions to go: interrupted waits are repeated, other failures end the chunk, and events
      no kernel can produce, completions of requests that are not in flight, are passed over. */
  function Handled(waits: seq<Wait>, inFlight: multiset<Sqe>, need: nat, slots: nat): Handling {
    if need == 0 then Handling(Done, [])
    else if waits == [] then Handling(GaveUp, [])
    else match waits[0]
      case WaitFailed(errno) => if errno == EINTR then Handled(waits[1..], inFlight, need, slots) else Handling(GaveUp, [])
      case Arrived(c) =>
        if c.sqe !in inFlight || !Plausible(c) then Handled(waits[1..], inFlight, need, slots)
        else if SlotOf(c) >= slots then Handling(Undefined, [])
        else After([c], Handled(waits[1..], inFlight - multiset{c.sqe}, need - 1, slots))
  }

  function After(log: seq<Cqe>, h: Handling): Handling {
    Handling(h.outcome, log + h.log)
  }

  /** The loop has handled log, taken the first next waits, and is left with inFlight. */
  ghost predicate OnCourse(waits: seq<Wait>, inFlight0: multiset<Sqe>, need: nat, slots: nat, next: nat, inFlight: multiset<Sqe>,
                           log: seq<Cqe>) {
    && next <= |waits| && |log| <= need
    && Handled(waits, inFlight0, need, slots) == After(log, Handled(waits[next..], inFlight, need - |log|, slots))
  }

  lemma CourseStarts(waits: seq<Wait>, inFlight: multiset<Sqe>, need: nat, slots: nat)
    ensures OnCourse(waits, inFlight, need, slots, 0, inFlight, [])
  {
    assert waits[0..] == waits;
    assert [] + Handled(waits, inFlight, need, slots).log == Handled(waits, inFlight, need, slots).log;
  }

  lemma CourseStep(waits: seq<Wait>, inFlight0: multiset<Sqe>, need: nat, slots: nat, next: nat, inFlight: multiset<Sqe>, log: seq<Cqe>)
    requires OnCourse(waits, inFlight0, need, slots, next, inFlight, log) && next < |waits| && |log| < need
    ensures match waits[next]
            case WaitFailed(errno) =>
              if errno == EINTR then OnCourse(waits, inFlight0, need, slots, next + 1, inFlight, log)
              else Handled(waits, inFlight0, need, slots) == Handling(GaveUp, log)
            case Arrived(c) =>
              if c.sqe !in inFlight || !Plausible(c) then OnCourse(waits, inFlight0, need, slots, next + 1, inFlight, log)
              else if SlotOf(c) >= slots then Handled(waits, inFlight0, need, slots) == Handling(Undefined, log)
              else OnCourse(waits, inFlight0, need, slots, next + 1, inFlight - multiset{c.sqe}, log + [c])
  {
    assert waits[next..][0] == waits[next] && waits[next..][1..] == waits[next + 1..];
    assert log + [] == log;
    if waits[next].Arrived? {
      var c := waits[next].cqe;
      var rest := Handled(waits[next + 1..], inFlight - multiset{c.sqe}, need - |log| - 1, slots);
      assert log + ([c] + rest.log) == log + [c] + rest.log;
    }
  }

  lemma CourseEnds(waits: seq<Wait>, inFlight0: multiset<Sqe>, need: nat, slots: nat, next: nat, inFlight: multiset<Sqe>, log: seq<Cqe>)
    requires OnCourse(waits, inFlight0, need, slots, next, inFlight, log)
    ensures |log| == need ==> Handled(waits, inFlight0, need, slots) == Handling(Done, log)
    ensures |log| < need && next == |waits| ==> Handled(waits, inFlight0, need, slots) == Handling(GaveUp, log)
  {
    assert log + [] == log;
  }

  /** No wait fails except by interruption. */
  predicate OnlyInterrupted(waits: seq<Wait>) {
    forall i | 0 <= i < |waits| :: waits[i].WaitFailed? ==> waits[i].errno == EINTR
  }

  /** The requests the script completes. */
  function Offered(waits: seq<Wait>): multiset<Sqe> {
    if waits == [] then multiset{}
    else (if waits[0].Arrived? && Plausible(waits[0].cqe) then multiset{waits[0].cqe.sqe} else multiset{}) + Offered(waits[1..])
  }

  /** The kernel plays fair to these requests: it takes them, completes all of them, and does not fail a wait. */
  predicate Fair(script: ChunkScript, requests: multiset<Sqe>) {
    requests == multiset{} || (script.submitStatus >= 0 && OnlyInterrupted(script.waits) && requests <= Offered(script.waits))
  }

  lemma DropForeign(inFlight: multiset<Sqe>, x: Sqe, rest: multiset<Sqe>)
    requires inFlight <= multiset{x} + rest && x !in inFlight
    ensures inFlight <= rest
  {
    forall y | y in inFlight
      ensures inFlight[y] <= rest[y]
    {
      assert (multiset{x} + rest)[y] == rest[y];
    }
  }

  lemma DropOne(inFlight: multiset<Sqe>, x: Sqe, rest: multiset<Sqe>)
    requires inFlight <= multiset{x} + rest && x in inFlight
    ensures inFlight - multiset{x} <= rest && |inFlight - multiset{x}| == |inFlight| - 1
  {
  }

  lemma SomeOffer(waits: seq<Wait>, inFlight: multiset<Sqe>)
    requires inFlight <= Offered(waits) && |inFlight| > 0
    ensures waits != []
  {
    var x :| x in inFlight;
    assert x in Offered(waits);
  }

  /** Every request is for an assigned slot. */
  ghost predicate Assigned(requests: multiset<Sqe>, slots: nat) {
    forall x | x in requests :: DecodeSlot(x.userData) < slots
  }

  predicate Skipped(event: Wait, inFlight: multiset<Sqe>) {
    match event
    case WaitFailed(errno) => errno == EINTR
    case Arrived(c) => c.sqe !in inFlight || !Plausible(c)
  }

  lemma HandledStep(waits: seq<Wait>, inFlight: multiset<Sqe>, need: nat, slots: nat)
    requires waits != [] && need > 0 && Assigned(inFlight, slots)
    ensures Skipped(waits[0], inFlight) ==>
              Handled(waits, inFlight, need, slots) == Handled(waits[1..], inFlight, need, slots)
    ensures !Skipped(waits[0], inFlight) && waits[0].Arrived? ==>
              Handled(waits, inFlight, need, slots).outcome
              == Handled(waits[1..], inFlight - multiset{waits[0].cqe.sqe}, need - 1, slots).outcome
  {
  }

  lemma OfferedStep(waits: seq<Wait>, inFlight: multiset<Sqe>)
    requires waits != [] && inFlight <= Offered(waits)
    ensures Skipped(waits[0], inFlight) ==> inFlight <= Offered(waits[1..])
    ensures !Skipped(waits[0], inFlight) && waits[0].Arrived? ==>
              && waits[0].cqe.sqe in inFlight
              && inFlight - multiset{waits[0].cqe.sqe} <= Offered(waits[1..])
              && |inFlight - multiset{waits[0].cqe.sqe}| == |inFlight| - 1
  {
    var rest := Offered(waits[1..]);
    assert multiset{} + rest == rest;
    if waits[0].Arrived? && Plausible(waits[0].cqe) {
      var x := waits[0].cqe.sqe;
      if x in inFlight {
        DropOne(inFlight, x, rest);
      } else {
        DropForeign(inFlight, x, rest);
      }
    }
  }

  /** The wait loop has need requests to go, all in flight, all of assigned slots, and all offered. */
  ghost predicate Promised(waits: seq<Wait>, inFlight: multiset<Sqe>, need: nat, slots: nat) {
    OnlyInterrupted(waits) && inFlight <= Offered(waits) && |inFlight| == need && Assigned(inFlight, slots)
  }

  lemma PromiseStep(waits: seq<Wait>, inFlight: multiset<Sqe>, need: nat, slots: nat)
    requires Promised(waits, inFlight, need, slots) && need > 0
    ensures waits != [] && (Skipped(waits[0], inFlight) || waits[0].Arrived?)
    ensures Skipped(waits[0], inFlight) ==> Promised(waits[1..], inFlight, need, slots)
    ensures !Skipped(waits[0], inFlight) ==> Promised(waits[1..], inFlight - multiset{waits[0].cqe.sqe}, need - 1, slots)
  {
    SomeOffer(waits, inFlight);
    var rest := waits[1..];
    assert forall i | 0 <= i < |rest| :: rest[i] == waits[i + 1];
    OfferedStep(waits, inFlight);
  }

  /** Under a fair kernel the wait loop takes everything it waits for, in whatever order it comes and however often the
      wait is interrupted. */
  lemma {:induction false} FairFinishes(waits: seq<Wait>, inFlight: multiset<Sqe>, need: nat, slots: nat)
    requires Promised(waits, inFlight, need, slots)
    ensures Handled(waits, inFlight, need, slots).outcome == Done
  {
    if need > 0 {
      PromiseStep(waits, inFlight, need, slots);
      HandledStep(waits, inFlight, need, slots);
      var skipped := Skipped(waits[0], inFlight);
      FairFinishes(waits[1..], if skipped then inFlight else inFlight - multiset{waits[0].cqe.sqe},
                   if skipped then need else need - 1, slots);
    }
  }
}
