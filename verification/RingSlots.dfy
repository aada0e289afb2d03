// One ring slot: what the completions of a linked open/read/probe/close chain do to its batch item.
module RingSlots {
  import opened Entries
  import opened StreamReader

  const SLOT_COUNT := 32
  const SLOT_BYTES := 262144
  const QUEUE_DEPTH := 160
  const ECANCELED := 125

  const OP_OPENAT := 0
  const OP_READ := 1
  const OP_PROBE := 2
  const OP_CLOSE := 3

  /** A 32-bit slot shifted left by eight bits, or-ed with an operation below 256. */
  function EncodeUserData(slot: nat, op: nat): nat {
    slot * 256 + op
  }

  /** Truncated to unsigned int, as the cast in the program does. */
  function DecodeSlot(userData: nat): nat {
    (userData / 256) % 0x1_0000_0000
  }

  function DecodeOperation(userData: nat): nat {
    userData % 256
  }

  lemma EncodeDecode(slot: nat, op: nat)
    requires slot < 0x1_0000_0000 && op < 256
    ensures EncodeUserData(slot, op) < 0x1_0000_0000_0000_0000
    ensures DecodeSlot(EncodeUserData(slot, op)) == slot
    ensures DecodeOperation(EncodeUserData(slot, op)) == op
  {
  }

  datatype BatchItem = BatchItem(path: seq<Byte>, size: nat, success: bool, errno: int)

  predicate FitsInSlot(item: BatchItem) {
    0 < item.size <= SLOT_BYTES
  }

  /** A submission entry: what the kernel is asked to do. */
  datatype Sqe = Sqe(userData: nat, path: seq<Byte>, length: nat, offset: nat)

  /** A completion; data is what a read delivered into the slot buffer. */
  datatype Cqe = Cqe(sqe: Sqe, res: int, data: Chunk)

  function OpOf(c: Cqe): nat {
    DecodeOperation(c.sqe.userData)
  }

  function SlotOf(c: Cqe): nat {
    DecodeSlot(c.sqe.userData)
  }

  /** A read returns at most what was asked for, and delivers exactly what it returns. */
  predicate Plausible(c: Cqe) {
    if OpOf(c) == OP_READ && c.res >= 0 then |c.data| == c.res <= c.sqe.length <= SLOT_BYTES else c.data == []
  }

  function Request(slot: nat, op: nat, item: BatchItem): Sqe {
    Sqe(EncodeUserData(slot, op), item.path,
        if op == OP_READ then item.size else if op == OP_PROBE then 1 else 0,
        if op == OP_PROBE then item.size else 0)
  }

  /** Everything a completion of one slot can touch. */
  datatype SlotState = SlotState(success: bool, errno: int, bytesRead: nat, buffer: seq<Byte>, calls: seq<Chunk>)

  function Fail(st: SlotState, errno: int): SlotState {
    st.(success := false, errno := errno)
  }

  /** A cancelled operation counts as an input/output error. */
  function ErrnoOf(res: int): int {
    if res == -ECANCELED then EIO else -res
  }

  function Deliver(buffer: seq<Byte>, data: Chunk): seq<Byte> {
    data + if |data| <= |buffer| then buffer[|data|..] else []
  }

  function Prefix(bytes: seq<Byte>, n: nat): seq<Byte> {
    if n <= |bytes| then bytes[..n] else bytes
  }

  function AfterRead(size: nat, st: SlotState, res: int): SlotState {
    if res < 0 then (if st.errno == 0 then Fail(st, ErrnoOf(res)) else st)
    else if res != size then Fail(st, EIO)
    else st.(bytesRead := res)
  }

  function AfterProbe(accepts: Acceptor, st: SlotState, res: int): SlotState {
    if st.errno != 0 then st
    else if res < 0 then Fail(st, ErrnoOf(res))
    else if res > 0 then Fail(st, EIO)
    else if st.bytesRead == 0 then Fail(st, EIO)
    else
      var chunk := Prefix(st.buffer, st.bytesRead);
      var fed := st.(calls := st.calls + [chunk]);
      if accepts(st.calls, chunk) then fed.(success := true, errno := 0) else Fail(fed, EIO)
  }

  /** The kernel's part of a completion: a read leaves its bytes in the slot buffer. */
  function Land(st: SlotState, c: Cqe): SlotState {
    if OpOf(c) == OP_READ && c.res >= 0 then st.(buffer := Deliver(st.buffer, c.data)) else st
  }

  /** The program's part of a completion. */
  function Handle(size: nat, accepts: Acceptor, st: SlotState, c: Cqe): SlotState {
    var op := OpOf(c);
    if op == OP_OPENAT then (if c.res < 0 then Fail(st, -c.res) else st)
    else if op == OP_READ then AfterRead(size, st, c.res)
    else if op == OP_PROBE then AfterProbe(accepts, st, c.res)
    else st
  }

  function Apply(size: nat, accepts: Acceptor, st: SlotState, c: Cqe): SlotState {
    Handle(size, accepts, Land(st, c), c)
  }

  function ApplyAll(size: nat, accepts: Acceptor, st: SlotState, cs: seq<Cqe>): SlotState {
    if cs == [] then st else Apply(size, accepts, ApplyAll(size, accepts, st, cs[..|cs| - 1]), cs[|cs| - 1])
  }

  /** The completions of one slot, in the order they arrive. */
  function OnSlot(log: seq<Cqe>, slot: nat): seq<Cqe> {
    if log == [] then []
    else
      var rest := OnSlot(log[..|log| - 1], slot);
      if SlotOf(log[|log| - 1]) == slot then rest + [log[|log| - 1]] else rest
  }

  /** At most one completion of each operation. */
  ghost predicate DistinctOps(cs: seq<Cqe>) {
    forall i, j | 0 <= i < j < |cs| :: OpOf(cs[i]) != OpOf(cs[j])
  }

  ghost predicate Completed(cs: seq<Cqe>, op: nat) {
    exists i :: 0 <= i < |cs| && OpOf(cs[i]) == op
  }

  /** Completion i asks nothing of the error path: for the probe, that includes an accepted read before it. */
  ghost predicate Fine(size: nat, accepts: Acceptor, cs: seq<Cqe>, i: nat)
    requires i < |cs|
  {
    var c := cs[i];
    if OpOf(c) == OP_OPENAT then c.res >= 0
    else if OpOf(c) == OP_READ then c.res == size
    else if OpOf(c) == OP_PROBE then
      c.res == 0 && exists r :: 0 <= r < i && OpOf(cs[r]) == OP_READ && accepts([], cs[r].data)
    else true
  }

  ghost predicate AllFine(size: nat, accepts: Acceptor, cs: seq<Cqe>) {
    forall i | 0 <= i < |cs| :: Fine(size, accepts, cs, i)
  }

  /** A slot at the start of a chunk. */
  ghost predicate Fresh(st: SlotState) {
    !st.success && st.errno == 0 && st.bytesRead == 0 && st.calls == [] && |st.buffer| == SLOT_BYTES
  }

  /** The full-read completion r that the consumer was fed from. */
  ghost predicate FedFrom(size: nat, cs: seq<Cqe>, calls: seq<Chunk>) {
    exists r :: 0 <= r < |cs| && OpOf(cs[r]) == OP_READ && cs[r].res == size && calls == [cs[r].data]
  }

  /** What holds of a slot after any completions, in any order, of at most one chain. */
  ghost predicate SlotInvariant(size: nat, accepts: Acceptor, cs: seq<Cqe>, st: SlotState) {
    && |st.buffer| == SLOT_BYTES
    && (st.errno == 0 <==> AllFine(size, accepts, cs))
    && (st.success <==> st.errno == 0 && Completed(cs, OP_PROBE))
    && (st.calls == [] || FedFrom(size, cs, st.calls))
    && (st.success ==> st.calls != [])
    && (st.calls != [] ==> Completed(cs, OP_PROBE))
    && (st.bytesRead == 0 || st.bytesRead == size)
    && (forall r | 0 <= r < |cs| && OpOf(cs[r]) == OP_READ && cs[r].res == size :: st.bytesRead == size && Prefix(st.buffer, size) == cs[r].data)
    && (st.bytesRead == size ==> exists r :: 0 <= r < |cs| && OpOf(cs[r]) == OP_READ && cs[r].res == size)
  }

  lemma AllFineStep(size: nat, accepts: Acceptor, cs: seq<Cqe>, c: Cqe)
    ensures AllFine(size, accepts, cs + [c]) <==> AllFine(size, accepts, cs) && Fine(size, accepts, cs + [c], |cs|)
  {
    var next := cs + [c];
    forall i | 0 <= i < |cs|
      ensures Fine(size, accepts, next, i) <==> Fine(size, accepts, cs, i)
    {
      assert next[i] == cs[i];
      assert forall r | 0 <= r < i :: next[r] == cs[r];
    }
    if AllFine(size, accepts, next) {
      forall i | 0 <= i < |cs|
        ensures Fine(size, accepts, cs, i)
      {
        assert Fine(size, accepts, next, i);
      }
    }
  }

  lemma CompletedStep(cs: seq<Cqe>, c: Cqe, op: nat)
    ensures Completed(cs + [c], op) <==> Completed(cs, op) || OpOf(c) == op
  {
    var next := cs + [c];
    if Completed(cs, op) {
      var i :| 0 <= i < |cs| && OpOf(cs[i]) == op;
      assert next[i] == cs[i];
    }
    if OpOf(c) == op {
      assert OpOf(next[|cs|]) == op;
    }
  }

  lemma FedFromStep(size: nat, cs: seq<Cqe>, c: Cqe, calls: seq<Chunk>)
    requires FedFrom(size, cs, calls)
    ensures FedFrom(size, cs + [c], calls)
  {
    var r :| 0 <= r < |cs| && OpOf(cs[r]) == OP_READ && cs[r].res == size && calls == [cs[r].data];
    assert (cs + [c])[r] == cs[r];
  }

  lemma ReadStep(size: nat, accepts: Acceptor, cs: seq<Cqe>, st: SlotState, c: Cqe)
    requires 0 < size <= SLOT_BYTES && SlotInvariant(size, accepts, cs, st)
    requires DistinctOps(cs + [c]) && Plausible(c) && OpOf(c) == OP_READ
    ensures SlotInvariant(size, accepts, cs + [c], Apply(size, accepts, st, c))
  {
    var next, st' := cs + [c], Apply(size, accepts, st, c);
    AllFineStep(size, accepts, cs, c);
    CompletedStep(cs, c, OP_PROBE);
    if st.calls != [] {
      FedFromStep(size, cs, c, st.calls);
    }
    forall r | 0 <= r < |cs|
      ensures OpOf(next[r]) != OP_READ && next[r] == cs[r]
    {
      assert OpOf(next[r]) != OpOf(next[|cs|]);
    }
    assert st.bytesRead == 0;
    assert next[|cs|] == c;
  }

  lemma ProbeStep(size: nat, accepts: Acceptor, cs: seq<Cqe>, st: SlotState, c: Cqe)
    requires 0 < size <= SLOT_BYTES && SlotInvariant(size, accepts, cs, st)
    requires DistinctOps(cs + [c]) && OpOf(c) == OP_PROBE
    ensures SlotInvariant(size, accepts, cs + [c], Apply(size, accepts, st, c))
  {
    var next, st' := cs + [c], Apply(size, accepts, st, c);
    AllFineStep(size, accepts, cs, c);
    CompletedStep(cs, c, OP_PROBE);
    assert next[|cs|] == c;
    forall r | 0 <= r < |cs|
      ensures OpOf(next[r]) != OP_PROBE && next[r] == cs[r]
    {
      assert OpOf(next[r]) != OpOf(next[|cs|]);
    }
    assert !Completed(cs, OP_PROBE);
    if st.bytesRead == size {
      var r :| 0 <= r < |cs| && OpOf(cs[r]) == OP_READ && cs[r].res == size;
      assert next[r] == cs[r] && Prefix(st.buffer, size) == next[r].data;
      forall q | 0 <= q < |cs| && OpOf(next[q]) == OP_READ
        ensures q == r
      {
      }
      assert [] + [next[r].data] == [next[r].data];
    } else if st.errno == 0 {
      forall r | 0 <= r < |cs|
        ensures OpOf(next[r]) != OP_READ
      {
        assert Fine(size, accepts, cs, r);
      }
    }
  }

  lemma OtherStep(size: nat, accepts: Acceptor, cs: seq<Cqe>, st: SlotState, c: Cqe)
    requires 0 < size <= SLOT_BYTES && SlotInvariant(size, accepts, cs, st)
    requires OpOf(c) != OP_READ && OpOf(c) != OP_PROBE
    ensures SlotInvariant(size, accepts, cs + [c], Apply(size, accepts, st, c))
  {
    var next, st' := cs + [c], Apply(size, accepts, st, c);
    AllFineStep(size, accepts, cs, c);
    CompletedStep(cs, c, OP_PROBE);
    assert next[|cs|] == c;
    if st.calls != [] {
      FedFromStep(size, cs, c, st.calls);
    }
    if st.bytesRead == size {
      var r :| 0 <= r < |cs| && OpOf(cs[r]) == OP_READ && cs[r].res == size;
      assert next[r] == cs[r];
    }
  }

  /** In any order, complete or not: the errno stays zero exactly while every completion is fine, success needs the
      probe as well, and the consumer is called at most once, with a full read of this slot. */
  lemma {:induction false} AnyOrder(size: nat, accepts: Acceptor, st: SlotState, cs: seq<Cqe>)
    requires 0 < size <= SLOT_BYTES && Fresh(st)
    requires DistinctOps(cs) && forall c <- cs :: Plausible(c)
    ensures SlotInvariant(size, accepts, cs, ApplyAll(size, accepts, st, cs))
  {
    if cs != [] {
      var init, c := cs[..|cs| - 1], cs[|cs| - 1];
      assert cs == init + [c];
      AnyOrder(size, accepts, st, init);
      var mid := ApplyAll(size, accepts, st, init);
      if OpOf(c) == OP_READ {
        ReadStep(size, accepts, init, mid, c);
      } else if OpOf(c) == OP_PROBE {
        ProbeStep(size, accepts, init, mid, c);
      } else {
        OtherStep(size, accepts, init, mid, c);
      }
    }
  }

  /** A whole chain, completed in any order, is resolved: it succeeds if and only if the open succeeded, the read
      returned the whole size before the probe, the probe found end of file and the consumer accepted. */
  lemma ChainOutcome(size: nat, accepts: Acceptor, st: SlotState, cs: seq<Cqe>, o: nat, r: nat, p: nat)
    requires 0 < size <= SLOT_BYTES && Fresh(st)
    requires DistinctOps(cs) && (forall c <- cs :: Plausible(c))
    requires o < |cs| && r < |cs| && p < |cs| && OpOf(cs[o]) == OP_OPENAT && OpOf(cs[r]) == OP_READ && OpOf(cs[p]) == OP_PROBE
    requires forall c <- cs :: OpOf(c) <= OP_CLOSE
    ensures var end := ApplyAll(size, accepts, st, cs);
            && (end.success <==> end.errno == 0)
            && (end.success <==> cs[o].res >= 0 && cs[r].res == size && r < p && cs[p].res == 0 && accepts([], cs[r].data))
            && (end.calls == [] || end.calls == [cs[r].data])
            && (end.success ==> end.calls == [cs[r].data] && |cs[r].data| == size)
  {
    AnyOrder(size, accepts, st, cs);
    var end := ApplyAll(size, accepts, st, cs);
    assert Completed(cs, OP_PROBE);
    assert Fine(size, accepts, cs, o) <==> cs[o].res >= 0;
    assert Fine(size, accepts, cs, r) <==> cs[r].res == size;
    forall i | 0 <= i < |cs|
      ensures OpOf(cs[i]) == OP_READ <==> i == r
      ensures OpOf(cs[i]) == OP_PROBE <==> i == p
      ensures OpOf(cs[i]) == OP_OPENAT <==> i == o
    {
    }
    assert Fine(size, accepts, cs, p) <==> cs[p].res == 0 && r < p && accepts([], cs[r].data);
  }

  /** The file changes length between chained operations, growing or shrinking at any moment. */
  ghost predicate HonestLength(c: Cqe, length: nat) {
    c.res >= 0 ==>
      && (c.res > 0 ==> c.sqe.offset + c.res <= length)
      && (c.res == 0 && c.sqe.length > 0 ==> length <= c.sqe.offset)
  }

  /** Success proves that the file was at least the recorded size when read and at most that size when probed. */
  lemma ResizeDetected(item: BatchItem, slot: nat, accepts: Acceptor, st: SlotState, cs: seq<Cqe>,
                       o: nat, r: nat, p: nat, lengthAtRead: nat, lengthAtProbe: nat)
    requires FitsInSlot(item) && Fresh(st) && slot < SLOT_COUNT
    requires DistinctOps(cs) && (forall c <- cs :: Plausible(c))
    requires o < |cs| && r < |cs| && p < |cs|
    requires cs[o].sqe == Request(slot, OP_OPENAT, item) && cs[r].sqe == Request(slot, OP_READ, item)
    requires cs[p].sqe == Request(slot, OP_PROBE, item)
    requires forall c <- cs :: OpOf(c) <= OP_CLOSE
    requires HonestLength(cs[r], lengthAtRead) && HonestLength(cs[p], lengthAtProbe)
    requires ApplyAll(item.size, accepts, st, cs).success
    ensures lengthAtProbe <= item.size <= lengthAtRead
  {
    EncodeDecode(slot, OP_OPENAT);
    EncodeDecode(slot, OP_READ);
    EncodeDecode(slot, OP_PROBE);
    ChainOutcome(item.size, accepts, st, cs, o, r, p);
  }
}
