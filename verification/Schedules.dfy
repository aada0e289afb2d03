// The full-hash pass on any number of workers, each with a ring of its own: what every interleaving of their steps leaves.
module Schedules {
  import opened Entries
  import opened Sequences
  import opened StreamReader
  import opened RingSlots
  import opened RingKernel
  import opened RingConsume
  import opened Candidates
  import opened FullPass

  /** What a pass works on, and what it meets outside the program. */
  datatype Config = Config(indices: seq<nat>, world: World)

  datatype Phase = Idle | Resetting(batch: nat, next: nat) | Reading(batch: nat) | Writing(batch: nat, next: nat)

  /** A worker and its reusable slot, whose items and consumers keep whatever the previous batch left there. quiet says that
      nothing is outstanding on the worker's ring, which also carries over from batch to batch. */
  datatype Worker = Worker(phase: Phase, items: seq<BatchItem>, fed: seq<seq<Chunk>>, quiet: bool)

  /** History: the positions written back, the batches skipped after the stop signal or for want of a worker slot, those
      completed, and those read on a ring that was not quiet. broken says that some ring was driven into undefined
      behaviour; nothing is known of what the program does from then on, and the machine stops. */
  datatype State = State(entries: seq<FileEntry>, todo: set<nat>, workers: seq<Worker>, written: set<nat>, skipped: set<nat>,
                         finished: set<nat>, tainted: set<nat>, broken: bool)

  datatype Step =
    | Claim(batch: nat)
    | Skip(batch: nat)
    | ResetNext
    | Read(items: seq<BatchItem>, fed: seq<seq<Chunk>>, quiet: bool)
    | Break
    | WriteNext
    | Advance

  ghost predicate WellFormed(c: Config, n: nat) {
    Distinct(c.indices) && forall p | 0 <= p < |c.indices| :: c.indices[p] < n
  }

  function Batches(c: Config): nat {
    BatchCount(|c.indices|)
  }

  function Size(c: Config, batch: nat): nat {
    BatchSize(|c.indices|, batch)
  }

  function Position(batch: nat, offset: nat): nat {
    batch * BATCH_CAPACITY + offset
  }

  /** The entries index that offset of a batch stands for. */
  function IndexAt(c: Config, batch: nat, offset: nat): (i: nat)
    requires offset < Size(c, batch)
  {
    c.indices[Position(batch, offset)]
  }

  function Blank(e: FileEntry): BatchItem {
    BatchItem(e.path, e.size, false, 0)
  }

  /** What reading a batch to its end may do to a worker's slot, by the contract of FullPass.ReadBatch: on a quiet ring every
      item is fed along one path from its own file, and the ring stays quiet under a fair kernel; on a ring with answers
      outstanding the items are resolved, and nothing else is known. */
  ghost predicate ReadBy(c: Config, k: Worker, b: nat, items: seq<BatchItem>, fed: seq<seq<Chunk>>, quiet: bool) {
    && |fed| == |k.fed| && Size(c, b) <= |k.items| && SameFiles(k.items, items)
    && BatchRead(items, fed, Position(b, 0), Size(c, b), c.world, k.quiet)
    && (k.quiet && Fair(c.world.chunk(b), ChunkRequests(k.items, 0, Size(c, b))) ==> quiet)
  }

  /** One step of worker w; the other workers do not move. On a ring with answers outstanding reading a batch need not come to
      its end: an answer for a slot that no chain of the chunk was given is undefined behaviour. */
  ghost predicate Next(c: Config, s: State, s': State, w: nat, step: Step)
    requires WellFormed(c, |s.entries|) && w < |s.workers|
  {
    var k := s.workers[w];
    !s.broken &&
    match step
    case Claim(b) =>
      k.phase.Idle? && b in s.todo &&
      s' == s.(todo := s.todo - {b}, workers := s.workers[w := k.(phase := Resetting(b, 0))])
    case Skip(b) =>
      k.phase.Idle? && b in s.todo && s' == s.(todo := s.todo - {b}, skipped := s.skipped + {b})
    case ResetNext =>
      k.phase.Resetting? && k.phase.next < Size(c, k.phase.batch) &&
      k.phase.next < |k.items| && k.phase.next < |k.fed| &&
      (var o := k.phase.next;
       var e := s.entries[IndexAt(c, k.phase.batch, o)];
       s' == s.(workers := s.workers[w := Worker(Resetting(k.phase.batch, o + 1), k.items[o := Blank(e)], k.fed[o := []], k.quiet)]))
    case Read(items, fed, quiet) =>
      k.phase.Reading? && ReadBy(c, k, k.phase.batch, items, fed, quiet) &&
      s' == s.(workers := s.workers[w := Worker(Writing(k.phase.batch, 0), items, fed, quiet)],
               tainted := if k.quiet then s.tainted else s.tainted + {k.phase.batch})
    case Break =>
      k.phase.Reading? && !k.quiet && s' == s.(broken := true)
    case WriteNext =>
      k.phase.Writing? && k.phase.next < Size(c, k.phase.batch) &&
      k.phase.next < |k.items| && k.phase.next < |k.fed| &&
      (var o := k.phase.next;
       var i := IndexAt(c, k.phase.batch, o);
       s' == s.(entries := s.entries[i := Finish(s.entries[i], k.items[o], k.fed[o], c.world.digest)],
                workers := s.workers[w := k.(phase := Writing(k.phase.batch, o + 1))],
                written := s.written + {Position(k.phase.batch, o)}))
    case Advance =>
      match k.phase
      case Idle => false
      case Resetting(b, o) =>
        o == Size(c, b) && s' == s.(workers := s.workers[w := k.(phase := Phase.Reading(b))])
      case Reading(_) => false
      case Writing(b, o) =>
        o == Size(c, b) && s' == s.(workers := s.workers[w := k.(phase := Idle)], finished := s.finished + {b})
  }

  predicate Initial(c: Config, s: State) {
    && s.todo == Span(0, Batches(c)) && s.written == {} && s.skipped == {} && s.finished == {} && s.tainted == {} && !s.broken
    && forall w | 0 <= w < |s.workers| :: s.workers[w].phase.Idle? && |s.workers[w].items| == |s.workers[w].fed| == BATCH_CAPACITY
  }

  ghost predicate ItemReset(c: Config, s0: seq<FileEntry>, k: Worker, b: nat, o: nat)
    requires WellFormed(c, |s0|) && o < Size(c, b) && |k.items| == |k.fed| == BATCH_CAPACITY
  {
    k.items[o] == Blank(s0[IndexAt(c, b, o)]) && k.fed[o] == []
  }

  /** The batch is in a worker's hands. */
  ghost predicate InHand(c: Config, s: State, b: nat) {
    b < Batches(c) && b !in s.todo && b !in s.finished && b !in s.skipped
  }

  /** The first n positions of a batch are written back. */
  ghost predicate WrittenUpTo(c: Config, s: State, b: nat, n: nat) {
    n <= Size(c, b) && forall o | 0 <= o < Size(c, b) :: Position(b, o) in s.written <==> o < n
  }

  /** The batch a worker holds, its slot contents, and which of its positions are written. */
  ghost predicate WorkerInvariant(c: Config, s0: seq<FileEntry>, s: State, k: Worker)
    requires WellFormed(c, |s0|)
  {
    && |k.items| == |k.fed| == BATCH_CAPACITY
    && match k.phase
       case Idle => true
       case Resetting(b, n) =>
         && InHand(c, s, b) && WrittenUpTo(c, s, b, 0) && b !in s.tainted
         && n <= Size(c, b) && (forall o | 0 <= o < n :: ItemReset(c, s0, k, b, o))
       case Reading(b) =>
         && InHand(c, s, b) && WrittenUpTo(c, s, b, 0) && b !in s.tainted
         && (forall o | 0 <= o < Size(c, b) :: ItemReset(c, s0, k, b, o))
       case Writing(b, n) =>
         && InHand(c, s, b) && WrittenUpTo(c, s, b, n)
         && Carries(k.items, s0, c.indices, Position(b, 0), Size(c, b))
         && BatchRead(k.items, k.fed, Position(b, 0), Size(c, b), c.world, b !in s.tainted)
  }

  predicate Holds(k: Worker, b: nat) {
    !k.phase.Idle? && k.phase.batch == b
  }

  ghost predicate Held(s: State, b: nat) {
    exists w :: 0 <= w < |s.workers| && Holds(s.workers[w], b)
  }

  /** No two workers hold the same batch. */
  ghost predicate Exclusive(s: State) {
    forall v, w | 0 <= v < w < |s.workers| && !s.workers[v].phase.Idle? && !s.workers[w].phase.Idle? ::
      s.workers[v].phase.batch != s.workers[w].phase.batch
  }

  /** What has become of the entry at candidate position p. */
  ghost predicate EntryInvariant(c: Config, s0: seq<FileEntry>, s: State, p: nat)
    requires WellFormed(c, |s0|) && |s.entries| == |s0| && p < |c.indices|
  {
    if p in s.written
    then Hashed(s0[c.indices[p]], s.entries[c.indices[p]], c.world, p, p / BATCH_CAPACITY !in s.tainted)
    else s.entries[c.indices[p]] == s0[c.indices[p]]
  }

  ghost predicate EntriesInvariant(c: Config, s0: seq<FileEntry>, s: State)
    requires WellFormed(c, |s0|)
  {
    && |s.entries| == |s0| && (forall p <- s.written :: p < |c.indices|)
    && (forall p: nat | p < |c.indices| :: EntryInvariant(c, s0, s, p))
    && (forall i: nat | i < |s0| && i !in c.indices :: s.entries[i] == s0[i])
  }

  ghost predicate BatchesInvariant(c: Config, s: State) {
    && (forall b <- s.todo :: b < Batches(c) && b !in s.finished && b !in s.skipped && b !in s.tainted && WrittenUpTo(c, s, b, 0))
    && (forall b <- s.skipped :: WrittenUpTo(c, s, b, 0))
    && (forall b <- s.finished :: WrittenUpTo(c, s, b, Size(c, b)))
    && (forall b: nat | b < Batches(c) :: b in s.todo || b in s.skipped || b in s.finished || Held(s, b))
  }

  ghost predicate Invariant(c: Config, s0: seq<FileEntry>, s: State) {
    && WellFormed(c, |s0|)
    && (forall w | 0 <= w < |s.workers| :: WorkerInvariant(c, s0, s, s.workers[w]))
    && Exclusive(s) && EntriesInvariant(c, s0, s) && BatchesInvariant(c, s)
  }

  lemma PositionsDiffer(b: nat, o: nat, b': nat, o': nat)
    requires o < BATCH_CAPACITY && o' < BATCH_CAPACITY && b != b'
    ensures Position(b, o) != Position(b', o')
  {
  }

  /** What a step leaves alone about a batch. */
  ghost predicate SameBatch(c: Config, s: State, s': State, b: nat) {
    && (b in s'.todo ==> b in s.todo) && (b in s'.finished ==> b in s.finished) && (b in s'.skipped ==> b in s.skipped)
    && (b in s'.tainted <==> b in s.tainted)
    && forall o | 0 <= o < Size(c, b) :: Position(b, o) in s'.written <==> Position(b, o) in s.written
  }

  /** A worker that does not move keeps its invariant while other batches change hands or are written. */
  lemma KeepWorker(c: Config, s0: seq<FileEntry>, s: State, s': State, k: Worker)
    requires WellFormed(c, |s0|) && WorkerInvariant(c, s0, s, k)
    requires !k.phase.Idle? ==> SameBatch(c, s, s', k.phase.batch)
    ensures WorkerInvariant(c, s0, s', k)
  {
  }

  /** The other workers, when worker w's own batch is the only one to change. */
  lemma KeepOthers(c: Config, s0: seq<FileEntry>, s: State, s': State, w: nat, k': Worker, b: nat)
    requires Invariant(c, s0, s) && w < |s.workers| && s'.workers == s.workers[w := k']
    requires forall d: nat | d != b :: SameBatch(c, s, s', d)
    requires Holds(s.workers[w], b) || b in s.todo
    requires WorkerInvariant(c, s0, s', k')
    ensures forall v | 0 <= v < |s'.workers| :: WorkerInvariant(c, s0, s', s'.workers[v])
  {
    forall v | 0 <= v < |s'.workers|
      ensures WorkerInvariant(c, s0, s', s'.workers[v])
    {
      if v != w {
        assert WorkerInvariant(c, s0, s, s.workers[v]);
        assert Holds(s.workers[v], b) ==> b !in s.todo;
        KeepWorker(c, s0, s, s', s.workers[v]);
      }
    }
  }

  lemma KeepHeld(s: State, s': State, w: nat, b: nat)
    requires w < |s.workers| == |s'.workers|
    requires forall v | 0 <= v < |s.workers| && v != w :: s'.workers[v] == s.workers[v]
    requires Held(s, b) && (Holds(s.workers[w], b) ==> Holds(s'.workers[w], b))
    ensures Held(s', b)
  {
    var v :| 0 <= v < |s.workers| && Holds(s.workers[v], b);
    assert Holds(s'.workers[v], b);
  }

  /** Every batch is still accounted for when worker w keeps, takes or finishes batch b. */
  lemma KeepAccount(c: Config, s: State, s': State, w: nat, b: nat)
    requires w < |s.workers| == |s'.workers| && forall v | 0 <= v < |s.workers| && v != w :: s'.workers[v] == s.workers[v]
    requires forall d: nat | d < Batches(c) :: d in s.todo || d in s.skipped || d in s.finished || Held(s, d)
    requires s.finished <= s'.finished && s.skipped <= s'.skipped && (forall d | d in s.todo && d != b :: d in s'.todo)
    requires b in s'.skipped || b in s'.finished || Holds(s'.workers[w], b)
    requires forall d: nat | d != b :: Holds(s.workers[w], d) ==> Holds(s'.workers[w], d)
    ensures forall d: nat | d < Batches(c) :: d in s'.todo || d in s'.skipped || d in s'.finished || Held(s', d)
  {
    forall d: nat | d < Batches(c)
      ensures d in s'.todo || d in s'.skipped || d in s'.finished || Held(s', d)
    {
      if d == b {
        assert Holds(s'.workers[w], b) ==> Held(s', b);
      } else if Held(s, d) {
        KeepHeld(s, s', w, d);
      }
    }
  }

  /** Steps that keep the batch a worker holds, and write nothing. */
  lemma LocalStep(c: Config, s0: seq<FileEntry>, s: State, s': State, w: nat, k': Worker)
    requires Invariant(c, s0, s) && w < |s.workers|
    requires s' == s.(workers := s.workers[w := k'], broken := s'.broken)
    requires !s.workers[w].phase.Idle? && !k'.phase.Idle? && k'.phase.batch == s.workers[w].phase.batch
    requires WorkerInvariant(c, s0, s, k')
    ensures Invariant(c, s0, s')
  {
    var b := k'.phase.batch;
    KeepWorker(c, s0, s, s', k');
    KeepOthers(c, s0, s, s', w, k', b);
    KeepAccount(c, s, s', w, b);
    KeepEntries(c, s0, s, s');
    KeepBatches(c, s, s');
  }

  lemma KeepEntries(c: Config, s0: seq<FileEntry>, s: State, s': State)
    requires WellFormed(c, |s0|) && EntriesInvariant(c, s0, s)
    requires s'.entries == s.entries && s'.written == s.written && s'.tainted == s.tainted
    ensures EntriesInvariant(c, s0, s')
  {
    forall p: nat | p < |c.indices|
      ensures EntryInvariant(c, s0, s', p)
    {
      assert EntryInvariant(c, s0, s, p);
    }
  }

  lemma KeepBatches(c: Config, s: State, s': State)
    requires BatchesInvariant(c, s) && s'.todo <= s.todo && s'.skipped == s.skipped && s'.finished == s.finished
    requires s'.written == s.written && s'.tainted == s.tainted
    requires forall d: nat | d < Batches(c) :: d in s'.todo || d in s'.skipped || d in s'.finished || Held(s', d)
    ensures BatchesInvariant(c, s')
  {
    forall b: nat, n: nat
      ensures WrittenUpTo(c, s', b, n) <==> WrittenUpTo(c, s, b, n)
    {
    }
  }

  lemma ClaimStep(c: Config, s0: seq<FileEntry>, s: State, s': State, w: nat, b: nat)
    requires Invariant(c, s0, s) && w < |s.workers| && |s.entries| == |s0| && Next(c, s, s', w, Claim(b))
    ensures Invariant(c, s0, s')
  {
    var k' := s'.workers[w];
    assert WrittenUpTo(c, s', b, 0) <==> WrittenUpTo(c, s, b, 0);
    assert WorkerInvariant(c, s0, s, s.workers[w]);
    KeepOthers(c, s0, s, s', w, k', b);
    KeepAccount(c, s, s', w, b);
    KeepEntries(c, s0, s, s');
    KeepBatches(c, s, s');
    forall u, v | 0 <= u < v < |s'.workers| && !s'.workers[u].phase.Idle? && !s'.workers[v].phase.Idle?
      ensures s'.workers[u].phase.batch != s'.workers[v].phase.batch
    {
      assert u != w ==> WorkerInvariant(c, s0, s, s.workers[u]);
      assert v != w ==> WorkerInvariant(c, s0, s, s.workers[v]);
    }
  }

  lemma SkipStep(c: Config, s0: seq<FileEntry>, s: State, s': State, w: nat, b: nat)
    requires Invariant(c, s0, s) && w < |s.workers| && |s.entries| == |s0| && Next(c, s, s', w, Skip(b))
    ensures Invariant(c, s0, s')
  {
    assert s'.workers == s.workers[w := s.workers[w]];
    KeepOthers(c, s0, s, s', w, s.workers[w], b);
    KeepAccount(c, s, s', w, b);
    KeepEntries(c, s0, s, s');
    forall d: nat, n: nat
      ensures WrittenUpTo(c, s', d, n) <==> WrittenUpTo(c, s, d, n)
    {
    }
  }

  lemma ResetStep(c: Config, s0: seq<FileEntry>, s: State, s': State, w: nat)
    requires Invariant(c, s0, s) && w < |s.workers| && |s.entries| == |s0| && Next(c, s, s', w, ResetNext)
    ensures Invariant(c, s0, s')
  {
    var k, k' := s.workers[w], s'.workers[w];
    assert WorkerInvariant(c, s0, s, k);
    var b, n := k.phase.batch, k.phase.next;
    assert s.entries[IndexAt(c, b, n)] == s0[IndexAt(c, b, n)] by {
      assert EntryInvariant(c, s0, s, Position(b, n));
    }
    forall o | 0 <= o < n + 1
      ensures ItemReset(c, s0, k', b, o)
    {
      assert o < n ==> ItemReset(c, s0, k, b, o);
    }
    LocalStep(c, s0, s, s', w, k');
  }

  /** Reading keeps the items on the files they were reset to. */
  lemma ReadCarries(c: Config, s0: seq<FileEntry>, k: Worker, b: nat, items: seq<BatchItem>)
    requires WellFormed(c, |s0|) && |k.items| == |k.fed| == BATCH_CAPACITY && SameFiles(k.items, items)
    requires forall o | 0 <= o < Size(c, b) :: ItemReset(c, s0, k, b, o)
    requires b < Batches(c)
    ensures Carries(items, s0, c.indices, Position(b, 0), Size(c, b))
  {
    BatchesPartition(|c.indices|, b, 0);
    forall o | 0 <= o < Size(c, b)
      ensures items[o].path == s0[c.indices[Position(b, 0) + o]].path && items[o].size == s0[c.indices[Position(b, 0) + o]].size
    {
      assert ItemReset(c, s0, k, b, o);
    }
  }

  /** None of the written entries belongs to a batch of which nothing is written. */
  lemma TaintUnwritten(c: Config, s: State, b: nat, p: nat)
    requires WrittenUpTo(c, s, b, 0) && p in s.written && p < |c.indices|
    ensures p / BATCH_CAPACITY != b
  {
    var d := p / BATCH_CAPACITY;
    BatchesPartition(|c.indices|, d, p);
    assert Position(d, p - d * BATCH_CAPACITY) == p;
  }

  lemma ReadEntries(c: Config, s0: seq<FileEntry>, s: State, s': State, b: nat)
    requires WellFormed(c, |s0|) && EntriesInvariant(c, s0, s) && WrittenUpTo(c, s, b, 0)
    requires s'.entries == s.entries && s'.written == s.written && s.tainted <= s'.tainted <= s.tainted + {b}
    ensures EntriesInvariant(c, s0, s')
  {
    forall p: nat | p < |c.indices|
      ensures EntryInvariant(c, s0, s', p)
    {
      assert EntryInvariant(c, s0, s, p);
      if p in s.written {
        TaintUnwritten(c, s, b, p);
      }
    }
  }

  lemma ReadBatches(c: Config, s: State, s': State, b: nat)
    requires BatchesInvariant(c, s) && b !in s.todo && s.tainted <= s'.tainted <= s.tainted + {b}
    requires s'.todo == s.todo && s'.skipped == s.skipped && s'.finished == s.finished && s'.written == s.written
    requires forall d: nat | d < Batches(c) :: d in s'.todo || d in s'.skipped || d in s'.finished || Held(s', d)
    ensures BatchesInvariant(c, s')
  {
    forall d: nat, n: nat
      ensures WrittenUpTo(c, s', d, n) <==> WrittenUpTo(c, s, d, n)
    {
    }
  }

  lemma ReadWorkers(c: Config, s0: seq<FileEntry>, s: State, s': State, w: nat, items: seq<BatchItem>, fed: seq<seq<Chunk>>, quiet: bool)
    requires Invariant(c, s0, s) && w < |s.workers| && |s.entries| == |s0| && Next(c, s, s', w, Read(items, fed, quiet))
    ensures forall v | 0 <= v < |s'.workers| :: WorkerInvariant(c, s0, s', s'.workers[v])
  {
    var k, k' := s.workers[w], s'.workers[w];
    assert WorkerInvariant(c, s0, s, k);
    var b := k.phase.batch;
    ReadCarries(c, s0, k, b, items);
    assert WrittenUpTo(c, s', b, 0) <==> WrittenUpTo(c, s, b, 0);
    KeepOthers(c, s0, s, s', w, k', b);
  }

  lemma ReadStep(c: Config, s0: seq<FileEntry>, s: State, s': State, w: nat, items: seq<BatchItem>, fed: seq<seq<Chunk>>, quiet: bool)
    requires Invariant(c, s0, s) && w < |s.workers| && |s.entries| == |s0| && Next(c, s, s', w, Read(items, fed, quiet))
    ensures Invariant(c, s0, s')
  {
    var b := s.workers[w].phase.batch;
    assert WorkerInvariant(c, s0, s, s.workers[w]);
    ReadWorkers(c, s0, s, s', w, items, fed, quiet);
    KeepAccount(c, s, s', w, b);
    ReadEntries(c, s0, s, s', b);
    ReadBatches(c, s, s', b);
  }

  /** Only position p changes, so only its batch does. */
  lemma OthersUnwritten(c: Config, s: State, s': State, b: nat, n: nat, d: nat)
    requires s'.written == s.written + {Position(b, n)} && n < Size(c, b) && d != b
    requires s'.todo == s.todo && s'.finished == s.finished && s'.skipped == s.skipped && s'.tainted == s.tainted
    ensures SameBatch(c, s, s', d)
  {
    forall o | 0 <= o < Size(c, d)
      ensures Position(d, o) != Position(b, n)
    {
      PositionsDiffer(d, o, b, n);
    }
  }

  /** Writing back position q changes no other position's entry. */
  lemma WriteEntry(c: Config, s0: seq<FileEntry>, s: State, s': State, q: nat, e: FileEntry, p: nat)
    requires WellFormed(c, |s0|) && |s.entries| == |s0| && q < |c.indices| && p < |c.indices|
    requires s'.entries == s.entries[c.indices[q] := e] && s'.written == s.written + {q} && s'.tainted == s.tainted
    requires Hashed(s0[c.indices[q]], e, c.world, q, q / BATCH_CAPACITY !in s.tainted)
    requires EntryInvariant(c, s0, s, p)
    ensures EntryInvariant(c, s0, s', p)
  {
    if p < q {
      assert c.indices[p] != c.indices[q];
    } else if q < p {
      assert c.indices[q] != c.indices[p];
    }
  }

  lemma WrittenEntry(c: Config, s0: seq<FileEntry>, s: State, k: Worker, b: nat, n: nat)
    requires Invariant(c, s0, s) && |s.entries| == |s0| && WorkerInvariant(c, s0, s, k) && k.phase == Writing(b, n) && n < Size(c, b)
    ensures var q := Position(b, n);
            && q < |c.indices| && q / BATCH_CAPACITY == b
            && Hashed(s0[c.indices[q]], Finish(s.entries[c.indices[q]], k.items[n], k.fed[n], c.world.digest), c.world, q, b !in s.tainted)
  {
    var q := Position(b, n);
    BatchesPartition(|c.indices|, b, q);
    assert Position(b, 0) + n == q;
    assert EntryInvariant(c, s0, s, q) && q !in s.written;
    BatchItemHashed(s0, k.items, k.fed, c.indices, Position(b, 0), Size(c, b), n, c.world, b !in s.tainted);
  }

  lemma WriteEntries(c: Config, s0: seq<FileEntry>, s: State, s': State, w: nat)
    requires Invariant(c, s0, s) && w < |s.workers| && |s.entries| == |s0| && Next(c, s, s', w, WriteNext)
    ensures EntriesInvariant(c, s0, s')
  {
    var k := s.workers[w];
    assert WorkerInvariant(c, s0, s, k);
    var b, n := k.phase.batch, k.phase.next;
    var q := Position(b, n);
    WrittenEntry(c, s0, s, k, b, n);
    forall p: nat | p < |c.indices|
      ensures EntryInvariant(c, s0, s', p)
    {
      assert EntryInvariant(c, s0, s, p);
      WriteEntry(c, s0, s, s', q, s'.entries[c.indices[q]], p);
    }
    assert c.indices[q] in c.indices;
  }

  lemma WriteBatches(c: Config, s0: seq<FileEntry>, s: State, s': State, w: nat)
    requires Invariant(c, s0, s) && w < |s.workers| && |s.entries| == |s0| && Next(c, s, s', w, WriteNext)
    requires forall d: nat | d != s.workers[w].phase.batch :: SameBatch(c, s, s', d)
    ensures BatchesInvariant(c, s')
  {
    var b := s.workers[w].phase.batch;
    assert WorkerInvariant(c, s0, s, s.workers[w]);
    KeepAccount(c, s, s', w, b);
    forall d: nat, n: nat | d != b
      ensures WrittenUpTo(c, s', d, n) <==> WrittenUpTo(c, s, d, n)
    {
      assert SameBatch(c, s, s', d);
    }
  }

  lemma WriteStep(c: Config, s0: seq<FileEntry>, s: State, s': State, w: nat)
    requires Invariant(c, s0, s) && w < |s.workers| && |s.entries| == |s0| && Next(c, s, s', w, WriteNext)
    ensures Invariant(c, s0, s')
  {
    var k, k' := s.workers[w], s'.workers[w];
    assert WorkerInvariant(c, s0, s, k);
    var b, n := k.phase.batch, k.phase.next;
    forall d: nat | d != b
      ensures SameBatch(c, s, s', d)
    {
      OthersUnwritten(c, s, s', b, n, d);
    }
    WriteEntries(c, s0, s, s', w);
    WriteBatches(c, s0, s, s', w);
    assert WrittenUpTo(c, s', b, n + 1);
    KeepOthers(c, s0, s, s', w, k', b);
  }

  lemma AdvanceStep(c: Config, s0: seq<FileEntry>, s: State, s': State, w: nat)
    requires Invariant(c, s0, s) && w < |s.workers| && |s.entries| == |s0| && Next(c, s, s', w, Advance)
    ensures Invariant(c, s0, s')
  {
    var k, k' := s.workers[w], s'.workers[w];
    assert WorkerInvariant(c, s0, s, k);
    if k.phase.Resetting? {
      forall o | 0 <= o < Size(c, k.phase.batch)
        ensures ItemReset(c, s0, k', k.phase.batch, o)
      {
        assert ItemReset(c, s0, k, k.phase.batch, o);
      }
      LocalStep(c, s0, s, s', w, k');
    } else {
      FinishStep(c, s0, s, s', w);
    }
  }

  lemma FinishStep(c: Config, s0: seq<FileEntry>, s: State, s': State, w: nat)
    requires Invariant(c, s0, s) && w < |s.workers| && |s.entries| == |s0| && s.workers[w].phase.Writing? && Next(c, s, s', w, Advance)
    ensures Invariant(c, s0, s')
  {
    var b := s.workers[w].phase.batch;
    assert WorkerInvariant(c, s0, s, s.workers[w]);
    KeepOthers(c, s0, s, s', w, s'.workers[w], b);
    KeepAccount(c, s, s', w, b);
    KeepEntries(c, s0, s, s');
    forall d: nat, n: nat
      ensures WrittenUpTo(c, s', d, n) <==> WrittenUpTo(c, s, d, n)
    {
    }
  }

  /** A run that breaks has kept the invariant so far. */
  lemma BreakStep(c: Config, s0: seq<FileEntry>, s: State, s': State, w: nat)
    requires Invariant(c, s0, s) && w < |s.workers| && |s.entries| == |s0| && Next(c, s, s', w, Break)
    ensures Invariant(c, s0, s')
  {
    assert s.workers == s.workers[w := s.workers[w]];
    assert WorkerInvariant(c, s0, s, s.workers[w]);
    LocalStep(c, s0, s, s', w, s.workers[w]);
  }

  /** Every step of every worker keeps the invariant. */
  lemma StepKeepsInvariant(c: Config, s0: seq<FileEntry>, s: State, s': State, w: nat, step: Step)
    requires Invariant(c, s0, s) && w < |s.workers| && |s.entries| == |s0| && Next(c, s, s', w, step)
    ensures Invariant(c, s0, s') && |s'.entries| == |s0| && |s'.workers| == |s.workers|
  {
    match step
    case Claim(b) => ClaimStep(c, s0, s, s', w, b);
    case Skip(b) => SkipStep(c, s0, s, s', w, b);
    case ResetNext => ResetStep(c, s0, s, s', w);
    case Read(items, fed, quiet) => ReadStep(c, s0, s, s', w, items, fed, quiet);
    case Break => BreakStep(c, s0, s, s', w);
    case WriteNext => WriteStep(c, s0, s, s', w);
    case Advance => AdvanceStep(c, s0, s, s', w);
  }

  lemma InitialInvariant(c: Config, s: State)
    requires WellFormed(c, |s.entries|) && Initial(c, s)
    ensures Invariant(c, s.entries, s)
  {
    forall p: nat | p < |c.indices|
      ensures EntryInvariant(c, s.entries, s, p)
    {
    }
    forall b: nat
      ensures WrittenUpTo(c, s, b, 0)
    {
    }
  }

  /** Two workers never have the same entry in hand, so no entry is read or written by one while the other writes it. */
  lemma RaceFree(c: Config, s0: seq<FileEntry>, s: State, v: nat, w: nat, o: nat, o': nat)
    requires Invariant(c, s0, s) && v < |s.workers| && w < |s.workers| && v != w
    requires !s.workers[v].phase.Idle? && !s.workers[w].phase.Idle?
    requires o < Size(c, s.workers[v].phase.batch) && o' < Size(c, s.workers[w].phase.batch)
    ensures IndexAt(c, s.workers[v].phase.batch, o) != IndexAt(c, s.workers[w].phase.batch, o')
  {
    var p, q := Position(s.workers[v].phase.batch, o), Position(s.workers[w].phase.batch, o');
    if v < w {
      assert s.workers[v].phase.batch != s.workers[w].phase.batch;
    } else {
      assert s.workers[w].phase.batch != s.workers[v].phase.batch;
    }
    PositionsDiffer(s.workers[v].phase.batch, o, s.workers[w].phase.batch, o');
    if p < q {
      assert c.indices[p] != c.indices[q];
    } else {
      assert c.indices[q] != c.indices[p];
    }
  }

  /** A run: each state follows from the one before by a step of some worker. */
  ghost predicate Run(c: Config, trace: seq<State>) {
    && trace != [] && WellFormed(c, |trace[0].entries|) && Initial(c, trace[0])
    && forall i | 0 <= i < |trace| - 1 :: Follows(c, trace[i], trace[i + 1])
  }

  ghost predicate Follows(c: Config, s: State, s': State) {
    WellFormed(c, |s.entries|) && exists w: nat, step: Step :: w < |s.workers| && Next(c, s, s', w, step)
  }

  /** No worker can take a step. */
  ghost predicate Maximal(c: Config, s: State) {
    forall s': State {:trigger Follows(c, s, s')} :: !Follows(c, s, s')
  }

  lemma {:induction false} RunKeepsInvariant(c: Config, trace: seq<State>, i: nat)
    requires Run(c, trace) && i < |trace|
    ensures Invariant(c, trace[0].entries, trace[i]) && |trace[i].entries| == |trace[0].entries|
    ensures |trace[i].workers| == |trace[0].workers|
  {
    if i == 0 {
      InitialInvariant(c, trace[0]);
    } else {
      RunKeepsInvariant(c, trace, i - 1);
      assert Follows(c, trace[i - 1], trace[i]);
      var w: nat, step: Step :| w < |trace[i - 1].workers| && Next(c, trace[i - 1], trace[i], w, step);
      StepKeepsInvariant(c, trace[0].entries, trace[i - 1], trace[i], w, step);
    }
  }

  ghost predicate Finished(s: State) {
    s.todo == {} && forall w | 0 <= w < |s.workers| :: s.workers[w].phase.Idle?
  }

  /** The batch a position belongs to, once no batch is left to do or in hand, is finished or skipped. */
  lemma FinishedPosition(c: Config, s0: seq<FileEntry>, s: State, p: nat)
    requires Invariant(c, s0, s) && Finished(s) && p < |c.indices|
    ensures p in s.written <==> p / BATCH_CAPACITY !in s.skipped
    ensures p / BATCH_CAPACITY in s.skipped || p / BATCH_CAPACITY in s.finished
  {
    var b := p / BATCH_CAPACITY;
    BatchesPartition(|c.indices|, b, p);
    assert !Held(s, b);
    assert Position(b, p - b * BATCH_CAPACITY) == p;
    assert b in s.skipped ==> WrittenUpTo(c, s, b, 0);
    assert b in s.finished ==> WrittenUpTo(c, s, b, Size(c, b));
  }

  /** A finished pass, as the one-worker loop leaves it: the written positions are hashed, everything else is as it was, and
      unless a batch is tainted every item was fed along one path. */
  lemma FinishedHashed(c: Config, s0: seq<FileEntry>, s: State)
    requires Invariant(c, s0, s)
    ensures HashedOn(s0, s.entries, c.indices, s.written, c.world, s.tainted == {})
  {
    forall p: nat | p < |c.indices|
      ensures if p in s.written then Hashed(s0[c.indices[p]], s.entries[c.indices[p]], c.world, p, s.tainted == {})
              else s.entries[c.indices[p]] == s0[c.indices[p]]
    {
      assert EntryInvariant(c, s0, s, p);
    }
  }

  /** Reading every item synchronously is always among the possible readings. */
  lemma SomeReading(c: Config, k: Worker, b: nat) returns (items: seq<BatchItem>, fed: seq<seq<Chunk>>)
    requires |k.items| == |k.fed| && Size(c, b) <= |k.items|
    ensures ReadBy(c, k, b, items, fed, k.quiet)
  {
    var sync := (o: nat) requires o < |k.items| => c.world.sync(Position(b, 0) + o, k.items[o].path);
    var reading := (o: nat) requires o < |k.items| => Consumed(sync(o), c.world.accepts(Position(b, 0) + o), []);
    items := seq(|k.items|, o requires 0 <= o < |k.items| => k.items[o].(success := reading(o).ok, errno := reading(o).errno));
    fed := seq(|k.items|, o requires 0 <= o < |k.items| => reading(o).calls);
    forall o | 0 <= o < Size(c, b)
      ensures Resolved(items[o])
      ensures ItemDone(items[o], fed[o], c.world.accepts(Position(b, 0) + o), c.world.sync(Position(b, 0) + o, items[o].path),
                       c.world.chunk((Position(b, 0) + o) / BATCH_CAPACITY).waits)
    {
      ConsumedResolved(sync(o), c.world.accepts(Position(b, 0) + o), []);
    }
  }

  /** Some worker can move unless the pass is finished or broken; one worker is enough. */
  lemma NeverStuck(c: Config, s0: seq<FileEntry>, s: State) returns (w: nat, step: Step, s': State)
    requires Invariant(c, s0, s) && |s.entries| == |s0| && s.workers != [] && !s.broken && !Finished(s)
    ensures w < |s.workers| && Next(c, s, s', w, step)
  {
    if v: nat :| v < |s.workers| && !s.workers[v].phase.Idle? {
      w := v;
      step, s' := BusyMoves(c, s0, s, w);
    } else {
      var b :| b in s.todo;
      w, step := 0, Claim(b);
      s' := s.(todo := s.todo - {b}, workers := s.workers[0 := s.workers[0].(phase := Resetting(b, 0))]);
    }
  }

  lemma BusyMoves(c: Config, s0: seq<FileEntry>, s: State, w: nat) returns (step: Step, s': State)
    requires Invariant(c, s0, s) && |s.entries| == |s0| && !s.broken && w < |s.workers| && !s.workers[w].phase.Idle?
    ensures Next(c, s, s', w, step)
  {
    var k := s.workers[w];
    assert WorkerInvariant(c, s0, s, k);
    match k.phase
    case Resetting(b, o) =>
      if o < Size(c, b) {
        step := ResetNext;
        var e := s.entries[IndexAt(c, b, o)];
        s' := s.(workers := s.workers[w := Worker(Resetting(b, o + 1), k.items[o := Blank(e)], k.fed[o := []], k.quiet)]);
      } else {
        step := Advance;
        s' := s.(workers := s.workers[w := k.(phase := Phase.Reading(b))]);
      }
    case Reading(b) =>
      var items, fed := SomeReading(c, k, b);
      step := Read(items, fed, k.quiet);
      s' := s.(workers := s.workers[w := Worker(Writing(b, 0), items, fed, k.quiet)],
               tainted := if k.quiet then s.tainted else s.tainted + {b});
    case Writing(b, o) =>
      if o < Size(c, b) {
        step := WriteNext;
        var i := IndexAt(c, b, o);
        s' := s.(entries := s.entries[i := Finish(s.entries[i], k.items[o], k.fed[o], c.world.digest)],
                 workers := s.workers[w := k.(phase := Writing(b, o + 1))],
                 written := s.written + {Position(b, o)});
      } else {
        step := Advance;
        s' := s.(workers := s.workers[w := k.(phase := Idle)], finished := s.finished + {b});
      }
  }

  /** Steps a worker still owes for the batch it holds. */
  function Owed(k: Worker): nat {
    match k.phase
    case Idle => 0
    case Resetting(_, o) => if o <= BATCH_CAPACITY then 2 * BATCH_CAPACITY + 3 - o else 0
    case Reading(_) => BATCH_CAPACITY + 2
    case Writing(_, o) => if o <= BATCH_CAPACITY then BATCH_CAPACITY + 1 - o else 0
  }

  function OwedByAll(workers: seq<Worker>): nat {
    if workers == [] then 0 else Owed(workers[0]) + OwedByAll(workers[1..])
  }

  const STEPS_PER_BATCH := 2 * BATCH_CAPACITY + 4

  function Measure(s: State): nat {
    if s.broken then 0 else STEPS_PER_BATCH * |s.todo| + OwedByAll(s.workers)
  }

  lemma {:induction false} OwedUpdate(workers: seq<Worker>, w: nat, k: Worker)
    requires w < |workers|
    ensures OwedByAll(workers[w := k]) + Owed(workers[w]) == OwedByAll(workers) + Owed(k)
  {
    if w == 0 {
      assert workers[0 := k][1..] == workers[1..];
    } else {
      OwedUpdate(workers[1..], w - 1, k);
      assert workers[w := k][1..] == workers[1..][w - 1 := k];
    }
  }

  lemma OwesLess(c: Config, s0: seq<FileEntry>, s: State, s': State, w: nat, step: Step)
    requires Invariant(c, s0, s) && w < |s.workers| && |s.entries| == |s0| && Next(c, s, s', w, step) && !step.Break?
    ensures w < |s'.workers| && s'.workers == s.workers[w := s'.workers[w]] && !s.broken && !s'.broken
    ensures !step.Claim? && !step.Skip? ==> s'.todo == s.todo && Owed(s'.workers[w]) < Owed(s.workers[w])
    ensures step.Claim? || step.Skip? ==>
              |s'.todo| == |s.todo| - 1 && Owed(s'.workers[w]) < Owed(s.workers[w]) + STEPS_PER_BATCH
  {
    assert WorkerInvariant(c, s0, s, s.workers[w]);
  }

  lemma MeasureDrops(s: State, s': State, w: nat, taken: nat)
    requires w < |s.workers| == |s'.workers| && s'.workers == s.workers[w := s'.workers[w]] && taken <= |s.todo|
    requires !s.broken && !s'.broken
    requires |s'.todo| == |s.todo| - taken && Owed(s'.workers[w]) < Owed(s.workers[w]) + STEPS_PER_BATCH * taken
    ensures Measure(s') < Measure(s)
  {
    OwedUpdate(s.workers, w, s'.workers[w]);
    assert STEPS_PER_BATCH * |s'.todo| == STEPS_PER_BATCH * |s.todo| - STEPS_PER_BATCH * taken;
  }

  lemma BreakDrops(s: State, s': State, w: nat)
    requires w < |s.workers| && s.workers[w].phase.Reading? && !s.broken && s'.broken
    ensures Measure(s') < Measure(s)
  {
    OwedUpdate(s.workers, w, s.workers[w].(phase := Idle));
  }

  /** Every step brings the end closer, so no run goes on for ever. */
  lemma StepDecreases(c: Config, s0: seq<FileEntry>, s: State, s': State, w: nat, step: Step)
    requires Invariant(c, s0, s) && w < |s.workers| && |s.entries| == |s0| && Next(c, s, s', w, step)
    ensures Measure(s') < Measure(s)
  {
    if step.Break? {
      BreakDrops(s, s', w);
    } else {
      OwesLess(c, s0, s, s', w, step);
      MeasureDrops(s, s', w, if step.Claim? || step.Skip? then 1 else 0);
    }
  }

  lemma {:induction false} RunLength(c: Config, trace: seq<State>, i: nat)
    requires Run(c, trace) && i < |trace|
    ensures i + Measure(trace[i]) <= Measure(trace[0])
  {
    if i > 0 {
      RunLength(c, trace, i - 1);
      RunKeepsInvariant(c, trace, i - 1);
      assert Follows(c, trace[i - 1], trace[i]);
      var w: nat, step: Step :| w < |trace[i - 1].workers| && Next(c, trace[i - 1], trace[i], w, step);
      StepDecreases(c, trace[0].entries, trace[i - 1], trace[i], w, step);
    }
  }

  lemma {:induction false} IdleOweNothing(workers: seq<Worker>)
    requires forall w | 0 <= w < |workers| :: workers[w].phase.Idle?
    ensures OwedByAll(workers) == 0
  {
    if workers != [] {
      IdleOweNothing(workers[1..]);
    }
  }

  lemma MaximalIsFinished(c: Config, s0: seq<FileEntry>, s: State)
    requires Invariant(c, s0, s) && |s.entries| == |s0| && s.workers != [] && Maximal(c, s)
    ensures s.broken || Finished(s)
  {
    if !s.broken && !Finished(s) {
      var w, step, s' := NeverStuck(c, s0, s);
      var moved := Follows(c, s, s');
    }
  }

  lemma SpanSize(n: nat)
    ensures |Span(0, n)| == n
  {
    if n > 0 {
      SpanSize(n - 1);
    }
  }

  /** Every run that cannot go on, of any length, on any positive number of workers, either drove a ring into undefined
      behaviour or leaves what the loop on one worker leaves: the candidates hashed, but for the batches skipped, and
      everything else as it was. No run is longer than STEPS_PER_BATCH steps per batch. */
  lemma EveryScheduleHashes(c: Config, trace: seq<State>)
    requires Run(c, trace) && trace[0].workers != [] && Maximal(c, trace[|trace| - 1])
    ensures var last := trace[|trace| - 1]; !last.broken ==>
            && HashedOn(trace[0].entries, last.entries, c.indices, last.written, c.world, last.tainted == {})
            && (forall p: nat | p < |c.indices| :: p in last.written <==> p / BATCH_CAPACITY !in last.skipped)
    ensures |trace| <= STEPS_PER_BATCH * Batches(c) + 1
  {
    var last := |trace| - 1;
    RunKeepsInvariant(c, trace, last);
    MaximalIsFinished(c, trace[0].entries, trace[last]);
    FinishedHashed(c, trace[0].entries, trace[last]);
    forall p: nat | p < |c.indices| && !trace[last].broken
      ensures p in trace[last].written <==> p / BATCH_CAPACITY !in trace[last].skipped
    {
      FinishedPosition(c, trace[0].entries, trace[last], p);
    }
    RunLength(c, trace, last);
    IdleOweNothing(trace[0].workers);
    SpanSize(Batches(c));
  }

  // ---------------------------------------------------------------- when no batch is tainted

  /** All rings are quiet, and so far all batches were read on quiet rings, to their end. */
  predicate AllClean(s: State) {
    s.tainted == {} && !s.broken && forall w | 0 <= w < |s.workers| :: s.workers[w].quiet
  }

  lemma ReadsFairly(c: Config, s0: seq<FileEntry>, k: Worker, b: nat)
    requires WellFormed(c, |s0|) && |k.items| == |k.fed| == BATCH_CAPACITY && b < Batches(c)
    requires forall o | 0 <= o < Size(c, b) :: ItemReset(c, s0, k, b, o)
    requires FairToPass(c.world, s0, c.indices)
    ensures Fair(c.world.chunk(b), ChunkRequests(k.items, 0, Size(c, b)))
  {
    BatchesPartition(|c.indices|, b, 0);
    ReadCarries(c, s0, k, b, k.items);
    FairBatch(c.world, s0, c.indices, b, Position(b, 0), Size(c, b));
    assert Position(b, 0) / BATCH_CAPACITY == b;
    CarriedRequests(k.items, s0, c.indices, Position(b, 0), Size(c, b));
  }

  lemma StepStaysClean(c: Config, s0: seq<FileEntry>, s: State, s': State, w: nat, step: Step)
    requires Invariant(c, s0, s) && w < |s.workers| && |s.entries| == |s0| && Next(c, s, s', w, step)
    requires AllClean(s) && FairToPass(c.world, s0, c.indices)
    ensures AllClean(s')
  {
    var k := s.workers[w];
    assert WorkerInvariant(c, s0, s, k);
    if k.phase.Reading? {
      ReadsFairly(c, s0, k, k.phase.batch);
    }
  }

  lemma MoveStaysClean(c: Config, trace: seq<State>, i: nat)
    requires Run(c, trace) && i + 1 < |trace| && AllClean(trace[i]) && FairToPass(c.world, trace[0].entries, c.indices)
    ensures AllClean(trace[i + 1])
  {
    RunKeepsInvariant(c, trace, i);
    assert Follows(c, trace[i], trace[i + 1]);
    var w: nat, step: Step :| w < |trace[i].workers| && Next(c, trace[i], trace[i + 1], w, step);
    StepStaysClean(c, trace[0].entries, trace[i], trace[i + 1], w, step);
  }

  lemma {:induction false} CleanAlong(trace: seq<State>, i: nat)
    requires i < |trace| && AllClean(trace[0])
    requires forall j | 0 <= j < |trace| - 1 && AllClean(trace[j]) :: AllClean(trace[j + 1])
    ensures AllClean(trace[i])
  {
    if i > 0 {
      CleanAlong(trace, i - 1);
    }
  }

  /** Under a kernel that answers every request no schedule taints a batch or breaks. */
  lemma FairRunsStayClean(c: Config, trace: seq<State>, i: nat)
    requires Run(c, trace) && i < |trace| && AllClean(trace[0]) && FairToPass(c.world, trace[0].entries, c.indices)
    ensures AllClean(trace[i])
  {
    forall j | 0 <= j < |trace| - 1 && AllClean(trace[j])
      ensures AllClean(trace[j + 1])
    {
      MoveStaysClean(c, trace, j);
    }
    CleanAlong(trace, i);
  }

  // ---------------------------------------------------------------- when passes agree

  /** What a pass met outside the program is stable: every reading serves the file's content. */
  ghost predicate StableWorld(world: World, content: seq<Byte> -> seq<Byte>) {
    && (forall k: nat :: StableWaits(world.chunk(k).waits, content))
    && (forall p: nat, path: seq<Byte> :: StableSync(world.sync(p, path), content(path)))
  }

  /** On a stable file system two passes over the same candidates, loop or pool, on whatever kernels, workers and schedules,
      leave the same array if and only if they report the same errors. */
  lemma PassesAgreeIff(s0: seq<FileEntry>, s: seq<FileEntry>, s': seq<FileEntry>, indices: seq<nat>, ran: set<nat>,
                       world: World, world': World, content: seq<Byte> -> seq<Byte>)
    requires HashedOn(s0, s, indices, ran, world, true) && HashedOn(s0, s', indices, ran, world', true)
    requires StableWorld(world, content) && StableWorld(world', content) && world.digest == world'.digest
    ensures s == s' <==> forall i | 0 <= i < |s0| :: s[i].fullErrno == s'[i].fullErrno
  {
    if forall i | 0 <= i < |s0| :: s[i].fullErrno == s'[i].fullErrno {
      forall i | 0 <= i < |s0|
        ensures s[i] == s'[i]
      {
        EntriesAgree(s0, s, s', indices, ran, world, world', content, i);
      }
    }
  }

  lemma EntriesAgree(s0: seq<FileEntry>, s: seq<FileEntry>, s': seq<FileEntry>, indices: seq<nat>, ran: set<nat>,
                     world: World, world': World, content: seq<Byte> -> seq<Byte>, i: nat)
    requires HashedOn(s0, s, indices, ran, world, true) && HashedOn(s0, s', indices, ran, world', true)
    requires StableWorld(world, content) && StableWorld(world', content) && world.digest == world'.digest
    requires i < |s0| && s[i].fullErrno == s'[i].fullErrno
    ensures s[i] == s'[i]
  {
    if i in indices {
      var p :| 0 <= p < |indices| && indices[p] == i;
      if p in ran {
        assert Hashed(s0[indices[p]], s[indices[p]], world, p, true) && Hashed(s0[indices[p]], s'[indices[p]], world', p, true);
        HashedContent(s0[i], s[i], world, p, content);
        HashedContent(s0[i], s'[i], world', p, content);
        HashedRest(s0[i], s[i], world, p);
        HashedRest(s0[i], s'[i], world', p);
      }
    }
  }

  /** Hashing touches nothing but the full-hash fields. */
  lemma HashedRest(e0: FileEntry, e: FileEntry, world: World, p: nat)
    requires Hashed(e0, e, world, p, true)
    ensures e == e0.(fullComputed := true, fullHash := e.fullHash, fullErrno := e.fullErrno)
  {
  }

  predicate ErrorFree(s: seq<FileEntry>) {
    forall i | 0 <= i < |s| :: s[i].fullErrno == 0
  }

  /** The pool against the loop, as whole arrays: a run of the pool that does not break, skips no batch, taints none and meets
      no error leaves exactly the array of an error-free loop. */
  lemma PoolLeavesLoopArray(c: Config, trace: seq<State>, looped: seq<FileEntry>, world: World, content: seq<Byte> -> seq<Byte>)
    requires Run(c, trace) && trace[0].workers != [] && Maximal(c, trace[|trace| - 1])
    requires trace[|trace| - 1].tainted == {} == trace[|trace| - 1].skipped && !trace[|trace| - 1].broken
    requires HashedOn(trace[0].entries, looped, c.indices, Span(0, |c.indices|), world, true)
    requires StableWorld(c.world, content) && StableWorld(world, content) && world.digest == c.world.digest
    requires ErrorFree(looped) && ErrorFree(trace[|trace| - 1].entries)
    ensures trace[|trace| - 1].entries == looped
  {
    var last := trace[|trace| - 1];
    EveryScheduleHashes(c, trace);
    assert last.written == Span(0, |c.indices|);
    PassesAgreeIff(trace[0].entries, last.entries, looped, c.indices, last.written, c.world, world, content);
  }
}
