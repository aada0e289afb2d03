// The full-hash pass: batches of candidates read through a worker's ring, digests written back in place.
module FullPass {
  import opened Entries
  import opened Sequences
  import opened KeyClasses
  import opened StreamReader
  import opened RingSlots
  import opened RingKernel
  import opened RingBatch
  import opened RingConsume
  import opened Candidates

  /** What the pass meets outside the program: per batch the kernel's ring, per candidate position and path its
      synchronous reads, and the hash library. */
  datatype World = World(
    chunk: nat -> ChunkScript,
    sync: (nat, seq<Byte>) -> FileScript,
    accepts: nat -> Acceptor,
    digest: seq<Byte> -> Digest)

  /** A worker's reusable slot: one ring, and one batch item and consumer per batch position. */
  class WorkerSlot {
    const ring: Ring
    const items: array<BatchItem>
    const fed: array<seq<Chunk>>

    ghost predicate Valid()
      reads this, ring, ring.buffers
    {
      ring.Valid() && items.Length == fed.Length == BATCH_CAPACITY
    }

    constructor (depth: nat)
      requires QUEUE_DEPTH <= depth
      ensures Valid() && ring.Quiescent() && fresh(ring) && fresh(ring.buffers) && fresh(items) && fresh(fed)
    {
      ring := new Ring(depth);
      items := new BatchItem[BATCH_CAPACITY](_ => BatchItem([], 0, false, 0));
      fed := new seq<Chunk>[BATCH_CAPACITY](_ => []);
    }
  }

  /** How a batch item's outcome is written back to its entry; a failure leaves the digest as it was. */
  function Finish(e: FileEntry, item: BatchItem, calls: seq<Chunk>, digest: seq<Byte> -> Digest): FileEntry {
    if item.success then e.(fullComputed := true, fullHash := digest(Flat(calls)), fullErrno := 0)
    else e.(fullComputed := true, fullErrno := if item.errno != 0 then item.errno else EIO)
  }

  /** The entry was finished from a resolved item of its own path and size; quiet says that the worker's ring had nothing
      outstanding when the item's batch began, and then the consumer was fed along one path only. */
  ghost predicate Hashed(e0: FileEntry, e: FileEntry, world: World, p: nat, quiet: bool) {
    exists item: BatchItem, calls: seq<Chunk> ::
      && item.path == e0.path && item.size == e0.size && Resolved(item)
      && e == Finish(e0, item, calls, world.digest)
      && (quiet ==> ItemDone(item, calls, world.accepts(p), world.sync(p, e0.path), world.chunk(p / BATCH_CAPACITY).waits))
  }

  /** The entries at the candidate positions in ran are hashed, all others are as they were. */
  ghost predicate HashedOn(s0: seq<FileEntry>, s: seq<FileEntry>, indices: seq<nat>, ran: set<nat>, world: World, quiet: bool) {
    && |s| == |s0| && (forall p | 0 <= p < |indices| :: indices[p] < |s|) && (forall p <- ran :: p < |indices|)
    && (forall p: nat | p < |indices| ::
          if p in ran then Hashed(s0[indices[p]], s[indices[p]], world, p, quiet) else s[indices[p]] == s0[indices[p]])
    && (forall i: nat | i < |s| && i !in indices :: s[i] == s0[i])
  }

  lemma HashedOnStep(s0: seq<FileEntry>, s: seq<FileEntry>, indices: seq<nat>, ran: set<nat>, q: nat, e: FileEntry, world: World,
                     quiet: bool)
    requires HashedOn(s0, s, indices, ran, world, quiet) && q < |indices| && q !in ran && Distinct(indices)
    requires Hashed(s[indices[q]], e, world, q, quiet)
    ensures HashedOn(s0, s[indices[q] := e], indices, ran + {q}, world, quiet)
  {
    var s' := s[indices[q] := e];
    forall p: nat | p < |indices|
      ensures if p in ran + {q} then Hashed(s0[indices[p]], s'[indices[p]], world, p, quiet) else s'[indices[p]] == s0[indices[p]]
    {
      assert p < q ==> indices[p] != indices[q];
      assert q < p ==> indices[q] != indices[p];
    }
    assert indices[q] in indices;
  }

  lemma HashedOnWeaken(s0: seq<FileEntry>, s: seq<FileEntry>, indices: seq<nat>, ran: set<nat>, world: World, quiet: bool)
    requires HashedOn(s0, s, indices, ran, world, quiet)
    ensures HashedOn(s0, s, indices, ran, world, false)
  {
    forall p: nat | p < |indices| && p in ran
      ensures Hashed(s0[indices[p]], s[indices[p]], world, p, false)
    {
      assert Hashed(s0[indices[p]], s[indices[p]], world, p, quiet);
    }
  }

  /** The positions of a batch. */
  function Span(start: nat, count: nat): (r: set<nat>)
    ensures forall p: nat :: p in r <==> start <= p < start + count
  {
    if count == 0 then {} else Span(start, count - 1) + {start + count - 1}
  }

  /** Points the worker's items at the batch's entries and clears their consumers. */
  method ResetSlot(slot: WorkerSlot, entries: array<FileEntry>, indices: seq<nat>, start: nat, count: nat)
    requires slot.Valid() && start + count <= |indices| && count <= BATCH_CAPACITY
    requires forall p | 0 <= p < |indices| :: indices[p] < entries.Length
    modifies slot.items, slot.fed
    ensures forall o | 0 <= o < count ::
              var e := entries[indices[start + o]];
              slot.items[o] == BatchItem(e.path, e.size, false, 0) && slot.fed[o] == []
  {
    for offset := 0 to count
      invariant forall o | 0 <= o < offset ::
                  var e := entries[indices[start + o]];
                  slot.items[o] == BatchItem(e.path, e.size, false, 0) && slot.fed[o] == []
    {
      var e := entries[indices[start + offset]];
      slot.fed[offset] := [];
      slot.items[offset] := BatchItem(e.path, e.size, false, 0);
    }
  }

  /** The batch items carry the paths and sizes of the batch's entries. */
  ghost predicate Carries(items: seq<BatchItem>, s: seq<FileEntry>, indices: seq<nat>, start: nat, count: nat) {
    && start + count <= |indices| && count <= |items|
    && (forall p | 0 <= p < |indices| :: indices[p] < |s|)
    && forall o | 0 <= o < count :: items[o].path == s[indices[start + o]].path && items[o].size == s[indices[start + o]].size
  }

  ghost predicate BatchRead(items: seq<BatchItem>, calls: seq<seq<Chunk>>, start: nat, count: nat, world: World, quiet: bool) {
    && count <= |items| == |calls|
    && (forall o | 0 <= o < count :: Resolved(items[o]))
    && (quiet ==> forall o | 0 <= o < count ::
          ItemDone(items[o], calls[o], world.accepts(start + o), world.sync(start + o, items[o].path),
                   world.chunk((start + o) / BATCH_CAPACITY).waits))
  }

  lemma BatchItemHashed(s0: seq<FileEntry>, items: seq<BatchItem>, fed: seq<seq<Chunk>>, idx: seq<nat>, start: nat, count: nat,
                        offset: nat, world: World, quiet: bool)
    requires Carries(items, s0, idx, start, count) && BatchRead(items, fed, start, count, world, quiet) && offset < count
    ensures var e := s0[idx[start + offset]];
            Hashed(e, Finish(e, items[offset], fed[offset], world.digest), world, start + offset, quiet)
  {
  }

  /** One turn of the write-back loop. */
  lemma WrittenBack(s0: seq<FileEntry>, s: seq<FileEntry>, items: seq<BatchItem>, fed: seq<seq<Chunk>>, indices: seq<nat>,
                    ran: set<nat>, start: nat, count: nat, offset: nat, world: World, quiet: bool)
    requires Carries(items, s0, indices, start, count) && BatchRead(items, fed, start, count, world, quiet) && offset < count
    requires HashedOn(s0, s, indices, ran + Span(start, offset), world, quiet) && Distinct(indices) && ran !! Span(start, count)
    ensures var i := indices[start + offset];
            HashedOn(s0, s[i := Finish(s[i], items[offset], fed[offset], world.digest)], indices, ran + Span(start, offset + 1),
                     world, quiet)
  {
    var q := start + offset;
    assert q in Span(start, count) && q !in Span(start, offset);
    BatchItemHashed(s0, items, fed, indices, start, count, offset, world, quiet);
    HashedOnStep(s0, s, indices, ran + Span(start, offset), q,
                 Finish(s[indices[q]], items[offset], fed[offset], world.digest), world, quiet);
    assert ran + Span(start, offset) + {q} == ran + Span(start, offset + 1);
  }

  /** Writes the outcome of every batch item back to its entry. */
  method WriteBack(slot: WorkerSlot, entries: array<FileEntry>, indices: seq<nat>, start: nat, count: nat, world: World,
                   ghost s0: seq<FileEntry>, ghost ran: set<nat>, ghost quiet: bool)
    requires slot.Valid() && start + count <= |indices| && count <= BATCH_CAPACITY
    requires Distinct(indices) && ran !! Span(start, count)
    requires HashedOn(s0, entries[..], indices, ran, world, quiet)
    requires Carries(slot.items[..], s0, indices, start, count)
    requires BatchRead(slot.items[..], slot.fed[..], start, count, world, quiet)
    modifies entries
    ensures HashedOn(s0, entries[..], indices, ran + Span(start, count), world, quiet)
  {
    ghost var items, fed := slot.items[..], slot.fed[..];
    assert ran + Span(start, 0) == ran;
    for offset := 0 to count
      invariant HashedOn(s0, entries[..], indices, ran + Span(start, offset), world, quiet)
    {
      var i := indices[start + offset];
      WrittenBack(s0, entries[..], items, fed, indices, ran, start, count, offset, world, quiet);
      ghost var s := entries[..];
      entries[i] := Finish(entries[i], slot.items[offset], slot.fed[offset], world.digest);
      assert entries[..] == s[i := Finish(s[i], items[offset], fed[offset], world.digest)];
    }
  }

  function ScriptsFor(world: World, items: seq<BatchItem>, start: nat): nat -> FileScript {
    (o: nat) => world.sync(start + o, if o < |items| then items[o].path else [])
  }

  ghost function BatchItems(s: seq<FileEntry>, indices: seq<nat>, start: nat, count: nat): seq<BatchItem>
    requires start + count <= |indices| && forall p | 0 <= p < |indices| :: indices[p] < |s|
  {
    seq(count, o requires 0 <= o < count => BatchItem(s[indices[start + o]].path, s[indices[start + o]].size, false, 0))
  }

  /** The kernel plays fair to the entries of one batch. */
  ghost predicate FairToEntries(script: ChunkScript, s: seq<FileEntry>, indices: seq<nat>, start: nat, count: nat) {
    && start + count <= |indices| && (forall p | 0 <= p < |indices| :: indices[p] < |s|)
    && Fair(script, ChunkRequests(BatchItems(s, indices, start, count), 0, count))
  }

  ghost predicate FairAt(world: World, s: seq<FileEntry>, indices: seq<nat>, batch: nat) {
    FairToEntries(world.chunk(batch), s, indices, batch * BATCH_CAPACITY, BatchSize(|indices|, batch))
  }

  /** The kernel plays fair to every batch of the pass. */
  ghost predicate FairToPass(world: World, s: seq<FileEntry>, indices: seq<nat>) {
    forall batch: nat | batch < BatchCount(|indices|) :: FairAt(world, s, indices, batch)
  }

  lemma FairBatch(world: World, s: seq<FileEntry>, indices: seq<nat>, batch: nat, start: nat, count: nat)
    requires FairToPass(world, s, indices) && batch < BatchCount(|indices|)
    requires start == batch * BATCH_CAPACITY && count == BatchSize(|indices|, batch)
    ensures FairToEntries(world.chunk(start / BATCH_CAPACITY), s, indices, start, count)
  {
    assert FairAt(world, s, indices, batch);
    assert start / BATCH_CAPACITY == batch;
  }

  lemma OneChunk(items: seq<BatchItem>, n: nat, script: ChunkScript)
    requires n <= |items| && n <= SLOT_COUNT && Fair(script, ChunkRequests(items, 0, n))
    ensures FairToBatch(items, n, [script])
  {
    forall k: nat, count: nat | k * SLOT_COUNT < n && count == ChunkCount(n, k * SLOT_COUNT)
      ensures Fair(ScriptFor([script], k), ChunkRequests(items, k * SLOT_COUNT, count))
    {
      assert k == 0 && count == n;
    }
  }

  /** Items that carry the files of a batch request the same of the ring as freshly reset ones. */
  lemma CarriedRequests(items: seq<BatchItem>, s: seq<FileEntry>, indices: seq<nat>, start: nat, count: nat)
    requires Carries(items, s, indices, start, count)
    ensures ChunkRequests(items, 0, count) == ChunkRequests(BatchItems(s, indices, start, count), 0, count)
  {
    var reset := BatchItems(s, indices, start, count);
    assert |reset| == count;
    forall o | 0 <= o < 0 + count
      ensures items[o].path == reset[o].path && items[o].size == reset[o].size
    {
      assert reset[o] == BatchItem(s[indices[start + o]].path, s[indices[start + o]].size, false, 0);
    }
    ChunkRequestsSame(reset, items, 0, count);
  }

  lemma CarriedFairly(script: ChunkScript, items: seq<BatchItem>, s: seq<FileEntry>, indices: seq<nat>, start: nat, count: nat)
    requires Carries(items, s, indices, start, count) && count <= BATCH_CAPACITY && FairToEntries(script, s, indices, start, count)
    ensures FairToBatch(items, count, [script])
  {
    CarriedRequests(items, s, indices, start, count);
    OneChunk(items, count, script);
  }

  /** One batch: reset, read, write back. ok is false only after undefined behaviour in the ring. */
  method ProcessBatch(slot: WorkerSlot, entries: array<FileEntry>, indices: seq<nat>, start: nat, count: nat, world: World,
                      ghost s0: seq<FileEntry>, ghost ran: set<nat>, ghost quiet: bool, ghost fair: bool)
    returns (ok: bool, gaveUp: bool)
    requires fair ==> FairToEntries(world.chunk(start / BATCH_CAPACITY), s0, indices, start, count)
    requires slot.Valid() && start + count <= |indices| && count <= BATCH_CAPACITY && start % BATCH_CAPACITY == 0
    requires Distinct(indices) && ran !! Span(start, count)
    requires HashedOn(s0, entries[..], indices, ran, world, quiet)
    requires quiet ==> slot.ring.Outstanding() == multiset{}
    modifies entries, slot.items, slot.fed, slot.ring, slot.ring.buffers
    ensures slot.Valid()
    ensures ok ==> HashedOn(s0, entries[..], indices, ran + Span(start, count), world, quiet)
    ensures !ok ==> entries[..] == old(entries[..])
    ensures quiet ==> ok
    ensures quiet && fair ==> !gaveUp
    ensures ok && !gaveUp ==> (slot.ring.Outstanding() == multiset{} <==> old(slot.ring.Outstanding()) == multiset{})
  {
    ghost var s := entries[..];
    ResetSlot(slot, entries, indices, start, count);
    ResetCarries(slot.items[..], s, s0, indices, start, count, ran, world, quiet);
    ok, gaveUp := ReadBatch(slot, start, count, world, s0, indices, quiet, fair);
    if ok {
      WriteBack(slot, entries, indices, start, count, world, s0, ran, quiet);
    }
  }

  lemma ResetCarries(items: seq<BatchItem>, s: seq<FileEntry>, s0: seq<FileEntry>, idx: seq<nat>, start: nat, count: nat,
                     ran: set<nat>, world: World, quiet: bool)
    requires HashedOn(s0, s, idx, ran, world, quiet) && ran !! Span(start, count) && start + count <= |idx| && count <= |items|
    requires forall o | 0 <= o < count :: items[o] == BatchItem(s[idx[start + o]].path, s[idx[start + o]].size, false, 0)
    ensures Carries(items, s0, idx, start, count)
  {
    forall o | 0 <= o < count
      ensures items[o].path == s0[idx[start + o]].path && items[o].size == s0[idx[start + o]].size
    {
      assert start + o in Span(start, count);
    }
  }

  function AcceptsFrom(world: World, start: nat): nat -> Acceptor {
    (o: nat) => world.accepts(start + o)
  }

  lemma ReadInBatch(items0: seq<BatchItem>, items: seq<BatchItem>, calls: seq<seq<Chunk>>, start: nat, count: nat, world: World,
                    quiet: bool)
    requires SameFiles(items0, items) && count <= |items| == |calls| && count <= BATCH_CAPACITY && start % BATCH_CAPACITY == 0
    requires forall o | 0 <= o < count :: Resolved(items[o])
    requires quiet ==> forall o | 0 <= o < count ::
               ItemDone(items[o], calls[o], AcceptsFrom(world, start)(o), ScriptsFor(world, items0, start)(o),
                        ScriptFor([world.chunk(start / BATCH_CAPACITY)], o / SLOT_COUNT).waits)
    ensures BatchRead(items, calls, start, count, world, quiet)
  {
    if quiet {
      forall o | 0 <= o < count
        ensures ItemDone(items[o], calls[o], world.accepts(start + o), world.sync(start + o, items[o].path),
                         world.chunk((start + o) / BATCH_CAPACITY).waits)
      {
        assert (start + o) / BATCH_CAPACITY == start / BATCH_CAPACITY && o / SLOT_COUNT == 0;
      }
    }
  }

  /** Reads the items of a batch through the worker's ring. */
  method ReadBatch(slot: WorkerSlot, start: nat, count: nat, world: World, ghost s0: seq<FileEntry>, ghost idx: seq<nat>,
                   ghost quiet: bool, ghost fair: bool)
    returns (ok: bool, gaveUp: bool)
    requires slot.Valid() && count <= BATCH_CAPACITY && start % BATCH_CAPACITY == 0
    requires Carries(slot.items[..], s0, idx, start, count) && forall o | 0 <= o < count :: slot.fed[o] == []
    requires quiet ==> slot.ring.Outstanding() == multiset{}
    requires fair ==> FairToEntries(world.chunk(start / BATCH_CAPACITY), s0, idx, start, count)
    modifies slot.items, slot.fed, slot.ring, slot.ring.buffers
    ensures slot.Valid() && Carries(slot.items[..], s0, idx, start, count)
    ensures ok ==> BatchRead(slot.items[..], slot.fed[..], start, count, world, quiet)
    ensures quiet ==> ok
    ensures quiet && fair ==> !gaveUp
    ensures ok && !gaveUp ==> (slot.ring.Outstanding() == multiset{} <==> old(slot.ring.Outstanding()) == multiset{})
  {
    var items0 := slot.items[..];
    var scripts := ScriptsFor(world, items0, start);
    if fair {
      CarriedFairly(world.chunk(start / BATCH_CAPACITY), items0, s0, idx, start, count);
    }
    var trusted;
    ok, gaveUp, trusted := ConsumeBatch(slot.ring, slot.items, slot.fed, count, AcceptsFrom(world, start),
                                        [world.chunk(start / BATCH_CAPACITY)], scripts, fair);
    assert SameFiles(items0, slot.items[..]);
    if ok {
      ReadInBatch(items0, slot.items[..], slot.fed[..], start, count, world, quiet);
    }
  }

  function BatchSpan(total: nat, batch: nat): set<nat> {
    Span(batch * BATCH_CAPACITY, BatchSize(total, batch))
  }

  /** The positions that an iteration gets to. */
  function IterationSpan(total: nat, batch: nat, ready: bool): set<nat> {
    if ready then BatchSpan(total, batch) else {}
  }

  /** The positions hashed when the stop signal is seen before batch stopAt. ready says for which batches the worker's slot can
      be set up; the others are passed over. */
  function Reached(total: nat, stopAt: nat, ready: nat -> bool): set<nat> {
    set p | p in Span(0, total) && p / BATCH_CAPACITY < stopAt && ready(p / BATCH_CAPACITY)
  }

  lemma ReachedStep(total: nat, batch: nat, ready: nat -> bool)
    ensures Reached(total, batch, ready) !! BatchSpan(total, batch)
    ensures Reached(total, batch + 1, ready) == Reached(total, batch, ready) + IterationSpan(total, batch, ready(batch))
  {
    forall p: nat
      ensures p in BatchSpan(total, batch) <==> p < total && p / BATCH_CAPACITY == batch
    {
      BatchesPartition(total, batch, p);
    }
  }

  lemma ReachedAll(total: nat, stopAt: nat, ready: nat -> bool)
    requires BatchCount(total) <= stopAt
    ensures Reached(total, stopAt, ready) == Reached(total, BatchCount(total), ready)
  {
    forall p: nat | p < total
      ensures p / BATCH_CAPACITY < BatchCount(total)
    {
      BatchesPartition(total, 0, p);
    }
  }

  // ---------------------------------------------------------------- the pool

  /** One iteration of the parallel loop: which worker runs which batch. */
  datatype Job = Job(worker: nat, batch: nat)

  function Footprint(slot: WorkerSlot): set<object> {
    {slot, slot.items, slot.fed, slot.ring, slot.ring.buffers}
  }

  function FootprintOfAll(slots: seq<WorkerSlot>): (r: set<object>)
    ensures forall w | 0 <= w < |slots| :: Footprint(slots[w]) <= r
  {
    if slots == [] then {} else FootprintOfAll(slots[..|slots| - 1]) + Footprint(slots[|slots| - 1])
  }

  /** No worker's slot holds an array of entries. */
  lemma {:induction false} EntriesApart(slots: seq<WorkerSlot>, entries: array<FileEntry>)
    ensures entries !in FootprintOfAll(slots)
  {
    if slots != [] {
      EntriesApart(slots[..|slots| - 1], entries);
    }
  }

  /** The workers of a pool: valid slots that share nothing. */
  ghost predicate Crew(slots: seq<WorkerSlot>)
    reads FootprintOfAll(slots)
  {
    && (forall w | 0 <= w < |slots| :: assert Footprint(slots[w]) <= FootprintOfAll(slots); slots[w].Valid())
    && (forall v, w | 0 <= v < w < |slots| :: Footprint(slots[v]) !! Footprint(slots[w]))
  }

  /** No worker's ring has anything outstanding. */
  ghost predicate AllQuiet(slots: seq<WorkerSlot>)
    reads FootprintOfAll(slots)
  {
    forall w | 0 <= w < |slots| ::
      assert Footprint(slots[w]) <= FootprintOfAll(slots); slots[w].ring.Outstanding() == multiset{}
  }

  /** Every job names a worker of the pool and a batch of the pass, and no batch is run twice. */
  predicate Assigned(jobs: seq<Job>, workers: nat, total: nat) {
    && (forall j | 0 <= j < |jobs| :: jobs[j].worker < workers && jobs[j].batch < BatchCount(total))
    && (forall i, j | 0 <= i < j < |jobs| :: jobs[i].batch != jobs[j].batch)
  }

  /** The positions of the batches run. */
  function RanBy(jobs: seq<Job>, total: nat): set<nat> {
    if jobs == [] then {} else RanBy(jobs[..|jobs| - 1], total) + BatchSpan(total, jobs[|jobs| - 1].batch)
  }

  lemma {:induction false} RanByJobs(jobs: seq<Job>, total: nat, p: nat)
    ensures p in RanBy(jobs, total) <==> exists j :: 0 <= j < |jobs| && p in BatchSpan(total, jobs[j].batch)
  {
    if jobs != [] {
      RanByJobs(jobs[..|jobs| - 1], total, p);
    }
  }

  lemma RanByStep(jobs: seq<Job>, k: nat, workers: nat, total: nat)
    requires Assigned(jobs, workers, total) && k < |jobs|
    ensures RanBy(jobs[..k], total) !! BatchSpan(total, jobs[k].batch)
    ensures RanBy(jobs[..k + 1], total) == RanBy(jobs[..k], total) + IterationSpan(total, jobs[k].batch, true)
  {
    assert jobs[..k + 1][..k] == jobs[..k];
    forall p | p in RanBy(jobs[..k], total)
      ensures p !in BatchSpan(total, jobs[k].batch)
    {
      RanByJobs(jobs[..k], total, p);
      var j :| 0 <= j < k && p in BatchSpan(total, jobs[..k][j].batch);
      BatchesPartition(total, jobs[j].batch, p);
      BatchesPartition(total, jobs[k].batch, p);
    }
  }

  /** One iteration on one worker. */
  method RunBatch(slot: WorkerSlot, entries: array<FileEntry>, indices: seq<nat>, batch: nat, world: World,
                  ghost s0: seq<FileEntry>, ghost ran: set<nat>, ghost quiet: bool, ghost fair: bool)
    returns (ok: bool, gaveUp: bool)
    requires slot.Valid() && batch < BatchCount(|indices|)
    requires Distinct(indices) && ran !! BatchSpan(|indices|, batch)
    requires HashedOn(s0, entries[..], indices, ran, world, quiet)
    requires quiet ==> slot.ring.Outstanding() == multiset{}
    requires fair ==> FairToPass(world, s0, indices)
    modifies entries, slot.items, slot.fed, slot.ring, slot.ring.buffers
    ensures slot.Valid()
    ensures ok ==> HashedOn(s0, entries[..], indices, ran + BatchSpan(|indices|, batch), world, quiet)
    ensures quiet ==> ok
    ensures quiet && fair ==> !gaveUp
    ensures quiet && !gaveUp ==> slot.ring.Outstanding() == multiset{}
  {
    BatchesPartition(|indices|, batch, 0);
    var start, count := batch * BATCH_CAPACITY, BatchSize(|indices|, batch);
    if fair {
      FairBatch(world, s0, indices, batch, start, count);
    }
    ok, gaveUp := ProcessBatch(slot, entries, indices, start, count, world, s0, ran, quiet, fair);
  }

  /** One iteration on a worker of the pool, whose other workers' slots stay as they are. Without a slot it does nothing. */
  method Iterate(slots: seq<WorkerSlot>, entries: array<FileEntry>, indices: seq<nat>, job: Job, ready: bool, world: World,
                 ghost s0: seq<FileEntry>, ghost ran: set<nat>, ghost quiet: bool, ghost fair: bool)
    returns (ok: bool, gaveUp: bool)
    requires Crew(slots) && job.worker < |slots| && job.batch < BatchCount(|indices|)
    requires Distinct(indices) && ran !! BatchSpan(|indices|, job.batch)
    requires HashedOn(s0, entries[..], indices, ran, world, quiet)
    requires quiet ==> AllQuiet(slots)
    requires fair ==> FairToPass(world, s0, indices)
    modifies entries, Footprint(slots[job.worker])
    ensures Crew(slots)
    ensures ok ==> HashedOn(s0, entries[..], indices, ran + IterationSpan(|indices|, job.batch, ready), world, quiet && !gaveUp)
    ensures quiet ==> ok
    ensures quiet && fair ==> !gaveUp
    ensures quiet && !gaveUp ==> AllQuiet(slots)
  {
    if !ready {
      assert ran + IterationSpan(|indices|, job.batch, ready) == ran;
      return true, false;
    }
    EntriesApart(slots, entries);
    assert Footprint(slots[job.worker]) <= FootprintOfAll(slots);
    ok, gaveUp := RunBatch(slots[job.worker], entries, indices, job.batch, world, s0, ran, quiet, fair);
    if ok && gaveUp {
      HashedOnWeaken(s0, entries[..], indices, ran + BatchSpan(|indices|, job.batch), world, quiet);
    }
  }

  /** One iteration among those of a pass; gaveUp says whether any has given up so far. */
  method IterateNext(slots: seq<WorkerSlot>, entries: array<FileEntry>, indices: seq<nat>, job: Job, ready: bool, world: World,
                     gaveUp0: bool, ghost s0: seq<FileEntry>, ghost ran: set<nat>, ghost quiet0: bool, ghost fair: bool)
    returns (ok: bool, gaveUp: bool)
    requires Crew(slots) && job.worker < |slots| && job.batch < BatchCount(|indices|)
    requires Distinct(indices) && ran !! BatchSpan(|indices|, job.batch)
    requires HashedOn(s0, entries[..], indices, ran, world, quiet0 && !gaveUp0)
    requires (quiet0 && !gaveUp0 ==> AllQuiet(slots)) && (quiet0 && fair ==> !gaveUp0)
    requires fair ==> FairToPass(world, s0, indices)
    modifies entries, FootprintOfAll(slots)
    ensures Crew(slots)
    ensures ok ==> HashedOn(s0, entries[..], indices, ran + IterationSpan(|indices|, job.batch, ready), world, quiet0 && !gaveUp)
    ensures quiet0 && !gaveUp ==> ok && AllQuiet(slots)
    ensures quiet0 && fair ==> !gaveUp
  {
    assert Footprint(slots[job.worker]) <= FootprintOfAll(slots);
    ok, gaveUp := Iterate(slots, entries, indices, job, ready, world, s0, ran, quiet0 && !gaveUp0, fair);
    gaveUp := gaveUp0 || gaveUp;
  }

  /** The forced single-thread loop: the first worker, batch after batch, until the stop signal is seen before batch stopAt. */
  method HashCandidates(slots: seq<WorkerSlot>, entries: array<FileEntry>, indices: seq<nat>, stopAt: nat, ready: nat -> bool,
                        world: World, ghost fair: bool)
    returns (ok: bool, gaveUp: bool)
    requires Crew(slots) && slots != [] && Distinct(indices)
    requires forall p | 0 <= p < |indices| :: indices[p] < entries.Length
    requires fair ==> FairToPass(world, entries[..], indices)
    modifies entries, FootprintOfAll(slots)
    ensures Crew(slots)
    ensures ok ==> HashedOn(old(entries[..]), entries[..], indices, Reached(|indices|, stopAt, ready), world,
                            old(AllQuiet(slots)) && !gaveUp)
    ensures old(AllQuiet(slots)) && !gaveUp ==> ok
    ensures old(AllQuiet(slots)) && fair ==> !gaveUp
  {
    ghost var s0 := entries[..];
    ghost var quiet0 := AllQuiet(slots);
    ok, gaveUp := true, false;
    var batch, total := 0, |indices|;
    ghost var ran := {};
    while batch < BatchCount(total) && batch < stopAt
      invariant batch <= BatchCount(total) && batch <= stopAt && Crew(slots) && ran == Reached(total, batch, ready)
      invariant HashedOn(s0, entries[..], indices, ran, world, quiet0 && !gaveUp)
      invariant (quiet0 && fair ==> !gaveUp) && (quiet0 && !gaveUp ==> AllQuiet(slots))
    {
      ReachedStep(total, batch, ready);
      ok, gaveUp := IterateNext(slots, entries, indices, Job(0, batch), ready(batch), world, gaveUp, s0, ran, quiet0, fair);
      if !ok {
        return;
      }
      ran := ran + IterationSpan(total, batch, ready(batch));
      batch := batch + 1;
    }
    if batch < stopAt {
      ReachedAll(total, stopAt, ready);
    }
  }

  /** The pool: the iterations that run, in the order in which they take effect, each on the worker that took it. Iterations
      that do nothing, after the stop signal or for want of a worker slot, are absent. */
  method HashOnPool(slots: seq<WorkerSlot>, entries: array<FileEntry>, indices: seq<nat>, jobs: seq<Job>, world: World,
                    ghost fair: bool)
    returns (ok: bool, gaveUp: bool)
    requires Crew(slots) && Assigned(jobs, |slots|, |indices|) && Distinct(indices)
    requires forall p | 0 <= p < |indices| :: indices[p] < entries.Length
    requires fair ==> FairToPass(world, entries[..], indices)
    modifies entries, FootprintOfAll(slots)
    ensures Crew(slots)
    ensures ok ==> HashedOn(old(entries[..]), entries[..], indices, RanBy(jobs, |indices|), world,
                            old(AllQuiet(slots)) && !gaveUp)
    ensures old(AllQuiet(slots)) && !gaveUp ==> ok
    ensures old(AllQuiet(slots)) && fair ==> !gaveUp
  {
    ghost var s0 := entries[..];
    ghost var quiet0 := AllQuiet(slots);
    ok, gaveUp := true, false;
    var k := 0;
    while k < |jobs|
      invariant k <= |jobs| && Crew(slots)
      invariant HashedOn(s0, entries[..], indices, RanBy(jobs[..k], |indices|), world, quiet0 && !gaveUp)
      invariant (quiet0 && fair ==> !gaveUp) && (quiet0 && !gaveUp ==> AllQuiet(slots))
    {
      RanByStep(jobs, k, |slots|, |indices|);
      ghost var ran := RanBy(jobs[..k], |indices|);
      ok, gaveUp := IterateNext(slots, entries, indices, jobs[k], true, world, gaveUp, s0, ran, quiet0, fair);
      if !ok {
        return;
      }
      k := k + 1;
    }
    assert jobs[..k] == jobs;
  }

  /** How the pass is dispatched: the forced loop on the first worker until it is stopped, or a pool, given by the jobs it
      runs for a number of candidates. */
  datatype Dispatch = Forced(stopAt: nat, ready: nat -> bool) | Pool(jobsFor: nat -> seq<Job>)

  ghost predicate Dispatchable(dispatch: Dispatch, workers: nat) {
    workers > 0 && (dispatch.Pool? ==> forall n: nat :: Assigned(dispatch.jobsFor(n), workers, n))
  }

  /** The candidate positions that a dispatch gets to. */
  function Ran(dispatch: Dispatch, total: nat): set<nat> {
    match dispatch
    case Forced(stopAt, ready) => Reached(total, stopAt, ready)
    case Pool(jobsFor) => RanBy(jobsFor(total), total)
  }

  /** Every batch of n candidates is run: none lies behind the stop or lacks a slot, or each is some worker's job. */
  ghost predicate RunsAll(dispatch: Dispatch, n: nat) {
    forall batch: nat | batch < BatchCount(n) :: RunsBatch(dispatch, n, batch)
  }

  ghost predicate RunsBatch(dispatch: Dispatch, n: nat, batch: nat) {
    match dispatch
    case Forced(stopAt, ready) => batch < stopAt && ready(batch)
    case Pool(jobsFor) => exists j :: 0 <= j < |jobsFor(n)| && jobsFor(n)[j].batch == batch
  }

  lemma RanPosition(dispatch: Dispatch, n: nat, p: nat)
    requires p < n
    ensures p in Ran(dispatch, n) <==> RunsBatch(dispatch, n, p / BATCH_CAPACITY)
  {
    match dispatch
    case Forced(_, _) =>
    case Pool(jobsFor) =>
      var jobs := jobsFor(n);
      RanByJobs(jobs, n, p);
      forall j | 0 <= j < |jobs|
        ensures p in BatchSpan(n, jobs[j].batch) <==> jobs[j].batch == p / BATCH_CAPACITY
      {
        BatchesPartition(n, jobs[j].batch, p);
      }
  }

  /** A dispatch gets to every candidate if and only if it runs every batch. */
  lemma CompleteIff(dispatch: Dispatch, n: nat, workers: nat)
    requires Dispatchable(dispatch, workers)
    ensures Ran(dispatch, n) == Span(0, n) <==> RunsAll(dispatch, n)
  {
    forall p: nat | p < n
      ensures p in Ran(dispatch, n) <==> RunsBatch(dispatch, n, p / BATCH_CAPACITY)
      ensures p / BATCH_CAPACITY < BatchCount(n)
    {
      RanPosition(dispatch, n, p);
      BatchesPartition(n, 0, p);
    }
    RanInside(dispatch, n, workers);
    if Ran(dispatch, n) == Span(0, n) {
      forall batch: nat | batch < BatchCount(n)
        ensures RunsBatch(dispatch, n, batch)
      {
        BatchesPartition(n, batch, batch * BATCH_CAPACITY);
        assert batch * BATCH_CAPACITY / BATCH_CAPACITY == batch;
      }
    }
  }

  lemma RanInside(dispatch: Dispatch, n: nat, workers: nat)
    requires Dispatchable(dispatch, workers)
    ensures Ran(dispatch, n) <= Span(0, n)
  {
    if dispatch.Pool? {
      var jobs := dispatch.jobsFor(n);
      forall p | p in RanBy(jobs, n)
        ensures p in Span(0, n)
      {
        RanByJobs(jobs, n, p);
        var j :| 0 <= j < |jobs| && p in BatchSpan(n, jobs[j].batch);
        BatchesPartition(n, jobs[j].batch, p);
      }
    }
  }

  /** Builds the candidates and hashes them; the count reported is that of the candidates. */
  method RunFullPass(slots: seq<WorkerSlot>, entries: array<FileEntry>, groups: seq<Group>, dispatch: Dispatch, world: World)
    returns (ok: bool, gaveUp: bool, filesHashed: nat, ghost indices: seq<nat>)
    requires Crew(slots) && Dispatchable(dispatch, |slots|) && InOrder(groups)
    requires forall k | 0 <= k < |groups| :: groups[k].End() <= entries.Length
    modifies entries, FootprintOfAll(slots)
    ensures Crew(slots) && filesHashed == TotalCount(groups)
    ensures CandidateOrder(old(entries[..]), groups, indices)
    ensures ok ==> HashedOn(old(entries[..]), entries[..], indices, Ran(dispatch, |indices|), world, old(AllQuiet(slots)) && !gaveUp)
    ensures old(AllQuiet(slots)) && !gaveUp ==> ok
    ensures old(AllQuiet(slots)) && FairToPass(world, old(entries[..]), indices) ==> !gaveUp
  {
    var candidates := BuildCandidates(entries, groups);
    var order := candidates[..];
    indices := order;
    CandidatesInside(entries[..], groups, indices);
    ghost var fair := FairToPass(world, entries[..], indices);
    filesHashed := |order|;
    match dispatch
    case Forced(stopAt, ready) =>
      ok, gaveUp := HashCandidates(slots, entries, order, stopAt, ready, world, fair);
    case Pool(jobsFor) =>
      ok, gaveUp := HashOnPool(slots, entries, order, jobsFor(|order|), world, fair);
  }

  lemma CandidatesInside(s: seq<FileEntry>, groups: seq<Group>, indices: seq<nat>)
    requires CandidateOrder(s, groups, indices)
    requires forall k | 0 <= k < |groups| :: groups[k].End() <= |s|
    ensures forall p | 0 <= p < |indices| :: indices[p] < |s|
  {
    forall p | 0 <= p < |indices|
      ensures indices[p] < |s|
    {
      assert indices[p] in indices;
      assert Covered(groups, indices[p]);
    }
  }

  /** On a stable file system a hashed entry that reports no error carries the digest of its content, and one that
      reports an error keeps the digest it had. */
  lemma HashedContent(e0: FileEntry, e: FileEntry, world: World, p: nat, content: seq<Byte> -> seq<Byte>)
    requires Hashed(e0, e, world, p, true)
    requires StableWaits(world.chunk(p / BATCH_CAPACITY).waits, content) && StableSync(world.sync(p, e0.path), content(e0.path))
    ensures e.fullComputed && IdOf(e) == IdOf(e0) && e.fastHash == e0.fastHash
    ensures e.fullHash == if e.fullErrno == 0 then world.digest(content(e0.path)) else e0.fullHash
  {
    var item: BatchItem, calls: seq<Chunk> :|
      && item.path == e0.path && item.size == e0.size && Resolved(item)
      && e == Finish(e0, item, calls, world.digest)
      && ItemDone(item, calls, world.accepts(p), world.sync(p, e0.path), world.chunk(p / BATCH_CAPACITY).waits);
    if item.success {
      ReadPathsAgree(item, calls, world.accepts(p), world.sync(p, e0.path), world.chunk(p / BATCH_CAPACITY).waits, content);
    }
  }

  /** When nothing outside the program fails, a file of the recorded size is hashed without error. */
  lemma HashedServed(e0: FileEntry, e: FileEntry, world: World, p: nat, content: seq<Byte> -> seq<Byte>)
    requires Hashed(e0, e, world, p, true) && |content(e0.path)| == e0.size
    requires ObligingWaits(world.chunk(p / BATCH_CAPACITY).waits, content) && ObligingSync(world.sync(p, e0.path))
    requires AcceptsAll(world.accepts(p))
    ensures e.fullErrno == 0
  {
    var item: BatchItem, calls: seq<Chunk> :|
      && item.path == e0.path && item.size == e0.size && Resolved(item)
      && e == Finish(e0, item, calls, world.digest)
      && ItemDone(item, calls, world.accepts(p), world.sync(p, e0.path), world.chunk(p / BATCH_CAPACITY).waits);
    ServedSucceeds(item, calls, world.accepts(p), world.sync(p, e0.path), world.chunk(p / BATCH_CAPACITY).waits, content);
  }
}
