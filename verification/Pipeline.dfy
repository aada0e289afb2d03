// The stages in the order the application runs them, on one array that keeps being permuted.
module Pipeline {
  import opened Entries
  import opened Sequences
  import opened KeyClasses
  import opened GroupingBySize
  import opened GroupingByHash
  import opened StreamReader
  import opened RingSlots
  import opened RingKernel
  import opened RingBatch
  import opened Candidates
  import opened Projections
  import opened Statistics
  import FastPass
  import FullPass
  import Schedules

  /** Everything outside the program. The file scripts may depend on when a file is read and on its path. */
  datatype Environment = Environment(
    fast: (nat, seq<Byte>) -> FastPass.FastScript,
    chunk: nat -> ChunkScript,
    sync: (nat, seq<Byte>) -> FileScript,
    accepts: nat -> Acceptor,
    xxh: FastPass.Xxh64,
    digest: (Algorithm, seq<Byte>) -> Digest)

  /** Nothing to report, a ring driven into undefined behaviour, or the groups with their totals. */
  datatype Outcome = NoReport | Undefined | Report(groups: seq<Group>, statistics: Statistics)

  /** What the size stage, the fast stage and the digest stage compare, taken together. */
  function StoredKey(digestSize: nat): FileEntry -> ((nat, Word), seq<Byte>)
    requires digestSize <= DIGEST_BYTES
  {
    Pair(Pair(SizeOf, FastHashOf), DigestPrefixOf(digestSize))
  }

  function PathAt(s: seq<FileEntry>, i: nat): seq<Byte> {
    if i < |s| then s[i].path else []
  }

  /** The environment as the fast pass meets it over the entries s. */
  function FastScripts(env: Environment, s: seq<FileEntry>): nat -> FastPass.FastScript {
    (i: nat) => env.fast(i, PathAt(s, i))
  }

  function FullWorld(env: Environment, algorithm: Algorithm): FullPass.World {
    FullPass.World(env.chunk, env.sync, env.accepts, (bytes: seq<Byte>) => env.digest(algorithm, bytes))
  }

  /** s' differs from s only in hash fields, and only where a group window covers the entry. */
  ghost predicate OnlyHashes(s: seq<FileEntry>, s': seq<FileEntry>, groups: seq<Group>) {
    && |s'| == |s|
    && (forall i | 0 <= i < |s| :: IdOf(s'[i]) == IdOf(s[i]))
    && (forall i: nat | i < |s| && !Covered(groups, i) :: s'[i] == s[i])
  }

  lemma FastPassOnlyHashes(s: seq<FileEntry>, s': seq<FileEntry>, groups: seq<Group>, indices: seq<nat>, schedule: seq<nat>,
                           scripts: nat -> FastPass.FastScript, xxh: FastPass.Xxh64)
    requires CandidateOrder(s, groups, indices) && FastPass.Within(schedule, |indices|)
    requires FastPass.FastHashedAt(s, s', FastPass.At(indices, schedule), scripts, xxh)
    ensures OnlyHashes(s, s', groups)
  {
    forall i: nat | i < |s| && !Covered(groups, i)
      ensures s'[i] == s[i]
    {
      assert i !in indices;
    }
  }

  lemma FullPassOnlyHashes(s: seq<FileEntry>, s': seq<FileEntry>, groups: seq<Group>, indices: seq<nat>, ran: set<nat>,
                           world: FullPass.World, quiet: bool)
    requires CandidateOrder(s, groups, indices)
    requires FullPass.HashedOn(s, s', indices, ran, world, quiet)
    ensures OnlyHashes(s, s', groups)
    ensures forall i | 0 <= i < |s| :: s'[i].fastHash == s[i].fastHash
  {
    forall i: nat | i < |s|
      ensures IdOf(s'[i]) == IdOf(s[i]) && s'[i].fastHash == s[i].fastHash
      ensures !Covered(groups, i) ==> s'[i] == s[i]
    {
      if i in indices {
        var p :| 0 <= p < |indices| && indices[p] == i;
        assert p in ran ==> FullPass.Hashed(s[indices[p]], s'[indices[p]], world, p, quiet);
      }
    }
  }

  function Ids(s: seq<FileEntry>): seq<Identity> {
    Map(IdOf, s)
  }

  /** The kept entries keep their identities as a multiset from one stage to the next. */
  ghost predicate SameIds(s: seq<FileEntry>, s': seq<FileEntry>, n: nat) {
    n <= |s| && n <= |s'| && multiset(Ids(s[..n])) == multiset(Ids(s'[..n]))
  }

  lemma OnlyHashesSameIds(s: seq<FileEntry>, s': seq<FileEntry>, groups: seq<Group>, n: nat)
    requires OnlyHashes(s, s', groups) && n <= |s|
    ensures SameIds(s, s', n)
  {
    assert Ids(s[..n]) == Ids(s'[..n]);
  }

  /** When no parent class has two members there is nothing to refine. */
  lemma NothingToRefine<K1, K2>(s: seq<FileEntry>, n: nat, outer: FileEntry -> K1, inner: FileEntry -> K2)
    requires n <= |s| && Classes(s, 0, n, outer, [])
    ensures Classes(s, 0, n, Pair(outer, inner), [])
  {
    SkipGap(s, n, outer, [], inner, 0, n, []);
  }

  lemma GroupsInside<K>(s: seq<FileEntry>, n: nat, key: FileEntry -> K, gs: seq<Group>)
    requires n <= |s| && Classes(s, 0, n, key, gs)
    ensures forall k | 0 <= k < |gs| :: gs[k].End() <= n && 2 <= gs[k].count
  {
    forall k | 0 <= k < |gs|
      ensures gs[k].End() <= n && 2 <= gs[k].count
    {
      assert WholeClass(s, 0, n, key, gs[k]);
    }
  }

  /** The array and the windows between the stages of one run. fastRan lists the iterations of the fast pass that ran, fullRan
      holds the candidate positions that the full pass got to, and trusted says that it read all of them on quiet rings. */
  datatype Trail = Trail(
    discovered: seq<FileEntry>,
    sized: seq<FileEntry>,
    kept: nat,
    sizeGroups: seq<Group>,
    fastOrder: seq<nat>,
    fastRan: seq<nat>,
    fastHashed: seq<FileEntry>,
    fastGrouped: seq<FileEntry>,
    fastGroups: seq<Group>,
    fullOrder: seq<nat>,
    fullRan: set<nat>,
    fullHashed: seq<FileEntry>,
    final: seq<FileEntry>,
    groups: seq<Group>,
    trusted: bool)

  ghost function NewTrail(discovered: seq<FileEntry>, sized: seq<FileEntry>, kept: nat, sizeGroups: seq<Group>): Trail {
    Trail(discovered, sized, kept, sizeGroups, [], [], [], [], [], [], {}, [], [], [], true)
  }

  ghost predicate SizeStage(t: Trail, matchHardlinks: bool) {
    && t.kept <= |t.sized| == |t.discovered|
    && Survivors(t.discovered, t.sized[..t.kept], matchHardlinks)
    && Classes(t.sized, 0, t.kept, SizeOf, t.sizeGroups)
    && Sized(t.sized, t.sizeGroups)
  }

  ghost predicate FastStage(t: Trail, env: Environment) {
    && CandidateOrder(t.sized, t.sizeGroups, t.fastOrder) && FastPass.Within(t.fastRan, |t.fastOrder|)
    && FastPass.FastHashedAt(t.sized, t.fastHashed, FastPass.At(t.fastOrder, t.fastRan), FastScripts(env, t.sized), env.xxh)
    && Refined(t.fastHashed, t.fastGrouped, t.kept, SizeOf, t.sizeGroups, |t.sizeGroups|, FastHashOf, t.fastGroups)
    && Classes(t.fastGrouped, 0, t.kept, Pair(SizeOf, FastHashOf), t.fastGroups)
  }

  ghost predicate FullStage(t: Trail, env: Environment, algorithm: Algorithm) {
    && CandidateOrder(t.fastGrouped, t.fastGroups, t.fullOrder)
    && FullPass.HashedOn(t.fastGrouped, t.fullHashed, t.fullOrder, t.fullRan, FullWorld(env, algorithm), t.trusted)
    && Refined(t.fullHashed, t.final, t.kept, Pair(SizeOf, FastHashOf), t.fastGroups, |t.fastGroups|,
               DigestPrefixOf(DigestSize(algorithm)), t.groups)
    && Classes(t.final, 0, t.kept, StoredKey(DigestSize(algorithm)), t.groups)
  }

  /** The kernel plays fair to every batch of the full pass of this run. */
  ghost predicate FairRun(t: Trail, env: Environment, algorithm: Algorithm) {
    FullPass.FairToPass(FullWorld(env, algorithm), t.fastGrouped, t.fullOrder)
  }

  /** A run from discovered entries to reported groups. */
  ghost predicate Staged(t: Trail, env: Environment, matchHardlinks: bool, algorithm: Algorithm) {
    SizeStage(t, matchHardlinks) && FastStage(t, env) && FullStage(t, env, algorithm)
  }

  /** The passes of the run got to what the schedule and the dispatch say. */
  ghost predicate RanAs(t: Trail, scheduleFor: nat -> seq<nat>, dispatch: FullPass.Dispatch) {
    t.fastRan == scheduleFor(TotalCount(t.sizeGroups)) && t.fullRan == FullPass.Ran(dispatch, |t.fullOrder|)
  }

  lemma SizesUntouched(s: seq<FileEntry>, s': seq<FileEntry>, n: nat, groups: seq<Group>, gs: seq<Group>)
    requires OnlyHashes(s, s', groups) && n <= |s| && Classes(s, 0, n, SizeOf, gs)
    ensures Classes(s', 0, n, SizeOf, gs)
  {
    forall i | 0 <= i < n
      ensures SizeOf(s'[i]) == SizeOf(s[i])
    {
      assert IdOf(s'[i]) == IdOf(s[i]);
    }
    ClassesFrame(s, s', 0, n, SizeOf, gs);
  }

  /** Size, fast pass and fast grouping over the whole array. */
  method RunFastStage(entries: array<FileEntry>, ghost kept: nat, sizeGroups: seq<Group>, schedule: seq<nat>, env: Environment)
    returns (groups: seq<Group>, candidates: nat, filesHashed: nat, ghost order: seq<nat>, ghost hashed: seq<FileEntry>)
    requires kept <= entries.Length && Classes(entries[..], 0, kept, SizeOf, sizeGroups)
    requires Distinct(schedule) && FastPass.Within(schedule, TotalCount(sizeGroups))
    modifies entries
    ensures filesHashed == TotalCount(sizeGroups) && candidates == TotalCount(groups)
    ensures CandidateOrder(old(entries[..]), sizeGroups, order) && FastPass.Within(schedule, |order|)
    ensures FastPass.FastHashedAt(old(entries[..]), hashed, FastPass.At(order, schedule), FastScripts(env, old(entries[..])), env.xxh)
    ensures Refined(hashed, entries[..], kept, SizeOf, sizeGroups, |sizeGroups|, FastHashOf, groups)
    ensures Classes(entries[..], 0, kept, Pair(SizeOf, FastHashOf), groups)
  {
    ghost var s := entries[..];
    var scripts := FastScripts(env, entries[..]);
    GroupsInside(s, kept, SizeOf, sizeGroups);
    filesHashed, order := FastPass.RunFastPass(entries, sizeGroups, schedule, scripts, env.xxh);
    hashed := entries[..];
    FastPassOnlyHashes(s, hashed, sizeGroups, order, schedule, scripts, env.xxh);
    SizesUntouched(s, hashed, kept, sizeGroups, sizeGroups);
    groups, candidates := GroupByFastHash(entries, kept, sizeGroups, SizeOf);
  }

  lemma KeysUntouched(s: seq<FileEntry>, s': seq<FileEntry>, n: nat, groups: seq<Group>, gs: seq<Group>)
    requires OnlyHashes(s, s', groups) && (forall i | 0 <= i < |s| :: s'[i].fastHash == s[i].fastHash)
    requires n <= |s| && Classes(s, 0, n, Pair(SizeOf, FastHashOf), gs)
    ensures Classes(s', 0, n, Pair(SizeOf, FastHashOf), gs)
  {
    forall i | 0 <= i < n
      ensures Pair(SizeOf, FastHashOf)(s'[i]) == Pair(SizeOf, FastHashOf)(s[i])
    {
      assert IdOf(s'[i]) == IdOf(s[i]);
      assert SizeOf(s'[i]) == SizeOf(s[i]) && FastHashOf(s'[i]) == FastHashOf(s[i]);
    }
    ClassesFrame(s, s', 0, n, Pair(SizeOf, FastHashOf), gs);
  }

  /** Full pass and digest grouping. */
  method RunFullStage(slots: seq<FullPass.WorkerSlot>, entries: array<FileEntry>, ghost kept: nat, fastGroups: seq<Group>,
                      algorithm: Algorithm, dispatch: FullPass.Dispatch, env: Environment)
    returns (ok: bool, groups: seq<Group>, filesHashed: nat, ghost order: seq<nat>, ghost hashed: seq<FileEntry>, gaveUp: bool)
    requires FullPass.Crew(slots) && FullPass.AllQuiet(slots) && FullPass.Dispatchable(dispatch, |slots|)
    requires kept <= entries.Length && Classes(entries[..], 0, kept, Pair(SizeOf, FastHashOf), fastGroups)
    modifies entries, FullPass.FootprintOfAll(slots)
    ensures filesHashed == TotalCount(fastGroups)
    ensures !gaveUp ==> ok
    ensures FullPass.FairToPass(FullWorld(env, algorithm), old(entries[..]), order) ==> !gaveUp
    ensures CandidateOrder(old(entries[..]), fastGroups, order)
    ensures ok ==> FullPass.HashedOn(old(entries[..]), hashed, order, FullPass.Ran(dispatch, |order|), FullWorld(env, algorithm), !gaveUp)
    ensures ok ==> Refined(hashed, entries[..], kept, Pair(SizeOf, FastHashOf), fastGroups, |fastGroups|,
                           DigestPrefixOf(DigestSize(algorithm)), groups)
    ensures ok ==> Classes(entries[..], 0, kept, StoredKey(DigestSize(algorithm)), groups)
  {
    ghost var s := entries[..];
    GroupsInside(s, kept, Pair(SizeOf, FastHashOf), fastGroups);
    groups := [];
    ok, gaveUp, filesHashed, order := FullPass.RunFullPass(slots, entries, fastGroups, dispatch, FullWorld(env, algorithm));
    hashed := entries[..];
    if ok {
      FullPassOnlyHashes(s, hashed, fastGroups, order, FullPass.Ran(dispatch, |order|), FullWorld(env, algorithm), !gaveUp);
      KeysUntouched(s, hashed, kept, fastGroups, fastGroups);
      groups := GroupByFullHash(entries, kept, fastGroups, Pair(SizeOf, FastHashOf), DigestSize(algorithm));
    }
  }

  /** Without fast groups the full stage is skipped, and the skipped stage would have changed and found nothing. */
  lemma SkippedFullStage(s: seq<FileEntry>, n: nat, algorithm: Algorithm, world: FullPass.World, dispatch: FullPass.Dispatch, workers: nat)
    requires n <= |s| && Classes(s, 0, n, Pair(SizeOf, FastHashOf), []) && FullPass.Dispatchable(dispatch, workers)
    ensures CandidateOrder(s, [], [])
    ensures FullPass.HashedOn(s, s, [], FullPass.Ran(dispatch, 0), world, true)
    ensures Refined(s, s, n, Pair(SizeOf, FastHashOf), [], 0, DigestPrefixOf(DigestSize(algorithm)), [])
    ensures Classes(s, 0, n, StoredKey(DigestSize(algorithm)), [])
  {
    NothingToRefine(s, n, Pair(SizeOf, FastHashOf), DigestPrefixOf(DigestSize(algorithm)));
    if dispatch.Pool? {
      assert FullPass.Assigned(dispatch.jobsFor(0), workers, 0);
    }
  }

  /** The stages after the size stage; t0 holds what the size stage left. */
  method RunHashStages(entries: array<FileEntry>, algorithm: Algorithm, slots: seq<FullPass.WorkerSlot>, sizeGroups: seq<Group>,
                       schedule: seq<nat>, dispatch: FullPass.Dispatch, env: Environment, ghost t0: Trail)
    returns (ok: bool, groups: seq<Group>, hashedFast: nat, hashedFull: nat, ghost t: Trail)
    requires FullPass.Crew(slots) && FullPass.AllQuiet(slots) && FullPass.Dispatchable(dispatch, |slots|)
    requires t0.sized == entries[..] && t0.sizeGroups == sizeGroups
    requires t0.kept <= entries.Length && Classes(t0.sized, 0, t0.kept, SizeOf, sizeGroups)
    requires Distinct(schedule) && FastPass.Within(schedule, TotalCount(sizeGroups))
    modifies entries, FullPass.FootprintOfAll(slots)
    ensures !ok ==> !t.trusted
    ensures FairRun(t, env, algorithm) ==> t.trusted
    ensures t.discovered == t0.discovered && t.sized == t0.sized && t.kept == t0.kept && t.sizeGroups == sizeGroups
    ensures FastStage(t, env) && CandidateOrder(t.fastGrouped, t.fastGroups, t.fullOrder)
    ensures t.fastRan == schedule && t.fullRan == FullPass.Ran(dispatch, |t.fullOrder|)
    ensures ok ==> t.final == entries[..] && t.groups == groups && FullStage(t, env, algorithm)
    ensures ok ==> hashedFast == TotalCount(t.sizeGroups) && hashedFull == TotalCount(t.fastGroups)
  {
    FullPass.EntriesApart(slots, entries);
    var fastGroups, fastCandidates;
    ghost var fastOrder, fastHashed;
    fastGroups, fastCandidates, hashedFast, fastOrder, fastHashed := RunFastStage(entries, t0.kept, sizeGroups, schedule, env);
    ghost var fastGrouped := entries[..];
    t := t0.(fastOrder := fastOrder, fastRan := schedule, fastHashed := fastHashed, fastGrouped := fastGrouped, fastGroups := fastGroups);
    assert FastStage(t, env);
    ok, groups, hashedFull := true, [], 0;
    ghost var fullOrder, fullHashed := [], fastGrouped;
    var gaveUp := false;
    if fastGroups != [] {
      ok, groups, hashedFull, fullOrder, fullHashed, gaveUp := RunFullStage(slots, entries, t0.kept, fastGroups, algorithm, dispatch, env);
    } else {
      SkippedFullStage(fastGrouped, t0.kept, algorithm, FullWorld(env, algorithm), dispatch, |slots|);
    }
    t := t.(fullOrder := fullOrder, fullRan := FullPass.Ran(dispatch, |fullOrder|), fullHashed := fullHashed, final := entries[..],
            groups := groups, trusted := ok && !gaveUp);
  }

  /** The totals that go with a run. */
  ghost predicate Tallied(t: Trail, st: Statistics) {
    && st.filesScanned == |t.discovered|
    && st.hardlinksCollapsed == |t.discovered| - t.kept
    && st.sizeCandidates == st.filesHashedFast == TotalCount(t.sizeGroups)
    && st.filesHashedFull == TotalCount(t.fastGroups)
    && st.duplicateGroups == |t.groups|
    && st.duplicateFiles == ExtraFiles(t.groups)
    && st.wastedBytes == ExtraBytes(t.groups) % WRAP
  }

  /** The application from the discovered entries to the groups and totals it reports. */
  method Run(entries: array<FileEntry>, matchHardlinks: bool, algorithm: Algorithm, slots: seq<FullPass.WorkerSlot>,
             scheduleFor: nat -> seq<nat>, dispatch: FullPass.Dispatch, env: Environment)
    returns (outcome: Outcome, ghost t: Trail)
    requires FullPass.Crew(slots) && FullPass.AllQuiet(slots) && FullPass.Dispatchable(dispatch, |slots|)
    requires FastPass.Schedulable(scheduleFor)
    modifies entries, FullPass.FootprintOfAll(slots)
    ensures outcome.Report? ==>
              && t.discovered == old(entries[..]) && t.final == entries[..] && t.groups == outcome.groups
              && Staged(t, env, matchHardlinks, algorithm) && RanAs(t, scheduleFor, dispatch)
              && Tallied(t, outcome.statistics)
    ensures outcome.NoReport? ==> t.discovered == old(entries[..]) && t.sizeGroups == [] && SizeStage(t, matchHardlinks)
    ensures outcome.Undefined? ==>
              && t.discovered == old(entries[..]) && SizeStage(t, matchHardlinks)
              && FastStage(t, env) && RanAs(t, scheduleFor, dispatch)
              && CandidateOrder(t.fastGrouped, t.fastGroups, t.fullOrder) && !t.trusted
    ensures FairRun(t, env, algorithm) ==> t.trusted
  {
    FullPass.EntriesApart(slots, entries);
    ghost var discovered := entries[..];
    var sizeGroups, sizeCandidates, collapsed, kept := GroupBySize(entries, matchHardlinks);
    ghost var sized := entries[..];
    assert sized[..kept] == entries[..kept];
    t := NewTrail(discovered, sized, kept, sizeGroups);
    assert SizeStage(t, matchHardlinks);
    if sizeGroups == [] {
      return NoReport, t;
    }
    ghost var t0 := t;
    var ok, groups, hashedFast, hashedFull;
    ok, groups, hashedFast, hashedFull, t :=
      RunHashStages(entries, algorithm, slots, sizeGroups, scheduleFor(sizeCandidates), dispatch, env, t0);
    if !ok {
      return Outcome.Undefined, t;
    }
    GroupsInside(t.final, kept, StoredKey(DigestSize(algorithm)), groups);
    var duplicates, wasted := CountDuplicates(groups);
    var statistics := Statistics(entries.Length, collapsed, sizeCandidates, hashedFast, hashedFull, |groups|, duplicates, wasted);
    outcome := Report(groups, statistics);
  }

  /** A schedule of the pool's workers, over the candidates of the trail, that cannot go on. */
  ghost predicate PoolRan(t: Trail, env: Environment, algorithm: Algorithm, trace: seq<Schedules.State>) {
    var c := Schedules.Config(t.fullOrder, FullWorld(env, algorithm));
    && Schedules.Run(c, trace) && trace[0].workers != [] && trace[0].entries == t.fastGrouped
    && var last := trace[|trace| - 1];
       && Schedules.Maximal(c, last)
       && last.entries == t.fullHashed && last.written == t.fullRan && t.trusted == (last.tainted == {})
  }

  /** What such a schedule hashed, if no ring broke, is what the full stage says. It got to every candidate unless a batch was skipped. */
  lemma PoolHashes(t: Trail, env: Environment, algorithm: Algorithm, trace: seq<Schedules.State>)
    requires PoolRan(t, env, algorithm, trace) && !trace[|trace| - 1].broken
    ensures FullPass.HashedOn(t.fastGrouped, t.fullHashed, t.fullOrder, t.fullRan, FullWorld(env, algorithm), t.trusted)
    ensures trace[|trace| - 1].skipped == {} ==> t.fullRan == FullPass.Span(0, |t.fullOrder|)
  {
    Schedules.EveryScheduleHashes(Schedules.Config(t.fullOrder, FullWorld(env, algorithm)), trace);
  }

  /** The pool's schedules end in the full stage too: after any of them in which no ring broke, whatever it left in the
      array, the digest grouping that follows completes the full stage. */
  method GroupAfterPool(entries: array<FileEntry>, fastGroups: seq<Group>, algorithm: Algorithm, ghost env: Environment,
                        ghost trace: seq<Schedules.State>, ghost t0: Trail)
    returns (groups: seq<Group>, ghost t: Trail)
    requires PoolRan(t0, env, algorithm, trace) && !trace[|trace| - 1].broken && entries[..] == t0.fullHashed && fastGroups == t0.fastGroups
    requires t0.kept <= |t0.fastGrouped| && Classes(t0.fastGrouped, 0, t0.kept, Pair(SizeOf, FastHashOf), fastGroups)
    requires CandidateOrder(t0.fastGrouped, fastGroups, t0.fullOrder)
    modifies entries
    ensures t == t0.(final := entries[..], groups := groups) && FullStage(t, env, algorithm)
  {
    PoolHashes(t0, env, algorithm, trace);
    FullPassOnlyHashes(t0.fastGrouped, t0.fullHashed, fastGroups, t0.fullOrder, t0.fullRan, FullWorld(env, algorithm), t0.trusted);
    KeysUntouched(t0.fastGrouped, t0.fullHashed, t0.kept, fastGroups, fastGroups);
    GroupsInside(t0.fullHashed, t0.kept, Pair(SizeOf, FastHashOf), fastGroups);
    groups := GroupByFullHash(entries, t0.kept, fastGroups, Pair(SizeOf, FastHashOf), DigestSize(algorithm));
    t := t0.(final := entries[..], groups := groups);
  }

  /** Under a fair kernel no ring breaks, and every batch is read on a quiet one. */
  lemma FairPoolIsTrusted(t: Trail, env: Environment, algorithm: Algorithm, trace: seq<Schedules.State>)
    requires PoolRan(t, env, algorithm, trace) && FairRun(t, env, algorithm) && Schedules.AllClean(trace[0])
    ensures t.trusted && !trace[|trace| - 1].broken
  {
    Schedules.FairRunsStayClean(Schedules.Config(t.fullOrder, FullWorld(env, algorithm)), trace, |trace| - 1);
  }
}
