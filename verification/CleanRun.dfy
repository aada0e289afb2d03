// When nothing outside the program fails, the passes report no error, and what the run prints is right.
module CleanRun {
  import opened Entries
  import opened FileTree
  import opened Walk
  import opened KeyClasses
  import opened GroupingBySize
  import opened GroupingByHash
  import opened Candidates
  import opened RingConsume
  import opened Pipeline
  import opened Content
  import opened Guarantees
  import opened JsonReport
  import opened Application
  import Discovery
  import FastPass
  import FullPass

  /** Nothing outside the program fails: every file opens, every read of every file serves all there is to read of one content,
      linked requests are answered in turn, and the hash library accepts what it is given. */
  ghost predicate Obliging(env: Environment, content: Contents) {
    && Reads(env, content)
    && (forall i: nat, path: seq<Byte> :: FastPass.ObligingBlocks(env.fast(i, path)))
    && (forall k: nat :: ObligingWaits(env.chunk(k).waits, content))
    && (forall p: nat, path: seq<Byte> :: ObligingSync(env.sync(p, path)))
    && (forall p: nat :: AcceptsAll(env.accepts(p)))
  }

  /** The fast pass runs every iteration, and the full pass every batch. */
  ghost predicate CompletePasses(scheduleFor: nat -> seq<nat>, dispatch: FullPass.Dispatch, workers: nat) {
    && FullPass.Dispatchable(dispatch, workers)
    && FastPass.Schedulable(scheduleFor) && (forall n: nat :: |scheduleFor(n)| == n)
    && (forall n: nat :: FullPass.RunsAll(dispatch, n))
  }

  predicate Faultless(e: FileEntry) {
    e.fastErrno == 0 && e.fullErrno == 0
  }

  /** Read without error so far, and of the size of its content. */
  ghost predicate Healthy(e: FileEntry, content: Contents) {
    Faultless(e) && TrueSize(e, content)
  }

  lemma FastEntryHealthy(s: seq<FileEntry>, s': seq<FileEntry>, ran: seq<nat>, env: Environment, content: Contents, i: nat)
    requires FastPass.FastHashedAt(s, s', ran, FastScripts(env, s), env.xxh) && i < |s| && Obliging(env, content)
    requires s[i] == Discovered(IdOf(s[i])) && TrueSize(s[i], content)
    ensures Healthy(s'[i], content)
  {
    var script := FastScripts(env, s)(i);
    assert script == env.fast(i, PathAt(s, i));
    assert FastPass.ObligingBlocks(env.fast(i, PathAt(s, i)));
    FastPass.FastServed(s[i], script, env.xxh);
  }

  lemma FastHealthy(t: Trail, env: Environment, matchHardlinks: bool, content: Contents)
    requires SizeStage(t, matchHardlinks) && FastStage(t, env) && FreshlyDiscovered(t) && Obliging(env, content)
    requires forall e <- t.discovered :: TrueSize(e, content)
    ensures t.kept <= |t.fastGrouped| && forall i | 0 <= i < t.kept :: Healthy(t.fastGrouped[i], content)
  {
    forall i | 0 <= i < t.kept
      ensures Healthy(t.fastHashed[i], content)
    {
      KeptAreDiscovered(t, matchHardlinks, i);
      FastEntryHealthy(t.sized, t.fastHashed, FastPass.At(t.fastOrder, t.fastRan), env, content, i);
    }
    GroupsInside(t.sized, t.kept, SizeOf, t.sizeGroups);
    AllPermutedKeep(t.fastHashed, t.fastGrouped, t.kept, t.sizeGroups, e => Healthy(e, content));
  }

  /** When nothing outside the program fails, no entry that is kept to the end reports an error. */
  lemma NoErrorsArise(t: Trail, env: Environment, matchHardlinks: bool, algorithm: Algorithm, content: Contents)
    requires Staged(t, env, matchHardlinks, algorithm) && Steady(t, env, content) && Obliging(env, content)
    ensures NoErrors(t)
  {
    FastHealthy(t, env, matchHardlinks, content);
    forall i | 0 <= i < t.kept
      ensures Faultless(t.fullHashed[i])
    {
      FullPassEntry(t, env, algorithm, i);
      if t.fullHashed[i] != t.fastGrouped[i] {
        FullHealthy(t, env, algorithm, content, i);
      }
    }
    GroupsInside(t.fastGrouped, t.kept, Pair(SizeOf, FastHashOf), t.fastGroups);
    AllPermutedKeep(t.fullHashed, t.final, t.kept, t.fastGroups, Faultless);
  }

  lemma FullHealthy(t: Trail, env: Environment, algorithm: Algorithm, content: Contents, i: nat)
    requires i < |t.fastGrouped| == |t.fullHashed| && Healthy(t.fastGrouped[i], content) && Obliging(env, content)
    requires exists p: nat :: FullPass.Hashed(t.fastGrouped[i], t.fullHashed[i], FullWorld(env, algorithm), p, true)
    ensures Faultless(t.fullHashed[i])
  {
    var e0, e, world := t.fastGrouped[i], t.fullHashed[i], FullWorld(env, algorithm);
    var p: nat :| FullPass.Hashed(e0, e, world, p, true);
    assert ObligingWaits(env.chunk(p / BATCH_CAPACITY).waits, content) && ObligingSync(env.sync(p, e0.path));
    assert AcceptsAll(env.accepts(p));
    FullPass.HashedServed(e0, e, world, p, content);
    HashedKeepsFastFields(e0, e, world, p);
  }

  /** Complete passes get to every candidate, so a trusted run on a file system at rest is one to its end. */
  lemma RunsToItsEnd(t: Trail, env: Environment, matchHardlinks: bool, algorithm: Algorithm, content: Contents,
                     scheduleFor: nat -> seq<nat>, dispatch: FullPass.Dispatch, workers: nat)
    requires Staged(t, env, matchHardlinks, algorithm) && RanAs(t, scheduleFor, dispatch)
    requires Steady(t, env, content) && Reads(env, content) && CompletePasses(scheduleFor, dispatch, workers)
    ensures AtRest(t, env, content)
  {
    FullPass.CompleteIff(dispatch, |t.fullOrder|, workers);
  }

  /** The files that discovery found, as it recorded them. */
  ghost function FilesFound(cfg: Config, fs: FileSystem, inputs: seq<Input>, s: Snap): multiset<Identity> {
    Discovery.InputFiles(cfg, inputs) + FilesUnder(fs, cfg, s.visits)
  }

  /** Every file has the size recorded, the digest prefix tells the contents apart, and, when hard links are collapsed, all
      links to one file serve one content. */
  ghost predicate Recorded(found: multiset<Identity>, env: Environment, algorithm: Algorithm, content: Contents, matchHardlinks: bool) {
    && (forall a | a in found :: |content(a.path)| == a.size)
    && (forall a, b | a in found && b in found
                      && env.digest(algorithm, content(a.path))[..DigestSize(algorithm)]
                         == env.digest(algorithm, content(b.path))[..DigestSize(algorithm)] :: content(a.path) == content(b.path))
    && (!matchHardlinks ==> LinksServeOne(found, content))
  }

  lemma LoadedTruly(t: Trail, s: Snap, found: multiset<Identity>, content: Contents)
    requires Loaded(t, s) && multiset(s.found) == found && forall a | a in found :: |content(a.path)| == a.size
    ensures FreshlyDiscovered(t) && forall e <- t.discovered :: TrueSize(e, content)
  {
    forall e | e in t.discovered
      ensures e == Discovered(IdOf(e)) && TrueSize(e, content)
    {
      var m :| 0 <= m < |t.discovered| && t.discovered[m] == e;
      assert s.found[m] in multiset(s.found);
    }
  }

  lemma FoundSeparate(t: Trail, env: Environment, matchHardlinks: bool, algorithm: Algorithm, content: Contents, s: Snap,
                      found: multiset<Identity>)
    requires Staged(t, env, matchHardlinks, algorithm) && Loaded(t, s) && multiset(s.found) == found
    requires Recorded(found, env, algorithm, content, matchHardlinks)
    ensures DigestSeparates(t, env, algorithm, content)
  {
    IdentitiesConserved(t, env, matchHardlinks, algorithm);
    forall i | 0 <= i < t.kept
      ensures IdOf(t.final[i]) in found
    {
      KeptIsFound(t, matchHardlinks, s, i);
    }
    forall i, j | 0 <= i < t.kept && 0 <= j < t.kept
                  && env.digest(algorithm, content(t.final[i].path))[..DigestSize(algorithm)]
                     == env.digest(algorithm, content(t.final[j].path))[..DigestSize(algorithm)]
      ensures content(t.final[i].path) == content(t.final[j].path)
    {
      assert IdOf(t.final[i]) in found && IdOf(t.final[j]) in found;
      assert IdOf(t.final[i]).path == t.final[i].path && IdOf(t.final[j]).path == t.final[j].path;
    }
  }

  /** What the run says is right: a reader of the text recovers groups that are, or there is nothing to say. */
  ghost predicate SaysRight(ending: Ending, found: multiset<Identity>, content: Contents, matchHardlinks: bool) {
    match ending
    case Interrupted => true
    case Undefined => false
    case Silent => RightAbout(found, [], content, matchHardlinks)
    case Printed(text) => exists ds :: Recover(text) == Some(ds) && RightAbout(found, ds, content, matchHardlinks)
  }

  lemma PrintedIsRight(fs: FileSystem, cfg: Config, inputs: seq<Input>, s: Snap, t: Trail, env: Environment, matchHardlinks: bool,
                       algorithm: Algorithm, content: Contents, scheduleFor: nat -> seq<nat>, dispatch: FullPass.Dispatch,
                       workers: nat, wallMs: nat, text: seq<Byte>)
    requires Discovery.Discovered(fs, cfg, inputs, s) && !s.stopped && Loaded(t, s)
    requires Reported(t, env, matchHardlinks, algorithm, scheduleFor, dispatch, wallMs, text) && FairRun(t, env, algorithm)
    requires CompletePasses(scheduleFor, dispatch, workers) && Obliging(env, content)
    requires Recorded(FilesFound(cfg, fs, inputs, s), env, algorithm, content, matchHardlinks)
    ensures SaysRight(Printed(text), FilesFound(cfg, fs, inputs, s), content, matchHardlinks)
  {
    var found := FilesFound(cfg, fs, inputs, s);
    LoadedTruly(t, s, found, content);
    NoErrorsArise(t, env, matchHardlinks, algorithm, content);
    RunsToItsEnd(t, env, matchHardlinks, algorithm, content, scheduleFor, dispatch, workers);
    FoundSeparate(t, env, matchHardlinks, algorithm, content, s, found);
    ReportIsRight(fs, cfg, inputs, s, t, env, matchHardlinks, algorithm, content);
  }

  lemma SilentIsRight(fs: FileSystem, cfg: Config, inputs: seq<Input>, s: Snap, t: Trail, env: Environment, matchHardlinks: bool,
                      algorithm: Algorithm, content: Contents)
    requires Discovery.Discovered(fs, cfg, inputs, s) && !s.stopped && Loaded(t, s)
    requires SizeStage(t, matchHardlinks) && t.sizeGroups == []
    requires Recorded(FilesFound(cfg, fs, inputs, s), env, algorithm, content, matchHardlinks)
    ensures SaysRight(Silent, FilesFound(cfg, fs, inputs, s), content, matchHardlinks)
  {
    LoadedTruly(t, s, FilesFound(cfg, fs, inputs, s), content);
    SilenceIsRight(fs, cfg, inputs, s, t, matchHardlinks, content);
  }

  /** The run of the application where nothing outside the program fails: both passes run to their end, on however many workers
      and in whatever order, every file opens and reads, and the kernel answers what it is asked. Then the ring is never driven
      into undefined behaviour, and whatever the run says about the files found is right. */
  method ScanObliged(fs: FileSystem, cfg: Config, inputs: seq<Input>, signal: nat -> bool, interrupted: bool, matchHardlinks: bool,
                     algorithm: Algorithm, slots: seq<FullPass.WorkerSlot>, scheduleFor: nat -> seq<nat>,
                     dispatch: FullPass.Dispatch, env: Environment, wallMs: nat, ghost content: Contents)
    returns (ending: Ending, ghost s: Snap, ghost t: Trail)
    requires FullPass.Crew(slots) && FullPass.AllQuiet(slots) && CompletePasses(scheduleFor, dispatch, |slots|)
    requires Discovery.CStringNames(fs, inputs) && Obliging(env, content)
    modifies FullPass.FootprintOfAll(slots)
    ensures Discovery.Discovered(fs, cfg, inputs, s)
    ensures ending.Interrupted? ==> interrupted || exists k: nat :: signal(k)
    ensures FairRun(t, env, algorithm) && Recorded(FilesFound(cfg, fs, inputs, s), env, algorithm, content, matchHardlinks) ==>
              SaysRight(ending, FilesFound(cfg, fs, inputs, s), content, matchHardlinks)
  {
    ending, s, t := Scan(fs, cfg, inputs, signal, interrupted, matchHardlinks, algorithm, slots, scheduleFor, dispatch, env, wallMs);
    if FairRun(t, env, algorithm) && Recorded(FilesFound(cfg, fs, inputs, s), env, algorithm, content, matchHardlinks) {
      match ending
      case Interrupted =>
      case Undefined =>
      case Silent =>
        SilentIsRight(fs, cfg, inputs, s, t, env, matchHardlinks, algorithm, content);
      case Printed(text) =>
        PrintedIsRight(fs, cfg, inputs, s, t, env, matchHardlinks, algorithm, content, scheduleFor, dispatch, |slots|, wallMs, text);
    }
  }
}
