// What the reported groups say about file contents, when the file system stays at rest during a run.
module Content {
  import opened Entries
  import opened Sequences
  import opened KeyClasses
  import opened GroupingBySize
  import opened GroupingByHash
  import opened StreamReader
  import opened RingSlots
  import opened RingConsume
  import opened Candidates
  import opened Pipeline
  import FastPass
  import FullPass

  type Contents = seq<Byte> -> seq<Byte>

  /** Every read of the full pass, of any file, by any path and at any time, serves the same content. Files may still fail to
      open, and reads may fail with a reported error. */
  ghost predicate FullReads(env: Environment, content: Contents) {
    && (forall k: nat :: StableWaits(env.chunk(k).waits, content))
    && (forall p: nat, path: seq<Byte> :: StableSync(env.sync(p, path), content(path)))
  }

  /** So does every read of the fast pass, and no tail read fails. */
  ghost predicate Reads(env: Environment, content: Contents) {
    && FullReads(env, content)
    && (forall i: nat, path: seq<Byte> :: FastPass.StableBlocks(env.fast(i, path), content(path)) && env.fast(i, path).suffix.Got?)
  }

  ghost predicate FreshlyDiscovered(t: Trail) {
    forall e <- t.discovered :: e == Discovered(IdOf(e))
  }

  /** Files are stable, discovery recorded them as they are, and every candidate of the full pass was read on a quiet ring. The
      passes may have been stopped, and reads of the fast pass may have failed unreported. */
  ghost predicate Steady(t: Trail, env: Environment, content: Contents) {
    && FullReads(env, content) && FreshlyDiscovered(t) && t.trusted
    && (forall e <- t.discovered :: TrueSize(e, content))
  }

  /** Both passes ran to their end on a file system at rest. */
  ghost predicate AtRest(t: Trail, env: Environment, content: Contents) {
    && Steady(t, env, content) && Reads(env, content)
    && Distinct(t.fastRan) && |t.fastRan| == |t.fastOrder|
    && t.fullRan == FullPass.Span(0, |t.fullOrder|)
  }

  const NO_DIGEST: Digest := seq(DIGEST_BYTES, _ => 0)

  /** The fast fields tell the truth about the content. */
  ghost predicate FastTruth(e: FileEntry, env: Environment, content: Contents) {
    && |content(e.path)| == e.size
    && (e.fastErrno != 0 ==> e.fastHash == 0)
    && (e.fastComputed && e.fastErrno == 0 ==> e.fastHash == FastPass.FastHashOfContent(content(e.path), env.xxh))
  }

  predicate TrueSize(e: FileEntry, content: Contents) {
    |content(e.path)| == e.size
  }

  ghost predicate FullTruth(e: FileEntry, env: Environment, algorithm: Algorithm, content: Contents) {
    e.fullHash == if e.fullComputed && e.fullErrno == 0 then env.digest(algorithm, content(e.path)) else NO_DIGEST
  }

  ghost predicate Truth(e: FileEntry, env: Environment, algorithm: Algorithm, content: Contents) {
    FastTruth(e, env, content) && FullTruth(e, env, algorithm, content)
  }

  lemma KeptAreDiscovered(t: Trail, matchHardlinks: bool, i: nat)
    requires SizeStage(t, matchHardlinks) && i < t.kept
    ensures t.sized[i] in t.discovered
  {
    assert t.sized[i] == t.sized[..t.kept][i];
    assert t.sized[i] in multiset(t.sized[..t.kept]);
    if matchHardlinks {
      assert t.sized[i] in multiset(t.discovered);
    }
  }

  lemma FullSchedule(schedule: seq<nat>, n: nat, p: nat)
    requires Distinct(schedule) && FastPass.Within(schedule, n) && |schedule| == n && p < n
    ensures p in schedule
  {
    if p !in schedule {
      var others := Statistics.Elements(seq(n, i => i)) - {p};
      Statistics.DistinctSize(seq(n, i => i));
      assert seq(n, i => i)[p] == p;
      forall x | x in schedule
        ensures x in others
      {
        var k :| 0 <= k < |schedule| && schedule[k] == x;
        assert seq(n, i => i)[x] == x;
      }
      Statistics.DistinctWithin(schedule, others);
    }
  }

  /** A complete schedule runs exactly the covered positions. */
  lemma RanCovered(s: seq<FileEntry>, gs: seq<Group>, order: seq<nat>, schedule: seq<nat>, i: nat)
    requires CandidateOrder(s, gs, order) && Distinct(schedule) && FastPass.Within(schedule, |order|) && |schedule| == |order|
    ensures i in FastPass.At(order, schedule) <==> Covered(gs, i)
  {
    var ran := FastPass.At(order, schedule);
    if i in order {
      var p :| 0 <= p < |order| && order[p] == i;
      FullSchedule(schedule, |order|, p);
      var k :| 0 <= k < |schedule| && schedule[k] == p;
      assert ran[k] == i;
    } else {
      forall k | 0 <= k < |ran|
        ensures ran[k] != i
      {
        assert order[schedule[k]] in order;
      }
    }
  }

  lemma FastEntryTruth(e: FileEntry, script: FastPass.FastScript, env: Environment, algorithm: Algorithm, content: Contents)
    requires e == Discovered(IdOf(e)) && |content(e.path)| == e.size
    requires FastPass.StableBlocks(script, content(e.path)) && script.suffix.Got?
    ensures Truth(e, env, algorithm, content)
    ensures Truth(FastPass.FastHashed(e, script, env.xxh), env, algorithm, content)
    ensures FastPass.FastHashed(e, script, env.xxh).fastComputed
  {
    if FastPass.FastHashed(e, script, env.xxh).fastErrno == 0 {
      FastPass.FastHashContent(e, script, content(e.path), env.xxh);
    }
  }

  ghost predicate FastDone(e: FileEntry, env: Environment, algorithm: Algorithm, content: Contents) {
    Truth(e, env, algorithm, content) && !e.fullComputed && e.fullErrno == 0
  }

  /** After the fast pass a fresh entry is truthful, and computed exactly where a size group covers it. */
  lemma FastPassTruth(s: seq<FileEntry>, s': seq<FileEntry>, gs: seq<Group>, order: seq<nat>, schedule: seq<nat>,
                      env: Environment, algorithm: Algorithm, content: Contents, i: nat)
    requires CandidateOrder(s, gs, order) && Distinct(schedule) && FastPass.Within(schedule, |order|) && |schedule| == |order|
    requires FastPass.FastHashedAt(s, s', FastPass.At(order, schedule), FastScripts(env, s), env.xxh)
    requires Reads(env, content) && i < |s| && s[i] == Discovered(IdOf(s[i])) && |content(s[i].path)| == s[i].size
    ensures |s'| == |s| && FastDone(s'[i], env, algorithm, content)
    ensures Covered(gs, i) ==> s'[i].fastComputed
    ensures !Covered(gs, i) ==> s'[i].fastErrno == 0
  {
    var e, script := s[i], FastScripts(env, s)(i);
    assert PathAt(s, i) == e.path;
    assert FastScripts(env, s)(i) == env.fast(i, PathAt(s, i));
    assert FastPass.StableBlocks(env.fast(i, e.path), content(e.path));
    FastEntryTruth(e, script, env, algorithm, content);
    RanCovered(s, gs, order, schedule, i);
  }

  /** A full reading leaves a truthful entry truthful, and computed exactly where a fast group covers it. */
  lemma FullPassTruth(s: seq<FileEntry>, s': seq<FileEntry>, gs: seq<Group>, order: seq<nat>, env: Environment,
                      algorithm: Algorithm, content: Contents, i: nat)
    requires CandidateOrder(s, gs, order)
    requires FullPass.HashedOn(s, s', order, FullPass.Span(0, |order|), FullWorld(env, algorithm), true)
    requires Reads(env, content) && i < |s| && FastDone(s[i], env, algorithm, content)
    ensures |s'| == |s| && Truth(s'[i], env, algorithm, content)
    ensures s'[i].fastComputed == s[i].fastComputed && s'[i].fastErrno == s[i].fastErrno
    ensures Covered(gs, i) ==> s'[i].fullComputed
    ensures !Covered(gs, i) ==> s'[i].fullErrno == 0
  {
    assert i in order <==> Covered(gs, i);
    if i in order {
      var p :| 0 <= p < |order| && order[p] == i;
      var world := FullWorld(env, algorithm);
      assert FullPass.Hashed(s[order[p]], s'[order[p]], world, p, true);
      assert StableWaits(env.chunk(p / BATCH_CAPACITY).waits, content);
      assert StableSync(env.sync(p, s[i].path), content(s[i].path));
      FullPass.HashedContent(s[i], s'[i], world, p, content);
      HashedKeepsFastFields(s[i], s'[i], world, p);
    }
  }

  lemma HashedKeepsFastFields(e0: FileEntry, e: FileEntry, world: FullPass.World, p: nat)
    requires FullPass.Hashed(e0, e, world, p, true)
    ensures e.fastComputed == e0.fastComputed && e.fastErrno == e0.fastErrno && e.fastHash == e0.fastHash
  {
  }

  /** Permuting inside windows carries over whatever holds of all entries of a window, or of all entries. */
  lemma PermutedKeeps(s: seq<FileEntry>, s': seq<FileEntry>, gs: seq<Group>, good: FileEntry -> bool, i: nat)
    requires PermutedWithin(s, s', gs, |gs|) && i < |s|
    requires if Covered(gs, i) then (forall k, j | 0 <= k < |gs| && gs[k].Holds(i) && gs[k].Holds(j) && j < |s| :: good(s[j]))
             else good(s[i])
    ensures good(s'[i])
  {
    assert gs[..|gs|] == gs;
    if Covered(gs, i) {
      var k :| 0 <= k < |gs| && gs[k].Holds(i);
      var lo, hi := gs[k].start, gs[k].End();
      assert SameWindow(s, s', gs[k]);
      assert s'[i] == s'[lo..hi][i - lo];
      assert s'[i] in multiset(s'[lo..hi]);
      assert s'[i] in s[lo..hi];
      var j :| 0 <= j < hi - lo && s[lo..hi][j] == s'[i];
      assert gs[k].Holds(lo + j);
    } else {
      assert OutsideAll(gs, i);
    }
  }

  /** What holds of all the first n entries survives permuting inside windows among them. */
  lemma AllPermutedKeep(s: seq<FileEntry>, s': seq<FileEntry>, n: nat, gs: seq<Group>, good: FileEntry -> bool)
    requires PermutedWithin(s, s', gs, |gs|) && n <= |s| && (forall m | 0 <= m < |gs| :: gs[m].End() <= n)
    requires forall i | 0 <= i < n :: good(s[i])
    ensures forall i | 0 <= i < n :: good(s'[i])
  {
    forall i | 0 <= i < n
      ensures good(s'[i])
    {
      forall k, j | 0 <= k < |gs| && gs[k].Holds(i) && gs[k].Holds(j) && j < |s|
        ensures good(s[j])
      {
        WindowBounds(gs, n, k, j);
      }
      PermutedKeeps(s, s', gs, good, i);
    }
  }

  /** No full reading has touched the entry. */
  predicate Unread(e: FileEntry) {
    !e.fullComputed && e.fullErrno == 0 && e.fullHash == Discovered(IdOf(e)).fullHash
  }

  predicate Verified(e: FileEntry) {
    e.fullComputed && e.fullErrno == 0
  }

  lemma UnreadBeforeFullPass(t: Trail, env: Environment, matchHardlinks: bool)
    requires SizeStage(t, matchHardlinks) && FastStage(t, env) && FreshlyDiscovered(t)
    ensures t.kept <= |t.fastGrouped| && forall i | 0 <= i < t.kept :: Unread(t.fastGrouped[i])
  {
    forall i | 0 <= i < t.kept
      ensures Unread(t.fastHashed[i])
    {
      KeptAreDiscovered(t, matchHardlinks, i);
    }
    GroupsInside(t.sized, t.kept, SizeOf, t.sizeGroups);
    AllPermutedKeep(t.fastHashed, t.fastGrouped, t.kept, t.sizeGroups, Unread);
  }

  /** The entry is verified, or has no digest. */
  predicate Honest(e: FileEntry) {
    !Verified(e) ==> e.fullHash == Discovered(IdOf(e)).fullHash
  }

  lemma HashedHonest(e0: FileEntry, e: FileEntry, world: FullPass.World, p: nat, quiet: bool)
    requires Unread(e0) && FullPass.Hashed(e0, e, world, p, quiet)
    ensures Honest(e)
  {
  }

  /** In any run, complete or stopped, on whatever file system and kernel, an entry that is not verified has no digest. */
  lemma UnverifiedHasNoDigest(t: Trail, env: Environment, matchHardlinks: bool, algorithm: Algorithm)
    requires Staged(t, env, matchHardlinks, algorithm) && FreshlyDiscovered(t)
    ensures t.kept <= |t.final| && forall i | 0 <= i < t.kept :: Honest(t.final[i])
  {
    UnreadBeforeFullPass(t, env, matchHardlinks);
    forall i | 0 <= i < t.kept
      ensures Honest(t.fullHashed[i])
    {
      FullPassEntry(t, env, algorithm, i);
      if t.fullHashed[i] != t.fastGrouped[i] {
        var p: nat :| FullPass.Hashed(t.fastGrouped[i], t.fullHashed[i], FullWorld(env, algorithm), p, t.trusted);
        HashedHonest(t.fastGrouped[i], t.fullHashed[i], FullWorld(env, algorithm), p, t.trusted);
      }
    }
    GroupsInside(t.fastGrouped, t.kept, Pair(SizeOf, FastHashOf), t.fastGroups);
    AllPermutedKeep(t.fullHashed, t.final, t.kept, t.fastGroups, Honest);
  }

  /** What the full pass did to an entry: nothing, or what hashing it at a candidate position does. */
  lemma FullPassEntry(t: Trail, env: Environment, algorithm: Algorithm, i: nat)
    requires FullStage(t, env, algorithm) && i < |t.fastGrouped|
    ensures |t.fullHashed| == |t.fastGrouped|
    ensures t.fullHashed[i] == t.fastGrouped[i]
            || exists p: nat :: FullPass.Hashed(t.fastGrouped[i], t.fullHashed[i], FullWorld(env, algorithm), p, t.trusted)
  {
    if i in t.fullOrder {
      var p: nat :| p < |t.fullOrder| && t.fullOrder[p] == i;
      assert p in t.fullRan ==>
        FullPass.Hashed(t.fastGrouped[t.fullOrder[p]], t.fullHashed[t.fullOrder[p]], FullWorld(env, algorithm), p, t.trusted);
    }
  }

  lemma SizesTrueBefore(t: Trail, env: Environment, matchHardlinks: bool, content: Contents)
    requires SizeStage(t, matchHardlinks) && FastStage(t, env) && forall e <- t.discovered :: TrueSize(e, content)
    ensures t.kept <= |t.fastGrouped| && forall i | 0 <= i < t.kept :: TrueSize(t.fastGrouped[i], content)
  {
    forall i | 0 <= i < t.kept
      ensures TrueSize(t.fastHashed[i], content)
    {
      KeptAreDiscovered(t, matchHardlinks, i);
    }
    GroupsInside(t.sized, t.kept, SizeOf, t.sizeGroups);
    AllPermutedKeep(t.fastHashed, t.fastGrouped, t.kept, t.sizeGroups, e => TrueSize(e, content));
  }

  lemma FullPassKeepsId(t: Trail, env: Environment, algorithm: Algorithm, i: nat)
    requires FullStage(t, env, algorithm) && i < |t.fastGrouped|
    ensures |t.fullHashed| == |t.fastGrouped| && IdOf(t.fullHashed[i]) == IdOf(t.fastGrouped[i])
  {
    FullPassEntry(t, env, algorithm, i);
  }

  lemma SizesTrue(t: Trail, env: Environment, matchHardlinks: bool, algorithm: Algorithm, content: Contents)
    requires Staged(t, env, matchHardlinks, algorithm) && forall e <- t.discovered :: TrueSize(e, content)
    ensures t.kept <= |t.final| && forall i | 0 <= i < t.kept :: TrueSize(t.final[i], content)
  {
    SizesTrueBefore(t, env, matchHardlinks, content);
    forall i | 0 <= i < t.kept
      ensures TrueSize(t.fullHashed[i], content)
    {
      FullPassKeepsId(t, env, algorithm, i);
    }
    GroupsInside(t.fastGrouped, t.kept, Pair(SizeOf, FastHashOf), t.fastGroups);
    AllPermutedKeep(t.fullHashed, t.final, t.kept, t.fastGroups, e => TrueSize(e, content));
  }

  /** In a steady run, complete or stopped, every kept entry has the size of its content, and a digest is that of the content,
      or there is none. */
  lemma DigestsTrue(t: Trail, env: Environment, matchHardlinks: bool, algorithm: Algorithm, content: Contents)
    requires Staged(t, env, matchHardlinks, algorithm) && Steady(t, env, content)
    ensures t.kept <= |t.final|
    ensures forall i | 0 <= i < t.kept :: TrueSize(t.final[i], content) && FullTruth(t.final[i], env, algorithm, content)
  {
    UnreadBeforeFullPass(t, env, matchHardlinks);
    SizesTrue(t, env, matchHardlinks, algorithm, content);
    forall i | 0 <= i < t.kept
      ensures FullTruth(t.fullHashed[i], env, algorithm, content)
    {
      FullPassEntry(t, env, algorithm, i);
      var e0, e := t.fastGrouped[i], t.fullHashed[i];
      if e != e0 {
        var world := FullWorld(env, algorithm);
        var p: nat :| FullPass.Hashed(e0, e, world, p, true);
        assert StableWaits(env.chunk(p / BATCH_CAPACITY).waits, content) && StableSync(env.sync(p, e0.path), content(e0.path));
        FullPass.HashedContent(e0, e, world, p, content);
      }
    }
    GroupsInside(t.fastGrouped, t.kept, Pair(SizeOf, FastHashOf), t.fastGroups);
    AllPermutedKeep(t.fullHashed, t.final, t.kept, t.fastGroups, e => FullTruth(e, env, algorithm, content));
  }

  ghost predicate FastFacts(s: seq<FileEntry>, n: nat, sizeGroups: seq<Group>, env: Environment, algorithm: Algorithm, content: Contents) {
    n <= |s| && forall i | 0 <= i < n ::
      FastDone(s[i], env, algorithm, content) && (Covered(sizeGroups, i) ==> s[i].fastComputed)
  }

  ghost predicate FullFacts(s: seq<FileEntry>, n: nat, sizeGroups: seq<Group>, fastGroups: seq<Group>, env: Environment,
                            algorithm: Algorithm, content: Contents) {
    n <= |s| && forall i | 0 <= i < n ::
      && Truth(s[i], env, algorithm, content)
      && (Covered(sizeGroups, i) ==> s[i].fastComputed)
      && (Covered(fastGroups, i) ==> s[i].fullComputed)
  }

  lemma WindowBounds(gs: seq<Group>, n: nat, k: nat, j: int)
    requires (forall m | 0 <= m < |gs| :: gs[m].End() <= n) && k < |gs| && gs[k].Holds(j)
    ensures j < n && Covered(gs, j)
  {
  }

  lemma FastGroupingKeepsFacts(s: seq<FileEntry>, s': seq<FileEntry>, n: nat, gs: seq<Group>, env: Environment,
                               algorithm: Algorithm, content: Contents)
    requires PermutedWithin(s, s', gs, |gs|) && forall m | 0 <= m < |gs| :: gs[m].End() <= n
    requires FastFacts(s, n, gs, env, algorithm, content)
    ensures FastFacts(s', n, gs, env, algorithm, content)
  {
    var done := (e: FileEntry) => FastDone(e, env, algorithm, content);
    var good := (e: FileEntry) => FastDone(e, env, algorithm, content) && e.fastComputed;
    forall i | 0 <= i < n
      ensures FastDone(s'[i], env, algorithm, content) && (Covered(gs, i) ==> s'[i].fastComputed)
    {
      if Covered(gs, i) {
        forall k, j | 0 <= k < |gs| && gs[k].Holds(i) && gs[k].Holds(j) && j < |s|
          ensures good(s[j])
        {
          WindowBounds(gs, n, k, j);
        }
        PermutedKeeps(s, s', gs, good, i);
      } else {
        PermutedKeeps(s, s', gs, done, i);
      }
    }
  }

  lemma FullGroupingKeepsFacts(s: seq<FileEntry>, s': seq<FileEntry>, n: nat, sizeGroups: seq<Group>, gs: seq<Group>,
                               env: Environment, algorithm: Algorithm, content: Contents)
    requires PermutedWithin(s, s', gs, |gs|) && forall m | 0 <= m < |gs| :: gs[m].End() <= n
    requires AllInherited(sizeGroups, gs)
    requires FullFacts(s, n, sizeGroups, gs, env, algorithm, content)
    ensures FullFacts(s', n, sizeGroups, gs, env, algorithm, content)
  {
    var good := (e: FileEntry) => Truth(e, env, algorithm, content) && e.fastComputed && e.fullComputed;
    forall i | 0 <= i < n
      ensures && Truth(s'[i], env, algorithm, content)
              && (Covered(sizeGroups, i) ==> s'[i].fastComputed)
              && (Covered(gs, i) ==> s'[i].fullComputed)
    {
      if Covered(gs, i) {
        forall k, j | 0 <= k < |gs| && gs[k].Holds(i) && gs[k].Holds(j) && j < |s|
          ensures good(s[j])
        {
          WindowBounds(gs, n, k, j);
          Statistics.InheritedCovers(sizeGroups, gs, j);
        }
        PermutedKeeps(s, s', gs, good, i);
      } else {
        PermutedKeeps(s, s', gs, e => e == s[i], i);
      }
    }
  }

  /** At rest, every kept entry of the final array tells the truth, and the hashes that matter are there. */
  lemma FinalFacts(t: Trail, env: Environment, matchHardlinks: bool, algorithm: Algorithm, content: Contents)
    requires Staged(t, env, matchHardlinks, algorithm) && AtRest(t, env, content)
    ensures FullFacts(t.final, t.kept, t.sizeGroups, t.fastGroups, env, algorithm, content)
  {
    FastHashedFacts(t, env, matchHardlinks, algorithm, content);
    GroupsInside(t.sized, t.kept, SizeOf, t.sizeGroups);
    FastGroupingKeepsFacts(t.fastHashed, t.fastGrouped, t.kept, t.sizeGroups, env, algorithm, content);
    FullHashedFacts(t, env, algorithm, content);
    GroupsInside(t.fastGrouped, t.kept, Pair(SizeOf, FastHashOf), t.fastGroups);
    FullGroupingKeepsFacts(t.fullHashed, t.final, t.kept, t.sizeGroups, t.fastGroups, env, algorithm, content);
  }

  lemma FastHashedFacts(t: Trail, env: Environment, matchHardlinks: bool, algorithm: Algorithm, content: Contents)
    requires SizeStage(t, matchHardlinks) && FastStage(t, env) && AtRest(t, env, content)
    ensures FastFacts(t.fastHashed, t.kept, t.sizeGroups, env, algorithm, content)
  {
    forall i | 0 <= i < t.kept
      ensures |t.fastHashed| == |t.sized| && FastDone(t.fastHashed[i], env, algorithm, content)
      ensures Covered(t.sizeGroups, i) ==> t.fastHashed[i].fastComputed
    {
      KeptAreDiscovered(t, matchHardlinks, i);
      FastPassTruth(t.sized, t.fastHashed, t.sizeGroups, t.fastOrder, t.fastRan, env, algorithm, content, i);
    }
  }

  lemma FullHashedFacts(t: Trail, env: Environment, algorithm: Algorithm, content: Contents)
    requires FullStage(t, env, algorithm) && Reads(env, content)
    requires t.fullRan == FullPass.Span(0, |t.fullOrder|) && t.trusted
    requires FastFacts(t.fastGrouped, t.kept, t.sizeGroups, env, algorithm, content)
    ensures FullFacts(t.fullHashed, t.kept, t.sizeGroups, t.fastGroups, env, algorithm, content)
  {
    forall i | 0 <= i < t.kept
      ensures && |t.fullHashed| == |t.fastGrouped| && Truth(t.fullHashed[i], env, algorithm, content)
              && (Covered(t.sizeGroups, i) ==> t.fullHashed[i].fastComputed)
              && (Covered(t.fastGroups, i) ==> t.fullHashed[i].fullComputed)
    {
      FullPassTruth(t.fastGrouped, t.fullHashed, t.fastGroups, t.fullOrder, env, algorithm, content, i);
    }
  }
}
