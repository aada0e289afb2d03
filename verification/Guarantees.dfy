// The end-to-end statements about a run.
module Guarantees {
  import opened Entries
  import opened KeyClasses
  import opened GroupingBySize
  import opened GroupingByHash
  import opened StreamReader
  import opened RingSlots
  import opened Candidates
  import opened Projections
  import opened Pipeline
  import opened Content
  import Statistics
  import FastPass
  import FullPass

  lemma PermutingKeepsKey<K>(s: seq<FileEntry>, s': seq<FileEntry>, n: nat, key: FileEntry -> K, gs: seq<Group>, i: nat)
    requires n <= |s| && Classes(s, 0, n, key, gs) && PermutedWithin(s, s', gs, |gs|) && i < n
    ensures key(s'[i]) == key(s[i])
  {
    GroupsInside(s, n, key, gs);
    if Covered(gs, i) {
      forall k, j | 0 <= k < |gs| && gs[k].Holds(i) && gs[k].Holds(j) && j < |s|
        ensures key(s[j]) == key(s[i])
      {
        assert WholeClass(s, 0, n, key, gs[k]);
      }
    }
    PermutedKeeps(s, s', gs, e => key(e) == key(s[i]), i);
  }

  /** The size windows of the first stage are still the size classes of the final array. */
  lemma SizeClassesStay(t: Trail, env: Environment, matchHardlinks: bool, algorithm: Algorithm)
    requires Staged(t, env, matchHardlinks, algorithm)
    ensures t.kept <= |t.final| == |t.sized|
    ensures Classes(t.final, 0, t.kept, SizeOf, t.sizeGroups)
    ensures forall i | 0 <= i < t.kept :: t.final[i].size == t.sized[i].size
  {
    var world := FullWorld(env, algorithm);
    FastPassOnlyHashes(t.sized, t.fastHashed, t.sizeGroups, t.fastOrder, t.fastRan, FastScripts(env, t.sized), env.xxh);
    SizesUntouched(t.sized, t.fastHashed, t.kept, t.sizeGroups, t.sizeGroups);
    FullPassOnlyHashes(t.fastGrouped, t.fullHashed, t.fastGroups, t.fullOrder, t.fullRan, world, t.trusted);
    KeysUntouched(t.fastGrouped, t.fullHashed, t.kept, t.fastGroups, t.fastGroups);
    forall i | 0 <= i < t.kept
      ensures SizeOf(t.final[i]) == SizeOf(t.fastGrouped[i]) == SizeOf(t.sized[i])
    {
      PermutingKeepsKey(t.fullHashed, t.final, t.kept, Pair(SizeOf, FastHashOf), t.fastGroups, i);
      assert SizeOf(t.final[i]) == Pair(SizeOf, FastHashOf)(t.final[i]).0;
      assert IdOf(t.fullHashed[i]) == IdOf(t.fastGrouped[i]);
      PermutingKeepsKey(t.fastHashed, t.fastGrouped, t.kept, SizeOf, t.sizeGroups, i);
      assert IdOf(t.fastHashed[i]) == IdOf(t.sized[i]);
    }
    ClassesFrame(t.sized, t.final, 0, t.kept, SizeOf, t.sizeGroups);
  }

  /** Two kept entries of one size are both fast-hashed; with one fast hash as well, both are fully hashed. */
  lemma CandidatesHashed(t: Trail, env: Environment, matchHardlinks: bool, algorithm: Algorithm, content: Contents, p: nat, q: nat)
    requires Staged(t, env, matchHardlinks, algorithm) && AtRest(t, env, content)
    requires p < q < t.kept <= |t.final| && t.final[p].size == t.final[q].size
    ensures Truth(t.final[p], env, algorithm, content) && Truth(t.final[q], env, algorithm, content)
    ensures t.final[p].fastComputed && t.final[q].fastComputed
    ensures t.final[p].fastHash == t.final[q].fastHash ==> t.final[p].fullComputed && t.final[q].fullComputed
  {
    FinalFacts(t, env, matchHardlinks, algorithm, content);
    SizeClassesStay(t, env, matchHardlinks, algorithm);
    assert SizeOf(t.final[p]) == SizeOf(t.final[q]);
    assert SharedWindow(t.sizeGroups, p, q);
    assert Covered(t.sizeGroups, p) && Covered(t.sizeGroups, q);
    if t.final[p].fastHash == t.final[q].fastHash {
      assert Pair(SizeOf, FastHashOf)(t.final[p]) == Pair(SizeOf, FastHashOf)(t.final[q]);
      assert SharedWindow(t.fastGroups, p, q);
      assert Covered(t.fastGroups, p) && Covered(t.fastGroups, q);
    }
  }

  lemma SameStoredKey(a: FileEntry, b: FileEntry, digestSize: nat)
    requires digestSize <= DIGEST_BYTES
    ensures StoredKey(digestSize)(a) == StoredKey(digestSize)(b)
            <==> a.size == b.size && a.fastHash == b.fastHash && a.fullHash[..digestSize] == b.fullHash[..digestSize]
  {
    assert StoredKey(digestSize)(a) == ((SizeOf(a), FastHashOf(a)), a.fullHash[..digestSize]);
    assert StoredKey(digestSize)(b) == ((SizeOf(b), FastHashOf(b)), b.fullHash[..digestSize]);
  }

  /** Files hashed without error and equal in content always share a reported group, whatever the hash functions. */
  lemma EqualContentsShareAGroup(t: Trail, env: Environment, matchHardlinks: bool, algorithm: Algorithm, content: Contents, p: nat, q: nat)
    requires Staged(t, env, matchHardlinks, algorithm) && AtRest(t, env, content)
    requires p < q < t.kept <= |t.final|
    requires content(t.final[p].path) == content(t.final[q].path)
    requires t.final[p].fastErrno == 0 == t.final[q].fastErrno && t.final[p].fullErrno == 0 == t.final[q].fullErrno
    ensures SharedWindow(t.groups, p, q)
  {
    FinalFacts(t, env, matchHardlinks, algorithm, content);
    CandidatesHashed(t, env, matchHardlinks, algorithm, content, p, q);
    SameStoredKey(t.final[p], t.final[q], DigestSize(algorithm));
    assert SharedWindow(t.groups, p, q) || !SharedWindow(t.groups, p, q);
  }

  /** Two verified files of equal content share a reported group if and only if their stored fast hashes agree: in any steady
      run, complete or stopped, whatever the fast pass met. A tail read that fails unreported for one of them and not for the
      other can keep them apart (FastPass.FastHashContent says when it changes the hash). */
  lemma EqualFilesShareIff(t: Trail, env: Environment, matchHardlinks: bool, algorithm: Algorithm, content: Contents, p: nat, q: nat)
    requires Staged(t, env, matchHardlinks, algorithm) && Steady(t, env, content)
    requires p < q < t.kept <= |t.final|
    requires content(t.final[p].path) == content(t.final[q].path) && Verified(t.final[p]) && Verified(t.final[q])
    ensures SharedWindow(t.groups, p, q) <==> t.final[p].fastHash == t.final[q].fastHash
  {
    DigestsTrue(t, env, matchHardlinks, algorithm, content);
    assert TrueSize(t.final[p], content) && TrueSize(t.final[q], content);
    assert FullTruth(t.final[p], env, algorithm, content) && FullTruth(t.final[q], env, algorithm, content);
    SameStoredKey(t.final[p], t.final[q], DigestSize(algorithm));
    if SharedWindow(t.groups, p, q) {
      GroupMembersAgree(t, algorithm, p, q);
    }
  }

  lemma GroupMembersAgree(t: Trail, algorithm: Algorithm, p: nat, q: nat)
    requires t.kept <= |t.final| && Classes(t.final, 0, t.kept, StoredKey(DigestSize(algorithm)), t.groups)
    requires SharedWindow(t.groups, p, q)
    ensures p < t.kept && q < t.kept && StoredKey(DigestSize(algorithm))(t.final[p]) == StoredKey(DigestSize(algorithm))(t.final[q])
  {
    var k :| 0 <= k < |t.groups| && t.groups[k].Holds(p) && t.groups[k].Holds(q);
    assert WholeClass(t.final, 0, t.kept, StoredKey(DigestSize(algorithm)), t.groups[k]);
  }

  function ContentOf(content: Contents): FileEntry -> seq<Byte> {
    (e: FileEntry) => content(e.path)
  }

  ghost predicate NoErrors(t: Trail) {
    t.kept <= |t.final| && forall i | 0 <= i < t.kept :: t.final[i].fastErrno == 0 && t.final[i].fullErrno == 0
  }

  /** The digest prefix tells the kept contents apart. */
  ghost predicate DigestSeparates(t: Trail, env: Environment, algorithm: Algorithm, content: Contents) {
    t.kept <= |t.final| && forall i, j | 0 <= i < t.kept && 0 <= j < t.kept ::
      env.digest(algorithm, content(t.final[i].path))[..DigestSize(algorithm)]
        == env.digest(algorithm, content(t.final[j].path))[..DigestSize(algorithm)]
      ==> content(t.final[i].path) == content(t.final[j].path)
  }

  /** Windows that are the classes of one key are the classes of any other key that makes the same distinctions. */
  lemma Rekey<K1, K2>(s: seq<FileEntry>, n: nat, key: FileEntry -> K1, key': FileEntry -> K2, gs: seq<Group>)
    requires n <= |s| && Classes(s, 0, n, key, gs)
    requires forall p, q | 0 <= p < q < n :: key(s[p]) == key(s[q]) <==> key'(s[p]) == key'(s[q])
    ensures Classes(s, 0, n, key', gs)
  {
    forall k | 0 <= k < |gs|
      ensures WholeClass(s, 0, n, key', gs[k])
    {
      assert WholeClass(s, 0, n, key, gs[k]);
      forall i | 0 <= i < n
        ensures key'(s[i]) == key'(s[gs[k].start]) <==> gs[k].Holds(i)
      {
        var a := gs[k].start;
        assert i < a ==> (key(s[i]) == key(s[a]) <==> key'(s[i]) == key'(s[a]));
        assert a < i ==> (key(s[a]) == key(s[i]) <==> key'(s[a]) == key'(s[i]));
        assert gs[k].Holds(i) <==> key(s[i]) == key(s[a]);
      }
    }
  }

  /** Without errors, and when the digest tells the contents apart, the reported groups are exactly the classes of files
      with equal content that have two members or more, each once. */
  lemma GroupsAreContentClasses(t: Trail, env: Environment, matchHardlinks: bool, algorithm: Algorithm, content: Contents)
    requires Staged(t, env, matchHardlinks, algorithm) && AtRest(t, env, content)
    requires NoErrors(t) && DigestSeparates(t, env, algorithm, content)
    ensures Classes(t.final, 0, t.kept, ContentOf(content), t.groups)
  {
    var key := StoredKey(DigestSize(algorithm));
    forall p, q | 0 <= p < q < t.kept
      ensures key(t.final[p]) == key(t.final[q]) <==> ContentOf(content)(t.final[p]) == ContentOf(content)(t.final[q])
    {
      StoredMatchesContent(t, env, matchHardlinks, algorithm, content, p, q);
    }
    Rekey(t.final, t.kept, key, ContentOf(content), t.groups);
  }

  /** Two verified members of one group have equal content, even when the run was stopped or other files of it failed. */
  lemma VerifiedMembersAgree(t: Trail, env: Environment, matchHardlinks: bool, algorithm: Algorithm, content: Contents, p: nat, q: nat)
    requires Staged(t, env, matchHardlinks, algorithm) && Steady(t, env, content)
    requires DigestSeparates(t, env, algorithm, content) && SharedWindow(t.groups, p, q)
    requires p < |t.final| && q < |t.final| && Verified(t.final[p]) && Verified(t.final[q])
    ensures content(t.final[p].path) == content(t.final[q].path)
  {
    DigestsTrue(t, env, matchHardlinks, algorithm, content);
    GroupMembersAgree(t, algorithm, p, q);
    SameStoredKey(t.final[p], t.final[q], DigestSize(algorithm));
    assert FullTruth(t.final[p], env, algorithm, content) && FullTruth(t.final[q], env, algorithm, content);
  }

  lemma StoredMatchesContent(t: Trail, env: Environment, matchHardlinks: bool, algorithm: Algorithm, content: Contents, p: nat, q: nat)
    requires Staged(t, env, matchHardlinks, algorithm) && AtRest(t, env, content)
    requires NoErrors(t) && DigestSeparates(t, env, algorithm, content) && p < q < t.kept
    ensures StoredKey(DigestSize(algorithm))(t.final[p]) == StoredKey(DigestSize(algorithm))(t.final[q])
            <==> content(t.final[p].path) == content(t.final[q].path)
  {
    FinalFacts(t, env, matchHardlinks, algorithm, content);
    SameStoredKey(t.final[p], t.final[q], DigestSize(algorithm));
    assert |content(t.final[p].path)| == t.final[p].size && |content(t.final[q].path)| == t.final[q].size;
    if t.final[p].size == t.final[q].size {
      CandidatesHashed(t, env, matchHardlinks, algorithm, content, p, q);
    }
  }

  /** A kept file that was not read in full, and another one of its size and stored fast hash that was not either, or whose
      stored digest prefix is all zero. */
  ghost predicate SharedFailure(t: Trail, digestSize: nat)
    requires digestSize <= DIGEST_BYTES
  {
    t.kept <= |t.final| && exists p, q :: 0 <= p < t.kept && 0 <= q < t.kept && p != q && Mistaken(t.final[p], t.final[q], digestSize)
  }

  predicate Mistaken(a: FileEntry, b: FileEntry, digestSize: nat)
    requires digestSize <= DIGEST_BYTES
  {
    && a.size == b.size && a.fastHash == b.fastHash && !Verified(a)
    && (!Verified(b) || AllZero(b.fullHash[..digestSize]))
  }

  predicate AllZero(bytes: seq<Byte>) {
    forall i | 0 <= i < |bytes| :: bytes[i] == 0
  }

  /** Every member of every reported group was read in full, and its digest computed. */
  ghost predicate AllVerified(t: Trail) {
    forall k, i | 0 <= k < |t.groups| && t.groups[k].Holds(i) :: i < |t.final| && Verified(t.final[i])
  }

  /** The grouping never looks at the error fields or at whether a hash was computed, so files that were never read can be
      reported as duplicates. In any run, complete or stopped, on any file system and any kernel, every reported member is
      verified if and only if no file that was not read in full meets another one of its size and stored fast hash that was
      not read either or has an all-zero digest prefix. */
  lemma VerifiedIffNoSharedFailure(t: Trail, env: Environment, matchHardlinks: bool, algorithm: Algorithm)
    requires Staged(t, env, matchHardlinks, algorithm) && FreshlyDiscovered(t)
    ensures AllVerified(t) <==> !SharedFailure(t, DigestSize(algorithm))
  {
    if SharedFailure(t, DigestSize(algorithm)) {
      var p, q :| 0 <= p < t.kept && 0 <= q < t.kept && p != q && Mistaken(t.final[p], t.final[q], DigestSize(algorithm));
      MistakenIsReported(t, env, matchHardlinks, algorithm, p, q);
    } else {
      NoneMistaken(t, env, matchHardlinks, algorithm);
    }
  }

  lemma NoneMistaken(t: Trail, env: Environment, matchHardlinks: bool, algorithm: Algorithm)
    requires Staged(t, env, matchHardlinks, algorithm) && FreshlyDiscovered(t) && !SharedFailure(t, DigestSize(algorithm))
    ensures AllVerified(t)
  {
    assert t.kept <= |t.final| by {
      SizeClassesStay(t, env, matchHardlinks, algorithm);
    }
    forall k, i | 0 <= k < |t.groups| && t.groups[k].Holds(i)
      ensures i < |t.final| && Verified(t.final[i])
    {
      MemberVerified(t, env, matchHardlinks, algorithm, k, i);
    }
  }

  lemma MistakenIsReported(t: Trail, env: Environment, matchHardlinks: bool, algorithm: Algorithm, p: nat, q: nat)
    requires Staged(t, env, matchHardlinks, algorithm) && FreshlyDiscovered(t)
    requires p < t.kept <= |t.final| && q < t.kept && p != q && Mistaken(t.final[p], t.final[q], DigestSize(algorithm))
    ensures SharedWindow(t.groups, p, q) && !AllVerified(t)
  {
    UnverifiedHasNoDigest(t, env, matchHardlinks, algorithm);
    MistakenShareKey(t.final[p], t.final[q], DigestSize(algorithm));
    assert p < q ==> SharedWindow(t.groups, p, q);
    assert q < p ==> SharedWindow(t.groups, q, p);
  }

  lemma MemberVerified(t: Trail, env: Environment, matchHardlinks: bool, algorithm: Algorithm, k: nat, i: nat)
    requires Staged(t, env, matchHardlinks, algorithm) && FreshlyDiscovered(t)
    requires t.kept <= |t.final| && !SharedFailure(t, DigestSize(algorithm)) && k < |t.groups| && t.groups[k].Holds(i)
    ensures i < t.kept && Verified(t.final[i])
  {
    var j := OtherMember(t, algorithm, k, i);
    UnverifiedHasNoDigest(t, env, matchHardlinks, algorithm);
    NoDigestIsZero(t.final[i], t.final[j], DigestSize(algorithm));
    assert !Mistaken(t.final[i], t.final[j], DigestSize(algorithm));
  }

  lemma OtherMember(t: Trail, algorithm: Algorithm, k: nat, i: nat) returns (j: nat)
    requires t.kept <= |t.final| && Classes(t.final, 0, t.kept, StoredKey(DigestSize(algorithm)), t.groups)
    requires k < |t.groups| && t.groups[k].Holds(i)
    ensures i < t.kept && j < t.kept && i != j
    ensures StoredKey(DigestSize(algorithm))(t.final[i]) == StoredKey(DigestSize(algorithm))(t.final[j])
  {
    var g := t.groups[k];
    assert WholeClass(t.final, 0, t.kept, StoredKey(DigestSize(algorithm)), g);
    j := if i == g.start then g.start + 1 else g.start;
    assert g.Holds(j);
    assert SharedWindow(t.groups, i, j);
    GroupMembersAgree(t, algorithm, i, j);
  }

  /** An unverified entry's digest prefix is zero, so another entry of the same stored key is mistaken for it. */
  lemma NoDigestIsZero(a: FileEntry, b: FileEntry, digestSize: nat)
    requires digestSize <= DIGEST_BYTES && Honest(a) && StoredKey(digestSize)(a) == StoredKey(digestSize)(b)
    ensures !Verified(a) ==> Mistaken(a, b, digestSize)
  {
    SameStoredKey(a, b, digestSize);
    assert Discovered(IdOf(a)).fullHash == NO_DIGEST;
  }

  lemma MistakenShareKey(a: FileEntry, b: FileEntry, digestSize: nat)
    requires digestSize <= DIGEST_BYTES && Honest(a) && Honest(b) && Mistaken(a, b, digestSize)
    ensures StoredKey(digestSize)(a) == StoredKey(digestSize)(b)
  {
    SameStoredKey(a, b, digestSize);
    assert Discovered(IdOf(a)).fullHash == NO_DIGEST == Discovered(IdOf(b)).fullHash;
  }

  /** A concrete pair: two files of one size that can neither be opened by the fast pass nor be read by the full pass end
      up with the same stored key, whatever they contain. */
  lemma UnreadableFilesShareKey(a: Identity, b: Identity, errno: Errno, env: Environment, algorithm: Algorithm)
    requires a.size == b.size
    ensures var refused := FastPass.FastScript(Refused(errno), Refused(errno), Failed(errno), Failed(errno));
            var ea := FastPass.FastHashed(Discovered(a), refused, env.xxh);
            var eb := FastPass.FastHashed(Discovered(b), refused, env.xxh);
            var digest := FullWorld(env, algorithm).digest;
            StoredKey(DigestSize(algorithm))(FullPass.Finish(ea, BatchItem(a.path, a.size, false, errno), [], digest))
              == StoredKey(DigestSize(algorithm))(FullPass.Finish(eb, BatchItem(b.path, b.size, false, errno), [], digest))
  {
    var refused := FastPass.FastScript(Refused(errno), Refused(errno), Failed(errno), Failed(errno));
    var fa, fb := FastPass.FastHashed(Discovered(a), refused, env.xxh), FastPass.FastHashed(Discovered(b), refused, env.xxh);
    assert fa.fastHash == 0 == fb.fastHash && fa.fullHash == NO_DIGEST == fb.fullHash;
    var digest := FullWorld(env, algorithm).digest;
    SameStoredKey(FullPass.Finish(fa, BatchItem(a.path, a.size, false, errno), [], digest),
                  FullPass.Finish(fb, BatchItem(b.path, b.size, false, errno), [], digest), DigestSize(algorithm));
  }

  /** What the size stage kept is still there at the end, up to order. */
  lemma IdentitiesConserved(t: Trail, env: Environment, matchHardlinks: bool, algorithm: Algorithm)
    requires Staged(t, env, matchHardlinks, algorithm)
    ensures t.kept <= |t.final|
    ensures multiset(Ids(t.final[..t.kept])) == multiset(Ids(t.sized[..t.kept]))
  {
    SizeClassesStay(t, env, matchHardlinks, algorithm);
    FastPassOnlyHashes(t.sized, t.fastHashed, t.sizeGroups, t.fastOrder, t.fastRan, FastScripts(env, t.sized), env.xxh);
    OnlyHashesSameIds(t.sized, t.fastHashed, t.sizeGroups, t.kept);
    MapPermutation(IdOf, t.fastHashed[..t.kept], t.fastGrouped[..t.kept]);
    FullPassOnlyHashes(t.fastGrouped, t.fullHashed, t.fastGroups, t.fullOrder, t.fullRan,
                       FullWorld(env, algorithm), t.trusted);
    OnlyHashesSameIds(t.fastGrouped, t.fullHashed, t.fastGroups, t.kept);
    MapPermutation(IdOf, t.fullHashed[..t.kept], t.final[..t.kept]);
  }

  lemma InheritedSized(s: seq<FileEntry>, parents: seq<Group>, gs: seq<Group>)
    requires Sized(s, parents) && AllInherited(parents, gs)
    ensures Sized(s, gs)
  {
    forall k, i | 0 <= k < |gs| && gs[k].Holds(i)
      ensures i < |s| && s[i].size == gs[k].size
    {
      assert InheritedFrom(parents, gs[k]);
      var f :| 0 <= f < |parents| && parents[f].start <= gs[k].start && gs[k].End() <= parents[f].End()
               && gs[k].size == parents[f].size;
      assert parents[f].Holds(i);
    }
  }

  /** Every reported window carries the size of its entries. */
  lemma GroupsSized(t: Trail, env: Environment, matchHardlinks: bool, algorithm: Algorithm)
    requires Staged(t, env, matchHardlinks, algorithm)
    ensures Sized(t.final, t.groups)
  {
    SizeClassesStay(t, env, matchHardlinks, algorithm);
    GroupsInside(t.sized, t.kept, SizeOf, t.sizeGroups);
    assert Sized(t.final, t.sizeGroups);
    InheritedSized(t.final, t.sizeGroups, t.fastGroups);
    InheritedSized(t.final, t.fastGroups, t.groups);
  }

  /** Each stage holds no more files than the one before. */
  lemma CountsShrink(t: Trail, env: Environment, matchHardlinks: bool, algorithm: Algorithm)
    requires Staged(t, env, matchHardlinks, algorithm)
    ensures TotalCount(t.groups) <= TotalCount(t.fastGroups) <= TotalCount(t.sizeGroups) <= t.kept
  {
    Statistics.NestedCount(t.fastGroups, t.groups);
    Statistics.NestedCount(t.sizeGroups, t.fastGroups);
    GroupsInside(t.sized, t.kept, SizeOf, t.sizeGroups);
    Statistics.CountWithin(t.sizeGroups, t.kept);
  }

  /** The reported totals: duplicates and groups make up the grouped files, which shrink from stage to stage, and the
      wasted bytes are those of all kept entries minus one representative of every key class, as a 64-bit count. */
  lemma TotalsConserved(t: Trail, env: Environment, matchHardlinks: bool, algorithm: Algorithm,
                        st: Statistics.Statistics)
    requires Staged(t, env, matchHardlinks, algorithm) && Tallied(t, st)
    ensures t.kept <= |t.final|
    ensures st.duplicateFiles + st.duplicateGroups <= st.filesHashedFull <= st.filesHashedFast == st.sizeCandidates
            <= st.filesScanned - st.hardlinksCollapsed
    ensures var key := StoredKey(DigestSize(algorithm));
            && st.duplicateFiles == Statistics.RepeatedFiles(t.final, key, t.kept)
            && st.wastedBytes == Statistics.RedundantBytes(t.final, key, t.kept)
  {
    CountsShrink(t, env, matchHardlinks, algorithm);
    GroupsSized(t, env, matchHardlinks, algorithm);
    WasteOf(t.final, t.kept, DigestSize(algorithm), t.groups);
  }

  lemma WasteOf(s: seq<FileEntry>, n: nat, digestSize: nat, gs: seq<Group>)
    requires digestSize <= DIGEST_BYTES && n <= |s| && Classes(s, 0, n, StoredKey(digestSize), gs) && Sized(s, gs)
    ensures Statistics.ExtraFiles(gs) == Statistics.RepeatedFiles(s, StoredKey(digestSize), n)
    ensures Statistics.ExtraBytes(gs) % Statistics.WRAP == Statistics.RedundantBytes(s, StoredKey(digestSize), n)
    ensures TotalCount(gs) == Statistics.ExtraFiles(gs) + |gs|
  {
    Statistics.WasteConserved(s, n, StoredKey(digestSize), gs);
  }
}
