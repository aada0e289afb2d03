// The reported groups do not depend on the order in which discovery found the files.
module Independence {
  import opened Entries
  import opened Sequences
  import opened KeyClasses
  import opened GroupingBySize
  import opened Projections
  import opened Pipeline
  import opened Content
  import opened Guarantees
  import FastPass

  function Compose<F, K>(f: FileEntry -> F, key: F -> K): FileEntry -> K {
    (e: FileEntry) => key(f(e))
  }

  function WindowOf(s: seq<FileEntry>, g: Group): seq<FileEntry> {
    if g.End() <= |s| then s[g.start..g.End()] else []
  }

  /** Every group of the first list has a group in the second with the same members, up to order, as seen through f. */
  ghost predicate FamilyWithin<F>(a: seq<FileEntry>, ga: seq<Group>, b: seq<FileEntry>, gb: seq<Group>, f: FileEntry -> F) {
    forall k | 0 <= k < |ga| :: HasCounterpart(a, ga[k], b, gb, f)
  }

  ghost predicate HasCounterpart<F>(a: seq<FileEntry>, g: Group, b: seq<FileEntry>, gb: seq<Group>, f: FileEntry -> F) {
    exists m :: 0 <= m < |gb| && SameMembers(a, g, b, gb[m], f)
  }

  ghost predicate SameMembers<F>(a: seq<FileEntry>, g: Group, b: seq<FileEntry>, h: Group, f: FileEntry -> F) {
    multiset(Map(f, WindowOf(a, g))) == multiset(Map(f, WindowOf(b, h)))
  }

  lemma {:induction false} TwoSelected<F, K>(s: seq<F>, key: F -> K, k: K) returns (p: nat, q: nat)
    requires |Select(s, key, k)| >= 2
    ensures p < q < |s| && key(s[p]) == k && key(s[q]) == k
  {
    var init, last := s[..|s| - 1], s[|s| - 1];
    if key(last) != k || |Select(init, key, k)| >= 2 {
      p, q := TwoSelected(init, key, k);
    } else {
      p := OneSelected(init, key, k);
      q := |s| - 1;
    }
  }

  lemma {:induction false} OneSelected<F, K>(s: seq<F>, key: F -> K, k: K) returns (p: nat)
    requires |Select(s, key, k)| >= 1
    ensures p < |s| && key(s[p]) == k
  {
    if key(s[|s| - 1]) == k {
      p := |s| - 1;
    } else {
      p := OneSelected(s[..|s| - 1], key, k);
    }
  }

  /** A whole class, seen through f, is what filtering by its key selects. */
  lemma ClassSelects<F(!new), K>(s: seq<FileEntry>, n: nat, f: FileEntry -> F, key: F -> K, g: Group, k: K)
    requires n <= |s| && WholeClass(s, 0, n, Compose(f, key), g) && key(f(s[g.start])) == k
    ensures Select(Map(f, s[..n]), key, k) == Map(f, WindowOf(s, g))
  {
    var mapped := Map(f, s[..n]);
    forall i | 0 <= i < n
      ensures key(mapped[i]) == k <==> g.start <= i < g.End()
    {
      assert mapped[i] == f(s[i]);
      assert Compose(f, key)(s[i]) == key(f(s[i]));
      assert g.Holds(i) <==> Compose(f, key)(s[i]) == Compose(f, key)(s[g.start]);
    }
    SelectWindow(mapped, key, k, g.start, g.End());
    assert mapped[g.start..g.End()] == Map(f, s[g.start..g.End()]);
  }

  lemma GroupFound<F(!new), K>(a: seq<FileEntry>, n: nat, ga: seq<Group>, b: seq<FileEntry>, m: nat, gb: seq<Group>,
                               f: FileEntry -> F, key: F -> K, k: nat) returns (j: nat)
    requires n <= |a| && Classes(a, 0, n, Compose(f, key), ga) && m <= |b| && Classes(b, 0, m, Compose(f, key), gb)
    requires multiset(Map(f, a[..n])) == multiset(Map(f, b[..m])) && k < |ga|
    ensures j < |gb| && SameMembers(a, ga[k], b, gb[j], f)
  {
    var g := ga[k];
    assert WholeClass(a, 0, n, Compose(f, key), g);
    var common := key(f(a[g.start]));
    var sa, sb := Select(Map(f, a[..n]), key, common), Select(Map(f, b[..m]), key, common);
    ClassSelects(a, n, f, key, g, common);
    SelectPermutation(Map(f, a[..n]), Map(f, b[..m]), key, common);
    assert |sb| == |multiset(sb)| == |multiset(sa)| == |sa| == g.count;
    var p, q := TwoSelected(Map(f, b[..m]), key, common);
    assert Compose(f, key)(b[p]) == key(f(b[p])) == common && Compose(f, key)(b[q]) == common;
    assert SharedWindow(gb, p, q);
    j :| 0 <= j < |gb| && gb[j].Holds(p) && gb[j].Holds(q);
    assert WholeClass(b, 0, m, Compose(f, key), gb[j]);
    assert gb[j].Holds(p);
    ClassSelects(b, m, f, key, gb[j], common);
  }

  /** Two arrays with the same multiset of f-values, each cut into its classes under a key of f, have the same family of
      groups. */
  lemma SameFamily<F(!new), K>(a: seq<FileEntry>, n: nat, ga: seq<Group>, b: seq<FileEntry>, m: nat, gb: seq<Group>,
                               f: FileEntry -> F, key: F -> K)
    requires n <= |a| && Classes(a, 0, n, Compose(f, key), ga) && m <= |b| && Classes(b, 0, m, Compose(f, key), gb)
    requires multiset(Map(f, a[..n])) == multiset(Map(f, b[..m]))
    ensures FamilyWithin(a, ga, b, gb, f) && FamilyWithin(b, gb, a, ga, f)
  {
    forall k | 0 <= k < |ga|
      ensures HasCounterpart(a, ga[k], b, gb, f)
    {
      var j := GroupFound(a, n, ga, b, m, gb, f, key, k);
    }
    forall k | 0 <= k < |gb|
      ensures HasCounterpart(b, gb[k], a, ga, f)
    {
      var j := GroupFound(b, m, gb, a, n, ga, f, key, k);
    }
  }

  /** What the run compares, computed from content alone. */
  function IdealKey(xxh: FastPass.Xxh64, digest: (Algorithm, seq<Byte>) -> Digest, algorithm: Algorithm, size: nat, bytes: seq<Byte>)
    : (nat, Word, seq<Byte>)
  {
    (size, FastPass.FastHashOfContent(bytes, xxh), digest(algorithm, bytes)[..DigestSize(algorithm)])
  }

  function IdentityKey(env: Environment, algorithm: Algorithm, content: Contents): Identity -> (nat, Word, seq<Byte>) {
    (id: Identity) => IdealKey(env.xxh, env.digest, algorithm, id.size, content(id.path))
  }

  /** Of two entries that tell the truth, the stored keys agree exactly when the ideal ones do. */
  lemma KeysOfTruth(a: FileEntry, b: FileEntry, env: Environment, algorithm: Algorithm, content: Contents)
    requires a.fastErrno == 0 == b.fastErrno && a.fullErrno == 0 == b.fullErrno
    requires a.size == b.size ==>
               && Truth(a, env, algorithm, content) && Truth(b, env, algorithm, content) && a.fastComputed && b.fastComputed
               && (a.fastHash == b.fastHash ==> a.fullComputed && b.fullComputed)
    ensures StoredKey(DigestSize(algorithm))(a) == StoredKey(DigestSize(algorithm))(b)
            <==> IdentityKey(env, algorithm, content)(IdOf(a)) == IdentityKey(env, algorithm, content)(IdOf(b))
  {
    SameStoredKey(a, b, DigestSize(algorithm));
    var ideal := IdentityKey(env, algorithm, content);
    assert ideal(IdOf(a)) == IdealKey(env.xxh, env.digest, algorithm, a.size, content(a.path));
    assert ideal(IdOf(b)) == IdealKey(env.xxh, env.digest, algorithm, b.size, content(b.path));
  }

  lemma StoredMatchesIdeal(t: Trail, env: Environment, matchHardlinks: bool, algorithm: Algorithm, content: Contents, p: nat, q: nat)
    requires Staged(t, env, matchHardlinks, algorithm) && AtRest(t, env, content)
    requires NoErrors(t) && p < q < t.kept
    ensures StoredKey(DigestSize(algorithm))(t.final[p]) == StoredKey(DigestSize(algorithm))(t.final[q])
            <==> IdentityKey(env, algorithm, content)(IdOf(t.final[p])) == IdentityKey(env, algorithm, content)(IdOf(t.final[q]))
  {
    if t.final[p].size == t.final[q].size {
      CandidatesHashed(t, env, matchHardlinks, algorithm, content, p, q);
    }
    KeysOfTruth(t.final[p], t.final[q], env, algorithm, content);
  }

  /** Without errors the groups are the classes of the ideal key, whatever the hash functions. */
  lemma GroupsAreIdealClasses(t: Trail, env: Environment, matchHardlinks: bool, algorithm: Algorithm, content: Contents)
    requires Staged(t, env, matchHardlinks, algorithm) && AtRest(t, env, content) && NoErrors(t)
    ensures Classes(t.final, 0, t.kept, Compose(IdOf, IdentityKey(env, algorithm, content)), t.groups)
  {
    var key, ideal := StoredKey(DigestSize(algorithm)), Compose(IdOf, IdentityKey(env, algorithm, content));
    forall p, q | 0 <= p < q < t.kept
      ensures key(t.final[p]) == key(t.final[q]) <==> ideal(t.final[p]) == ideal(t.final[q])
    {
      StoredMatchesIdeal(t, env, matchHardlinks, algorithm, content, p, q);
    }
    Rekey(t.final, t.kept, key, ideal, t.groups);
  }

  /** The two runs hash with the same functions. */
  ghost predicate SameHashes(env: Environment, env': Environment) {
    env.xxh == env'.xxh && env.digest == env'.digest
  }

  /** Discovery order, hard links matched: two error-free runs over the same files in any two orders, at any two times on
      a file system at rest, report the same family of groups. */
  lemma OrderIndependentMatched(t: Trail, env: Environment,
                                t': Trail, env': Environment,
                                algorithm: Algorithm, content: Contents)
    requires Staged(t, env, true, algorithm) && AtRest(t, env, content) && NoErrors(t)
    requires Staged(t', env', true, algorithm) && AtRest(t', env', content) && NoErrors(t')
    requires SameHashes(env, env') && multiset(t.discovered) == multiset(t'.discovered)
    ensures FamilyWithin(t.final, t.groups, t'.final, t'.groups, IdOf) && FamilyWithin(t'.final, t'.groups, t.final, t.groups, IdOf)
  {
    GroupsAreIdealClasses(t, env, true, algorithm, content);
    GroupsAreIdealClasses(t', env', true, algorithm, content);
    IdentitiesConserved(t, env, true, algorithm);
    IdentitiesConserved(t', env', true, algorithm);
    MapPermutation(IdOf, t.sized[..t.kept], t'.sized[..t'.kept]);
    assert IdentityKey(env, algorithm, content) == IdentityKey(env', algorithm, content);
    SameFamily(t.final, t.kept, t.groups, t'.final, t'.kept, t'.groups, IdOf, IdentityKey(env, algorithm, content));
  }

  function FileKeyOfId(id: Identity): (nat, nat, nat) {
    (id.size, id.device, id.inode)
  }

  /** Paths to one file of one size serve one content. */
  ghost predicate LinksAgree(s: seq<FileEntry>, content: Contents, fileContent: ((nat, nat, nat)) -> seq<Byte>) {
    forall e <- s :: content(e.path) == fileContent(FileKeyOf(e))
  }

  function FileIdealKey(env: Environment, algorithm: Algorithm, fileContent: ((nat, nat, nat)) -> seq<Byte>)
    : ((nat, nat, nat)) -> (nat, Word, seq<Byte>)
  {
    (k: (nat, nat, nat)) => IdealKey(env.xxh, env.digest, algorithm, k.0, fileContent(k))
  }

  lemma MapThroughIds(s: seq<FileEntry>)
    ensures Map(FileKeyOf, s) == Map(FileKeyOfId, Ids(s))
  {
  }

  /** The kept file keys are the same multiset, each once, whatever the discovery order. */
  lemma KeptKeysAgree(s: seq<FileEntry>, d: seq<FileEntry>, s': seq<FileEntry>, d': seq<FileEntry>)
    requires OnePerFile(s, d) && OnePerFile(s', d') && multiset(s) == multiset(s')
    ensures multiset(Map(FileKeyOf, d)) == multiset(Map(FileKeyOf, d'))
  {
    var a, b := Map(FileKeyOf, d), Map(FileKeyOf, d');
    forall x
      ensures multiset(a)[x] == multiset(b)[x]
    {
      KeyWithin(s, d, s', d', x);
      KeyWithin(s', d', s, d, x);
      Once(a, x);
      Once(b, x);
    }
  }

  lemma KeyWithin(s: seq<FileEntry>, d: seq<FileEntry>, s': seq<FileEntry>, d': seq<FileEntry>, x: (nat, nat, nat))
    requires OnePerFile(s, d) && OnePerFile(s', d') && multiset(s) == multiset(s')
    ensures x in Map(FileKeyOf, d) ==> x in Map(FileKeyOf, d')
  {
    if x in Map(FileKeyOf, d) {
      var i :| 0 <= i < |d| && Map(FileKeyOf, d)[i] == x;
      assert d[i] in s;
      assert d[i] in multiset(s');
      assert LinkIn(d', d[i]);
      var j :| 0 <= j < |d'| && FileKeyOf(d'[j]) == FileKeyOf(d[i]);
      assert Map(FileKeyOf, d')[j] == x;
    }
  }

  lemma GroupsAreFileClasses(t: Trail, env: Environment, algorithm: Algorithm, content: Contents,
                             fileContent: ((nat, nat, nat)) -> seq<Byte>)
    requires Staged(t, env, false, algorithm) && AtRest(t, env, content) && NoErrors(t)
    requires LinksAgree(t.discovered, content, fileContent)
    ensures Classes(t.final, 0, t.kept, Compose(FileKeyOf, FileIdealKey(env, algorithm, fileContent)), t.groups)
  {
    GroupsAreIdealClasses(t, env, false, algorithm, content);
    var byId := Compose(IdOf, IdentityKey(env, algorithm, content));
    var byFile := Compose(FileKeyOf, FileIdealKey(env, algorithm, fileContent));
    forall i | 0 <= i < t.kept
      ensures byId(t.final[i]) == byFile(t.final[i])
    {
      FinalIsDiscovered(t, env, algorithm, i);
      var e :| e in t.discovered && IdOf(e) == IdOf(t.final[i]);
      assert content(e.path) == fileContent(FileKeyOf(e));
      assert FileKeyOf(e) == FileKeyOf(t.final[i]);
    }
    Rekey(t.final, t.kept, byId, byFile, t.groups);
  }

  lemma FinalIsDiscovered(t: Trail, env: Environment, algorithm: Algorithm, i: nat)
    requires Staged(t, env, false, algorithm) && i < t.kept
    ensures i < |t.final| && exists e :: e in t.discovered && IdOf(e) == IdOf(t.final[i])
  {
    IdentitiesConserved(t, env, false, algorithm);
    var ids := Ids(t.final[..t.kept]);
    assert ids[i] == IdOf(t.final[i]);
    assert ids[i] in multiset(Ids(t.sized[..t.kept]));
    var j :| 0 <= j < t.kept && Ids(t.sized[..t.kept])[j] == ids[i];
    KeptAreDiscovered(t, false, j);
    assert IdOf(t.sized[j]) == IdOf(t.final[i]);
  }

  /** Discovery order, hard links collapsed: which link survives may differ, but the families of groups agree as families
      of files, told apart by size, device and inode. */
  lemma OrderIndependentCollapsed(t: Trail, env: Environment,
                                  t': Trail, env': Environment,
                                  algorithm: Algorithm, content: Contents, fileContent: ((nat, nat, nat)) -> seq<Byte>)
    requires Staged(t, env, false, algorithm) && AtRest(t, env, content) && NoErrors(t)
    requires Staged(t', env', false, algorithm) && AtRest(t', env', content) && NoErrors(t')
    requires SameHashes(env, env') && multiset(t.discovered) == multiset(t'.discovered)
    requires LinksAgree(t.discovered, content, fileContent) && LinksAgree(t'.discovered, content, fileContent)
    ensures FamilyWithin(t.final, t.groups, t'.final, t'.groups, FileKeyOf)
    ensures FamilyWithin(t'.final, t'.groups, t.final, t.groups, FileKeyOf)
  {
    GroupsAreFileClasses(t, env, algorithm, content, fileContent);
    GroupsAreFileClasses(t', env', algorithm, content, fileContent);
    FinalKeys(t, env, algorithm);
    FinalKeys(t', env', algorithm);
    KeptKeysAgree(t.discovered, t.sized[..t.kept], t'.discovered, t'.sized[..t'.kept]);
    assert FileIdealKey(env, algorithm, fileContent) == FileIdealKey(env', algorithm, fileContent);
    SameFamily(t.final, t.kept, t.groups, t'.final, t'.kept, t'.groups, FileKeyOf, FileIdealKey(env, algorithm, fileContent));
  }

  lemma FinalKeys(t: Trail, env: Environment, algorithm: Algorithm)
    requires Staged(t, env, false, algorithm)
    ensures t.kept <= |t.final| && t.kept <= |t.sized| && OnePerFile(t.discovered, t.sized[..t.kept])
    ensures multiset(Map(FileKeyOf, t.final[..t.kept])) == multiset(Map(FileKeyOf, t.sized[..t.kept]))
  {
    IdentitiesConserved(t, env, false, algorithm);
    MapThroughIds(t.final[..t.kept]);
    MapThroughIds(t.sized[..t.kept]);
    MapPermutation(FileKeyOfId, Ids(t.final[..t.kept]), Ids(t.sized[..t.kept]));
  }

  /** Two entries name one inode. */
  predicate SameInode(a: FileEntry, b: FileEntry) {
    a.device == b.device && a.inode == b.inode
  }

  /** Collapsing is per size run, so an inode survives more than once if and only if discovery recorded it with more than
      one size, as it does for a file that changes between two directory reads. */
  lemma InodeKeptOnceIff(s: seq<FileEntry>, d: seq<FileEntry>)
    requires OnePerFile(s, d)
    ensures (exists i, j :: 0 <= i < j < |d| && SameInode(d[i], d[j]))
            <==> (exists a, b :: a in s && b in s && SameInode(a, b) && a.size != b.size)
  {
    if i, j :| 0 <= i < j < |d| && SameInode(d[i], d[j]) {
      assert d[i] in s && d[j] in s && FileKeyOf(d[i]) != FileKeyOf(d[j]);
    }
    if a, b :| a in s && b in s && SameInode(a, b) && a.size != b.size {
      assert LinkIn(d, a) && LinkIn(d, b);
      var i :| 0 <= i < |d| && FileKeyOf(d[i]) == FileKeyOf(a);
      var j :| 0 <= j < |d| && FileKeyOf(d[j]) == FileKeyOf(b);
      assert SameInode(d[i], d[j]) && SameInode(d[j], d[i]);
    }
  }

  /** One inode found under two paths, while a byte was being appended: sorted by size, both entries survive collapsing. */
  lemma GrowingFileKeptTwice(a: FileEntry, b: FileEntry)
    requires SameInode(a, b) && a.size == b.size + 1
    ensures OnePerFile([a, b], Dedup([a, b])) && Dedup([a, b]) == [a, b]
  {
    assert [a, b][..1] == [a];
    DedupSurvivors([a, b]);
  }
}
