// The totals reported with the groups.
module Statistics {
  import opened Entries
  import opened Sequences
  import opened KeyClasses
  import opened Candidates
  import opened GroupingByHash

  const WRAP := 0x1_0000_0000_0000_0000

  datatype Statistics = Statistics(
    filesScanned: nat,
    hardlinksCollapsed: nat,
    sizeCandidates: nat,
    filesHashedFast: nat,
    filesHashedFull: nat,
    duplicateGroups: nat,
    duplicateFiles: nat,
    wastedBytes: nat)

  function ExtraFiles(gs: seq<Group>): int {
    if gs == [] then 0 else ExtraFiles(gs[..|gs| - 1]) + gs[|gs| - 1].count - 1
  }

  function ExtraBytes(gs: seq<Group>): int {
    if gs == [] then 0 else ExtraBytes(gs[..|gs| - 1]) + (gs[|gs| - 1].count - 1) * gs[|gs| - 1].size
  }

  /** The totals loop; bytes are a 64-bit size and wrap around. */
  method CountDuplicates(groups: seq<Group>) returns (duplicates: nat, wasted: nat)
    requires forall k | 0 <= k < |groups| :: 2 <= groups[k].count
    ensures duplicates == ExtraFiles(groups)
    ensures wasted == ExtraBytes(groups) % WRAP
  {
    duplicates, wasted := 0, 0;
    for k := 0 to |groups|
      invariant duplicates == ExtraFiles(groups[..k])
      invariant wasted == ExtraBytes(groups[..k]) % WRAP
    {
      assert groups[..k + 1][..k] == groups[..k];
      var extra := groups[k].count - 1;
      duplicates := duplicates + extra;
      WrapAdd(ExtraBytes(groups[..k]), extra * groups[k].size);
      wasted := (wasted + extra * groups[k].size) % WRAP;
    }
    assert groups[..|groups|] == groups;
  }

  lemma WrapAdd(total: int, more: int)
    ensures (total % WRAP + more) % WRAP == (total + more) % WRAP
  {
  }

  /** Entry i repeats a key that occurs before it. */
  ghost predicate Repeats<K(!new)>(s: seq<FileEntry>, key: FileEntry -> K, i: nat)
    requires i < |s|
  {
    exists j :: 0 <= j < i && key(s[j]) == key(s[i])
  }

  /** Files among s[..n] whose key has occurred before: all but one of every key class. */
  ghost function RepeatedFiles<K(!new)>(s: seq<FileEntry>, key: FileEntry -> K, n: nat): nat
    requires n <= |s|
  {
    if n == 0 then 0 else RepeatedFiles(s, key, n - 1) + if Repeats(s, key, n - 1) then 1 else 0
  }

  ghost function RepeatedBytes<K(!new)>(s: seq<FileEntry>, key: FileEntry -> K, n: nat): nat
    requires n <= |s|
  {
    if n == 0 then 0 else RepeatedBytes(s, key, n - 1) + if Repeats(s, key, n - 1) then s[n - 1].size else 0
  }

  /** The bytes of the first entry of every key class, singletons included. */
  ghost function RepresentativeBytes<K(!new)>(s: seq<FileEntry>, key: FileEntry -> K, n: nat): nat
    requires n <= |s|
  {
    if n == 0 then 0 else RepresentativeBytes(s, key, n - 1) + if Repeats(s, key, n - 1) then 0 else s[n - 1].size
  }

  function TotalBytes(s: seq<FileEntry>, n: nat): nat
    requires n <= |s|
  {
    if n == 0 then 0 else TotalBytes(s, n - 1) + s[n - 1].size
  }

  /** All bytes minus one representative per key class, as a 64-bit count. */
  ghost function RedundantBytes<K(!new)>(s: seq<FileEntry>, key: FileEntry -> K, n: nat): int
    requires n <= |s|
  {
    (TotalBytes(s, n) - RepresentativeBytes(s, key, n)) % WRAP
  }

  lemma {:induction false} BytesSplit<K(!new)>(s: seq<FileEntry>, key: FileEntry -> K, n: nat)
    requires n <= |s|
    ensures TotalBytes(s, n) == RepeatedBytes(s, key, n) + RepresentativeBytes(s, key, n)
  {
    if n > 0 {
      BytesSplit(s, key, n - 1);
    }
  }

  lemma {:induction false} NoRepeats<K(!new)>(s: seq<FileEntry>, key: FileEntry -> K, a: nat, b: nat)
    requires a <= b <= |s|
    requires forall i | a <= i < b :: !Repeats(s, key, i)
    ensures RepeatedFiles(s, key, b) == RepeatedFiles(s, key, a)
    ensures RepeatedBytes(s, key, b) == RepeatedBytes(s, key, a)
  {
    if a < b {
      NoRepeats(s, key, a, b - 1);
    }
  }

  lemma {:induction false} AllRepeat<K(!new)>(s: seq<FileEntry>, key: FileEntry -> K, a: nat, b: nat, size: nat)
    requires a <= b <= |s|
    requires forall i | a <= i < b :: Repeats(s, key, i) && s[i].size == size
    ensures RepeatedFiles(s, key, b) == RepeatedFiles(s, key, a) + (b - a)
    ensures RepeatedBytes(s, key, b) == RepeatedBytes(s, key, a) + (b - a) * size
  {
    if a < b {
      AllRepeat(s, key, a, b - 1, size);
      assert (b - a) * size == (b - 1 - a) * size + size;
    }
  }

  lemma GapDoesNotRepeat<K(!new)>(s: seq<FileEntry>, n: nat, key: FileEntry -> K, gs: seq<Group>, m: nat, i: nat)
    requires n <= |s| && m <= |gs| && Classes(s, 0, n, key, gs)
    requires EndOf(gs, m) <= i < n && (m < |gs| ==> i < gs[m].start)
    ensures !Repeats(s, key, i)
  {
    forall k | 0 <= k < |gs|
      ensures !gs[k].Holds(i)
    {
      if k < m - 1 {
        assert gs[k].End() <= gs[m - 1].start;
      } else if k > m {
        assert gs[m].End() <= gs[k].start;
      }
    }
    forall j | 0 <= j < i
      ensures key(s[j]) != key(s[i])
    {
      assert !SharedWindow(gs, j, i);
    }
  }

  lemma ClassRepeats<K(!new)>(s: seq<FileEntry>, n: nat, key: FileEntry -> K, g: Group, i: nat)
    requires n <= |s| && WholeClass(s, 0, n, key, g) && g.start <= i < g.End()
    ensures Repeats(s, key, i) <==> g.start < i
  {
    assert g.Holds(i);
    if i == g.start {
      forall j | 0 <= j < i
        ensures key(s[j]) != key(s[i])
      {
        assert !g.Holds(j);
      }
    } else {
      assert key(s[g.start]) == key(s[i]);
    }
  }

  lemma WindowRepeats<K(!new)>(s: seq<FileEntry>, n: nat, key: FileEntry -> K, g: Group)
    requires n <= |s| && WholeClass(s, 0, n, key, g) && forall i | g.start <= i < g.End() :: s[i].size == g.size
    ensures RepeatedFiles(s, key, g.End()) == RepeatedFiles(s, key, g.start) + (g.count - 1)
    ensures RepeatedBytes(s, key, g.End()) == RepeatedBytes(s, key, g.start) + (g.count - 1) * g.size
  {
    ClassRepeats(s, n, key, g, g.start);
    NoRepeats(s, key, g.start, g.start + 1);
    forall i | g.start + 1 <= i < g.End()
      ensures Repeats(s, key, i)
    {
      ClassRepeats(s, n, key, g, i);
    }
    AllRepeat(s, key, g.start + 1, g.End(), g.size);
    assert g.End() - (g.start + 1) == g.count - 1;
  }

  lemma GapRepeats<K(!new)>(s: seq<FileEntry>, n: nat, key: FileEntry -> K, gs: seq<Group>, m: nat, to: nat)
    requires n <= |s| && m <= |gs| && Classes(s, 0, n, key, gs)
    requires EndOf(gs, m) <= to <= n && (m < |gs| ==> to <= gs[m].start)
    ensures RepeatedFiles(s, key, to) == RepeatedFiles(s, key, EndOf(gs, m))
    ensures RepeatedBytes(s, key, to) == RepeatedBytes(s, key, EndOf(gs, m))
  {
    forall i | EndOf(gs, m) <= i < to
      ensures !Repeats(s, key, i)
    {
      GapDoesNotRepeat(s, n, key, gs, m, i);
    }
    NoRepeats(s, key, EndOf(gs, m), to);
  }

  lemma GroupRepeats<K(!new)>(s: seq<FileEntry>, n: nat, key: FileEntry -> K, gs: seq<Group>, m: nat)
    requires n <= |s| && m < |gs| && Classes(s, 0, n, key, gs) && Sized(s, gs)
    ensures EndOf(gs, m) <= gs[m].start < gs[m].End() <= n
    ensures RepeatedFiles(s, key, gs[m].End()) == RepeatedFiles(s, key, EndOf(gs, m)) + (gs[m].count - 1)
    ensures RepeatedBytes(s, key, gs[m].End()) == RepeatedBytes(s, key, EndOf(gs, m)) + (gs[m].count - 1) * gs[m].size
  {
    var g := gs[m];
    assert WholeClass(s, 0, n, key, g);
    assert EndOf(gs, m) <= g.start;
    GapRepeats(s, n, key, gs, m, g.start);
    forall i | g.start <= i < g.End()
      ensures s[i].size == g.size
    {
      assert gs[m].Holds(i);
    }
    WindowRepeats(s, n, key, g);
  }

  /** The loop's totals are those of the classes: everything but one file per key class. */
  lemma {:induction false} ExtrasAreRepeats<K(!new)>(s: seq<FileEntry>, n: nat, key: FileEntry -> K, gs: seq<Group>, m: nat)
    requires n <= |s| && m <= |gs| && Classes(s, 0, n, key, gs) && Sized(s, gs)
    ensures EndOf(gs, m) <= n
    ensures ExtraFiles(gs[..m]) == RepeatedFiles(s, key, EndOf(gs, m))
    ensures ExtraBytes(gs[..m]) == RepeatedBytes(s, key, EndOf(gs, m))
  {
    if m > 0 {
      ExtrasAreRepeats(s, n, key, gs, m - 1);
      GroupRepeats(s, n, key, gs, m - 1);
      assert gs[..m][..m - 1] == gs[..m - 1];
    }
  }

  lemma AllExtras<K(!new)>(s: seq<FileEntry>, n: nat, key: FileEntry -> K, gs: seq<Group>)
    requires n <= |s| && Classes(s, 0, n, key, gs) && Sized(s, gs)
    ensures ExtraFiles(gs) == RepeatedFiles(s, key, n) && ExtraBytes(gs) == RepeatedBytes(s, key, n)
  {
    ExtrasAreRepeats(s, n, key, gs, |gs|);
    assert gs[..|gs|] == gs;
    GapRepeats(s, n, key, gs, |gs|, n);
  }

  /** Conservation: what the groups waste is the bytes of all surviving entries minus one representative per key class,
      and grouped files are duplicates plus groups. */
  lemma WasteConserved<K(!new)>(s: seq<FileEntry>, n: nat, key: FileEntry -> K, gs: seq<Group>)
    requires n <= |s| && Classes(s, 0, n, key, gs) && Sized(s, gs)
    ensures ExtraFiles(gs) == RepeatedFiles(s, key, n)
    ensures ExtraBytes(gs) == TotalBytes(s, n) - RepresentativeBytes(s, key, n)
    ensures ExtraBytes(gs) % WRAP == RedundantBytes(s, key, n)
    ensures TotalCount(gs) == ExtraFiles(gs) + |gs|
  {
    AllExtras(s, n, key, gs);
    BytesSplit(s, key, n);
    CountSplit(gs);
  }

  lemma {:induction false} CountSplit(gs: seq<Group>)
    ensures TotalCount(gs) == ExtraFiles(gs) + |gs|
  {
    if gs != [] {
      CountSplit(gs[..|gs| - 1]);
    }
  }

  lemma {:induction false} DistinctWithin(s: seq<nat>, bound: set<nat>)
    requires Distinct(s) && forall x <- s :: x in bound
    ensures |s| <= |bound|
  {
    if s != [] {
      var x, rest := s[|s| - 1], s[..|s| - 1];
      forall y | y in rest
        ensures y in bound - {x}
      {
        var k :| 0 <= k < |rest| && rest[k] == y;
        assert s[k] != s[|s| - 1];
      }
      DistinctWithin(rest, bound - {x});
    }
  }

  lemma {:induction false} DistinctSize(s: seq<nat>)
    requires Distinct(s)
    ensures |Elements(s)| == |s|
  {
    if s != [] {
      var x, rest := s[|s| - 1], s[..|s| - 1];
      DistinctSize(rest);
      assert x !in rest;
      assert s == rest + [x];
      assert Elements(s) == Elements(rest) + {x};
    }
  }

  function Elements(s: seq<nat>): set<nat> {
    set x | x in s
  }

  lemma InheritedCovers(parents: seq<Group>, gs: seq<Group>, i: nat)
    requires AllInherited(parents, gs) && Covered(gs, i)
    ensures Covered(parents, i)
  {
    var k :| 0 <= k < |gs| && gs[k].Holds(i);
    assert InheritedFrom(parents, gs[k]);
    var j :| 0 <= j < |parents| && parents[j].start <= gs[k].start && gs[k].End() <= parents[j].End();
    assert parents[j].Holds(i);
  }

  /** Nested windows hold no more files than their parents. */
  lemma NestedCount(parents: seq<Group>, gs: seq<Group>)
    requires InOrder(parents) && InOrder(gs) && AllInherited(parents, gs)
    ensures TotalCount(gs) <= TotalCount(parents)
  {
    var inner, outer := Flatten(gs), Flatten(parents);
    forall i | i in inner
      ensures i in Elements(outer)
    {
      FlattenMember(gs, i);
      InheritedCovers(parents, gs, i);
      FlattenMember(parents, i);
    }
    FlattenDistinct(gs);
    FlattenDistinct(parents);
    DistinctSize(outer);
    DistinctWithin(inner, Elements(outer));
    FlattenMember(gs, 0);
    FlattenMember(parents, 0);
  }

  lemma {:induction false} CountWithin(gs: seq<Group>, n: nat)
    requires InOrder(gs) && forall k | 0 <= k < |gs| :: gs[k].End() <= n
    ensures gs != [] ==> TotalCount(gs) <= gs[|gs| - 1].End()
    ensures TotalCount(gs) <= n
  {
    if gs != [] {
      var init := gs[..|gs| - 1];
      CountWithin(init, n);
      if init != [] {
        assert init[|init| - 1].End() <= gs[|gs| - 1].start;
      }
    }
  }
}
