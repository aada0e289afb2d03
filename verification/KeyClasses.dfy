// What a list of windows has to do with "put entries with equal keys together".
module KeyClasses {
  import opened Entries
  import opened Sorting

  /** The comparator orders entries, and its ties are exactly the pairs with equal keys. */
  ghost predicate OrdersBy<K(!new)>(less: (FileEntry, FileEntry) -> bool, key: FileEntry -> K) {
    && WeakOrder(less)
    && forall a, b :: (!less(a, b) && !less(b, a)) <==> key(a) == key(b)
  }

  ghost predicate SharedWindow(gs: seq<Group>, p: int, q: int) {
    exists k :: 0 <= k < |gs| && gs[k].Holds(p) && gs[k].Holds(q)
  }

  /** g is a whole class of s[lo..hi], with at least two members. */
  ghost predicate WholeClass<K>(s: seq<FileEntry>, lo: nat, hi: nat, key: FileEntry -> K, g: Group)
    requires hi <= |s|
  {
    && lo <= g.start && 2 <= g.count && g.End() <= hi
    && forall i {:trigger g.Holds(i)} | lo <= i < hi :: key(s[i]) == key(s[g.start]) <==> g.Holds(i)
  }

  ghost predicate InOrder(gs: seq<Group>) {
    forall i, j | 0 <= i < j < |gs| :: gs[i].End() <= gs[j].start
  }

  /** The windows are exactly the key classes of s[lo..hi] with at least two members, each once. */
  ghost predicate Classes<K>(s: seq<FileEntry>, lo: nat, hi: nat, key: FileEntry -> K, gs: seq<Group>)
    requires hi <= |s|
  {
    && (forall k | 0 <= k < |gs| :: WholeClass(s, lo, hi, key, gs[k]))
    && InOrder(gs)
    && (forall p, q {:trigger SharedWindow(gs, p, q)} | lo <= p < q < hi && key(s[p]) == key(s[q]) :: SharedWindow(gs, p, q))
  }

  ghost predicate Sized(s: seq<FileEntry>, gs: seq<Group>) {
    forall k, i {:trigger gs[k].Holds(i)} | 0 <= k < |gs| && gs[k].Holds(i) :: i < |s| && s[i].size == gs[k].size
  }

  /** Equal keys lie side by side in s[lo..hi]. */
  ghost predicate Contiguous<K>(s: seq<FileEntry>, lo: nat, hi: nat, key: FileEntry -> K)
    requires hi <= |s|
  {
    forall i, j, k | lo <= i <= j <= k < hi && key(s[i]) == key(s[k]) :: key(s[j]) == key(s[i])
  }

  /** No key of s[lo..mid] occurs in s[mid..hi]. */
  ghost predicate Separated<K>(s: seq<FileEntry>, lo: nat, mid: nat, hi: nat, key: FileEntry -> K)
    requires hi <= |s|
  {
    forall p, q | lo <= p < mid <= q < hi :: key(s[p]) != key(s[q])
  }

  lemma SortedIsContiguous<K(!new)>(s: seq<FileEntry>, lo: nat, hi: nat, less: (FileEntry, FileEntry) -> bool,
                                    key: FileEntry -> K)
    requires lo <= hi <= |s| && OrdersBy(less, key) && Sorted(s[lo..hi], less)
    ensures Contiguous(s, lo, hi, key)
  {
    forall i, j, k | lo <= i <= j <= k < hi && key(s[i]) == key(s[k])
      ensures key(s[j]) == key(s[i])
    {
      var w := s[lo..hi];
      assert s[i] == w[i - lo] && s[j] == w[j - lo] && s[k] == w[k - lo];
      assert !less(s[k], s[j]) && !less(s[i], s[k]);
    }
  }

  /** One step of a run scan: the run s[start..end] closes, and is kept when it has two members. */
  lemma CloseRun<K>(s: seq<FileEntry>, lo: nat, start: nat, end: nat, key: FileEntry -> K, gs: seq<Group>, size: nat,
                    gs': seq<Group>)
    requires lo <= start < end <= |s|
    requires Classes(s, lo, start, key, gs)
    requires forall i | start <= i < end :: key(s[i]) == key(s[start])
    requires forall i | lo <= i < start :: key(s[i]) != key(s[start])
    requires gs' == if end - start < 2 then gs else gs + [Group(start, end - start, size)]
    ensures Classes(s, lo, end, key, gs')
  {
    forall p, q | lo <= p < q < end && key(s[p]) == key(s[q])
      ensures SharedWindow(gs', p, q)
    {
      if q < start {
        assert SharedWindow(gs, p, q);
        var k :| 0 <= k < |gs| && gs[k].Holds(p) && gs[k].Holds(q);
        assert gs'[k] == gs[k];
      } else {
        assert gs'[|gs|].Holds(p) && gs'[|gs|].Holds(q);
      }
    }
    forall k | 0 <= k < |gs'|
      ensures WholeClass(s, lo, end, key, gs'[k])
    {
      if k < |gs| {
        assert WholeClass(s, lo, start, key, gs[k]);
        assert gs[k].Holds(gs[k].start);
      }
    }
  }

  /** Nothing after the end of a run has a key seen at or before it. */
  lemma RunEnds<K>(s: seq<FileEntry>, lo: nat, start: nat, end: nat, hi: nat, key: FileEntry -> K)
    requires lo <= start < end <= hi <= |s|
    requires Contiguous(s, lo, hi, key)
    requires Separated(s, lo, start, hi, key)
    requires forall i | start <= i < end :: key(s[i]) == key(s[start])
    requires end < hi ==> key(s[end]) != key(s[start])
    ensures Separated(s, lo, end, hi, key)
  {
    forall p, q | lo <= p < end <= q < hi
      ensures key(s[p]) != key(s[q])
    {
    }
  }

  function Pair<K1, K2>(outer: FileEntry -> K1, inner: FileEntry -> K2): FileEntry -> (K1, K2) {
    e => (outer(e), inner(e))
  }

  /** Outside the parent windows no two entries share the outer key, so nothing is left to report there. */
  lemma SkipGap<K1, K2>(s: seq<FileEntry>, n: nat, outer: FileEntry -> K1, parents: seq<Group>, inner: FileEntry -> K2,
                        from: nat, to: nat, gs: seq<Group>)
    requires from <= to <= n <= |s|
    requires Classes(s, 0, n, outer, parents)
    requires forall i, k | from <= i < to && 0 <= k < |parents| :: !parents[k].Holds(i)
    requires Classes(s, 0, from, Pair(outer, inner), gs)
    ensures Classes(s, 0, to, Pair(outer, inner), gs)
  {
    var key := Pair(outer, inner);
    forall p, q | 0 <= p < q < to && outer(s[p]) == outer(s[q])
      ensures p < from && q < from
    {
      assert SharedWindow(parents, p, q);
    }
    forall k | 0 <= k < |gs|
      ensures WholeClass(s, 0, to, key, gs[k])
    {
      assert WholeClass(s, 0, from, key, gs[k]);
      assert gs[k].Holds(gs[k].start);
      forall i | from <= i < to
        ensures outer(s[i]) != outer(s[gs[k].start])
      {
      }
    }
  }

  /** The classes found inside parent m join those found in the parents before it. */
  lemma JoinPart<K1, K2>(s: seq<FileEntry>, n: nat, outer: FileEntry -> K1, parents: seq<Group>, m: nat,
                         inner: FileEntry -> K2, gs: seq<Group>, part: seq<Group>)
    requires n <= |s| && m < |parents|
    requires Classes(s, 0, n, outer, parents)
    requires Classes(s, 0, parents[m].start, Pair(outer, inner), gs)
    requires Classes(s, parents[m].start, parents[m].End(), inner, part)
    ensures Classes(s, 0, parents[m].End(), Pair(outer, inner), gs + part)
  {
    var key := Pair(outer, inner);
    var lo, hi := parents[m].start, parents[m].End();
    assert WholeClass(s, 0, n, outer, parents[m]);
    assert parents[m].Holds(lo);
    forall i | 0 <= i < hi
      ensures outer(s[i]) == outer(s[lo]) <==> lo <= i
    {
      assert parents[m].Holds(i) <==> lo <= i;
    }
    var all := gs + part;
    forall k | 0 <= k < |all|
      ensures WholeClass(s, 0, hi, key, all[k])
    {
      if k < |gs| {
        assert WholeClass(s, 0, lo, key, gs[k]);
        assert gs[k].Holds(gs[k].start);
      } else {
        var g := part[k - |gs|];
        assert all[k] == g && WholeClass(s, lo, hi, inner, g);
        assert g.Holds(g.start);
      }
    }
    forall p, q | 0 <= p < q < hi && key(s[p]) == key(s[q])
      ensures SharedWindow(all, p, q)
    {
      if q < lo {
        assert SharedWindow(gs, p, q);
        var k :| 0 <= k < |gs| && gs[k].Holds(p) && gs[k].Holds(q);
        assert all[k] == gs[k];
      } else {
        assert inner(s[p]) == inner(s[q]) && lo <= p;
        assert SharedWindow(part, p, q);
        var k :| 0 <= k < |part| && part[k].Holds(p) && part[k].Holds(q);
        assert all[|gs| + k] == part[k];
      }
    }
    forall i, j | 0 <= i < j < |all|
      ensures all[i].End() <= all[j].start
    {
      if i < |gs| {
        assert WholeClass(s, 0, lo, key, gs[i]);
        if j >= |gs| {
          assert WholeClass(s, lo, hi, inner, part[j - |gs|]);
        }
      }
    }
  }

  lemma ClassesFrame<K>(s: seq<FileEntry>, s': seq<FileEntry>, lo: nat, hi: nat, key: FileEntry -> K, gs: seq<Group>)
    requires hi <= |s| && hi <= |s'|
    requires Classes(s, lo, hi, key, gs)
    requires forall i | lo <= i < hi :: key(s'[i]) == key(s[i])
    ensures Classes(s', lo, hi, key, gs)
  {
    forall k | 0 <= k < |gs|
      ensures WholeClass(s', lo, hi, key, gs[k])
    {
      assert WholeClass(s, lo, hi, key, gs[k]);
    }
  }

  lemma PermutedWindowKeepsKey<K>(s: seq<FileEntry>, s': seq<FileEntry>, lo: nat, hi: nat, key: FileEntry -> K)
    requires lo < hi <= |s| == |s'|
    requires forall i | lo <= i < hi :: key(s[i]) == key(s[lo])
    requires multiset(s'[lo..hi]) == multiset(s[lo..hi])
    ensures forall i | lo <= i < hi :: key(s'[i]) == key(s[lo])
  {
    forall i | lo <= i < hi
      ensures key(s'[i]) == key(s[lo])
    {
      assert s'[i] == s'[lo..hi][i - lo];
      assert s'[i] in multiset(s'[lo..hi]);
      assert s'[i] in s[lo..hi];
    }
  }

  lemma PermutedWindowKeepsAll(s: seq<FileEntry>, s': seq<FileEntry>, lo: nat, hi: nat, n: nat)
    requires lo <= hi <= n <= |s| == |s'|
    requires multiset(s'[lo..hi]) == multiset(s[lo..hi])
    requires forall i | 0 <= i < |s| && !(lo <= i < hi) :: s'[i] == s[i]
    ensures multiset(s'[..n]) == multiset(s[..n])
  {
    assert s[..n] == s[..lo] + s[lo..hi] + s[hi..n];
    assert s'[..n] == s'[..lo] + s'[lo..hi] + s'[hi..n];
    assert s'[..lo] == s[..lo] && s'[hi..n] == s[hi..n];
  }

  /** The window holds the same entries before and after, in any order. */
  ghost predicate SameWindow(s: seq<FileEntry>, s': seq<FileEntry>, g: Group) {
    g.End() <= |s| && g.End() <= |s'| && multiset(s'[g.start..g.End()]) == multiset(s[g.start..g.End()])
  }

  function TotalCount(gs: seq<Group>): nat {
    if gs == [] then 0 else TotalCount(gs[..|gs| - 1]) + gs[|gs| - 1].count
  }
}
