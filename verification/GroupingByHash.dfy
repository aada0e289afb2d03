// The two refinement stages: sort inside each parent window, then cut the window into runs.
module GroupingByHash {
  import opened Entries
  import opened Sorting
  import opened KeyClasses

  function FastHashOf(e: FileEntry): Word {
    e.fastHash
  }

  predicate FastHashLess(a: FileEntry, b: FileEntry) {
    a.fastHash < b.fastHash
  }

  function DigestPrefixOf(digestSize: nat): FileEntry -> seq<Byte>
    requires digestSize <= DIGEST_BYTES
  {
    (e: FileEntry) => e.fullHash[..digestSize]
  }

  /** Byte-wise comparison of two equally long buffers, first difference decides. */
  predicate BytesLess(a: seq<Byte>, b: seq<Byte>)
    requires |a| == |b|
  {
    a != [] && (a[0] < b[0] || (a[0] == b[0] && BytesLess(a[1..], b[1..])))
  }

  function DigestLess(digestSize: nat): (FileEntry, FileEntry) -> bool
    requires digestSize <= DIGEST_BYTES
  {
    (a: FileEntry, b: FileEntry) => BytesLess(a.fullHash[..digestSize], b.fullHash[..digestSize])
  }

  lemma {:induction false} BytesLessAsymmetric(a: seq<Byte>, b: seq<Byte>)
    requires |a| == |b|
    ensures BytesLess(a, b) ==> !BytesLess(b, a)
    ensures !BytesLess(a, b) && !BytesLess(b, a) <==> a == b
  {
    if a != [] {
      BytesLessAsymmetric(a[1..], b[1..]);
      assert a == [a[0]] + a[1..] && b == [b[0]] + b[1..];
    }
  }

  lemma {:induction false} BytesLessTransitive(a: seq<Byte>, b: seq<Byte>, c: seq<Byte>)
    requires |a| == |b| == |c|
    requires !BytesLess(b, a) && !BytesLess(c, b)
    ensures !BytesLess(c, a)
  {
    if a != [] {
      if a[0] == b[0] == c[0] {
        BytesLessTransitive(a[1..], b[1..], c[1..]);
      }
    }
  }

  lemma FastHashOrders()
    ensures OrdersBy(FastHashLess, FastHashOf)
  {
  }

  /** The digest comparator is a strict weak order whose ties are exactly equal digest prefixes. */
  lemma DigestOrders(digestSize: nat)
    requires digestSize <= DIGEST_BYTES
    ensures OrdersBy(DigestLess(digestSize), DigestPrefixOf(digestSize))
  {
    var less, key := DigestLess(digestSize), DigestPrefixOf(digestSize);
    forall a, b
      ensures less(a, b) ==> !less(b, a)
      ensures (!less(a, b) && !less(b, a)) <==> key(a) == key(b)
    {
      BytesLessAsymmetric(key(a), key(b));
    }
    forall a, b, c | !less(b, a) && !less(c, b)
      ensures !less(c, a)
    {
      BytesLessTransitive(key(a), key(b), key(c));
    }
  }

  /** The runs of s[lo..mid] are scanned. */
  ghost predicate ScannedUpto<K>(s: seq<FileEntry>, lo: nat, mid: nat, hi: nat, key: FileEntry -> K, groups: seq<Group>, size: nat,
                                 candidates: nat) {
    && lo <= mid <= hi <= |s|
    && Classes(s, lo, mid, key, groups) && Separated(s, lo, mid, hi, key)
    && (forall k | 0 <= k < |groups| :: groups[k].size == size)
    && candidates == TotalCount(groups)
  }

  lemma ScanStep<K>(s: seq<FileEntry>, lo: nat, start: nat, end: nat, hi: nat, key: FileEntry -> K, groups: seq<Group>, size: nat,
                    candidates: nat, groups': seq<Group>, candidates': nat)
    requires ScannedUpto(s, lo, start, hi, key, groups, size, candidates) && start < end <= hi && Contiguous(s, lo, hi, key)
    requires forall i | start <= i < end :: key(s[i]) == key(s[start])
    requires end < hi ==> key(s[end]) != key(s[start])
    requires if end - start < 2 then groups' == groups && candidates' == candidates
             else groups' == groups + [Group(start, end - start, size)] && candidates' == candidates + (end - start)
    ensures ScannedUpto(s, lo, end, hi, key, groups', size, candidates')
  {
    forall i | lo <= i < start
      ensures key(s[i]) != key(s[start])
    {
    }
    CloseRun(s, lo, start, end, key, groups, size, groups');
    RunEnds(s, lo, start, end, hi, key);
  }

  /** Where the run of equal keys that begins at start ends. */
  method RunEnd<K(==)>(entries: array<FileEntry>, start: nat, hi: nat, key: FileEntry -> K) returns (end: nat)
    requires start < hi <= entries.Length
    ensures start < end <= hi
    ensures forall i | start <= i < end :: key(entries[i]) == key(entries[start])
    ensures end < hi ==> key(entries[end]) != key(entries[start])
  {
    end := start + 1;
    while end < hi && key(entries[end]) == key(entries[start])
      invariant start < end <= hi
      invariant forall i | start <= i < end :: key(entries[i]) == key(entries[start])
    {
      end := end + 1;
    }
  }

  /** Scans one sorted window and returns its runs of two or more, which inherit the given size. */
  method ScanRuns<K(==)>(entries: array<FileEntry>, lo: nat, count: nat, size: nat, key: FileEntry -> K)
    returns (groups: seq<Group>, candidates: nat)
    requires lo + count <= entries.Length
    requires Contiguous(entries[..], lo, lo + count, key)
    ensures Classes(entries[..], lo, lo + count, key, groups)
    ensures forall k | 0 <= k < |groups| :: groups[k].size == size
    ensures candidates == TotalCount(groups)
  {
    ghost var s := entries[..];
    groups, candidates := [], 0;
    var cursor, hi := lo, lo + count;
    while cursor < hi
      invariant ScannedUpto(s, lo, cursor, hi, key, groups, size, candidates)
    {
      var start := cursor;
      cursor := RunEnd(entries, start, hi, key);
      ghost var kept, counted := groups, candidates;
      if cursor - start >= 2 {
        groups := groups + [Group(start, cursor - start, size)];
        candidates := candidates + (cursor - start);
      }
      ScanStep(s, lo, start, cursor, hi, key, kept, size, counted, groups, candidates);
    }
  }

  ghost predicate InheritedFrom(parents: seq<Group>, g: Group) {
    exists k :: 0 <= k < |parents| && parents[k].start <= g.start && g.End() <= parents[k].End() && g.size == parents[k].size
  }

  ghost predicate AllInherited(parents: seq<Group>, gs: seq<Group>) {
    forall k | 0 <= k < |gs| :: InheritedFrom(parents, gs[k])
  }

  function EndOf(parents: seq<Group>, m: nat): nat
    requires m <= |parents|
  {
    if m == 0 then 0 else parents[m - 1].End()
  }

  ghost predicate OutsideAll(parents: seq<Group>, i: int) {
    forall k | 0 <= k < |parents| :: !parents[k].Holds(i)
  }

  /** s' permutes s inside the first m parent windows and agrees with it everywhere else. */
  ghost predicate PermutedWithin(s: seq<FileEntry>, s': seq<FileEntry>, parents: seq<Group>, m: nat)
    requires m <= |parents|
  {
    && |s'| == |s|
    && (forall k | 0 <= k < m :: SameWindow(s, s', parents[k]))
    && (forall i | 0 <= i < |s| && OutsideAll(parents[..m], i) :: s'[i] == s[i])
  }

  /** What holds once the first m parents have been sorted and cut; s0 is the array before the first. */
  ghost predicate Refined<K1, K2(!new)>(s0: seq<FileEntry>, s: seq<FileEntry>, n: nat, outer: FileEntry -> K1,
                                        parents: seq<Group>, m: nat, key: FileEntry -> K2, gs: seq<Group>) {
    && n <= |s| == |s0| && m <= |parents| && EndOf(parents, m) <= n
    && Classes(s, 0, n, outer, parents)
    && Classes(s, 0, EndOf(parents, m), Pair(outer, key), gs)
    && AllInherited(parents, gs)
    && multiset(s[..n]) == multiset(s0[..n])
    && PermutedWithin(s0, s, parents, m)
  }

  /** Handles one parent: sorts its window, scans it, and appends its runs. */
  method RefineWindow<K1, K2(!new,==)>(entries: array<FileEntry>, ghost s0: seq<FileEntry>, ghost n: nat, parents: seq<Group>,
                                       m: nat, ghost outer: FileEntry -> K1, less: (FileEntry, FileEntry) -> bool,
                                       key: FileEntry -> K2, groups: seq<Group>, candidates: nat)
    returns (groups': seq<Group>, candidates': nat)
    requires m < |parents| && OrdersBy(less, key)
    requires Refined(s0, entries[..], n, outer, parents, m, key, groups)
    requires candidates == TotalCount(groups)
    modifies entries
    ensures Refined(s0, entries[..], n, outer, parents, m + 1, key, groups')
    ensures candidates' == TotalCount(groups')
  {
    var parent := parents[m];
    ghost var s := entries[..];
    assert WholeClass(s, 0, n, outer, parent);
    SortRange(entries, parent.start, parent.End(), less);
    ghost var after := entries[..];
    assert SameWindow(s, after, parent) by {
      assert after[parent.start..parent.End()] == entries[parent.start..parent.End()];
    }
    WindowPermuted(s0, s, after, n, outer, parents, m);
    assert Sorted(after[parent.start..parent.End()], less);
    SortedIsContiguous(after, parent.start, parent.End(), less, key);
    var part, partCandidates := ScanRuns(entries, parent.start, parent.count, parent.size, key);
    RefineStep(s, after, n, outer, parents, m, key, groups, part);
    TotalCountAppend(groups, part);
    groups', candidates' := groups + part, candidates + partCandidates;
  }

  /** Sorts every parent window by less and cuts it into runs of equal key. */
  method RefineGroups<K1, K2(!new,==)>(entries: array<FileEntry>, ghost n: nat, parents: seq<Group>, ghost outer: FileEntry -> K1,
                                       less: (FileEntry, FileEntry) -> bool, key: FileEntry -> K2)
    returns (groups: seq<Group>, candidates: nat)
    requires n <= entries.Length
    requires OrdersBy(less, key)
    requires Classes(entries[..], 0, n, outer, parents)
    modifies entries
    ensures Refined(old(entries[..]), entries[..], n, outer, parents, |parents|, key, groups)
    ensures Classes(entries[..], 0, n, Pair(outer, key), groups)
    ensures candidates == TotalCount(groups)
  {
    groups, candidates := [], 0;
    ghost var s0 := entries[..];
    for m := 0 to |parents|
      invariant Refined(s0, entries[..], n, outer, parents, m, key, groups)
      invariant candidates == TotalCount(groups)
    {
      groups, candidates := RefineWindow(entries, s0, n, parents, m, outer, less, key, groups, candidates);
    }
    RefineEnd(entries[..], n, outer, parents, key, groups);
  }

  lemma RefineStep<K1, K2>(s: seq<FileEntry>, s': seq<FileEntry>, n: nat, outer: FileEntry -> K1, parents: seq<Group>, m: nat,
                           key: FileEntry -> K2, gs: seq<Group>, part: seq<Group>)
    requires n <= |s| == |s'| && m < |parents|
    requires Classes(s', 0, n, outer, parents) && WholeClass(s', 0, n, outer, parents[m])
    requires EndOf(parents, m) <= n
    requires Classes(s, 0, EndOf(parents, m), Pair(outer, key), gs)
    requires forall i | 0 <= i < |s| && !parents[m].Holds(i) :: s'[i] == s[i]
    requires Classes(s', parents[m].start, parents[m].End(), key, part)
    requires forall k | 0 <= k < |part| :: part[k].size == parents[m].size
    requires AllInherited(parents, gs)
    ensures Classes(s', 0, parents[m].End(), Pair(outer, key), gs + part)
    ensures AllInherited(parents, gs + part)
  {
    var reached := EndOf(parents, m);
    var parent := parents[m];
    assert reached <= parent.start;
    ClassesFrame(s, s', 0, reached, Pair(outer, key), gs);
    forall i, k | reached <= i < parent.start && 0 <= k < |parents|
      ensures !parents[k].Holds(i)
    {
      if k < m {
        assert parents[k].End() <= reached;
      } else if k > m {
        assert parent.End() <= parents[k].start;
      }
    }
    SkipGap(s', n, outer, parents, key, reached, parent.start, gs);
    JoinPart(s', n, outer, parents, m, key, gs, part);
    forall k | 0 <= k < |part|
      ensures InheritedFrom(parents, part[k])
    {
      assert WholeClass(s', parent.start, parent.End(), key, part[k]);
    }
  }

  lemma RefineEnd<K1, K2>(s: seq<FileEntry>, n: nat, outer: FileEntry -> K1, parents: seq<Group>, key: FileEntry -> K2,
                          gs: seq<Group>)
    requires n <= |s|
    requires Classes(s, 0, n, outer, parents)
    requires EndOf(parents, |parents|) <= n
    requires Classes(s, 0, EndOf(parents, |parents|), Pair(outer, key), gs)
    ensures Classes(s, 0, n, Pair(outer, key), gs)
  {
    var reached := EndOf(parents, |parents|);
    forall i, k | reached <= i < n && 0 <= k < |parents|
      ensures !parents[k].Holds(i)
    {
      if k < |parents| - 1 {
        assert parents[k].End() <= parents[|parents| - 1].start;
      }
    }
    SkipGap(s, n, outer, parents, key, reached, n, gs);
  }

  lemma {:induction false} TotalCountAppend(gs: seq<Group>, more: seq<Group>)
    ensures TotalCount(gs + more) == TotalCount(gs) + TotalCount(more)
  {
    if more == [] {
      assert gs + more == gs;
    } else {
      var m := more[..|more| - 1];
      assert (gs + more)[..|gs + more| - 1] == gs + m;
      TotalCountAppend(gs, m);
    }
  }

  /** A window that lies before the sorted one is as it was. */
  lemma EarlierWindow(s0: seq<FileEntry>, s: seq<FileEntry>, s': seq<FileEntry>, g: Group, h: Group)
    requires SameWindow(s0, s, g) && g.End() <= h.start && |s| == |s'|
    requires forall i | 0 <= i < |s| && !h.Holds(i) :: s'[i] == s[i]
    ensures SameWindow(s0, s', g)
  {
    assert s'[g.start..g.End()] == s[g.start..g.End()];
  }

  /** The sorted window is a permutation of the original one. */
  lemma SortedWindow(s0: seq<FileEntry>, s: seq<FileEntry>, s': seq<FileEntry>, parents: seq<Group>, m: nat)
    requires m < |parents| && InOrder(parents) && PermutedWithin(s0, s, parents, m) && SameWindow(s, s', parents[m])
    ensures SameWindow(s0, s', parents[m])
  {
    var lo, hi := parents[m].start, parents[m].End();
    forall i | lo <= i < hi
      ensures s[i] == s0[i]
    {
      assert OutsideAll(parents[..m], i);
    }
    assert s[lo..hi] == s0[lo..hi];
  }

  lemma PermutedStep(s0: seq<FileEntry>, s: seq<FileEntry>, s': seq<FileEntry>, parents: seq<Group>, m: nat)
    requires m < |parents| && InOrder(parents) && PermutedWithin(s0, s, parents, m) && SameWindow(s, s', parents[m])
    requires |s| == |s'| && forall i | 0 <= i < |s| && !parents[m].Holds(i) :: s'[i] == s[i]
    ensures PermutedWithin(s0, s', parents, m + 1)
  {
    forall k | 0 <= k < m + 1
      ensures SameWindow(s0, s', parents[k])
    {
      if k < m {
        EarlierWindow(s0, s, s', parents[k], parents[m]);
      } else {
        SortedWindow(s0, s, s', parents, m);
      }
    }
    forall i | 0 <= i < |s0| && OutsideAll(parents[..m + 1], i)
      ensures s'[i] == s0[i]
    {
      assert parents[..m + 1][m] == parents[m];
      forall k | 0 <= k < m
        ensures !parents[..m][k].Holds(i)
      {
        assert parents[..m + 1][k] == parents[..m][k];
      }
      assert OutsideAll(parents[..m], i);
    }
  }

  /** Sorting one parent window disturbs neither the parent classes nor anything outside the window. */
  lemma WindowPermuted<K>(s0: seq<FileEntry>, s: seq<FileEntry>, s': seq<FileEntry>, n: nat, outer: FileEntry -> K,
                          parents: seq<Group>, m: nat)
    requires n <= |s| == |s'| && m < |parents|
    requires Classes(s, 0, n, outer, parents) && WholeClass(s, 0, n, outer, parents[m])
    requires SameWindow(s, s', parents[m])
    requires forall i | 0 <= i < |s| && !parents[m].Holds(i) :: s'[i] == s[i]
    requires PermutedWithin(s0, s, parents, m)
    ensures Classes(s', 0, n, outer, parents) && WholeClass(s', 0, n, outer, parents[m])
    ensures multiset(s'[..n]) == multiset(s[..n])
    ensures PermutedWithin(s0, s', parents, m + 1)
  {
    var lo, hi := parents[m].start, parents[m].End();
    forall i | lo <= i < hi
      ensures outer(s[i]) == outer(s[lo])
    {
      assert parents[m].Holds(i);
    }
    PermutedWindowKeepsKey(s, s', lo, hi, outer);
    PermutedWindowKeepsAll(s, s', lo, hi, n);
    ClassesFrame(s, s', 0, n, outer, parents);
    PermutedStep(s0, s, s', parents, m);
  }

  /** Second stage: refines the size groups by fast hash. */
  method GroupByFastHash<K>(entries: array<FileEntry>, ghost n: nat, sizeGroups: seq<Group>, ghost outer: FileEntry -> K)
    returns (groups: seq<Group>, candidates: nat)
    requires n <= entries.Length && Classes(entries[..], 0, n, outer, sizeGroups)
    modifies entries
    ensures Refined(old(entries[..]), entries[..], n, outer, sizeGroups, |sizeGroups|, FastHashOf, groups)
    ensures Classes(entries[..], 0, n, Pair(outer, FastHashOf), groups)
    ensures candidates == TotalCount(groups)
  {
    FastHashOrders();
    groups, candidates := RefineGroups(entries, n, sizeGroups, outer, FastHashLess, FastHashOf);
  }

  /** Third stage: refines the fast-hash groups by digest prefix. */
  method GroupByFullHash<K>(entries: array<FileEntry>, ghost n: nat, fastGroups: seq<Group>, ghost outer: FileEntry -> K,
                            digestSize: nat)
    returns (groups: seq<Group>)
    requires n <= entries.Length && Classes(entries[..], 0, n, outer, fastGroups) && digestSize <= DIGEST_BYTES
    modifies entries
    ensures Refined(old(entries[..]), entries[..], n, outer, fastGroups, |fastGroups|, DigestPrefixOf(digestSize), groups)
    ensures Classes(entries[..], 0, n, Pair(outer, DigestPrefixOf(digestSize)), groups)
  {
    DigestOrders(digestSize);
    var candidates;
    groups, candidates := RefineGroups(entries, n, fastGroups, outer, DigestLess(digestSize), DigestPrefixOf(digestSize));
  }
}
