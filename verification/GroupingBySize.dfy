// First stage: sort by (size descending, device, inode), collapse hard links in place, cut by size.
module GroupingBySize {
  import opened Entries
  import opened Sorting
  import opened KeyClasses

  predicate SizeDevInoLess(a: FileEntry, b: FileEntry) {
    if a.size != b.size then a.size > b.size
    else if a.device != b.device then a.device < b.device
    else a.inode < b.inode
  }

  function FileKeyOf(e: FileEntry): (nat, nat, nat) {
    (e.size, e.device, e.inode)
  }

  function SizeOf(e: FileEntry): nat {
    e.size
  }

  /** The comparator is a strict weak order whose ties are exactly links to one file of one size. */
  lemma SizeDevInoOrders()
    ensures OrdersBy(SizeDevInoLess, FileKeyOf)
  {
  }

  lemma SizesContiguous(s: seq<FileEntry>, n: nat)
    requires n <= |s|
    requires Sorted(s[..n], SizeDevInoLess)
    ensures Contiguous(s, 0, n, SizeOf)
  {
    forall i, j, k | 0 <= i <= j <= k < n && SizeOf(s[i]) == SizeOf(s[k])
      ensures SizeOf(s[j]) == SizeOf(s[i])
    {
      var w := s[..n];
      assert w[i] == s[i] && w[j] == s[j] && w[k] == s[k];
      assert j < k ==> !SizeDevInoLess(w[k], w[j]);
      assert i < j ==> !SizeDevInoLess(w[j], w[i]);
    }
  }

  /** Keeps the first of every stretch of entries that name the same file. */
  function Dedup(s: seq<FileEntry>): (d: seq<FileEntry>)
    ensures |d| <= |s| && (s != [] ==> d != [])
  {
    if |s| <= 1 then s
    else
      var d := Dedup(s[..|s| - 1]);
      if FileKeyOf(s[|s| - 1]) == FileKeyOf(s[|s| - 2]) then d else d + [s[|s| - 1]]
  }

  lemma {:induction false} DedupLast(s: seq<FileEntry>)
    requires s != []
    ensures FileKeyOf(Dedup(s)[|Dedup(s)| - 1]) == FileKeyOf(s[|s| - 1])
  {
    if |s| > 1 {
      DedupLast(s[..|s| - 1]);
    }
  }

  /** The last entry of a sequence survives unless it names the file of the one before it. */
  lemma DedupOne(s: seq<FileEntry>, e: FileEntry)
    ensures Dedup(s + [e]) == if s != [] && FileKeyOf(e) == FileKeyOf(s[|s| - 1]) then Dedup(s) else Dedup(s) + [e]
  {
    assert (s + [e])[..|s|] == s;
    if s == [] {
      assert s + [e] == [e];
    }
  }

  lemma LastOfConcat(a: seq<FileEntry>, b: seq<FileEntry>, e: FileEntry)
    ensures a + (b + [e]) == (a + b) + [e]
    ensures a + b != [] ==> (a + b)[|a + b| - 1] == if b != [] then b[|b| - 1] else a[|a| - 1]
    ensures b == [] ==> a + b == a
  {
  }

  lemma {:induction false} DedupConcat(a: seq<FileEntry>, b: seq<FileEntry>)
    requires a != [] && b != [] ==> FileKeyOf(a[|a| - 1]) != FileKeyOf(b[0])
    ensures Dedup(a + b) == Dedup(a) + Dedup(b)
  {
    if b == [] {
      assert a + b == a;
    } else {
      var b', e := b[..|b| - 1], b[|b| - 1];
      assert b == b' + [e];
      LastOfConcat(a, b', e);
      DedupConcat(a, b');
      DedupOne(a + b', e);
      DedupOne(b', e);
    }
  }

  /** Some entry of d names the same file as e. */
  ghost predicate LinkIn(d: seq<FileEntry>, e: FileEntry) {
    exists i :: 0 <= i < |d| && FileKeyOf(d[i]) == FileKeyOf(e)
  }

  /** d keeps exactly one entry of s for every distinct (size, device, inode). */
  ghost predicate OnePerFile(s: seq<FileEntry>, d: seq<FileEntry>) {
    && (forall e <- d :: e in s)
    && (forall e {:trigger LinkIn(d, e)} | e in s :: LinkIn(d, e))
    && (forall i, j | 0 <= i < j < |d| :: FileKeyOf(d[i]) != FileKeyOf(d[j]))
  }

  ghost predicate StrictlySorted(d: seq<FileEntry>) {
    forall i, j | 0 <= i < j < |d| :: SizeDevInoLess(d[i], d[j])
  }

  lemma {:induction false} DedupStrict(s: seq<FileEntry>)
    requires Sorted(s, SizeDevInoLess)
    ensures StrictlySorted(Dedup(s))
  {
    if |s| > 1 {
      var s' := s[..|s| - 1];
      DedupStrict(s');
      DedupLast(s');
      var d, last := Dedup(s'), s[|s| - 1];
      assert !SizeDevInoLess(last, s[|s| - 2]);
      forall i | 0 <= i < |d|
        ensures FileKeyOf(last) != FileKeyOf(s[|s| - 2]) ==> SizeDevInoLess(d[i], last)
      {
        assert i < |d| - 1 ==> SizeDevInoLess(d[i], d[|d| - 1]);
      }
    }
  }

  lemma {:induction false} DedupKeys(s: seq<FileEntry>, e: FileEntry)
    ensures e in Dedup(s) ==> e in s
    ensures e in s ==> LinkIn(Dedup(s), e)
  {
    if |s| > 1 {
      var s', last, d := s[..|s| - 1], s[|s| - 1], Dedup(s);
      DedupKeys(s', e);
      DedupLast(s);
      assert s == s' + [last];
      if e in s' {
        var i :| 0 <= i < |Dedup(s')| && FileKeyOf(Dedup(s')[i]) == FileKeyOf(e);
        assert d[i] == Dedup(s')[i];
      } else if e == last {
        assert FileKeyOf(d[|d| - 1]) == FileKeyOf(e);
      }
    } else if |s| == 1 {
      assert FileKeyOf(Dedup(s)[0]) == FileKeyOf(s[0]);
    }
  }

  lemma DedupSurvivors(s: seq<FileEntry>)
    requires Sorted(s, SizeDevInoLess)
    ensures OnePerFile(s, Dedup(s)) && StrictlySorted(Dedup(s))
  {
    DedupStrict(s);
    forall e {
      DedupKeys(s, e);
    }
    forall i, j | 0 <= i < j < |Dedup(s)|
      ensures FileKeyOf(Dedup(s)[i]) != FileKeyOf(Dedup(s)[j])
    {
      assert SizeDevInoLess(Dedup(s)[i], Dedup(s)[j]);
    }
  }

  /** bc_core_copy with the destination at or below the source: an ascending element copy. */
  method CopyDown(entries: array<FileEntry>, target: nat, source: nat, count: nat)
    requires target <= source && source + count <= entries.Length
    modifies entries
    ensures forall i | target <= i < target + count :: entries[i] == old(entries[..])[i - target + source]
    ensures forall i | 0 <= i < entries.Length && !(target <= i < target + count) :: entries[i] == old(entries[i])
  {
    ghost var before := entries[..];
    for k := 0 to count
      invariant forall i | target <= i < target + k :: entries[i] == before[i - target + source]
      invariant forall i | 0 <= i < entries.Length && !(target <= i < target + k) :: entries[i] == old(entries[i])
    {
      entries[target + k] := entries[source + k];
    }
  }

  /** The run s[start..read] has been read, and now[start..write] holds its survivors. */
  ghost predicate Collapsing(s: seq<FileEntry>, now: seq<FileEntry>, start: nat, write: nat, read: nat) {
    && |now| == |s| && start < write <= read <= |s|
    && now[..start] == s[..start]
    && now[start..write] == Dedup(s[start..read])
    && now[read..] == s[read..]
  }

  lemma LastSurvivor(s: seq<FileEntry>, now: seq<FileEntry>, start: nat, write: nat, read: nat)
    requires Collapsing(s, now, start, write, read) && read < |s|
    ensures now[read] == s[read] && FileKeyOf(now[write - 1]) == FileKeyOf(s[read - 1])
  {
    var run, survivors := s[start..read], now[start..write];
    DedupLast(run);
    assert now[write - 1] == survivors[|survivors| - 1] && run[|run| - 1] == s[read - 1];
    assert now[read] == now[read..][0] == s[read..][0];
  }

  lemma NextSurvivor(s: seq<FileEntry>, start: nat, read: nat)
    requires start < read < |s|
    ensures var d := Dedup(s[start..read]);
            Dedup(s[start..read + 1]) == if FileKeyOf(s[read]) == FileKeyOf(s[read - 1]) then d else d + [s[read]]
  {
    DedupOne(s[start..read], s[read]);
    assert s[start..read + 1] == s[start..read] + [s[read]];
  }

  /** Comparing with the last survivor is as good as comparing with the previous entry. */
  lemma CollapseStep(s: seq<FileEntry>, now: seq<FileEntry>, start: nat, write: nat, read: nat)
    requires Collapsing(s, now, start, write, read) && read < |s|
    ensures now[read] == s[read] && now[write - 1].size == s[read - 1].size
    ensures if FileKeyOf(now[read]) == FileKeyOf(now[write - 1]) then Collapsing(s, now, start, write, read + 1)
            else Collapsing(s, now[write := now[read]], start, write + 1, read + 1)
  {
    LastSurvivor(s, now, start, write, read);
    NextSurvivor(s, start, read);
    assert now[read + 1..] == now[read..][1..] == s[read + 1..];
    var next := now[write := now[read]];
    assert next[start..write + 1] == now[start..write] + [s[read]];
    assert next[..start] == now[..start] && next[read + 1..] == now[read + 1..];
  }

  /** Collapses one run of equal sizes in place; slots past the survivors keep stale entries. */
  method CollapseHardlinksInRun(entries: array<FileEntry>, start: nat, length: nat) returns (collapsed: nat)
    requires start + length <= entries.Length
    requires forall i | start <= i < start + length :: entries[i].size == entries[start].size
    modifies entries
    ensures collapsed <= length
    ensures entries[start..start + length - collapsed] == Dedup(old(entries[start..start + length]))
    ensures entries[..start] == old(entries[..start])
    ensures entries[start + length..] == old(entries[start + length..])
  {
    ghost var s := entries[..];
    SlicesOf(entries, s);
    if length <= 1 {
      return 0;
    }
    collapsed := CollapseLoop(entries, start, length);
    SlicesOf(entries, entries[..]);
  }

  lemma SlicesOf(entries: array<FileEntry>, s: seq<FileEntry>)
    requires entries[..] == s
    ensures forall lo, hi {:trigger entries[lo..hi]} {:trigger s[lo..hi]} | 0 <= lo <= hi <= |s| :: entries[lo..hi] == s[lo..hi]
    ensures forall n {:trigger entries[..n]} {:trigger s[..n]} | 0 <= n <= |s| :: entries[..n] == s[..n]
    ensures forall n {:trigger entries[n..]} {:trigger s[n..]} | 0 <= n <= |s| :: entries[n..] == s[n..]
  {
  }

  /** One turn of the loop: a link to the last survivor is dropped, any other entry becomes the next survivor. */
  method KeepOrDrop(entries: array<FileEntry>, write: nat, read: nat) returns (dropped: bool)
    requires 0 < write <= read < entries.Length && entries[read].size == entries[write - 1].size
    modifies entries
    ensures dropped <==> FileKeyOf(old(entries[read])) == FileKeyOf(old(entries[write - 1]))
    ensures entries[..] == if dropped then old(entries[..]) else old(entries[..])[write := old(entries[read])]
  {
    dropped := entries[read].device == entries[write - 1].device && entries[read].inode == entries[write - 1].inode;
    if !dropped && write != read {
      entries[write] := entries[read];
    }
  }

  /** The loop over a run of at least two entries. */
  method CollapseLoop(entries: array<FileEntry>, start: nat, length: nat) returns (collapsed: nat)
    requires 1 < length && start + length <= entries.Length
    requires forall i | start <= i < start + length :: entries[i].size == entries[start].size
    modifies entries
    ensures collapsed < length
    ensures Collapsing(old(entries[..]), entries[..], start, start + length - collapsed, start + length)
  {
    ghost var s := entries[..];
    var write: nat, read: nat := start + 1, start + 1;
    collapsed := 0;
    assert Dedup(s[start..read]) == s[start..read];
    while read < start + length
      invariant read <= start + length && collapsed == read - write
      invariant Collapsing(s, entries[..], start, write, read)
    {
      ghost var now := entries[..];
      CollapseStep(s, now, start, write, read);
      var dropped := KeepOrDrop(entries, write, read);
      if dropped {
        collapsed := collapsed + 1;
      } else {
        write := write + 1;
      }
      read := read + 1;
    }
  }

  /** The runs of s[..runStart] are done, and now[..write] holds their survivors. */
  ghost predicate Compacting(s: seq<FileEntry>, now: seq<FileEntry>, write: nat, runStart: nat) {
    && |now| == |s| && write <= runStart <= |s|
    && now[..write] == Dedup(s[..runStart])
    && now[runStart..] == s[runStart..]
    && (0 < runStart < |s| ==> s[runStart - 1].size != s[runStart].size)
  }

  /** The run now[runStart..runEnd] has become the survivors next[write..write']. */
  ghost predicate Moved(now: seq<FileEntry>, next: seq<FileEntry>, write: nat, runStart: nat, runEnd: nat, write': nat) {
    && |next| == |now| && write <= runStart <= runEnd <= |now| && write <= write' <= runEnd
    && next[..write] == now[..write]
    && next[write..write'] == Dedup(now[runStart..runEnd])
    && next[runEnd..] == now[runEnd..]
  }

  /** Deduplication up to the end of a run appends the run's own survivors. */
  lemma DedupUpto(s: seq<FileEntry>, runStart: nat, runEnd: nat)
    requires runStart < runEnd <= |s| && (0 < runStart ==> s[runStart - 1].size != s[runStart].size)
    ensures Dedup(s[..runEnd]) == Dedup(s[..runStart]) + Dedup(s[runStart..runEnd])
  {
    var done, run := s[..runStart], s[runStart..runEnd];
    assert 0 < runStart ==> done[|done| - 1] == s[runStart - 1] && run[0] == s[runStart];
    DedupConcat(done, run);
    assert s[..runEnd] == done + run;
  }

  lemma SplitPrefix<T>(s: seq<T>, a: nat, b: nat)
    requires a <= b <= |s|
    ensures s[..b] == s[..a] + s[a..b]
  {
  }

  lemma CompactStep(s: seq<FileEntry>, now: seq<FileEntry>, next: seq<FileEntry>, write: nat, runStart: nat, runEnd: nat, write': nat)
    requires Compacting(s, now, write, runStart) && runStart < runEnd <= |s|
    requires runEnd < |s| ==> now[runEnd - 1].size != now[runEnd].size
    requires Moved(now, next, write, runStart, runEnd, write')
    ensures Compacting(s, next, write', runEnd)
  {
    SameTail(s, now, runStart, runEnd);
    DedupUpto(s, runStart, runEnd);
    SplitPrefix(next, write, write');
  }

  lemma SameTail(s: seq<FileEntry>, now: seq<FileEntry>, from: nat, mid: nat)
    requires |s| == |now| && from < mid <= |s| && now[from..] == s[from..]
    ensures now[from..mid] == s[from..mid] && now[mid..] == s[mid..]
    ensures now[mid - 1] == s[mid - 1] && (mid < |s| ==> now[mid] == s[mid])
  {
    forall i | from <= i < |s|
      ensures now[i] == s[i]
    {
      assert now[i] == now[from..][i - from];
    }
  }

  /** Moves one size run down to the write position and collapses it there. */
  method MoveRun(entries: array<FileEntry>, write: nat, runStart: nat, runLength: nat)
    returns (write': nat, gone: nat)
    requires write <= runStart && runStart + runLength <= entries.Length && 0 < runLength
    requires forall i | runStart <= i < runStart + runLength :: entries[i].size == entries[runStart].size
    modifies entries
    ensures write' + gone == write + runLength
    ensures Moved(old(entries[..]), entries[..], write, runStart, runStart + runLength, write')
  {
    ghost var run := entries[runStart..runStart + runLength];
    if write != runStart {
      CopyDown(entries, write, runStart, runLength);
    }
    assert entries[write..write + runLength] == run;
    assert entries[runStart + runLength..] == old(entries[runStart + runLength..]);
    ghost var moved := entries[..];
    gone := CollapseHardlinksInRun(entries, write, runLength);
    write' := write + runLength - gone;
    assert entries[runStart + runLength..] == entries[write + runLength..][runStart - write..];
    assert moved[runStart + runLength..] == moved[write + runLength..][runStart - write..];
  }

  /** Length of the stretch of equal sizes that begins at runStart. */
  method RunLength(entries: array<FileEntry>, runStart: nat) returns (runLength: nat)
    requires runStart < entries.Length
    ensures 1 <= runLength && runStart + runLength <= entries.Length
    ensures forall i | runStart <= i < runStart + runLength :: entries[i].size == entries[runStart].size
    ensures runStart + runLength < entries.Length ==> entries[runStart + runLength].size != entries[runStart].size
  {
    runLength := 1;
    while runStart + runLength < entries.Length && entries[runStart + runLength].size == entries[runStart].size
      invariant 1 <= runLength <= entries.Length - runStart
      invariant forall i | runStart <= i < runStart + runLength :: entries[i].size == entries[runStart].size
    {
      runLength := runLength + 1;
    }
  }

  /** The compaction loop: every size run moves down to the write position and is collapsed there. */
  method CollapseHardlinks(entries: array<FileEntry>) returns (kept: nat, collapsed: nat)
    modifies entries
    ensures kept + collapsed == entries.Length
    ensures entries[..kept] == Dedup(old(entries[..]))
  {
    ghost var s := entries[..];
    var write: nat, runStart: nat := 0, 0;
    collapsed := 0;
    while runStart < entries.Length
      invariant Compacting(s, entries[..], write, runStart)
      invariant write + collapsed == runStart
    {
      ghost var now := entries[..];
      var runLength := RunLength(entries, runStart);
      var write', gone := MoveRun(entries, write, runStart, runLength);
      var runEnd := runStart + runLength;
      CompactStep(s, now, entries[..], write, runStart, runEnd, write');
      collapsed := collapsed + gone;
      write, runStart := write', runEnd;
    }
    assert s[..runStart] == s;
    kept := write;
  }

  /** The runs of s[..cursor] are cut. */
  ghost predicate CutUpto(s: seq<FileEntry>, n: nat, cursor: nat, groups: seq<Group>, candidates: nat) {
    && cursor <= n <= |s|
    && Classes(s, 0, cursor, SizeOf, groups) && Separated(s, 0, cursor, n, SizeOf)
    && (forall k | 0 <= k < |groups| :: groups[k].start < n && groups[k].size == s[groups[k].start].size)
    && candidates == TotalCount(groups)
  }

  lemma CutStep(s: seq<FileEntry>, n: nat, runStart: nat, cursor: nat, groups: seq<Group>, candidates: nat, groups': seq<Group>,
                candidates': nat)
    requires CutUpto(s, n, runStart, groups, candidates) && runStart < cursor <= n && Contiguous(s, 0, n, SizeOf)
    requires forall i | runStart <= i < cursor :: s[i].size == s[runStart].size
    requires cursor < n ==> s[cursor].size != s[runStart].size
    requires if cursor - runStart < 2 then groups' == groups && candidates' == candidates
             else groups' == groups + [Group(runStart, cursor - runStart, s[runStart].size)]
                  && candidates' == candidates + (cursor - runStart)
    ensures CutUpto(s, n, cursor, groups', candidates')
  {
    forall i | 0 <= i < runStart
      ensures SizeOf(s[i]) != SizeOf(s[runStart])
    {
    }
    CloseRun(s, 0, runStart, cursor, SizeOf, groups, s[runStart].size, groups');
    RunEnds(s, 0, runStart, cursor, n, SizeOf);
  }

  /** Cuts entries[..n] into runs of equal size. */
  method CutBySize(entries: array<FileEntry>, n: nat) returns (groups: seq<Group>, candidates: nat)
    requires n <= entries.Length
    requires Contiguous(entries[..], 0, n, SizeOf)
    ensures Classes(entries[..], 0, n, SizeOf, groups)
    ensures forall k | 0 <= k < |groups| :: groups[k].start < n && groups[k].size == entries[groups[k].start].size
    ensures candidates == TotalCount(groups)
  {
    ghost var s := entries[..];
    groups, candidates := [], 0;
    var cursor := 0;
    while cursor < n
      invariant CutUpto(s, n, cursor, groups, candidates)
    {
      var runStart := cursor;
      var groupSize := entries[cursor].size;
      cursor := cursor + 1;
      while cursor < n && entries[cursor].size == groupSize
        invariant runStart < cursor <= n
        invariant forall i | runStart <= i < cursor :: s[i].size == groupSize
      {
        cursor := cursor + 1;
      }
      ghost var before, counted := groups, candidates;
      var runLength := cursor - runStart;
      if runLength >= 2 {
        groups := groups + [Group(runStart, runLength, groupSize)];
        candidates := candidates + runLength;
      }
      CutStep(s, n, runStart, cursor, before, counted, groups, candidates);
    }
  }

  /** What the size stage leaves in the kept prefix. */
  ghost predicate Survivors(discovered: seq<FileEntry>, kept: seq<FileEntry>, matchHardlinks: bool) {
    if matchHardlinks then multiset(kept) == multiset(discovered)
    else OnePerFile(discovered, kept) && StrictlySorted(kept)
  }

  /** kept is the length of the prefix that later stages work on. */
  method GroupBySize(entries: array<FileEntry>, matchHardlinks: bool)
    returns (groups: seq<Group>, candidates: nat, collapsed: nat, kept: nat)
    modifies entries
    ensures kept + collapsed == entries.Length && (matchHardlinks ==> collapsed == 0)
    ensures Survivors(old(entries[..]), entries[..kept], matchHardlinks)
    ensures Classes(entries[..], 0, kept, SizeOf, groups)
    ensures Sized(entries[..], groups)
    ensures candidates == TotalCount(groups)
  {
    if entries.Length == 0 {
      assert entries[..0] == entries[..];
      return [], 0, 0, 0;
    }
    kept, collapsed := SortAndCollapse(entries, matchHardlinks);
    groups, candidates := CutBySize(entries, kept);
    GroupsSized(entries[..], kept, groups);
  }

  method SortAll(entries: array<FileEntry>)
    modifies entries
    ensures Sorted(entries[..], SizeDevInoLess)
    ensures multiset(entries[..]) == multiset(old(entries[..]))
  {
    SizeDevInoOrders();
    assert entries[..] == entries[0..entries.Length];
    SortRange(entries, 0, entries.Length, SizeDevInoLess);
    assert entries[..] == entries[0..entries.Length];
  }

  /** Sorts the array and, unless links are matched, collapses them into the prefix entries[..kept]. */
  method SortAndCollapse(entries: array<FileEntry>, matchHardlinks: bool) returns (kept: nat, collapsed: nat)
    modifies entries
    ensures kept + collapsed == entries.Length && (matchHardlinks ==> collapsed == 0)
    ensures Survivors(old(entries[..]), entries[..kept], matchHardlinks)
    ensures Contiguous(entries[..], 0, kept, SizeOf)
  {
    SortAll(entries);
    ghost var sorted := entries[..];
    kept, collapsed := entries.Length, 0;
    if matchHardlinks {
      assert entries[..kept] == sorted == sorted[..kept];
      SizesContiguous(sorted, kept);
    } else {
      kept, collapsed := CollapseHardlinks(entries);
      DedupSurvivors(sorted);
      OnePerFilePermuted(old(entries[..]), sorted, entries[..kept]);
      assert entries[..][..kept] == entries[..kept];
      SizesContiguous(entries[..], kept);
    }
  }

  lemma GroupsSized(s: seq<FileEntry>, n: nat, groups: seq<Group>)
    requires n <= |s| && Classes(s, 0, n, SizeOf, groups)
    requires forall k | 0 <= k < |groups| :: groups[k].start < n && groups[k].size == s[groups[k].start].size
    ensures Sized(s, groups)
  {
    forall k, i | 0 <= k < |groups| && groups[k].Holds(i)
      ensures i < |s| && s[i].size == groups[k].size
    {
      assert WholeClass(s, 0, n, SizeOf, groups[k]);
      assert SizeOf(s[i]) == SizeOf(s[groups[k].start]);
    }
  }

  lemma OnePerFilePermuted(s: seq<FileEntry>, s': seq<FileEntry>, d: seq<FileEntry>)
    requires multiset(s) == multiset(s')
    requires OnePerFile(s', d)
    ensures OnePerFile(s, d)
  {
    forall e | e in d
      ensures e in s
    {
      assert e in multiset(s');
    }
    forall e | e in s
      ensures e in s'
    {
      assert e in multiset(s);
    }
  }
}
