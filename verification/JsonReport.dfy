// The JSON report: what the writer emits, and what a reader recovers from it.
module JsonReport {
  import opened Entries
  import opened CStrings
  import opened Statistics
  import opened JsonText

  const NEWLINE: Byte := 10

  predicate PlainChar(c: char) {
    ' ' <= c <= '~' && c != '"' && c != '\\'
  }

  /** A term of the report's vocabulary: printable ASCII without quotation mark and backslash. */
  type Term = w: string | forall i | 0 <= i < |w| :: PlainChar(w[i])

  const VERSION: Term := "version"
  const VERSION_NUMBER: Term := "1.0.0"
  const TOOL: Term := "tool"
  const TOOL_NAME: Term := "bc-duplicate"
  const ALGORITHM: Term := "algorithm"
  const STATS: Term := "stats"
  const GROUPS: Term := "groups"
  const SIZE: Term := "size"
  const FILES: Term := "files"
  const FILES_SCANNED: Term := "files_scanned"
  const DIRECTORIES_SCANNED: Term := "directories_scanned"
  const FILES_SKIPPED: Term := "files_skipped"
  const HARDLINKS_COLLAPSED: Term := "hardlinks_collapsed"
  const SIZE_CANDIDATES: Term := "size_candidates"
  const FILES_HASHED_FAST: Term := "files_hashed_fast"
  const FILES_HASHED_FULL: Term := "files_hashed_full"
  const DUPLICATE_GROUPS: Term := "duplicate_groups"
  const DUPLICATE_FILES: Term := "duplicate_files"
  const WASTED_BYTES: Term := "wasted_bytes"
  const WALL_MS: Term := "wall_ms"

  function Ascii(w: Term): seq<Byte> {
    seq(|w|, i requires 0 <= i < |w| => w[i] as int)
  }

  lemma {:induction false} PlainEscaped(s: seq<Byte>)
    requires forall i | 0 <= i < |s| :: s[i] >= 0x20 && s[i] != QUOTE && s[i] != BACKSLASH
    ensures Escaped(s) == s
  {
    if s != [] {
      PlainEscaped(s[1..]);
      assert Escape(s[0]) + s[1..] == s;
    }
  }

  lemma WordEscaped(w: Term)
    ensures Escaped(Ascii(w)) == Ascii(w)
  {
    forall i | 0 <= i < |w|
      ensures Ascii(w)[i] >= 0x20 && Ascii(w)[i] != QUOTE && Ascii(w)[i] != BACKSLASH
    {
      assert PlainChar(w[i]);
    }
    PlainEscaped(Ascii(w));
  }

  function AlgorithmName(algorithm: Algorithm): Term {
    match algorithm
    case Xxh3 => "xxh3"
    case Xxh128 => "xxh128"
    case Sha256 => "sha256"
  }

  /** The statistics the writer is given: those of a run and those filled in beside them. */
  datatype Totals = Totals(run: Statistics, directoriesScanned: nat, filesSkipped: nat, wallMs: nat)

  /** A group as the report shows it. */
  datatype Duplicates = Duplicates(size: nat, paths: seq<seq<Byte>>)

  function Shown(s: seq<FileEntry>, g: Group): Duplicates
    requires g.End() <= |s|
  {
    Duplicates(g.size, seq(g.count, o requires 0 <= o < g.count => s[g.start + o].path))
  }

  /** The paths of a group are C strings. */
  ghost predicate Printable(s: seq<FileEntry>, g: Group) {
    g.End() <= |s| && forall i {:trigger g.Holds(i)} | g.Holds(i) :: NUL !in s[i].path
  }

  function ShownAll(s: seq<FileEntry>, groups: seq<Group>): seq<Duplicates>
    requires forall k | 0 <= k < |groups| :: groups[k].End() <= |s|
  {
    seq(|groups|, k requires 0 <= k < |groups| => Shown(s, groups[k]))
  }

  // ---------------------------------------------------------------- the document as a tree

  function Entry(key: Term, value: Json): Member {
    Member(Ascii(key), value)
  }

  function StatisticMembers(t: Totals): seq<Member> {
    [Entry(FILES_SCANNED, Number(t.run.filesScanned)),
     Entry(DIRECTORIES_SCANNED, Number(t.directoriesScanned)),
     Entry(FILES_SKIPPED, Number(t.filesSkipped)),
     Entry(HARDLINKS_COLLAPSED, Number(t.run.hardlinksCollapsed)),
     Entry(SIZE_CANDIDATES, Number(t.run.sizeCandidates)),
     Entry(FILES_HASHED_FAST, Number(t.run.filesHashedFast)),
     Entry(FILES_HASHED_FULL, Number(t.run.filesHashedFull)),
     Entry(DUPLICATE_GROUPS, Number(t.run.duplicateGroups)),
     Entry(DUPLICATE_FILES, Number(t.run.duplicateFiles)),
     Entry(WASTED_BYTES, Number(t.run.wastedBytes)),
     Entry(WALL_MS, Number(t.wallMs))]
  }

  function PathTexts(paths: seq<seq<Byte>>): seq<Json> {
    seq(|paths|, i requires 0 <= i < |paths| => Text(paths[i]))
  }

  function GroupMembers(d: Duplicates): seq<Member> {
    [Entry(SIZE, Number(d.size)), Entry(FILES, List(PathTexts(d.paths)))]
  }

  function GroupTrees(ds: seq<Duplicates>): seq<Json> {
    seq(|ds|, k requires 0 <= k < |ds| => Object(GroupMembers(ds[k])))
  }

  function DocumentMembers(algorithm: Algorithm, t: Totals, ds: seq<Duplicates>): seq<Member> {
    [Entry(VERSION, Text(Ascii(VERSION_NUMBER))),
     Entry(TOOL, Text(Ascii(TOOL_NAME))),
     Entry(ALGORITHM, Text(Ascii(AlgorithmName(algorithm)))),
     Entry(STATS, Object(StatisticMembers(t))),
     Entry(GROUPS, List(GroupTrees(ds)))]
  }

  function Document(algorithm: Algorithm, t: Totals, ds: seq<Duplicates>): Json {
    Object(DocumentMembers(algorithm, t, ds))
  }

  // ---------------------------------------------------------------- what a reader recovers

  datatype Option<T> = None | Some(value: T)

  /** The first member with a key. */
  function Lookup(members: seq<Member>, key: seq<Byte>): Option<Json> {
    if members == [] then None
    else if members[0].key == key then Some(members[0].value)
    else Lookup(members[1..], key)
  }

  predicate AllTexts(items: seq<Json>) {
    forall i | 0 <= i < |items| :: items[i].Text?
  }

  function RecoverGroup(v: Json): Option<Duplicates> {
    if !v.Object? then None
    else
      var size, files := Lookup(v.members, Ascii(SIZE)), Lookup(v.members, Ascii(FILES));
      if size.Some? && size.value.Number? && files.Some? && files.value.List? && AllTexts(files.value.items)
      then
        var items := files.value.items;
        Some(Duplicates(size.value.n, seq(|items|, i requires 0 <= i < |items| => items[i].bytes)))
      else None
  }

  function RecoverAll(items: seq<Json>): Option<seq<Duplicates>> {
    if items == [] then Some([])
    else
      var first, others := RecoverGroup(items[0]), RecoverAll(items[1..]);
      if first.Some? && others.Some? then Some([first.value] + others.value) else None
  }

  /** The duplicates that a text reports, whatever else is in it. */
  function Recover(text: seq<Byte>): Option<seq<Duplicates>> {
    match Read(text)
    case Malformed => None
    case Got(v, _) =>
      if !v.Object? then None
      else
        var groups := Lookup(v.members, Ascii(GROUPS));
        if groups.Some? && groups.value.List? then RecoverAll(groups.value.items) else None
  }

  lemma LookupFirst(m: Member, others: seq<Member>, key: seq<Byte>)
    ensures Lookup([m] + others, key) == if m.key == key then Some(m.value) else Lookup(others, key)
  {
    assert ([m] + others)[1..] == others;
  }

  lemma GroupRecovered(d: Duplicates)
    ensures RecoverGroup(Object(GroupMembers(d))) == Some(d)
  {
    var ms := GroupMembers(d);
    var size, files := ms[0], ms[1];
    assert ms == [size] + [files] && [files] == [files] + [];
    assert |size.key| == 4 && |files.key| == 5;
    LookupFirst(size, [files], Ascii(SIZE));
    LookupFirst(size, [files], Ascii(FILES));
    LookupFirst(files, [], Ascii(FILES));
    var items := PathTexts(d.paths);
    assert seq(|items|, i requires 0 <= i < |items| => items[i].bytes) == d.paths;
  }

  lemma {:induction false} GroupsRecovered(ds: seq<Duplicates>)
    ensures RecoverAll(GroupTrees(ds)) == Some(ds)
  {
    if ds != [] {
      GroupRecovered(ds[0]);
      GroupsRecovered(ds[1..]);
      assert GroupTrees(ds)[1..] == GroupTrees(ds[1..]);
      assert [ds[0]] + ds[1..] == ds;
    }
  }

  lemma GroupsMember(algorithm: Algorithm, t: Totals, ds: seq<Duplicates>)
    ensures Lookup(DocumentMembers(algorithm, t, ds), Ascii(GROUPS)) == Some(List(GroupTrees(ds)))
  {
    var ms := DocumentMembers(algorithm, t, ds);
    var key := Ascii(GROUPS);
    assert |ms[0].key| == 7 && |ms[1].key| == 4 && |ms[2].key| == 9 && |ms[3].key| == 5 && |key| == 6;
    LookupFirst(ms[0], ms[1..], key);
    LookupFirst(ms[1], ms[2..], key);
    LookupFirst(ms[2], ms[3..], key);
    LookupFirst(ms[3], ms[4..], key);
    LookupFirst(ms[4], [], key);
    assert ms == [ms[0]] + ms[1..] && ms[1..] == [ms[1]] + ms[2..] && ms[2..] == [ms[2]] + ms[3..];
    assert ms[3..] == [ms[3]] + ms[4..] && ms[4..] == [ms[4]] + [];
  }

  /** The whole text: the document and the final newline. */
  function ReportText(algorithm: Algorithm, t: Totals, ds: seq<Duplicates>): seq<Byte> {
    Print(Document(algorithm, t, ds)) + [NEWLINE]
  }

  lemma ReportReads(algorithm: Algorithm, t: Totals, ds: seq<Duplicates>)
    ensures Read(ReportText(algorithm, t, ds)) == Got(Document(algorithm, t, ds), [])
  {
    ReadsBack(Document(algorithm, t, ds), [NEWLINE]);
    assert [NEWLINE][1..] == [];
  }

  /** A reader recovers exactly the groups, for all sizes and all paths. */
  lemma ReportRecovered(algorithm: Algorithm, t: Totals, ds: seq<Duplicates>)
    ensures Recover(ReportText(algorithm, t, ds)) == Some(ds)
  {
    ReportReads(algorithm, t, ds);
    GroupsMember(algorithm, t, ds);
    GroupsRecovered(ds);
  }

  lemma NameDecides(a: Algorithm, a': Algorithm)
    requires Ascii(AlgorithmName(a)) == Ascii(AlgorithmName(a'))
    ensures a == a'
  {
    var n, n' := AlgorithmName(a), AlgorithmName(a');
    assert |Ascii(n)| == |n| && |Ascii(n')| == |n'|;
    assert Ascii(n)[0] == n[0] as int && Ascii(n')[0] == n'[0] as int;
  }

  lemma StatisticsDecided(t: Totals, t': Totals)
    requires StatisticMembers(t) == StatisticMembers(t')
    ensures t == t'
  {
    forall i | 0 <= i < 11
      ensures StatisticMembers(t)[i].value.n == StatisticMembers(t')[i].value.n
    {
    }
  }

  /** The text also determines the algorithm and every statistic: nothing runs together. */
  lemma ReportInjective(a: Algorithm, t: Totals, ds: seq<Duplicates>, a': Algorithm, t': Totals, ds': seq<Duplicates>)
    requires ReportText(a, t, ds) == ReportText(a', t', ds')
    ensures a == a' && t == t' && ds == ds'
  {
    ReportReads(a, t, ds);
    ReportReads(a', t', ds');
    ReportRecovered(a, t, ds);
    ReportRecovered(a', t', ds');
    var ms, ms' := DocumentMembers(a, t, ds), DocumentMembers(a', t', ds');
    assert ms[2] == ms'[2] && ms[3] == ms'[3];
    NameDecides(a, a');
    StatisticsDecided(t, t');
  }

  // ---------------------------------------------------------------- the writer

  /** The bytes written and those that the rest of the input still yields make up the escaped input. */
  ghost predicate WrittenUpTo(start: seq<Byte>, out: seq<Byte>, input: seq<Byte>, cursor: nat) {
    && cursor <= |input| && NUL in input[cursor..]
    && out + Escaped(CString(input[cursor..])) == start + Escaped(CString(input))
  }

  lemma EscapedAhead(s: seq<Byte>)
    requires s != [] && s[0] != NUL
    ensures Escaped(CString(s)) == Escape(s[0]) + Escaped(CString(s[1..]))
  {
    assert CString(s)[1..] == CString(s[1..]);
  }

  lemma Associate(a: seq<Byte>, b: seq<Byte>, c: seq<Byte>)
    ensures a + (b + c) == a + b + c
  {
  }

  lemma WrittenStep(start: seq<Byte>, out: seq<Byte>, input: seq<Byte>, cursor: nat)
    requires WrittenUpTo(start, out, input, cursor) && cursor < |input| && input[cursor] != NUL
    ensures WrittenUpTo(start, out + Escape(input[cursor]), input, cursor + 1)
    ensures cursor + 1 < |input|
  {
    var s, rest := input[cursor..], input[cursor + 1..];
    assert s[0] == input[cursor] && s[1..] == rest;
    assert NUL in rest;
    EscapedAhead(s);
    Associate(out, Escape(input[cursor]), Escaped(CString(rest)));
  }

  /** A body between quotation marks, written in three parts. */
  lemma Quote(start: seq<Byte>, body: seq<Byte>)
    ensures start + [QUOTE] + body + [QUOTE] == start + ([QUOTE] + body + [QUOTE])
  {
  }

  lemma WordQuoted(start: seq<Byte>, w: Term)
    ensures start + [QUOTE] + Ascii(w) + [QUOTE] == start + Print(Text(Ascii(w)))
  {
    WordEscaped(w);
    Quote(start, Ascii(w));
  }

  lemma WrittenWhole(start: seq<Byte>, out: seq<Byte>, input: seq<Byte>, cursor: nat)
    requires WrittenUpTo(start, out, input, cursor) && cursor < |input| && input[cursor] == NUL
    ensures out == start + Escaped(CString(input))
  {
    assert CString(input[cursor..]) == [];
    assert out + [] == out;
  }

  lemma KeyText(start: seq<Byte>, key: Term)
    ensures start + [QUOTE] + Ascii(key) + [QUOTE, COLON] == start + (Quoted(Ascii(key)) + [COLON])
  {
    WordEscaped(key);
    assert [QUOTE, COLON] == [QUOTE] + [COLON];
  }

  /** The first k members are written, with the commas between them. */
  ghost predicate MembersUpTo(start: seq<Byte>, out: seq<Byte>, members: seq<Member>, k: nat) {
    k <= |members| && out == start + PrintMembers(members[..k])
  }

  lemma MembersStep(start: seq<Byte>, out: seq<Byte>, members: seq<Member>, k: nat)
    requires MembersUpTo(start, out, members, k) && k < |members|
    ensures MembersUpTo(start, (if k == 0 then out else out + [COMMA]) + PrintMember(members[k]), members, k + 1)
  {
    var next := members[..k + 1];
    assert next[..k] == members[..k];
    if k == 0 {
      assert out == start;
    } else {
      assert start + PrintMembers(next[..k]) + [COMMA] + PrintMember(next[k]) ==
             start + (PrintMembers(next[..k]) + [COMMA] + PrintMember(next[k]));
    }
  }

  ghost predicate ItemsUpTo(start: seq<Byte>, out: seq<Byte>, items: seq<Json>, k: nat) {
    k <= |items| && out == start + PrintItems(items[..k])
  }

  lemma ItemsStep(start: seq<Byte>, out: seq<Byte>, items: seq<Json>, k: nat)
    requires ItemsUpTo(start, out, items, k) && k < |items|
    ensures ItemsUpTo(start, (if k == 0 then out else out + [COMMA]) + Print(items[k]), items, k + 1)
  {
    var next := items[..k + 1];
    assert next[..k] == items[..k];
    if k == 0 {
      assert out == start;
    } else {
      assert start + PrintItems(next[..k]) + [COMMA] + Print(next[k]) ==
             start + (PrintItems(next[..k]) + [COMMA] + Print(next[k]));
    }
  }

  lemma MemberWritten(start: seq<Byte>, key: Term, value: Json)
    ensures start + (Quoted(Ascii(key)) + [COLON]) + Print(value) == start + PrintMember(Entry(key, value))
  {
  }

  lemma ListWritten(before: seq<Byte>, key: Term, start: seq<Byte>, out: seq<Byte>, items: seq<Json>)
    requires start == before + (Quoted(Ascii(key)) + [COLON]) + [LEFT_BRACKET] && ItemsUpTo(start, out, items, |items|)
    ensures out + [RIGHT_BRACKET] == before + PrintMember(Entry(key, List(items)))
  {
    assert items[..|items|] == items;
  }

  lemma ObjectWritten(start: seq<Byte>, out: seq<Byte>, members: seq<Member>)
    requires MembersUpTo(start + [LEFT_BRACE], out, members, |members|)
    ensures out + [RIGHT_BRACE] == start + Print(Object(members))
  {
    assert members[..|members|] == members;
  }

  lemma ReportWritten(start: seq<Byte>, out: seq<Byte>, a: Algorithm, t: Totals, ds: seq<Duplicates>)
    requires MembersUpTo(start + [LEFT_BRACE], out, DocumentMembers(a, t, ds), 5)
    ensures out + [RIGHT_BRACE] + [NEWLINE] == start + ReportText(a, t, ds)
  {
    ObjectWritten(start, out, DocumentMembers(a, t, ds));
  }

  /** The byte sink. */
  class Writer {
    var out: seq<Byte>

    constructor ()
      ensures out == []
    {
      out := [];
    }

    method Put(bytes: seq<Byte>)
      modifies this
      ensures out == old(out) + bytes
    {
      out := out + bytes;
    }

    method PutWord(w: Term)
      modifies this
      ensures out == old(out) + Ascii(w)
    {
      out := out + Ascii(w);
    }

    method PutDecimal(n: nat)
      modifies this
      ensures out == old(out) + Decimal(n)
    {
      out := out + Decimal(n);
    }

    /** A C string between quotation marks. */
    method WriteEscaped(input: seq<Byte>)
      requires NUL in input
      modifies this
      ensures out == old(out) + Quoted(CString(input))
    {
      Put([QUOTE]);
      ghost var start := out;
      var cursor := 0;
      assert input[0..] == input;
      while input[cursor] != NUL
        invariant cursor < |input| && WrittenUpTo(start, out, input, cursor)
        decreases |input| - cursor
      {
        ghost var before := out;
        WriteByte(input[cursor]);
        WrittenStep(start, before, input, cursor);
        cursor := cursor + 1;
      }
      WrittenWhole(start, out, input, cursor);
      Put([QUOTE]);
      Quote(old(out), Escaped(CString(input)));
    }

    method WriteByte(byte: Byte)
      modifies this
      ensures out == old(out) + Escape(byte)
    {
      match byte
      case 34 => Put([BACKSLASH, QUOTE]);
      case 92 => Put([BACKSLASH, BACKSLASH]);
      case 8 => Put([BACKSLASH, LOWER_B]);
      case 12 => Put([BACKSLASH, LOWER_F]);
      case 10 => Put([BACKSLASH, LOWER_N]);
      case 13 => Put([BACKSLASH, LOWER_R]);
      case 9 => Put([BACKSLASH, LOWER_T]);
      case _ =>
        if byte < 0x20 {
          Put([BACKSLASH, LOWER_U]);
          Put(Hex(byte, 4));
          assert out == old(out) + Escape(byte);
        } else {
          Put([byte]);
        }
    }

    /** A key, written without escaping, and its colon. */
    method WriteKey(key: Term)
      modifies this
      ensures out == old(out) + (Quoted(Ascii(key)) + [COLON])
    {
      Put([QUOTE]);
      PutWord(key);
      Put([QUOTE, COLON]);
      KeyText(old(out), key);
    }

    method WriteStatistic(key: Term, value: nat)
      modifies this
      ensures out == old(out) + PrintMember(Entry(key, Number(value)))
    {
      WriteKey(key);
      PutDecimal(value);
    }

    /** A comma and the statistic that comes next. */
    method WriteFurtherStatistic(key: Term, value: nat, ghost start: seq<Byte>, ghost members: seq<Member>, ghost k: nat)
      requires MembersUpTo(start, out, members, k) && 0 < k < |members| && members[k] == Entry(key, Number(value))
      modifies this
      ensures MembersUpTo(start, out, members, k + 1)
    {
      MembersStep(start, out, members, k);
      Put([COMMA]);
      WriteStatistic(key, value);
    }

    method WriteStatistics(t: Totals)
      modifies this
      ensures out == old(out) + Print(Object(StatisticMembers(t)))
    {
      Put([LEFT_BRACE]);
      ghost var start, ms := out, StatisticMembers(t);
      assert MembersUpTo(start, out, ms, 0);
      MembersStep(start, out, ms, 0);
      WriteStatistic(FILES_SCANNED, t.run.filesScanned);
      WriteFurtherStatistic(DIRECTORIES_SCANNED, t.directoriesScanned, start, ms, 1);
      WriteFurtherStatistic(FILES_SKIPPED, t.filesSkipped, start, ms, 2);
      WriteFurtherStatistic(HARDLINKS_COLLAPSED, t.run.hardlinksCollapsed, start, ms, 3);
      WriteFurtherStatistic(SIZE_CANDIDATES, t.run.sizeCandidates, start, ms, 4);
      WriteFurtherStatistic(FILES_HASHED_FAST, t.run.filesHashedFast, start, ms, 5);
      WriteFurtherStatistic(FILES_HASHED_FULL, t.run.filesHashedFull, start, ms, 6);
      WriteFurtherStatistic(DUPLICATE_GROUPS, t.run.duplicateGroups, start, ms, 7);
      WriteFurtherStatistic(DUPLICATE_FILES, t.run.duplicateFiles, start, ms, 8);
      WriteFurtherStatistic(WASTED_BYTES, t.run.wastedBytes, start, ms, 9);
      WriteFurtherStatistic(WALL_MS, t.wallMs, start, ms, 10);
      ObjectWritten(old(out), out, ms);
      Put([RIGHT_BRACE]);
    }

    /** The list of a group's paths. */
    method WriteFiles(entries: array<FileEntry>, g: Group)
      requires Printable(entries[..], g)
      modifies this
      ensures out == old(out) + PrintMember(Entry(FILES, List(PathTexts(Shown(entries[..], g).paths))))
    {
      ghost var items := PathTexts(Shown(entries[..], g).paths);
      WriteKey(FILES);
      Put([LEFT_BRACKET]);
      ghost var start := out;
      assert ItemsUpTo(start, out, items, 0);
      for offset := 0 to g.count
        invariant ItemsUpTo(start, out, items, offset)
      {
        assert g.Holds(g.start + offset);
        var path := entries[g.start + offset].path;
        assert items[offset] == Text(path);
        ItemsStep(start, out, items, offset);
        CStringEnds(path, []);
        assert path + [NUL] + [] == path + [NUL];
        if offset > 0 {
          Put([COMMA]);
        }
        WriteEscaped(path + [NUL]);
      }
      ListWritten(old(out), FILES, start, out, items);
      Put([RIGHT_BRACKET]);
    }

    method WriteGroup(entries: array<FileEntry>, g: Group)
      requires Printable(entries[..], g)
      modifies this
      ensures out == old(out) + Print(Object(GroupMembers(Shown(entries[..], g))))
    {
      Put([LEFT_BRACE]);
      ghost var start, ms := out, GroupMembers(Shown(entries[..], g));
      assert MembersUpTo(start, out, ms, 0);
      MembersStep(start, out, ms, 0);
      WriteStatistic(SIZE, g.size);
      MembersStep(start, out, ms, 1);
      Put([COMMA]);
      WriteFiles(entries, g);
      ObjectWritten(old(out), out, ms);
      Put([RIGHT_BRACE]);
    }

    method WriteGroups(entries: array<FileEntry>, groups: seq<Group>)
      requires forall k | 0 <= k < |groups| :: groups[k].End() <= entries.Length && Printable(entries[..], groups[k])
      modifies this
      ensures out == old(out) + PrintMember(Entry(GROUPS, List(GroupTrees(ShownAll(entries[..], groups)))))
    {
      ghost var items := GroupTrees(ShownAll(entries[..], groups));
      WriteKey(GROUPS);
      Put([LEFT_BRACKET]);
      ghost var start := out;
      assert ItemsUpTo(start, out, items, 0);
      for k := 0 to |groups|
        invariant ItemsUpTo(start, out, items, k)
      {
        ItemsStep(start, out, items, k);
        if k > 0 {
          Put([COMMA]);
        }
        WriteGroup(entries, groups[k]);
      }
      ListWritten(old(out), GROUPS, start, out, items);
      Put([RIGHT_BRACKET]);
    }

    method WriteWord(value: Term)
      modifies this
      ensures out == old(out) + Print(Text(Ascii(value)))
    {
      Put([QUOTE]);
      PutWord(value);
      Put([QUOTE]);
      WordQuoted(old(out), value);
    }

    method WriteText(key: Term, value: Term)
      modifies this
      ensures out == old(out) + PrintMember(Entry(key, Text(Ascii(value))))
    {
      WriteKey(key);
      WriteWord(value);
      MemberWritten(old(out), key, Text(Ascii(value)));
    }

    /** The fixed members that open the report. */
    method WriteHeader(algorithm: Algorithm, ghost start: seq<Byte>, ghost members: seq<Member>)
      requires out == start && |members| > 3
      requires members[0] == Entry(VERSION, Text(Ascii(VERSION_NUMBER))) && members[1] == Entry(TOOL, Text(Ascii(TOOL_NAME)))
      requires members[2] == Entry(ALGORITHM, Text(Ascii(AlgorithmName(algorithm))))
      modifies this
      ensures MembersUpTo(start, out, members, 3)
    {
      assert MembersUpTo(start, out, members, 0);
      MembersStep(start, out, members, 0);
      WriteText(VERSION, VERSION_NUMBER);
      MembersStep(start, out, members, 1);
      Put([COMMA]);
      WriteText(TOOL, TOOL_NAME);
      MembersStep(start, out, members, 2);
      Put([COMMA]);
      WriteText(ALGORITHM, AlgorithmName(algorithm));
    }

    method WriteStatisticsMember(t: Totals)
      modifies this
      ensures out == old(out) + PrintMember(Entry(STATS, Object(StatisticMembers(t))))
    {
      WriteKey(STATS);
      WriteStatistics(t);
      MemberWritten(old(out), STATS, Object(StatisticMembers(t)));
    }

    /** The whole report. */
    method WriteReport(algorithm: Algorithm, entries: array<FileEntry>, groups: seq<Group>, t: Totals)
      requires forall k | 0 <= k < |groups| :: groups[k].End() <= entries.Length && Printable(entries[..], groups[k])
      modifies this
      ensures out == old(out) + ReportText(algorithm, t, ShownAll(entries[..], groups))
    {
      Put([LEFT_BRACE]);
      ghost var start, ds := out, ShownAll(entries[..], groups);
      ghost var ms := DocumentMembers(algorithm, t, ds);
      WriteHeader(algorithm, start, ms);
      MembersStep(start, out, ms, 3);
      Put([COMMA]);
      WriteStatisticsMember(t);
      MembersStep(start, out, ms, 4);
      Put([COMMA]);
      WriteGroups(entries, groups);
      ReportWritten(old(out), out, algorithm, t, ds);
      Put([RIGHT_BRACE]);
      Put([NEWLINE]);
    }
  }
}
