// When the report is UTF-8, as section 8.1 of RFC 8259 asks of a JSON text: exactly when all its paths are.
module Utf8 {
  import opened Entries
  import opened JsonText
  import opened JsonReport

  predicate Tail(t: seq<Byte>, i: nat, low: Byte, high: Byte) {
    i < |t| && low <= t[i] <= high
  }

  /** The length of the character that t begins with, by the syntax of section 4 of RFC 3629, or 0. */
  function CharLength(t: seq<Byte>): (n: nat)
    ensures n <= |t| && n <= 4
  {
    if t == [] then 0
    else if t[0] <= 0x7F then 1
    else if 0xC2 <= t[0] <= 0xDF && Tail(t, 1, 0x80, 0xBF) then 2
    else if t[0] == 0xE0 && Tail(t, 1, 0xA0, 0xBF) && Tail(t, 2, 0x80, 0xBF) then 3
    else if 0xE1 <= t[0] <= 0xEF && Tail(t, 1, 0x80, if t[0] == 0xED then 0x9F else 0xBF) && Tail(t, 2, 0x80, 0xBF) then 3
    else if t[0] == 0xF0 && Tail(t, 1, 0x90, 0xBF) && Tail(t, 2, 0x80, 0xBF) && Tail(t, 3, 0x80, 0xBF) then 4
    else if 0xF1 <= t[0] <= 0xF4 && Tail(t, 1, 0x80, if t[0] == 0xF4 then 0x8F else 0xBF) && Tail(t, 2, 0x80, 0xBF)
            && Tail(t, 3, 0x80, 0xBF) then 4
    else 0
  }

  predicate Utf8(t: seq<Byte>) {
    t == [] || (CharLength(t) > 0 && Utf8(t[CharLength(t)..]))
  }

  // ---------------------------------------------------------------- ASCII bytes

  /** No character of more than one byte reaches over an ASCII byte. */
  lemma FrontChar(a: seq<Byte>, b: Byte, c: seq<Byte>)
    requires a != [] && b < 0x80
    ensures CharLength(a + ([b] + c)) == CharLength(a)
  {
    var t := a + ([b] + c);
    forall i: nat, low: Byte, high: Byte | i <= |a| && 0x80 <= low
      ensures Tail(t, i, low, high) <==> Tail(a, i, low, high)
    {
    }
    assert t[0] == a[0];
    if |a| < 4 {
      assert !Tail(t, |a|, 0x80, 0xBF) && t[|a|] == b;
    }
  }

  /** An ASCII byte splits a text. */
  lemma {:induction false} AsciiSplit(a: seq<Byte>, b: Byte, c: seq<Byte>)
    requires b < 0x80
    ensures Utf8(a + ([b] + c)) <==> Utf8(a) && Utf8(c)
    decreases |a|
  {
    var t := a + ([b] + c);
    if a == [] {
      assert t == [b] + c && t[1..] == c;
    } else {
      var n := CharLength(a);
      FrontChar(a, b, c);
      if n > 0 {
        AsciiSplit(a[n..], b, c);
        assert t[n..] == a[n..] + ([b] + c);
      }
    }
  }

  predicate Ascii7(s: seq<Byte>) {
    forall i | 0 <= i < |s| :: s[i] < 0x80
  }

  lemma {:induction false} AsciiPrefix(s: seq<Byte>, c: seq<Byte>)
    requires Ascii7(s)
    ensures Utf8(s + c) <==> Utf8(c)
  {
    if s == [] {
      assert s + c == c;
    } else {
      AsciiPrefix(s[1..], c);
      AsciiSplit([], s[0], s[1..] + c);
      assert s + c == [] + ([s[0]] + (s[1..] + c));
    }
  }

  lemma AsciiIsUtf8(s: seq<Byte>)
    requires Ascii7(s)
    ensures Utf8(s)
  {
    AsciiPrefix(s, []);
    assert s + [] == s;
  }

  /** Between two ASCII bytes. */
  lemma Enclosed(l: Byte, s: seq<Byte>, r: Byte)
    requires l < 0x80 && r < 0x80
    ensures Utf8([l] + s + [r]) <==> Utf8(s)
  {
    AsciiSplit([], l, s + [r]);
    AsciiSplit(s, r, []);
    assert [l] + s + [r] == [] + ([l] + (s + [r])) && s + [r] == s + ([r] + []);
  }

  // ---------------------------------------------------------------- escaping

  lemma EscapeAscii(b: Byte)
    requires b < 0x80
    ensures Escape(b) != [] && Ascii7(Escape(b))
  {
    if b < 0x20 {
      HexAscii(b, 4);
    }
  }

  lemma {:induction false} HexAscii(n: nat, width: nat)
    ensures Ascii7(Hex(n, width))
  {
    if width > 0 {
      HexAscii(n / 16, width - 1);
    }
  }

  /** How many bytes at the front are not ASCII. */
  function HighRun(s: seq<Byte>): (m: nat)
    ensures m <= |s| && (m < |s| ==> s[m] < 0x80)
  {
    if s == [] || s[0] < 0x80 then 0 else 1 + HighRun(s[1..])
  }

  lemma {:induction false} EscapedHigh(s: seq<Byte>)
    ensures Escaped(s) == s[..HighRun(s)] + Escaped(s[HighRun(s)..])
  {
    if s != [] && s[0] >= 0x80 {
      EscapedHigh(s[1..]);
      var m := HighRun(s);
      assert s[..m] == [s[0]] + s[1..][..m - 1] && s[1..][m - 1..] == s[m..];
      assert Escape(s[0]) == [s[0]];
    }
  }

  lemma SplitAt(s: seq<Byte>, m: nat)
    requires m < |s|
    ensures s == s[..m] + ([s[m]] + s[m + 1..]) && s[m..][0] == s[m] && s[m..][1..] == s[m + 1..]
  {
  }

  lemma Regroup(x: seq<Byte>, e: seq<Byte>, y: seq<Byte>)
    requires e != []
    ensures x + (e + y) == x + ([e[0]] + (e[1..] + y))
  {
    assert e + y == [e[0]] + (e[1..] + y);
  }

  /** A text with an ASCII byte, and its escaped form, around that byte. */
  lemma EscapedParts(s: seq<Byte>, m: nat, e: seq<Byte>, rest: seq<Byte>)
    requires m == HighRun(s) < |s| && e == Escape(s[m]) && rest == s[m + 1..] && e != []
    ensures s == s[..m] + ([s[m]] + rest)
    ensures Escaped(s) == s[..m] + ([e[0]] + (e[1..] + Escaped(rest)))
  {
    SplitAt(s, m);
    EscapedHigh(s);
    Regroup(s[..m], e, Escaped(rest));
  }

  /** Escaping keeps a text UTF-8, and makes none UTF-8 that was not. */
  lemma {:induction false} EscapedUtf8(s: seq<Byte>)
    ensures Utf8(Escaped(s)) <==> Utf8(s)
    decreases |s|
  {
    var m := HighRun(s);
    if m == |s| {
      EscapedHigh(s);
      assert s[m..] == [] && s[..m] == s && s + [] == s;
    } else {
      var e, rest := Escape(s[m]), s[m + 1..];
      EscapeAscii(s[m]);
      EscapedParts(s, m, e, rest);
      EscapedUtf8(rest);
      AsciiSplit(s[..m], s[m], rest);
      AsciiSplit(s[..m], e[0], e[1..] + Escaped(rest));
      AsciiPrefix(e[1..], Escaped(rest));
    }
  }

  lemma QuotedUtf8(s: seq<Byte>)
    ensures Utf8(Quoted(s)) <==> Utf8(s)
  {
    EscapedUtf8(s);
    Enclosed(QUOTE, Escaped(s), QUOTE);
  }

  // ---------------------------------------------------------------- trees

  /** Every string of the tree, key or value, is UTF-8. */
  predicate Utf8Tree(v: Json) {
    match v
    case Number(_) => true
    case Text(s) => Utf8(s)
    case List(items) => forall i | 0 <= i < |items| :: Utf8Tree(items[i])
    case Object(members) => forall i | 0 <= i < |members| :: Utf8Member(members[i])
  }

  predicate Utf8Member(m: Member) {
    Utf8(m.key) && Utf8Tree(m.value)
  }

  lemma {:induction false} DecimalUtf8(n: nat)
    ensures Ascii7(Decimal(n))
  {
    if n >= 10 {
      DecimalUtf8(n / 10);
    }
  }

  /** A text is UTF-8 exactly when the strings of its tree are. */
  lemma {:induction false} PrintUtf8(v: Json)
    ensures Utf8(Print(v)) <==> Utf8Tree(v)
  {
    match v
    case Number(n) =>
      DecimalUtf8(n);
      AsciiIsUtf8(Decimal(n));
    case Text(s) =>
      QuotedUtf8(s);
    case List(items) =>
      ItemsUtf8(items);
      Enclosed(LEFT_BRACKET, PrintItems(items), RIGHT_BRACKET);
    case Object(members) =>
      MembersUtf8(members);
      Enclosed(LEFT_BRACE, PrintMembers(members), RIGHT_BRACE);
  }

  lemma ItemsStep(items: seq<Json>)
    requires |items| > 1
    ensures var init, last := items[..|items| - 1], items[|items| - 1];
            Utf8(PrintItems(items)) <==> Utf8(PrintItems(init)) && Utf8(Print(last))
  {
    var init, last := items[..|items| - 1], items[|items| - 1];
    AsciiSplit(PrintItems(init), COMMA, Print(last));
    assert PrintItems(items) == PrintItems(init) + ([COMMA] + Print(last));
  }

  predicate AllTrees(items: seq<Json>) {
    forall i | 0 <= i < |items| :: Utf8Tree(items[i])
  }

  lemma AllTreesSplit(items: seq<Json>)
    requires items != []
    ensures AllTrees(items) <==> AllTrees(items[..|items| - 1]) && Utf8Tree(items[|items| - 1])
  {
    var init := items[..|items| - 1];
    if AllTrees(init) && Utf8Tree(items[|items| - 1]) {
      forall i | 0 <= i < |items|
        ensures Utf8Tree(items[i])
      {
        assert i < |init| ==> Utf8Tree(init[i]);
      }
    }
  }

  lemma {:induction false} ItemsUtf8(items: seq<Json>)
    ensures Utf8(PrintItems(items)) <==> AllTrees(items)
  {
    if items != [] {
      AllTreesSplit(items);
      PrintUtf8(items[|items| - 1]);
      if |items| > 1 {
        ItemsUtf8(items[..|items| - 1]);
        ItemsStep(items);
      }
    }
  }

  lemma MemberUtf8(m: Member)
    requires Utf8(Print(m.value)) <==> Utf8Tree(m.value)
    ensures Utf8(PrintMember(m)) <==> Utf8Member(m)
  {
    QuotedUtf8(m.key);
    AsciiSplit(Quoted(m.key), COLON, Print(m.value));
    assert PrintMember(m) == Quoted(m.key) + ([COLON] + Print(m.value));
  }

  lemma MembersStep(members: seq<Member>)
    requires |members| > 1
    ensures var init, last := members[..|members| - 1], members[|members| - 1];
            Utf8(PrintMembers(members)) <==> Utf8(PrintMembers(init)) && Utf8(PrintMember(last))
  {
    var init, last := members[..|members| - 1], members[|members| - 1];
    AsciiSplit(PrintMembers(init), COMMA, PrintMember(last));
    assert PrintMembers(members) == PrintMembers(init) + ([COMMA] + PrintMember(last));
  }

  predicate AllMembers(members: seq<Member>) {
    forall i | 0 <= i < |members| :: Utf8Member(members[i])
  }

  lemma AllMembersSplit(members: seq<Member>)
    requires members != []
    ensures AllMembers(members) <==> AllMembers(members[..|members| - 1]) && Utf8Member(members[|members| - 1])
  {
    var init := members[..|members| - 1];
    if AllMembers(init) && Utf8Member(members[|members| - 1]) {
      forall i | 0 <= i < |members|
        ensures Utf8Member(members[i])
      {
        assert i < |init| ==> Utf8Member(init[i]);
      }
    }
  }

  lemma {:induction false} MembersUtf8(members: seq<Member>)
    ensures Utf8(PrintMembers(members)) <==> AllMembers(members)
  {
    if members != [] {
      var last := members[|members| - 1];
      AllMembersSplit(members);
      PrintUtf8(last.value);
      MemberUtf8(last);
      if |members| > 1 {
        MembersUtf8(members[..|members| - 1]);
        MembersStep(members);
      }
    }
  }

  // ---------------------------------------------------------------- the report

  lemma KeyUtf8(key: Term, value: Json)
    ensures Utf8Member(Entry(key, value)) <==> Utf8Tree(value)
  {
    TermAscii(key);
    AsciiIsUtf8(Ascii(key));
  }

  lemma TermAscii(w: Term)
    ensures Ascii7(Ascii(w))
  {
    forall i | 0 <= i < |w|
      ensures Ascii(w)[i] < 0x80
    {
      assert PlainChar(w[i]);
    }
  }

  ghost predicate PathsUtf8(d: Duplicates) {
    forall i | 0 <= i < |d.paths| :: Utf8(d.paths[i])
  }

  lemma ListUtf8(d: Duplicates)
    ensures Utf8Tree(List(PathTexts(d.paths))) <==> PathsUtf8(d)
  {
    var texts := PathTexts(d.paths);
    forall i | 0 <= i < |d.paths|
      ensures Utf8Tree(texts[i]) <==> Utf8(d.paths[i])
    {
    }
    if Utf8Tree(List(texts)) {
      forall i | 0 <= i < |d.paths|
        ensures Utf8(d.paths[i])
      {
        assert Utf8Tree(texts[i]);
      }
    }
  }

  lemma GroupUtf8(d: Duplicates)
    ensures Utf8Tree(Object(GroupMembers(d))) <==> PathsUtf8(d)
  {
    var ms := GroupMembers(d);
    KeyUtf8(SIZE, Number(d.size));
    KeyUtf8(FILES, List(PathTexts(d.paths)));
    ListUtf8(d);
    assert Utf8Tree(Object(ms)) <==> Utf8Member(ms[0]) && Utf8Member(ms[1]);
  }

  lemma GroupsUtf8(ds: seq<Duplicates>)
    ensures Utf8Tree(List(GroupTrees(ds))) <==> forall k | 0 <= k < |ds| :: PathsUtf8(ds[k])
  {
    var trees := GroupTrees(ds);
    forall k | 0 <= k < |ds|
      ensures Utf8Tree(trees[k]) <==> PathsUtf8(ds[k])
    {
      GroupUtf8(ds[k]);
    }
    if Utf8Tree(List(trees)) {
      forall k | 0 <= k < |ds|
        ensures PathsUtf8(ds[k])
      {
        assert Utf8Tree(trees[k]);
      }
    }
  }

  lemma StatisticsUtf8(t: Totals)
    ensures Utf8Tree(Object(StatisticMembers(t)))
  {
    var ms := StatisticMembers(t);
    forall i | 0 <= i < |ms|
      ensures Utf8Member(ms[i])
    {
      assert ms[i].value.Number? && exists key: Term :: ms[i].key == Ascii(key);
      var key: Term :| ms[i].key == Ascii(key);
      KeyUtf8(key, ms[i].value);
    }
  }

  lemma TermUtf8(key: Term, value: Term)
    ensures Utf8Member(Entry(key, Text(Ascii(value))))
  {
    TermAscii(value);
    AsciiIsUtf8(Ascii(value));
    KeyUtf8(key, Text(Ascii(value)));
  }

  /** The report is UTF-8, and so a JSON text that may be exchanged between systems, if and only if every path in it is: the
      writer copies bytes from 0x80 on as they are, and file names may hold any. */
  lemma ReportUtf8Iff(algorithm: Algorithm, t: Totals, ds: seq<Duplicates>)
    ensures Utf8(ReportText(algorithm, t, ds)) <==> forall k, i | 0 <= k < |ds| && 0 <= i < |ds[k].paths| :: Utf8(ds[k].paths[i])
  {
    var ms := DocumentMembers(algorithm, t, ds);
    TermUtf8(VERSION, VERSION_NUMBER);
    TermUtf8(TOOL, TOOL_NAME);
    TermUtf8(ALGORITHM, AlgorithmName(algorithm));
    StatisticsUtf8(t);
    KeyUtf8(STATS, Object(StatisticMembers(t)));
    GroupsUtf8(ds);
    KeyUtf8(GROUPS, List(GroupTrees(ds)));
    assert Utf8Tree(Document(algorithm, t, ds)) <==> forall k | 0 <= k < |ds| :: PathsUtf8(ds[k]) by {
      assert |ms| == 5 && Document(algorithm, t, ds) == Object(ms);
      assert Utf8Tree(Object(ms))
             <==> Utf8Member(ms[0]) && Utf8Member(ms[1]) && Utf8Member(ms[2]) && Utf8Member(ms[3]) && Utf8Member(ms[4]);
    }
    PrintUtf8(Document(algorithm, t, ds));
    AsciiSplit(Print(Document(algorithm, t, ds)), NEWLINE, []);
    assert ReportText(algorithm, t, ds) == Print(Document(algorithm, t, ds)) + ([NEWLINE] + []);
  }

  /** The smallest failing input: a report of two paths, one of them the single byte 0xFF. A reader that takes bytes as they
      come recovers both paths, but the report is not UTF-8. */
  lemma ReportNotUtf8(algorithm: Algorithm, t: Totals, size: nat)
    ensures var text := ReportText(algorithm, t, [Duplicates(size, [[SOLIDUS], [0xFF]])]);
            !Utf8(text) && Recover(text) == Some([Duplicates(size, [[SOLIDUS], [0xFF]])])
  {
    var ds := [Duplicates(size, [[SOLIDUS], [0xFF]])];
    ReportUtf8Iff(algorithm, t, ds);
    ReportRecovered(algorithm, t, ds);
    assert ds[0].paths[1] == [0xFF] && !Utf8([0xFF]);
  }
}
