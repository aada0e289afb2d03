// JSON texts over bytes: how the report is spelled, and a reader for RFC 8259 texts built from objects, arrays, strings
// and natural numbers. The reader allows white space wherever the grammar does and every escape that names one byte.
module JsonText {
  import opened Entries

  const QUOTE: Byte := 34
  const COMMA: Byte := 44
  const SOLIDUS: Byte := 47
  const ZERO: Byte := 48
  const COLON: Byte := 58
  const LEFT_BRACKET: Byte := 91
  const BACKSLASH: Byte := 92
  const RIGHT_BRACKET: Byte := 93
  const LEFT_BRACE: Byte := 123
  const RIGHT_BRACE: Byte := 125
  const LOWER_B: Byte := 98
  const LOWER_F: Byte := 102
  const LOWER_N: Byte := 110
  const LOWER_R: Byte := 114
  const LOWER_T: Byte := 116
  const LOWER_U: Byte := 117

  datatype Json = Number(n: nat) | Text(bytes: seq<Byte>) | List(items: seq<Json>) | Object(members: seq<Member>)

  datatype Member = Member(key: seq<Byte>, value: Json)

  // ---------------------------------------------------------------- spelling

  function Decimal(n: nat): seq<Byte> {
    if n < 10 then [ZERO + n] else Decimal(n / 10) + [ZERO + n % 10]
  }

  function HexDigit(d: nat): Byte
    requires d < 16
  {
    if d < 10 then ZERO + d else LOWER_B - 1 + d - 10
  }

  /** The last width hexadecimal digits of n. */
  function Hex(n: nat, width: nat): seq<Byte> {
    if width == 0 then [] else Hex(n / 16, width - 1) + [HexDigit(n % 16)]
  }

  function Escape(b: Byte): seq<Byte> {
    if b == QUOTE || b == BACKSLASH then [BACKSLASH, b]
    else if b == 8 then [BACKSLASH, LOWER_B]
    else if b == 12 then [BACKSLASH, LOWER_F]
    else if b == 10 then [BACKSLASH, LOWER_N]
    else if b == 13 then [BACKSLASH, LOWER_R]
    else if b == 9 then [BACKSLASH, LOWER_T]
    else if b < 0x20 then [BACKSLASH, LOWER_U] + Hex(b, 4)
    else [b]
  }

  function Escaped(s: seq<Byte>): seq<Byte> {
    if s == [] then [] else Escape(s[0]) + Escaped(s[1..])
  }

  function Quoted(s: seq<Byte>): seq<Byte> {
    [QUOTE] + Escaped(s) + [QUOTE]
  }

  function Print(v: Json): seq<Byte> {
    match v
    case Number(n) => Decimal(n)
    case Text(s) => Quoted(s)
    case List(items) => [LEFT_BRACKET] + PrintItems(items) + [RIGHT_BRACKET]
    case Object(members) => [LEFT_BRACE] + PrintMembers(members) + [RIGHT_BRACE]
  }

  function PrintItems(items: seq<Json>): seq<Byte> {
    if items == [] then []
    else if |items| == 1 then Print(items[0])
    else PrintItems(items[..|items| - 1]) + [COMMA] + Print(items[|items| - 1])
  }

  function PrintMember(m: Member): seq<Byte> {
    Quoted(m.key) + [COLON] + Print(m.value)
  }

  function PrintMembers(members: seq<Member>): seq<Byte> {
    if members == [] then []
    else if |members| == 1 then PrintMember(members[0])
    else PrintMembers(members[..|members| - 1]) + [COMMA] + PrintMember(members[|members| - 1])
  }

  // ---------------------------------------------------------------- reading

  datatype Reading<T> = Malformed | Got(value: T, rest: seq<Byte>)

  predicate IsSpace(b: Byte) {
    b == 32 || b == 9 || b == 10 || b == 13
  }

  predicate IsDigit(b: Byte) {
    ZERO <= b < ZERO + 10
  }

  function Skip(t: seq<Byte>): (r: seq<Byte>)
    ensures |r| <= |t|
  {
    if t != [] && IsSpace(t[0]) then Skip(t[1..]) else t
  }

  function ReadDigits(t: seq<Byte>, value: nat): (r: Reading<nat>)
    ensures r.Got? && |r.rest| <= |t|
  {
    if t != [] && IsDigit(t[0]) then ReadDigits(t[1..], value * 10 + (t[0] - ZERO)) else Got(value, t)
  }

  /** A number without sign, fraction or exponent; a leading zero stands alone. */
  function ReadNumber(t: seq<Byte>): (r: Reading<nat>)
    ensures r.Got? ==> |r.rest| < |t|
  {
    if t == [] || !IsDigit(t[0]) then Malformed
    else if t[0] == ZERO then Got(0, t[1..])
    else ReadDigits(t[1..], t[0] - ZERO)
  }

  function HexValue(b: Byte): int {
    if IsDigit(b) then b - ZERO
    else if 97 <= b < 103 then b - 87
    else if 65 <= b < 71 then b - 55
    else -1
  }

  /** What follows a backslash. A code beyond ASCII would stand for several bytes and is not read. */
  function ReadEscape(t: seq<Byte>): (r: Reading<Byte>)
    ensures r.Got? ==> |r.rest| < |t|
  {
    if t == [] then Malformed
    else if t[0] == QUOTE || t[0] == BACKSLASH || t[0] == SOLIDUS then Got(t[0], t[1..])
    else if t[0] == LOWER_B then Got(8, t[1..])
    else if t[0] == LOWER_F then Got(12, t[1..])
    else if t[0] == LOWER_N then Got(10, t[1..])
    else if t[0] == LOWER_R then Got(13, t[1..])
    else if t[0] == LOWER_T then Got(9, t[1..])
    else if t[0] == LOWER_U && |t| > 4 && t[1] == ZERO && t[2] == ZERO && 0 <= HexValue(t[3]) < 8 && 0 <= HexValue(t[4])
    then Got(16 * HexValue(t[3]) + HexValue(t[4]), t[5..])
    else Malformed
  }

  /** The rest of a string, from behind its opening quotation mark to behind the closing one. */
  function ReadChars(t: seq<Byte>): (r: Reading<seq<Byte>>)
    ensures r.Got? ==> |r.rest| < |t|
    decreases |t|
  {
    if t == [] || t[0] < 0x20 then Malformed
    else if t[0] == QUOTE then Got([], t[1..])
    else
      var first := if t[0] == BACKSLASH then ReadEscape(t[1..]) else Got(t[0], t[1..]);
      if first.Malformed? then Malformed
      else match ReadChars(first.rest)
        case Malformed => Malformed
        case Got(s, rest) => Got([first.value] + s, rest)
  }

  function ReadValue(t: seq<Byte>): (r: Reading<Json>)
    ensures r.Got? ==> |r.rest| < |t|
    decreases |t|, 0
  {
    var s := Skip(t);
    if s == [] then Malformed
    else if IsDigit(s[0]) then
      match ReadNumber(s) { case Malformed => Malformed case Got(n, rest) => Got(Number(n), rest) }
    else if s[0] == QUOTE then
      match ReadChars(s[1..]) { case Malformed => Malformed case Got(chars, rest) => Got(Text(chars), rest) }
    else if s[0] == LEFT_BRACKET then ReadList(s[1..])
    else if s[0] == LEFT_BRACE then ReadObject(s[1..])
    else Malformed
  }

  function ReadList(t: seq<Byte>): (r: Reading<Json>)
    ensures r.Got? ==> |r.rest| < |t|
    decreases |t|, 2
  {
    var s := Skip(t);
    if s != [] && s[0] == RIGHT_BRACKET then Got(List([]), s[1..])
    else match ReadItems(t)
      case Malformed => Malformed
      case Got(items, rest) => Got(List(items), rest)
  }

  function ReadItems(t: seq<Byte>): (r: Reading<seq<Json>>)
    ensures r.Got? ==> |r.rest| < |t|
    decreases |t|, 1
  {
    match ReadValue(t)
    case Malformed => Malformed
    case Got(v, rest) =>
      var s := Skip(rest);
      if s == [] then Malformed
      else if s[0] == RIGHT_BRACKET then Got([v], s[1..])
      else if s[0] != COMMA then Malformed
      else match ReadItems(s[1..])
        case Malformed => Malformed
        case Got(items, rest') => Got([v] + items, rest')
  }

  function ReadObject(t: seq<Byte>): (r: Reading<Json>)
    ensures r.Got? ==> |r.rest| < |t|
    decreases |t|, 2
  {
    var s := Skip(t);
    if s != [] && s[0] == RIGHT_BRACE then Got(Object([]), s[1..])
    else match ReadMembers(t)
      case Malformed => Malformed
      case Got(members, rest) => Got(Object(members), rest)
  }

  function ReadMember(t: seq<Byte>): (r: Reading<Member>)
    ensures r.Got? ==> |r.rest| < |t|
    decreases |t|, 0
  {
    var s := Skip(t);
    if s == [] || s[0] != QUOTE then Malformed
    else match ReadChars(s[1..])
      case Malformed => Malformed
      case Got(key, rest) =>
        var u := Skip(rest);
        if u == [] || u[0] != COLON then Malformed
        else match ReadValue(u[1..])
          case Malformed => Malformed
          case Got(v, rest') => Got(Member(key, v), rest')
  }

  function ReadMembers(t: seq<Byte>): (r: Reading<seq<Member>>)
    ensures r.Got? ==> |r.rest| < |t|
    decreases |t|, 1
  {
    match ReadMember(t)
    case Malformed => Malformed
    case Got(m, rest) =>
      var s := Skip(rest);
      if s == [] then Malformed
      else if s[0] == RIGHT_BRACE then Got([m], s[1..])
      else if s[0] != COMMA then Malformed
      else match ReadMembers(s[1..])
        case Malformed => Malformed
        case Got(members, rest') => Got([m] + members, rest')
  }

  /** A whole text: one value with nothing but white space behind it. */
  function Read(t: seq<Byte>): Reading<Json> {
    match ReadValue(t)
    case Malformed => Malformed
    case Got(v, rest) => if Skip(rest) == [] then Got(v, []) else Malformed
  }

  // ---------------------------------------------------------------- reading undoes spelling

  lemma {:induction false} DigitsReadBack(n: nat, rest: seq<Byte>)
    ensures Decimal(n) != [] && IsDigit(Decimal(n)[0]) && (Decimal(n)[0] == ZERO ==> n == 0)
    ensures ReadDigits((Decimal(n) + rest)[1..], Decimal(n)[0] - ZERO) == ReadDigits(rest, n)
  {
    if n < 10 {
      assert ([ZERO + n] + rest)[1..] == rest;
    } else {
      var q, digit := n / 10, n % 10;
      var tail := [ZERO + digit] + rest;
      DigitsReadBack(q, tail);
      assert Decimal(n) + rest == Decimal(q) + tail;
      assert tail[1..] == rest;
      assert ReadDigits(tail, q) == ReadDigits(rest, q * 10 + digit);
    }
  }

  lemma NumberReadsBack(n: nat, rest: seq<Byte>)
    requires rest == [] || !IsDigit(rest[0])
    ensures ReadNumber(Decimal(n) + rest) == Got(n, rest)
  {
    DigitsReadBack(n, rest);
    if n == 0 {
      assert (Decimal(0) + rest)[1..] == rest;
    }
  }

  lemma ControlReadsBack(b: Byte, rest: seq<Byte>)
    requires b < 0x20
    ensures Hex(b, 4) == [ZERO, ZERO, HexDigit(b / 16), HexDigit(b % 16)]
    ensures ReadEscape([LOWER_U] + Hex(b, 4) + rest) == Got(b, rest)
  {
    var n := b / 16;
    assert n < 2 && n / 16 == 0 && n % 16 == n;
    assert Hex(n, 3) == Hex(0, 2) + [HexDigit(n)];
    assert Hex(0, 2) == Hex(0, 1) + [ZERO] && Hex(0, 1) == Hex(0, 0) + [ZERO];
    var t := [LOWER_U] + Hex(b, 4) + rest;
    assert t == [LOWER_U, ZERO, ZERO, HexDigit(n), HexDigit(b % 16)] + rest;
    assert t[5..] == rest;
  }

  lemma EscapeReadsBack(b: Byte, rest: seq<Byte>)
    requires Escape(b)[0] == BACKSLASH
    ensures ReadEscape(Escape(b)[1..] + rest) == Got(b, rest)
  {
    var e := Escape(b);
    if |e| > 2 {
      ControlReadsBack(b, rest);
      assert e[1..] == [LOWER_U] + Hex(b, 4);
    } else {
      assert (e[1..] + rest)[1..] == rest;
    }
  }

  lemma EscapeStarts(b: Byte)
    ensures var e := Escape(b); e[0] >= 0x20 && e[0] != QUOTE && (e[0] != BACKSLASH ==> e == [b])
  {
  }

  lemma CharsGoOn(b: Byte, tail: seq<Byte>, s: seq<Byte>, rest: seq<Byte>)
    requires ReadChars(tail) == Got(s, rest)
    ensures ReadChars(Escape(b) + tail) == Got([b] + s, rest)
  {
    var e := Escape(b);
    var t := e + tail;
    EscapeStarts(b);
    assert t[0] == e[0] && t[1..] == e[1..] + tail;
    if e[0] == BACKSLASH {
      EscapeReadsBack(b, tail);
    } else {
      assert t[1..] == tail;
    }
  }

  lemma EscapedFirst(s: seq<Byte>, rest: seq<Byte>)
    requires s != []
    ensures Escaped(s) + [QUOTE] + rest == Escape(s[0]) + (Escaped(s[1..]) + [QUOTE] + rest)
  {
  }

  lemma {:induction false} CharsReadBack(s: seq<Byte>, rest: seq<Byte>)
    ensures ReadChars(Escaped(s) + [QUOTE] + rest) == Got(s, rest)
  {
    if s == [] {
      assert Escaped(s) + [QUOTE] + rest == [QUOTE] + rest;
    } else {
      var tail := Escaped(s[1..]) + [QUOTE] + rest;
      CharsReadBack(s[1..], rest);
      CharsGoOn(s[0], tail, s[1..], rest);
      EscapedFirst(s, rest);
      assert [s[0]] + s[1..] == s;
    }
  }

  /** The bytes between the quotation marks of a string, by the grammar of RFC 8259, section 7. */
  predicate Chars(t: seq<Byte>)
    decreases |t|
  {
    t == [] || (t[0] >= 0x20 && t[0] != QUOTE &&
    if t[0] == BACKSLASH then ReadEscape(t[1..]).Got? && Chars(ReadEscape(t[1..]).rest) else Chars(t[1..]))
  }

  /** Not a control byte, and not a quotation mark unless behind a backslash. */
  predicate GuardedAt(t: seq<Byte>, i: nat)
    requires i < |t|
  {
    t[i] >= 0x20 && (t[i] == QUOTE ==> i > 0 && t[i - 1] == BACKSLASH)
  }

  predicate Guarded(t: seq<Byte>) {
    forall i: nat | i < |t| :: GuardedAt(t, i)
  }

  lemma GuardedConcat(t: seq<Byte>, u: seq<Byte>)
    requires Guarded(t) && Guarded(u)
    ensures Guarded(t + u)
  {
    forall i: nat | i < |t + u|
      ensures GuardedAt(t + u, i)
    {
      if i < |t| {
        assert GuardedAt(t, i);
      } else {
        assert GuardedAt(u, i - |t|);
      }
    }
  }

  lemma EscapeGuarded(b: Byte)
    ensures Guarded(Escape(b))
  {
    if b < 0x20 {
      ControlReadsBack(b, []);
    }
  }

  lemma CharsAhead(b: Byte, t: seq<Byte>)
    requires Chars(t) && Guarded(t)
    ensures Chars(Escape(b) + t) && Guarded(Escape(b) + t)
  {
    var e := Escape(b);
    EscapeGuarded(b);
    GuardedConcat(e, t);
    EscapeStarts(b);
    assert (e + t)[1..] == e[1..] + t;
    if e[0] == BACKSLASH {
      EscapeReadsBack(b, t);
    } else {
      assert (e + t)[1..] == t;
    }
  }

  /** An escaped path is a legal string body: no raw quotation mark, backslash or control byte. */
  lemma {:induction false} EscapedIsChars(s: seq<Byte>)
    ensures Chars(Escaped(s)) && Guarded(Escaped(s))
  {
    if s != [] {
      EscapedIsChars(s[1..]);
      CharsAhead(s[0], Escaped(s[1..]));
    }
  }

  /** A value starts with a byte that is neither white space nor the end of a list. */
  lemma PrintStarts(v: Json)
    ensures var p := Print(v); p != [] && !IsSpace(p[0]) && p[0] != RIGHT_BRACKET
    ensures var p := Print(v); IsDigit(p[0]) <==> v.Number?
  {
    if v.Number? {
      DigitsReadBack(v.n, []);
    }
  }

  lemma {:induction false} ItemsFront(items: seq<Json>)
    requires |items| > 1
    ensures PrintItems(items) == Print(items[0]) + [COMMA] + PrintItems(items[1..])
  {
    var init, last := items[..|items| - 1], items[|items| - 1];
    if |items| == 2 {
      assert init == [items[0]] && items[1..] == [last];
    } else {
      ItemsFront(init);
      var others := items[1..];
      assert init[1..] == others[..|others| - 1];
      assert PrintItems(others) == PrintItems(init[1..]) + [COMMA] + Print(last);
    }
  }

  lemma {:induction false} MembersFront(members: seq<Member>)
    requires |members| > 1
    ensures PrintMembers(members) == PrintMember(members[0]) + [COMMA] + PrintMembers(members[1..])
  {
    var init, last := members[..|members| - 1], members[|members| - 1];
    if |members| == 2 {
      assert init == [members[0]] && members[1..] == [last];
    } else {
      MembersFront(init);
      var others := members[1..];
      assert init[1..] == others[..|others| - 1];
      assert PrintMembers(others) == PrintMembers(init[1..]) + [COMMA] + PrintMember(last);
    }
  }

  lemma ItemsEnd(t: seq<Byte>, v: Json, rest: seq<Byte>)
    requires ReadValue(t) == Got(v, [RIGHT_BRACKET] + rest)
    ensures ReadItems(t) == Got([v], rest)
  {
    assert ([RIGHT_BRACKET] + rest)[1..] == rest;
  }

  lemma ItemsGoOn(t: seq<Byte>, v: Json, tail: seq<Byte>, items: seq<Json>, rest: seq<Byte>)
    requires ReadValue(t) == Got(v, [COMMA] + tail) && ReadItems(tail) == Got(items, rest)
    ensures ReadItems(t) == Got([v] + items, rest)
  {
    assert ([COMMA] + tail)[1..] == tail;
  }

  lemma MembersEnd(t: seq<Byte>, m: Member, rest: seq<Byte>)
    requires ReadMember(t) == Got(m, [RIGHT_BRACE] + rest)
    ensures ReadMembers(t) == Got([m], rest)
  {
    assert ([RIGHT_BRACE] + rest)[1..] == rest;
  }

  lemma MembersGoOn(t: seq<Byte>, m: Member, tail: seq<Byte>, members: seq<Member>, rest: seq<Byte>)
    requires ReadMember(t) == Got(m, [COMMA] + tail) && ReadMembers(tail) == Got(members, rest)
    ensures ReadMembers(t) == Got([m] + members, rest)
  {
    assert ([COMMA] + tail)[1..] == tail;
  }

  lemma MemberReads(key: seq<Byte>, value: seq<Byte>, v: Json, rest: seq<Byte>)
    requires ReadValue(value) == Got(v, rest)
    ensures ReadMember(Quoted(key) + [COLON] + value) == Got(Member(key, v), rest)
  {
    var t, after := Quoted(key) + [COLON] + value, [COLON] + value;
    CharsReadBack(key, after);
    assert t[0] == QUOTE && t[1..] == Escaped(key) + [QUOTE] + after;
    assert after[1..] == value;
  }

  lemma Regroup(a: seq<Byte>, b: Byte, c: seq<Byte>, d: Byte, rest: seq<Byte>)
    ensures a + [b] + c + [d] + rest == a + ([b] + (c + [d] + rest))
    ensures a + [d] + rest == a + ([d] + rest)
  {
  }

  lemma FirstByteDecides(t: seq<Byte>)
    requires t != [] && !IsSpace(t[0])
    ensures Skip(t) == t
    ensures IsDigit(t[0]) && ReadNumber(t).Got? ==> ReadValue(t) == Got(Number(ReadNumber(t).value), ReadNumber(t).rest)
    ensures t[0] == QUOTE && ReadChars(t[1..]).Got? ==> ReadValue(t) == Got(Text(ReadChars(t[1..]).value), ReadChars(t[1..]).rest)
    ensures t[0] == LEFT_BRACKET ==> ReadValue(t) == ReadList(t[1..])
    ensures t[0] == LEFT_BRACE ==> ReadValue(t) == ReadObject(t[1..])
  {
  }

  lemma NumberReads(n: nat, rest: seq<Byte>)
    requires rest == [] || !IsDigit(rest[0])
    ensures ReadValue(Decimal(n) + rest) == Got(Number(n), rest)
  {
    DigitsReadBack(n, rest);
    NumberReadsBack(n, rest);
    FirstByteDecides(Decimal(n) + rest);
  }

  lemma TextReads(s: seq<Byte>, rest: seq<Byte>)
    ensures ReadValue(Quoted(s) + rest) == Got(Text(s), rest)
  {
    var t := Quoted(s) + rest;
    CharsReadBack(s, rest);
    assert t[0] == QUOTE && t[1..] == Escaped(s) + [QUOTE] + rest;
    FirstByteDecides(t);
  }

  lemma BracketReads(t: seq<Byte>)
    ensures ReadValue([LEFT_BRACKET] + t) == ReadList(t) && ReadValue([LEFT_BRACE] + t) == ReadObject(t)
  {
    assert ([LEFT_BRACKET] + t)[1..] == t && ([LEFT_BRACE] + t)[1..] == t;
    FirstByteDecides([LEFT_BRACKET] + t);
    FirstByteDecides([LEFT_BRACE] + t);
  }

  lemma BracketText(items: seq<Json>, members: seq<Member>, rest: seq<Byte>)
    ensures Print(List(items)) + rest == [LEFT_BRACKET] + (PrintItems(items) + [RIGHT_BRACKET] + rest)
    ensures Print(Object(members)) + rest == [LEFT_BRACE] + (PrintMembers(members) + [RIGHT_BRACE] + rest)
  {
  }

  lemma {:induction false} ReadsBack(v: Json, rest: seq<Byte>)
    requires rest == [] || !IsDigit(rest[0])
    ensures ReadValue(Print(v) + rest) == Got(v, rest)
    decreases v, 0
  {
    match v
    case Number(n) =>
      NumberReads(n, rest);
    case Text(s) =>
      TextReads(s, rest);
    case List(items) =>
      BracketText(items, [], rest);
      BracketReads(PrintItems(items) + [RIGHT_BRACKET] + rest);
      ListReadsBack(items, rest);
    case Object(members) =>
      BracketText([], members, rest);
      BracketReads(PrintMembers(members) + [RIGHT_BRACE] + rest);
      ObjectReadsBack(members, rest);
  }

  lemma {:induction false} ListReadsBack(items: seq<Json>, rest: seq<Byte>)
    ensures ReadList(PrintItems(items) + [RIGHT_BRACKET] + rest) == Got(List(items), rest)
    decreases items, 2
  {
    var t := PrintItems(items) + [RIGHT_BRACKET] + rest;
    if items == [] {
      assert t == [RIGHT_BRACKET] + rest;
    } else {
      ItemsReadBack(items, rest);
      PrintStarts(items[0]);
      if |items| > 1 {
        ItemsFront(items);
      }
      assert t[0] == Print(items[0])[0];
    }
  }

  lemma {:induction false} ItemsReadBack(items: seq<Json>, rest: seq<Byte>)
    requires items != []
    ensures ReadItems(PrintItems(items) + [RIGHT_BRACKET] + rest) == Got(items, rest)
    decreases items, 1
  {
    if |items| == 1 {
      ReadsBack(items[0], [RIGHT_BRACKET] + rest);
      assert PrintItems(items) + [RIGHT_BRACKET] + rest == Print(items[0]) + ([RIGHT_BRACKET] + rest);
      ItemsEnd(PrintItems(items) + [RIGHT_BRACKET] + rest, items[0], rest);
      assert items == [items[0]];
    } else {
      ManyItemsReadBack(items, rest);
    }
  }

  lemma {:induction false} ManyItemsReadBack(items: seq<Json>, rest: seq<Byte>)
    requires |items| > 1
    ensures ReadItems(PrintItems(items) + [RIGHT_BRACKET] + rest) == Got(items, rest)
    decreases items, 0
  {
    var first, others := items[0], items[1..];
    var tail := PrintItems(others) + [RIGHT_BRACKET] + rest;
    ReadsBack(first, [COMMA] + tail);
    ItemsReadBack(others, rest);
    ItemsGoOn(Print(first) + ([COMMA] + tail), first, tail, others, rest);
    ItemsFront(items);
    Regroup(Print(first), COMMA, PrintItems(others), RIGHT_BRACKET, rest);
    assert items == [first] + others;
  }

  lemma {:induction false} ObjectReadsBack(members: seq<Member>, rest: seq<Byte>)
    ensures ReadObject(PrintMembers(members) + [RIGHT_BRACE] + rest) == Got(Object(members), rest)
    decreases members, 2
  {
    var t := PrintMembers(members) + [RIGHT_BRACE] + rest;
    if members == [] {
      assert t == [RIGHT_BRACE] + rest;
    } else {
      MembersReadBack(members, rest);
      if |members| > 1 {
        MembersFront(members);
      }
      assert t[0] == PrintMember(members[0])[0] == QUOTE;
    }
  }

  lemma {:induction false} MemberReadsBack(m: Member, rest: seq<Byte>)
    requires rest == [] || !IsDigit(rest[0])
    ensures ReadMember(PrintMember(m) + rest) == Got(m, rest)
    decreases m, 0
  {
    ReadsBack(m.value, rest);
    MemberReads(m.key, Print(m.value) + rest, m.value, rest);
    assert PrintMember(m) + rest == Quoted(m.key) + [COLON] + (Print(m.value) + rest);
  }

  lemma {:induction false} MembersReadBack(members: seq<Member>, rest: seq<Byte>)
    requires members != []
    ensures ReadMembers(PrintMembers(members) + [RIGHT_BRACE] + rest) == Got(members, rest)
    decreases members, 1
  {
    if |members| == 1 {
      MemberReadsBack(members[0], [RIGHT_BRACE] + rest);
      assert PrintMembers(members) + [RIGHT_BRACE] + rest == PrintMember(members[0]) + ([RIGHT_BRACE] + rest);
      MembersEnd(PrintMembers(members) + [RIGHT_BRACE] + rest, members[0], rest);
      assert members == [members[0]];
    } else {
      ManyMembersReadBack(members, rest);
    }
  }

  /** The text of several members, around the first comma. */
  lemma FirstMember(members: seq<Member>, rest: seq<Byte>)
    requires |members| > 1
    ensures PrintMembers(members) + [RIGHT_BRACE] + rest
            == PrintMember(members[0]) + ([COMMA] + (PrintMembers(members[1..]) + [RIGHT_BRACE] + rest))
  {
    MembersFront(members);
    Regroup(PrintMember(members[0]), COMMA, PrintMembers(members[1..]), RIGHT_BRACE, rest);
  }

  lemma {:induction false} ManyMembersReadBack(members: seq<Member>, rest: seq<Byte>)
    requires |members| > 1
    ensures ReadMembers(PrintMembers(members) + [RIGHT_BRACE] + rest) == Got(members, rest)
    decreases members, 0
  {
    var first, others := members[0], members[1..];
    var tail := PrintMembers(others) + [RIGHT_BRACE] + rest;
    MemberReadsBack(first, [COMMA] + tail);
    MembersReadBack(others, rest);
    MembersGoOn(PrintMember(first) + ([COMMA] + tail), first, tail, others, rest);
    FirstMember(members, rest);
    assert members == [first] + others;
  }

  /** Printing loses nothing: two trees with the same text are the same tree. */
  lemma PrintInjective(v: Json, w: Json)
    requires Print(v) == Print(w)
    ensures v == w
  {
    ReadsBack(v, []);
    ReadsBack(w, []);
    assert Print(v) + [] == Print(v) && Print(w) + [] == Print(w);
  }
}
