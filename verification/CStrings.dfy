// NUL-terminated strings inside byte buffers.
module CStrings {
  import opened Entries

  const NUL: Byte := 0

  /** The C string that starts a buffer: the bytes before the first NUL, or all of them without one. */
  function CString(buffer: seq<Byte>): seq<Byte> {
    if buffer == [] || buffer[0] == NUL then [] else [buffer[0]] + CString(buffer[1..])
  }

  lemma {:induction false} CStringEnds(s: seq<Byte>, rest: seq<Byte>)
    requires NUL !in s
    ensures CString(s + [NUL] + rest) == s
  {
    var buffer := s + [NUL] + rest;
    if s != [] {
      assert buffer[0] == s[0] != NUL;
      assert buffer[1..] == s[1..] + [NUL] + rest;
      CStringEnds(s[1..], rest);
    }
  }
}
