// The name filter: newline-separated pattern lists, split in place, and the two acceptance tests.
module Filter {
  import opened Entries
  import opened CStrings
  import opened FileTree

  const NEWLINE: Byte := 10

  /** The lines of a list, an empty one included wherever two newlines meet or one starts or ends the list. */
  function Lines(list: seq<Byte>): (lines: seq<seq<Byte>>)
    ensures lines != []
  {
    if list == [] then [[]]
    else
      var rest := Lines(list[1..]);
      if list[0] == NEWLINE then [[]] + rest else [[list[0]] + rest[0]] + rest[1..]
  }

  function Joined(lines: seq<seq<Byte>>): seq<Byte>
    requires lines != []
  {
    if |lines| == 1 then lines[0] else lines[0] + [NEWLINE] + Joined(lines[1..])
  }

  lemma {:induction false} JoinUndoesSplit(list: seq<Byte>)
    ensures Joined(Lines(list)) == list
  {
    if list != [] {
      var rest := Lines(list[1..]);
      JoinUndoesSplit(list[1..]);
      if list[0] == NEWLINE {
        assert Lines(list)[1..] == rest;
      } else if |rest| > 1 {
        assert Lines(list)[1..] == rest[1..];
      }
    }
  }

  lemma {:induction false} LinesStart(line: seq<Byte>, rest: seq<Byte>)
    requires NEWLINE !in line
    ensures Lines(line + rest) == [line + Lines(rest)[0]] + Lines(rest)[1..]
  {
    if line == [] {
      assert line + rest == rest && line + Lines(rest)[0] == Lines(rest)[0];
    } else {
      LinesStart(line[1..], rest);
      assert (line + rest)[1..] == line[1..] + rest;
      assert line[0] in line;
      assert [line[0]] + (line[1..] + Lines(rest)[0]) == line + Lines(rest)[0];
    }
  }

  /** Together with JoinUndoesSplit: splitting and joining are inverse between all lists and all nonempty sequences of
      lines, so the split is the only one whose lines hold no newline. */
  lemma {:induction false} SplitUndoesJoin(lines: seq<seq<Byte>>)
    requires lines != [] && forall k | 0 <= k < |lines| :: NEWLINE !in lines[k]
    ensures Lines(Joined(lines)) == lines
  {
    if |lines| == 1 {
      LinesStart(lines[0], []);
      assert lines[0] + [] == lines[0];
    } else {
      SplitUndoesJoin(lines[1..]);
      var rest := [NEWLINE] + Joined(lines[1..]);
      LinesStart(lines[0], rest);
      assert lines[0] + rest == Joined(lines);
      assert rest[1..] == Joined(lines[1..]);
      assert Lines(rest) == [[]] + lines[1..];
      assert lines[0] + [] == lines[0];
    }
  }

  /** The patterns a list stands for. A missing list and an empty one are both empty here. */
  function PatternsOf(list: seq<Byte>): seq<seq<Byte>> {
    if list == [] then [] else Lines(list)
  }

  /** The buffer once every newline has become a terminator. */
  function Blanked(list: seq<Byte>): seq<Byte> {
    seq(|list| + 1, i requires 0 <= i <= |list| => if i == |list| || list[i] == NEWLINE then NUL else list[i])
  }

  /** The offsets that start a line after position i. */
  function LaterStarts(list: seq<Byte>, i: nat): seq<nat>
    requires i <= |list|
    decreases |list| - i
  {
    if i == |list| then []
    else if list[i] == NEWLINE then [i + 1] + LaterStarts(list, i + 1)
    else LaterStarts(list, i + 1)
  }

  /** The strings that offsets into a buffer stand for. */
  ghost predicate Shows(buffer: seq<Byte>, offsets: seq<nat>, lines: seq<seq<Byte>>) {
    |offsets| == |lines| &&
    forall k | 0 <= k < |offsets| :: offsets[k] <= |buffer| && CString(buffer[offsets[k]..]) == lines[k]
  }

  lemma BlankedString(list: seq<Byte>, i: nat)
    requires i <= |list| && NUL !in list
    ensures CString(Blanked(list)[i..]) ==
            if i == |list| || list[i] == NEWLINE then [] else [list[i]] + CString(Blanked(list)[i + 1..])
  {
    assert Blanked(list)[i..][1..] == Blanked(list)[i + 1..];
    assert i < |list| ==> list[i] in list;
  }

  lemma {:induction false} OffsetsShowLines(list: seq<Byte>, i: nat)
    requires i <= |list| && NUL !in list
    ensures Shows(Blanked(list), [i] + LaterStarts(list, i), Lines(list[i..]))
    decreases |list| - i
  {
    BlankedString(list, i);
    if i < |list| {
      OffsetsShowLines(list, i + 1);
      assert list[i..][1..] == list[i + 1..];
      var later := [i + 1] + LaterStarts(list, i + 1);
      assert later[0] == i + 1;
      if list[i] != NEWLINE {
        assert ([i] + LaterStarts(list, i))[1..] == later[1..];
      }
    }
  }

  /** The first pass: one pattern more than there are newlines. */
  method CountLines(buffer: array<Byte>, length: nat) returns (count: nat)
    requires length <= buffer.Length
    ensures count == 1 + |LaterStarts(buffer[..length], 0)|
  {
    ghost var list := buffer[..length];
    count := 1;
    for index := 0 to length
      invariant count + |LaterStarts(list, index)| == 1 + |LaterStarts(list, 0)|
    {
      assert list[index] == buffer[index];
      if buffer[index] == NEWLINE {
        count := count + 1;
      }
    }
  }

  /** The second pass up to index: the offsets written so far and those to come are the offsets of all lines. */
  ghost predicate SplitUpTo(list: seq<Byte>, buffer: seq<Byte>, offsets: seq<nat>, index: nat) {
    && index <= |list|
    && buffer == Blanked(list)[..index] + list[index..] + [NUL]
    && offsets + LaterStarts(list, index) == [0] + LaterStarts(list, 0)
  }

  lemma SplitStep(list: seq<Byte>, buffer: seq<Byte>, offsets: seq<nat>, index: nat)
    requires SplitUpTo(list, buffer, offsets, index) && index < |list|
    ensures buffer[index] == list[index]
    ensures list[index] == NEWLINE ==> |offsets| < 1 + |LaterStarts(list, 0)|
    ensures list[index] == NEWLINE ==> SplitUpTo(list, buffer[index := NUL], offsets + [index + 1], index + 1)
    ensures list[index] != NEWLINE ==> SplitUpTo(list, buffer, offsets, index + 1)
  {
    assert list[index..] == [list[index]] + list[index + 1..];
    assert Blanked(list)[..index + 1] == Blanked(list)[..index] + [Blanked(list)[index]];
  }

  lemma SplitDone(list: seq<Byte>, buffer: seq<Byte>, offsets: seq<nat>)
    requires SplitUpTo(list, buffer, offsets, |list|) && NUL !in list
    ensures |offsets| == 1 + |LaterStarts(list, 0)| && Shows(buffer, offsets, Lines(list))
  {
    OffsetsShowLines(list, 0);
    assert list[0..] == list;
    assert buffer == Blanked(list) && offsets == [0] + LaterStarts(list, 0);
  }

  /** Copies the list, counts its lines, then ends each line in place and notes where the next one starts. */
  method CountAndSplit(list: seq<Byte>) returns (buffer: array<Byte>, patterns: array<nat>, count: nat)
    requires NUL !in list
    ensures fresh(buffer) && fresh(patterns)
    ensures count == patterns.Length && Shows(buffer[..], patterns[..], PatternsOf(list))
  {
    if |list| == 0 {
      return new Byte[0], new nat[0], 0;
    }
    buffer := new Byte[|list| + 1](i => if 0 <= i < |list| then list[i] else NUL);
    assert buffer[..|list|] == list;
    count := CountLines(buffer, |list|);
    patterns := new nat[count];
    patterns[0] := 0;
    var written := 1;
    assert patterns[..1] == [0] && buffer[..] == list[0..] + [NUL];
    for index := 0 to |list|
      invariant written <= count == patterns.Length == 1 + |LaterStarts(list, 0)|
      invariant SplitUpTo(list, buffer[..], patterns[..written], index)
    {
      ghost var b, p := buffer[..], patterns[..written];
      SplitStep(list, b, p, index);
      if buffer[index] == NEWLINE {
        buffer[index] := NUL;
        assert buffer[..] == b[index := NUL];
        if written < count {
          patterns[written] := index + 1;
          written := written + 1;
          assert patterns[..written] == p + [index + 1];
        }
      }
    }
    SplitDone(list, buffer[..], patterns[..written]);
    assert patterns[..] == patterns[..written];
  }

  /** Shell pattern matching of a pattern against a name. */
  type Fnmatch = (seq<Byte>, seq<Byte>) -> bool

  predicate SomeMatch(matches: Fnmatch, patterns: seq<seq<Byte>>, name: seq<Byte>) {
    exists k :: 0 <= k < |patterns| && matches(patterns[k], name)
  }

  predicate DirectoryAccepted(matches: Fnmatch, excludes: seq<Byte>, name: seq<Byte>) {
    !SomeMatch(matches, PatternsOf(excludes), name)
  }

  predicate FileAccepted(matches: Fnmatch, includes: seq<Byte>, excludes: seq<Byte>, name: seq<Byte>) {
    && !SomeMatch(matches, PatternsOf(excludes), name)
    && (includes == [] || SomeMatch(matches, PatternsOf(includes), name))
  }

  class NameFilter {
    const includeBuffer: array<Byte>
    const includePatterns: array<nat>
    const includeCount: nat
    const excludeBuffer: array<Byte>
    const excludePatterns: array<nat>
    const excludeCount: nat

    /** The filter holds exactly these two lists. */
    ghost predicate Holds(includes: seq<Byte>, excludes: seq<Byte>)
      reads includeBuffer, includePatterns, excludeBuffer, excludePatterns
    {
      && includeCount == includePatterns.Length && excludeCount == excludePatterns.Length
      && Shows(includeBuffer[..], includePatterns[..], PatternsOf(includes))
      && Shows(excludeBuffer[..], excludePatterns[..], PatternsOf(excludes))
    }

    constructor (includes: seq<Byte>, excludes: seq<Byte>)
      requires NUL !in includes && NUL !in excludes
      ensures Holds(includes, excludes)
    {
      var buffer, patterns, count := CountAndSplit(includes);
      includeBuffer, includePatterns, includeCount := buffer, patterns, count;
      buffer, patterns, count := CountAndSplit(excludes);
      excludeBuffer, excludePatterns, excludeCount := buffer, patterns, count;
    }

    static method MatchesAny(matches: Fnmatch, buffer: array<Byte>, patterns: array<nat>, count: nat, name: seq<Byte>,
                             ghost lines: seq<seq<Byte>>)
      returns (found: bool)
      requires count == patterns.Length && Shows(buffer[..], patterns[..], lines)
      ensures found <==> SomeMatch(matches, lines, name)
    {
      for index := 0 to count
        invariant forall k | 0 <= k < index :: !matches(lines[k], name)
      {
        assert patterns[..][index] <= |buffer[..]| && CString(buffer[..][patterns[..][index]..]) == lines[index];
        if matches(CString(buffer[patterns[index]..]), name) {
          return true;
        }
      }
      return false;
    }

    method AcceptsFile(matches: Fnmatch, name: seq<Byte>, ghost includes: seq<Byte>, ghost excludes: seq<Byte>)
      returns (accepted: bool)
      requires Holds(includes, excludes)
      ensures accepted <==> FileAccepted(matches, includes, excludes, name)
      ensures forall cfg: Config :: accepted <==> Filtered(cfg, matches, includes, excludes).acceptsFile(name)
    {
      if excludeCount > 0 {
        var excluded := MatchesAny(matches, excludeBuffer, excludePatterns, excludeCount, name, PatternsOf(excludes));
        if excluded {
          return false;
        }
      }
      if includeCount > 0 {
        var included := MatchesAny(matches, includeBuffer, includePatterns, includeCount, name, PatternsOf(includes));
        if !included {
          return false;
        }
      }
      return true;
    }

    method AcceptsDirectory(matches: Fnmatch, name: seq<Byte>, ghost includes: seq<Byte>, ghost excludes: seq<Byte>)
      returns (accepted: bool)
      requires Holds(includes, excludes)
      ensures accepted <==> DirectoryAccepted(matches, excludes, name)
      ensures forall cfg: Config :: accepted <==> Filtered(cfg, matches, includes, excludes).acceptsDirectory(name)
    {
      if excludeCount > 0 {
        var excluded := MatchesAny(matches, excludeBuffer, excludePatterns, excludeCount, name, PatternsOf(excludes));
        if excluded {
          return false;
        }
      }
      return true;
    }
  }

  /** The walk's configuration without a filter, and with one. */
  function Unfiltered(cfg: Config): Config {
    cfg.(acceptsFile := _ => true, acceptsDirectory := _ => true)
  }

  function Filtered(cfg: Config, matches: Fnmatch, includes: seq<Byte>, excludes: seq<Byte>): Config {
    cfg.(acceptsFile := (name: Name) => FileAccepted(matches, includes, excludes, name),
         acceptsDirectory := (name: Name) => DirectoryAccepted(matches, excludes, name))
  }

  /** What a filter does to a walk: of the files and the directories that the walk would record and enter without one, it
      leaves exactly those whose names it accepts, and it hides no error. */
  lemma FilterRestrictsWalk(cfg: Config, matches: Fnmatch, includes: seq<Byte>, excludes: seq<Byte>, root: Root, directory: Path,
                            e: Dirent, c: NodeId)
    ensures var walk := Filtered(cfg, matches, includes, excludes);
            && FileOf(walk, directory, e)
               == (if FileAccepted(matches, includes, excludes, e.name) then FileOf(Unfiltered(cfg), directory, e) else [])
            && (LeadsTo(walk, root, e, c) <==> DirectoryAccepted(matches, excludes, e.name) && LeadsTo(Unfiltered(cfg), root, e, c))
            && (EntryFault(walk, directory, e) <==> EntryFault(Unfiltered(cfg), directory, e))
  {
  }
}
