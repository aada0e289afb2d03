// The synchronous reader: open, then read one buffer at a time into the consumer.
module StreamReader {
  import opened Entries

  const STREAM_BUFFER_BYTES := 131072
  const EPERM := 1
  const EINTR := 4
  const EIO := 5

  type Errno = e: int | 0 < e witness 1

  type Chunk = seq<Byte>

  /** Decides, from the chunks fed so far, whether the consumer accepts one more. */
  type Acceptor = (seq<Chunk>, Chunk) -> bool

  datatype Opening = Opened | Refused(errno: Errno)

  datatype ReadEvent = Got(bytes: Chunk) | Failed(errno: Errno)

  /** What the kernel answers when one path is read: both open attempts, then the reads. */
  datatype FileScript = FileScript(noAtime: Opening, plain: Opening, events: seq<ReadEvent>)

  /** calls lists every chunk the consumer was called with, a rejected one included. */
  datatype Reading = Reading(ok: bool, errno: int, calls: seq<Chunk>)

  function Flat(calls: seq<Chunk>): seq<Byte> {
    if calls == [] then [] else Flat(calls[..|calls| - 1]) + calls[|calls| - 1]
  }

  /** A read list that has run out reads as end of file. */
  function Stream(events: seq<ReadEvent>, accepts: Acceptor, calls: seq<Chunk>): Reading {
    if events == [] then Reading(true, 0, calls)
    else match events[0]
      case Failed(errno) =>
        if errno == EINTR then Stream(events[1..], accepts, calls) else Reading(false, errno, calls)
      case Got(bytes) =>
        if bytes == [] then Reading(true, 0, calls)
        else if !accepts(calls, bytes) then Reading(false, EIO, calls + [bytes])
        else if |bytes| < STREAM_BUFFER_BYTES then Reading(true, 0, calls + [bytes])
        else Stream(events[1..], accepts, calls + [bytes])
  }

  /** The second attempt is made only when the first is refused for lack of permission. */
  function OpenReadOnly(noAtime: Opening, plain: Opening): Opening {
    if noAtime == Refused(EPERM) then plain else noAtime
  }

  function Consumed(script: FileScript, accepts: Acceptor, calls: seq<Chunk>): Reading {
    match OpenReadOnly(script.noAtime, script.plain)
    case Refused(errno) => Reading(false, errno, calls)
    case Opened => Stream(script.events, accepts, calls)
  }

  lemma {:induction false} StreamResolved(events: seq<ReadEvent>, accepts: Acceptor, calls: seq<Chunk>)
    ensures var r := Stream(events, accepts, calls); r.ok <==> r.errno == 0
  {
    if events != [] && (events[0].Failed? || (events[0].bytes != [] && accepts(calls, events[0].bytes))) {
      StreamResolved(events[1..], accepts, if events[0].Got? then calls + [events[0].bytes] else calls);
    }
  }

  lemma ConsumedResolved(script: FileScript, accepts: Acceptor, calls: seq<Chunk>)
    ensures var r := Consumed(script, accepts, calls); r.ok <==> r.errno == 0
  {
    StreamResolved(script.events, accepts, calls);
  }

  method ConsumeFile(script: FileScript, accepts: Acceptor, calls: seq<Chunk>) returns (ok: bool, errno: int, calls': seq<Chunk>)
    ensures Reading(ok, errno, calls') == Consumed(script, accepts, calls)
    ensures ok <==> errno == 0
  {
    calls' := calls;
    var opening := script.noAtime;
    if opening.Refused? && opening.errno == EPERM {
      opening := script.plain;
    }
    if opening.Refused? {
      return false, opening.errno, calls';
    }
    var next := 0;
    while true
      invariant next <= |script.events|
      invariant Stream(script.events[next..], accepts, calls') == Stream(script.events, accepts, calls)
      decreases |script.events| - next
    {
      if next == |script.events| {
        return true, 0, calls';
      }
      var event := script.events[next];
      assert script.events[next..][1..] == script.events[next + 1..];
      next := next + 1;
      if event.Failed? {
        if event.errno == EINTR {
          continue;
        }
        return false, event.errno, calls';
      }
      if event.bytes == [] {
        return true, 0, calls';
      }
      var accepted := accepts(calls', event.bytes);
      calls' := calls' + [event.bytes];
      if !accepted {
        return false, EIO, calls';
      }
      if |event.bytes| < STREAM_BUFFER_BYTES {
        return true, 0, calls';
      }
    }
  }

  /** The reads are those of a stable file from position pos on: in order, possibly partial, empty only at the end. */
  ghost predicate Serves(content: seq<Byte>, pos: nat, events: seq<ReadEvent>)
    decreases |events|
  {
    pos <= |content| &&
    if events == [] then pos == |content|
    else match events[0]
      case Failed(_) => Serves(content, pos, events[1..])
      case Got(bytes) =>
        && |bytes| <= STREAM_BUFFER_BYTES && pos + |bytes| <= |content|
        && bytes == content[pos..pos + |bytes|]
        && (bytes == [] ==> pos == |content|)
        && Serves(content, pos + |bytes|, events[1..])
  }

  /** The first read that does not fill the buffer stops before the end of the file. */
  predicate CutShort(content: seq<Byte>, pos: nat, events: seq<ReadEvent>)
    decreases |events|
  {
    events != [] &&
    match events[0]
      case Failed(_) => CutShort(content, pos, events[1..])
      case Got(bytes) =>
        if bytes == [] then false
        else if |bytes| < STREAM_BUFFER_BYTES then pos + |bytes| < |content|
        else CutShort(content, pos + |bytes|, events[1..])
  }

  lemma FlatAppend(calls: seq<Chunk>, chunk: Chunk)
    ensures Flat(calls + [chunk]) == Flat(calls) + chunk
  {
    assert (calls + [chunk])[..|calls|] == calls;
  }

  /** Whatever the kernel does, the consumer is fed a prefix of the file; after success it is the whole
      file exactly when no read was cut short. */
  lemma {:induction false} StreamFeeds(content: seq<Byte>, pos: nat, events: seq<ReadEvent>, accepts: Acceptor, calls: seq<Chunk>)
    returns (end: nat)
    requires Serves(content, pos, events)
    ensures pos <= end <= |content|
    ensures Flat(Stream(events, accepts, calls).calls) == Flat(calls) + content[pos..end]
    ensures Stream(events, accepts, calls).ok ==> (end == |content| <==> !CutShort(content, pos, events))
    decreases |events|
  {
    end := pos;
    if events != [] {
      match events[0]
      case Failed(errno) =>
        if errno == EINTR {
          end := StreamFeeds(content, pos, events[1..], accepts, calls);
        }
      case Got(bytes) =>
        if bytes != [] {
          FlatAppend(calls, bytes);
          end := pos + |bytes|;
          if accepts(calls, bytes) && |bytes| == STREAM_BUFFER_BYTES {
            end := StreamFeeds(content, pos + |bytes|, events[1..], accepts, calls + [bytes]);
            assert content[pos..end] == content[pos..pos + |bytes|] + content[pos + |bytes|..end];
          }
        }
    }
  }

  /** Reading a stable file synchronously: success feeds the whole file if and only if no read was cut short. */
  lemma SyncReadsWhole(content: seq<Byte>, script: FileScript, accepts: Acceptor)
    requires Serves(content, 0, script.events)
    requires Consumed(script, accepts, []).ok
    ensures Flat(Consumed(script, accepts, []).calls) == content <==> !CutShort(content, 0, script.events)
  {
    var end := StreamFeeds(content, 0, script.events, accepts, []);
    assert content[0..end] == content ==> end == |content|;
    assert content[0..|content|] == content;
  }

  /** Interrupted reads never make a stable, readable file fail, however many there are. */
  lemma {:induction false} StreamSucceeds(events: seq<ReadEvent>, accepts: Acceptor, calls: seq<Chunk>)
    requires forall i | 0 <= i < |events| :: events[i].Failed? ==> events[i].errno == EINTR
    requires forall past: seq<Chunk>, chunk: Chunk :: accepts(past, chunk)
    ensures Stream(events, accepts, calls).ok
    decreases |events|
  {
    if events != [] {
      StreamSucceeds(events[1..], accepts, calls);
      match events[0]
      case Failed(_) =>
      case Got(bytes) => StreamSucceeds(events[1..], accepts, calls + [bytes]);
    }
  }

  /** A file of ten bytes whose first read returns three is reported as read, with seven bytes missing. */
  lemma EarlyShortReadTruncates(content: seq<Byte>, accepts: Acceptor)
    requires |content| == 10 && accepts([], content[..3])
    ensures var script := FileScript(Opened, Opened, [Got(content[..3]), Got(content[3..]), Got([])]);
            && Serves(content, 0, script.events)
            && Consumed(script, accepts, []) == Reading(true, 0, [content[..3]])
  {
    var events := [Got(content[..3]), Got(content[3..]), Got([])];
    assert events[1..] == [Got(content[3..]), Got([])];
    assert events[1..][1..] == [Got([])];
    assert events[1..][1..][1..] == [];
    assert [] + [content[..3]] == [content[..3]];
    assert Serves(content, 10, events[1..][1..]);
    assert Serves(content, 3, events[1..]);
  }
}
