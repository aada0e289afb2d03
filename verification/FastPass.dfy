// The fast-hash pass: each candidate's first block, xor-ed with its last block when the file is long enough.
module FastPass {
  import opened Entries
  import opened Sequences
  import opened KeyClasses
  import opened StreamReader
  import opened Candidates

  const BLOCK_BYTES := 4096

  type Xxh64 = seq<Byte> -> Word

  /** What the kernel answers for one candidate: both open attempts, the read at offset zero and the read at the tail. */
  datatype FastScript = FastScript(noAtime: Opening, plain: Opening, prefix: ReadEvent, suffix: ReadEvent)

  function XorBits(a: nat, b: nat, bits: nat): (r: nat)
    ensures r < Power(bits)
  {
    if bits == 0 then 0 else (if a % 2 == b % 2 then 0 else 1) + 2 * XorBits(a / 2, b / 2, bits - 1)
  }

  function Power(bits: nat): (r: nat)
    ensures 0 < r
  {
    if bits == 0 then 1 else 2 * Power(bits - 1)
  }

  lemma {:induction false} PowerAdd(a: nat, b: nat)
    ensures Power(a + b) == Power(a) * Power(b)
  {
    if a > 0 {
      PowerAdd(a - 1, b);
    }
  }

  lemma Power64()
    ensures Power(64) == 0x1_0000_0000_0000_0000
  {
    assert Power(4) == 16;
    PowerAdd(4, 4);
    assert Power(8) == 0x100;
    PowerAdd(8, 8);
    assert Power(16) == 0x1_0000;
    PowerAdd(16, 16);
    assert Power(32) == 0x1_0000_0000;
    PowerAdd(32, 32);
  }

  /** Bitwise exclusive or of two 64-bit words. */
  function Xor(a: Word, b: Word): Word {
    Power64();
    XorBits(a, b, 64)
  }

  lemma {:induction false} XorBitsNeutral(a: nat, b: nat, bits: nat)
    requires a < Power(bits) && b < Power(bits)
    ensures XorBits(a, b, bits) == a <==> b == 0
  {
    if bits > 0 {
      XorBitsNeutral(a / 2, b / 2, bits - 1);
    }
  }

  function FastFailed(e: FileEntry, errno: int): FileEntry {
    e.(fastHash := 0, fastComputed := true, fastErrno := errno)
  }

  /** A failed or empty tail read is not an error: the hash is then that of the first block alone. */
  function Combined(size: nat, prefix: Chunk, suffix: ReadEvent, xxh: Xxh64): Word {
    if size >= 2 * BLOCK_BYTES && suffix.Got? && suffix.bytes != [] then Xor(xxh(prefix), xxh(suffix.bytes)) else xxh(prefix)
  }

  function FastHashed(e: FileEntry, script: FastScript, xxh: Xxh64): FileEntry {
    match OpenReadOnly(script.noAtime, script.plain)
    case Refused(errno) => FastFailed(e, errno)
    case Opened =>
      match script.prefix
      case Failed(errno) => FastFailed(e, errno)
      case Got(bytes) => e.(fastHash := Combined(e.size, bytes, script.suffix, xxh), fastComputed := true, fastErrno := 0)
  }

  method FastIteration(entries: array<FileEntry>, i: nat, script: FastScript, xxh: Xxh64)
    requires i < entries.Length
    modifies entries
    ensures entries[..] == old(entries[..])[i := FastHashed(old(entries[i]), script, xxh)]
  {
    var opening := script.noAtime;
    if opening.Refused? && opening.errno == EPERM {
      opening := script.plain;
    }
    if opening.Refused? {
      entries[i] := entries[i].(fastHash := 0, fastComputed := true, fastErrno := opening.errno);
      return;
    }
    if script.prefix.Failed? {
      entries[i] := entries[i].(fastHash := 0, fastComputed := true, fastErrno := script.prefix.errno);
      return;
    }
    var combined := xxh(script.prefix.bytes);
    if entries[i].size >= 2 * BLOCK_BYTES {
      if script.suffix.Got? && |script.suffix.bytes| > 0 {
        combined := Xor(combined, xxh(script.suffix.bytes));
      }
    }
    entries[i] := entries[i].(fastHash := combined, fastComputed := true, fastErrno := 0);
  }

  /** Exactly the entries at the indices in ran are fast-hashed. */
  ghost predicate FastHashedAt(s0: seq<FileEntry>, s: seq<FileEntry>, ran: seq<nat>, scripts: nat -> FastScript, xxh: Xxh64) {
    && |s| == |s0|
    && forall i: nat | i < |s| :: s[i] == if i in ran then FastHashed(s0[i], scripts(i), xxh) else s0[i]
  }

  predicate Within(positions: seq<nat>, n: nat) {
    forall k | 0 <= k < |positions| :: positions[k] < n
  }

  /** A schedule for every number of candidates: each runs no iteration twice. */
  ghost predicate Schedulable(scheduleFor: nat -> seq<nat>) {
    forall n: nat :: Distinct(scheduleFor(n)) && Within(scheduleFor(n), n)
  }

  /** The positions a parallel loop ran, in the order it ran them. */
  function At(indices: seq<nat>, positions: seq<nat>): seq<nat>
    requires Within(positions, |indices|)
  {
    seq(|positions|, k requires 0 <= k < |positions| => indices[positions[k]])
  }

  /** The pass. schedule lists the iterations in the order they happen to run, on whatever worker; iterations that the stop
      signal prevented are absent from it. */
  method RunFastPass(entries: array<FileEntry>, groups: seq<Group>, schedule: seq<nat>, scripts: nat -> FastScript, xxh: Xxh64)
    returns (filesHashed: nat, ghost indices: seq<nat>)
    requires InOrder(groups) && Distinct(schedule)
    requires forall k | 0 <= k < |groups| :: groups[k].End() <= entries.Length
    requires Within(schedule, TotalCount(groups))
    modifies entries
    ensures filesHashed == TotalCount(groups)
    ensures CandidateOrder(old(entries[..]), groups, indices)
    ensures FastHashedAt(old(entries[..]), entries[..], At(indices, schedule), scripts, xxh)
  {
    var order := BuildCandidates(entries, groups);
    indices := order[..];
    ghost var s0 := entries[..];
    forall p | 0 <= p < |indices|
      ensures indices[p] < entries.Length
    {
      assert indices[p] in indices;
      assert Covered(groups, indices[p]);
    }
    for k := 0 to |schedule|
      invariant order[..] == indices
      invariant FastHashedAt(s0, entries[..], At(indices, schedule[..k]), scripts, xxh)
    {
      var p := schedule[k];
      ghost var s := entries[..];
      FastIteration(entries, order[p], scripts(order[p]), xxh);
      FastStep(s0, s, entries[..], indices, schedule, k, scripts, xxh);
    }
    assert schedule[..|schedule|] == schedule;
    filesHashed := order.Length;
  }

  lemma FastStep(s0: seq<FileEntry>, s: seq<FileEntry>, s': seq<FileEntry>, indices: seq<nat>, schedule: seq<nat>, k: nat,
                 scripts: nat -> FastScript, xxh: Xxh64)
    requires Distinct(indices) && Distinct(schedule) && k < |schedule|
    requires Within(schedule, |indices|)
    requires FastHashedAt(s0, s, At(indices, schedule[..k]), scripts, xxh)
    requires var i := indices[schedule[k]]; i < |s| && s' == s[i := FastHashed(s[i], scripts(i), xxh)]
    ensures FastHashedAt(s0, s', At(indices, schedule[..k + 1]), scripts, xxh)
  {
    var i := indices[schedule[k]];
    var before, after := At(indices, schedule[..k]), At(indices, schedule[..k + 1]);
    assert after == before + [i];
    forall j | 0 <= j < k
      ensures before[j] != i
    {
    }
  }

  /** Schedule independence: two schedules that run the same iterations leave the same entries. */
  lemma FastSchedulesAgree(s0: seq<FileEntry>, s: seq<FileEntry>, s': seq<FileEntry>, indices: seq<nat>, schedule: seq<nat>,
                           schedule': seq<nat>, scripts: nat -> FastScript, xxh: Xxh64)
    requires Within(schedule, |indices|) && Within(schedule', |indices|)
    requires multiset(schedule) == multiset(schedule')
    requires FastHashedAt(s0, s, At(indices, schedule), scripts, xxh)
    requires FastHashedAt(s0, s', At(indices, schedule'), scripts, xxh)
    ensures s == s'
  {
    forall i: nat
      ensures i in At(indices, schedule) <==> i in At(indices, schedule')
    {
      SameReach(indices, schedule, schedule', i);
      SameReach(indices, schedule', schedule, i);
    }
  }

  lemma SameReach(indices: seq<nat>, schedule: seq<nat>, schedule': seq<nat>, i: nat)
    requires Within(schedule, |indices|) && Within(schedule', |indices|)
    requires multiset(schedule) == multiset(schedule')
    ensures i in At(indices, schedule) ==> i in At(indices, schedule')
  {
    if i in At(indices, schedule) {
      var k :| 0 <= k < |schedule| && At(indices, schedule)[k] == i;
      assert schedule[k] in multiset(schedule);
      assert schedule[k] in schedule';
      var k' :| 0 <= k' < |schedule'| && schedule'[k'] == schedule[k];
      assert At(indices, schedule')[k'] == i;
    }
  }

  /** The fast hash a file of this content deserves. */
  function FastHashOfContent(content: seq<Byte>, xxh: Xxh64): Word {
    var prefix := xxh(content[..if |content| < BLOCK_BYTES then |content| else BLOCK_BYTES]);
    if |content| >= 2 * BLOCK_BYTES then Xor(prefix, xxh(content[|content| - BLOCK_BYTES..])) else prefix
  }

  /** Reads of a stable file, each of which may fail. */
  ghost predicate StableBlocks(script: FastScript, content: seq<Byte>) {
    && (script.prefix.Got? ==> script.prefix.bytes == content[..if |content| < BLOCK_BYTES then |content| else BLOCK_BYTES])
    && (|content| >= 2 * BLOCK_BYTES && script.suffix.Got? ==> script.suffix.bytes == content[|content| - BLOCK_BYTES..])
  }

  /** On a stable file a fast hash without error is the one its content deserves, except exactly when the tail read of a
      long file failed unreported and the tail's hash is not zero. */
  lemma FastHashContent(e: FileEntry, script: FastScript, content: seq<Byte>, xxh: Xxh64)
    requires |content| == e.size && StableBlocks(script, content)
    requires FastHashed(e, script, xxh).fastErrno == 0
    ensures FastHashed(e, script, xxh).fastHash == FastHashOfContent(content, xxh)
            <==> e.size < 2 * BLOCK_BYTES || script.suffix.Got? || xxh(content[|content| - BLOCK_BYTES..]) == 0
  {
    if e.size >= 2 * BLOCK_BYTES && script.suffix.Failed? {
      Power64();
      XorBitsNeutral(xxh(content[..BLOCK_BYTES]), xxh(content[|content| - BLOCK_BYTES..]), 64);
    }
  }

  /** A file of two blocks whose tail cannot be read is hashed, without error, as if it had no tail: with a hash function
      that gives every block the same word, its hash is not the one its content deserves. */
  lemma TailFailureChangesHash(e: FileEntry)
    requires e.size == 2 * BLOCK_BYTES
    ensures var content := seq(2 * BLOCK_BYTES, _ => 0);
            var script := FastScript(Opened, Opened, Got(content[..BLOCK_BYTES]), Failed(EIO));
            var xxh: Xxh64 := _ => 1;
            && StableBlocks(script, content)
            && FastHashed(e, script, xxh).fastErrno == 0
            && FastHashed(e, script, xxh).fastHash != FastHashOfContent(content, xxh)
  {
    var content: seq<Byte> := seq(2 * BLOCK_BYTES, _ => 0);
    var xxh: Xxh64 := _ => 1;
    FastHashContent(e, FastScript(Opened, Opened, Got(content[..BLOCK_BYTES]), Failed(EIO)), content, xxh);
  }

  /** The file can be opened and its first block read. */
  predicate ObligingBlocks(script: FastScript) {
    OpenReadOnly(script.noAtime, script.plain).Opened? && script.prefix.Got?
  }

  lemma FastServed(e: FileEntry, script: FastScript, xxh: Xxh64)
    requires ObligingBlocks(script)
    ensures FastHashed(e, script, xxh) == e.(fastHash := FastHashed(e, script, xxh).fastHash, fastComputed := true, fastErrno := 0)
  {
  }
}
