// The records that every stage shares: file entries and group windows.
module Entries {
  type Byte = b: int | 0 <= b < 256

  type Word = w: int | 0 <= w < 0x1_0000_0000_0000_0000

  const DIGEST_BYTES := 32

  type Digest = d: seq<Byte> | |d| == 32 witness seq(32, _ => 0)

  /** A discovered file. The array of entries holds these by value, as the C array of structs does. */
  datatype FileEntry = FileEntry(
    path: seq<Byte>,
    size: nat,
    device: nat,
    inode: nat,
    fastHash: Word,
    fullHash: Digest,
    fastComputed: bool,
    fullComputed: bool,
    fastErrno: int,
    fullErrno: int)

  /** The part of an entry that discovery fills in and no later stage changes. */
  datatype Identity = Identity(path: seq<Byte>, size: nat, device: nat, inode: nat)

  function IdOf(e: FileEntry): Identity {
    Identity(e.path, e.size, e.device, e.inode)
  }

  /** An entry as discovery creates it: everything else is zero. */
  function Discovered(id: Identity): FileEntry {
    FileEntry(id.path, id.size, id.device, id.inode, 0, seq(DIGEST_BYTES, _ => 0), false, false, 0, 0)
  }

  /** A window of the entries array. */
  datatype Group = Group(start: nat, count: nat, size: nat) {
    function End(): nat {
      start + count
    }

    predicate Holds(i: int) {
      start <= i < End()
    }
  }

  datatype Algorithm = Xxh3 | Xxh128 | Sha256

  function DigestSize(algorithm: Algorithm): (n: nat)
    ensures 0 < n <= DIGEST_BYTES
  {
    match algorithm
    case Xxh3 => 8
    case Xxh128 => 16
    case Sha256 => 32
  }
}
