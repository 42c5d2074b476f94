/** What the two ADF traversals share: blocks, checksums, headers and the payload of a data block. */
module Adf {
  import opened Bytes

  const BLOCK := 512
  const BLOCKS := 1760
  const IMAGE_SIZE := 901120
  const ROOT := 880

  /** A standard 880 KiB image; `ofs` tells DOS\0 from DOS\1. */
  datatype Disk = Disk(data: seq<byte>, ofs: bool)

  predicate Sized(d: Disk) {
    |d.data| == IMAGE_SIZE
  }

  predicate InImage(key: nat) {
    2 <= key < BLOCKS
  }

  function Block(d: Disk, key: nat): (r: seq<byte>)
    requires Sized(d) && InImage(key)
    ensures |r| == BLOCK
  {
    d.data[key * BLOCK..(key + 1) * BLOCK]
  }

  predicate ValidChecksum(block: seq<byte>)
    requires |block| == BLOCK
  {
    WordSum(block, 128) % 0x1_0000_0000 == 0
  }

  function SignedBe32(block: seq<byte>, pos: nat): int
    requires pos + 4 <= |block|
  {
    var word := Be32(block, pos);
    if word < 0x8000_0000 then word else word - 0x1_0000_0000
  }

  // Header fields.

  const DIRECTORY := 2
  const FILE := -3

  predicate IsHeader(block: seq<byte>)
    requires |block| == BLOCK
  {
    Be32(block, 0) == 2 && ValidChecksum(block)
  }

  function Kind(header: seq<byte>): int
    requires |header| == BLOCK
  {
    SignedBe32(header, 508)
  }

  function FileSize(header: seq<byte>): nat
    requires |header| == BLOCK
  {
    Be32(header, 324)
  }

  function NextInChain(header: seq<byte>): (r: nat)
    requires |header| == BLOCK
    ensures IsKey(r)
  {
    Be32(header, 496)
  }

  /** Slot `k` of the 72-entry table: hash buckets of a directory, data pointers of a file. */
  function Slot(header: seq<byte>, k: nat): (r: nat)
    requires |header| == BLOCK && k < 72
    ensures IsKey(r)
  {
    Be32(header, 24 + 4 * k)
  }

  /** Block keys are 32-bit, which bounds the set of visited blocks and so the recursion. */
  predicate IsKey(key: nat) {
    key < 0x1_0000_0000
  }

  ghost function Keys(): set<nat> {
    set k: nat | k < 0x1_0000_0000 && IsKey(k)
  }

  // Data blocks.

  /** An OFS data block belongs to its header, declares at most 488 bytes and is checksummed; FFS blocks carry no header. */
  predicate GoodDataBlock(d: Disk, block: seq<byte>, header: nat)
    requires |block| == BLOCK
  {
    d.ofs ==> Be32(block, 0) == 8 && Be32(block, 4) == header && Be32(block, 12) <= 488 && ValidChecksum(block)
  }

  function PayloadSize(d: Disk, block: seq<byte>): nat
    requires |block| == BLOCK
  {
    if d.ofs then Be32(block, 12) else BLOCK
  }

  function Payload(d: Disk, block: seq<byte>, header: nat): (r: seq<byte>)
    requires |block| == BLOCK && GoodDataBlock(d, block, header)
    ensures |r| == PayloadSize(d, block)
  {
    if d.ofs then block[24..24 + Be32(block, 12)] else block
  }

  // Names.

  /** A counted string: at most 107 bytes and inside the block. */
  predicate HasCountedString(block: seq<byte>, pos: nat)
    requires pos < |block|
  {
    block[pos] <= 107 && pos + 1 + block[pos] as nat <= |block|
  }

  /** The name's Latin-1 bytes; Latin-1 decoding is one character per byte. */
  function CountedString(block: seq<byte>, pos: nat): seq<byte>
    requires pos < |block| && HasCountedString(block, pos)
  {
    block[pos + 1..pos + 1 + block[pos] as nat]
  }

  const SLASH: byte := 0x2F
  const BACKSLASH: byte := 0x5C
  const DOT: byte := 0x2E

  predicate SafeName(name: seq<byte>) {
    name != [] && SLASH !in name && BACKSLASH !in name && name != [DOT] && name != [DOT, DOT]
  }

  /** The headers the extractor accepts: a readable, safe name and one of the two entry kinds. */
  predicate Accepted(header: seq<byte>)
    requires |header| == BLOCK
  {
    HasCountedString(header, 432) && SafeName(CountedString(header, 432)) && Kind(header) in {DIRECTORY, FILE}
  }
}
