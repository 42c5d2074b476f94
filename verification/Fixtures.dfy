/** The fixture writers of the disk-image tests: allocation-table entries and block checksums, against their readers. */
module Fixtures {
  import opened Bytes
  import opened Fat
  import opened Writing
  import A = Adf

  // ----- set_fat -----

  function EntryLimit(variant: Variant): nat {
    match variant
    case Fat12 => 0x1000
    case Fat16 => 0x1_0000
    case Fat32 => 0x1000_0000
  }

  /** What the bytes at the entry's position become: on FAT12 the neighbour's four bits are kept. */
  function Packed(variant: Variant, cluster: nat, current: nat, value: nat): nat {
    match variant
    case Fat12 => if cluster % 2 == 1 then current % 0x10 + 0x10 * value else current / 0x1000 * 0x1000 + value
    case _ => value
  }

  predicate HasEntry(fat: seq<byte>, variant: Variant, cluster: nat) {
    EntryPos(variant, cluster) + EntryWidth(variant) <= |fat|
  }

  function Written(fat: seq<byte>, variant: Variant, cluster: nat, value: nat): (r: seq<byte>)
    requires HasEntry(fat, variant, cluster)
    ensures |r| == |fat|
  {
    var pos, width := EntryPos(variant, cluster), EntryWidth(variant);
    var current := if variant.Fat12? then Le16(fat, pos) else 0;
    fat[..pos] + Little(Packed(variant, cluster, current, value), width) + fat[pos + width..]
  }

  /** `set_fat`, on the table in place. */
  method SetFat(fat: array<byte>, variant: Variant, cluster: nat, value: nat)
    requires HasEntry(fat[..], variant, cluster) && value < EntryLimit(variant)
    modifies fat
    ensures fat[..] == Written(old(fat[..]), variant, cluster, value)
  {
    var pos, width := EntryPos(variant, cluster), EntryWidth(variant);
    var current := if variant.Fat12? then fat[pos] as nat + 0x100 * fat[pos + 1] as nat else 0;
    if variant.Fat12? {
      current := if cluster % 2 == 1 then current % 0x10 + value * 0x10 else current / 0x1000 * 0x1000 + value;
    } else {
      current := value;
    }
    var bytes := Little(current, width);
    ghost var was := fat[..];
    forall i | 0 <= i < width {
      fat[pos + i] := bytes[i];
    }
    assert fat[..] == was[..pos] + bytes + was[pos + width..];
  }

  /** The entry written is the entry read. */
  lemma WrittenIsRead(v: Volume, cluster: nat, value: nat)
    requires HasEntry(v.fat, v.variant, cluster) && value < EntryLimit(v.variant)
    ensures Entry(v.(fat := Written(v.fat, v.variant, cluster, value)), cluster) == Some(value)
  {
    hide Le16, Le32, Little;
    var pos, width := EntryPos(v.variant, cluster), EntryWidth(v.variant);
    var current := if v.variant.Fat12? then Le16(v.fat, pos) else 0;
    LittleReads(v.fat[..pos], Packed(v.variant, cluster, current, value), v.fat[pos + width..]);
  }

  /** The bytes outside the entry's own are untouched. */
  lemma Outside(fat: seq<byte>, variant: Variant, cluster: nat, value: nat, i: nat)
    requires HasEntry(fat, variant, cluster) && i < |fat|
    requires i < EntryPos(variant, cluster) || EntryPos(variant, cluster) + EntryWidth(variant) <= i
    ensures Written(fat, variant, cluster, value)[i] == fat[i]
  {
    hide Little, Packed;
  }

  /** A FAT12 entry is three half-bytes. */
  function Nibbles(low: byte, high: byte, odd: bool): nat {
    if odd then low as nat / 0x10 + 0x10 * high as nat else low as nat + 0x100 * (high as nat % 0x10)
  }

  lemma EntryNibbles(v: Volume, cluster: nat)
    requires v.variant.Fat12? && HasEntry(v.fat, Fat12, cluster)
    ensures var pos := EntryPos(Fat12, cluster);
            Entry(v, cluster) == Some(Nibbles(v.fat[pos], v.fat[pos + 1], cluster % 2 == 1))
  {
    hide Nibbles, Le16;
    var pos := EntryPos(Fat12, cluster);
    NibblesOf(v.fat, pos);
  }

  lemma NibblesOf(fat: seq<byte>, pos: nat)
    requires pos + 2 <= |fat|
    ensures Le16(fat, pos) / 16 == Nibbles(fat[pos], fat[pos + 1], true)
    ensures Le16(fat, pos) % 0x1000 == Nibbles(fat[pos], fat[pos + 1], false)
  {
    var low, high := fat[pos] as nat, fat[pos + 1] as nat;
    assert low + 0x100 * high == 16 * (low / 16 + 16 * high) + low % 16;
    assert low + 0x100 * high == 0x1000 * (high / 16) + (low + 0x100 * (high % 16));
  }

  /** On FAT12 an odd entry leaves the low half of its first byte, an even one the high half of its second. */
  lemma SharedByte(fat: seq<byte>, cluster: nat, value: nat)
    requires HasEntry(fat, Fat12, cluster) && value < 0x1000
    ensures var pos, written := EntryPos(Fat12, cluster), Written(fat, Fat12, cluster, value);
            if cluster % 2 == 1 then written[pos] as nat % 0x10 == fat[pos] as nat % 0x10
            else written[pos + 1] as nat / 0x10 == fat[pos + 1] as nat / 0x10
  {
    hide Little;
    var pos := EntryPos(Fat12, cluster);
    var n := Packed(Fat12, cluster, Le16(fat, pos), value);
    LittleTwo(n);
    KeptHalf(fat[pos], fat[pos + 1], value);
  }

  lemma KeptHalf(low: byte, high: byte, value: nat)
    requires value < 0x1000
    ensures var current := low as nat + 0x100 * high as nat;
            && (current % 0x10 + 0x10 * value) % 256 % 0x10 == low as nat % 0x10
            && (current / 0x1000 * 0x1000 + value) / 256 % 256 / 0x10 == high as nat / 0x10
  {
    LowKept(low as nat, high as nat, value);
    HighKept(low as nat, high as nat, value);
  }

  lemma LowKept(low: nat, high: nat, value: nat)
    ensures ((low + 0x100 * high) % 0x10 + 0x10 * value) % 256 % 0x10 == low % 0x10
  {
    LowHalf(low, high);
    LowHalfBack(low % 0x10, value);
  }

  lemma LowHalf(low: nat, high: nat)
    ensures (low + 0x100 * high) % 0x10 == low % 0x10
  {
    assert low + 0x100 * high == 0x10 * (low / 0x10 + 0x10 * high) + low % 0x10;
  }

  lemma LowHalfBack(b: nat, value: nat)
    requires b < 0x10
    ensures (b + 0x10 * value) % 256 % 0x10 == b
  {
    var r := b + 0x10 * (value % 0x10);
    assert b + 0x10 * value == 256 * (value / 0x10) + r && r < 256;
    assert (b + 0x10 * value) % 256 == r;
  }

  lemma HighKept(low: nat, high: nat, value: nat)
    requires low < 256 && high < 256 && value < 0x1000
    ensures ((low + 0x100 * high) / 0x1000 * 0x1000 + value) / 256 % 256 / 0x10 == high / 0x10
  {
    var q := high / 0x10;
    assert low + 0x100 * high == 0x1000 * q + (low + 0x100 * (high % 0x10));
    assert (low + 0x100 * high) / 0x1000 == q;
    assert (q * 0x1000 + value) / 256 == q * 0x10 + value / 256;
    assert (q * 0x10 + value / 256) / 0x10 == q;
  }

  /** Every other entry stays as it was, the one that shares a byte with it included. */
  lemma OthersKept(v: Volume, cluster: nat, value: nat, other: nat)
    requires HasEntry(v.fat, v.variant, cluster) && value < EntryLimit(v.variant) && other != cluster
    ensures Entry(v.(fat := Written(v.fat, v.variant, cluster, value)), other) == Entry(v, other)
  {
    hide Written, Nibbles;
    var w := v.(fat := Written(v.fat, v.variant, cluster, value));
    if HasEntry(v.fat, v.variant, other) {
      var pos, width := EntryPos(v.variant, other), EntryWidth(v.variant);
      if v.variant.Fat12? {
        EntryNibbles(v, other);
        EntryNibbles(w, other);
        NibblesKept(v.fat, cluster, value, other);
      } else {
        forall i | pos <= i < pos + width
          ensures w.fat[i] == v.fat[i]
        {
          Outside(v.fat, v.variant, cluster, value, i);
        }
      }
    }
  }

  lemma NibblesKept(fat: seq<byte>, cluster: nat, value: nat, other: nat)
    requires HasEntry(fat, Fat12, cluster) && HasEntry(fat, Fat12, other) && value < 0x1000 && other != cluster
    ensures var pos, written := EntryPos(Fat12, other), Written(fat, Fat12, cluster, value);
            Nibbles(written[pos], written[pos + 1], other % 2 == 1) == Nibbles(fat[pos], fat[pos + 1], other % 2 == 1)
  {
    hide Written;
    var pos, own := EntryPos(Fat12, other), EntryPos(Fat12, cluster);
    SharedByte(fat, cluster, value);
    if pos < own || own + 2 <= pos {
      Outside(fat, Fat12, cluster, value, pos);
    }
    if pos + 1 < own || own + 2 <= pos + 1 {
      Outside(fat, Fat12, cluster, value, pos + 1);
    }
  }

  // ----- _short_entry -----

  function ShortEntry(name: seq<byte>, cluster: nat, size: nat, directory: bool): (r: seq<byte>)
    requires |name| == 11
    ensures |r| == 32
  {
    name + [if directory then 0x10 else 0x20] + [0, 0, 0, 0, 0, 0, 0, 0] + Little(cluster / 0x1_0000, 2) + [0, 0, 0, 0]
    + Little(cluster % 0x1_0000, 2) + Little(size, 4)
  }

  lemma Regroup(p: seq<byte>, n: seq<byte>, a: seq<byte>, z: seq<byte>, h: seq<byte>, y: seq<byte>, l: seq<byte>,
                s: seq<byte>, q: seq<byte>)
    ensures p + (n + a + z + h + y + l + s) + q == (p + n + a + z) + h + (y + l + s + q)
    ensures p + (n + a + z + h + y + l + s) + q == (p + n + a + z + h + y) + l + (s + q)
    ensures p + (n + a + z + h + y + l + s) + q == (p + n + a + z + h + y + l) + s + q
    ensures p + (n + a + z + h + y + l + s) + q == (p + n) + a + (z + h + y + l + s + q)
    ensures p + (n + a + z + h + y + l + s) + q == p + n + (a + z + h + y + l + s + q)
  {
  }

  /** A row written into a directory is read as the entry it was written for, unless its name marks it free or deleted. */
  lemma EntryRead(before: seq<byte>, name: seq<byte>, cluster: nat, size: nat, directory: bool, after: seq<byte>)
    requires |name| == 11 && name[0] !in {0, 0xE5} && cluster < 0x1_0000_0000 && size < 0x1_0000_0000
    ensures RowAt(before + ShortEntry(name, cluster, size, directory) + after, |before|)
         == if directory then Directory(cluster) else File(cluster, size)
  {
    hide Little, Le16, Le32;
    var a: seq<byte>, z: seq<byte>, y: seq<byte> := [if directory then 0x10 else 0x20], [0, 0, 0, 0, 0, 0, 0, 0], [0, 0, 0, 0];
    var h, l, s := Little(cluster / 0x1_0000, 2), Little(cluster % 0x1_0000, 2), Little(size, 4);
    var all := before + ShortEntry(name, cluster, size, directory) + after;
    Regroup(before, name, a, z, h, y, l, s, after);
    LittleReads(before + name + a + z, cluster / 0x1_0000, y + l + s + after);
    LittleReads(before + name + a + z + h + y, cluster % 0x1_0000, s + after);
    LittleReads(before + name + a + z + h + y + l, size, after);
    assert all[|before| + 11] == a[0] by { assert all == (before + name) + a + (z + h + y + l + s + after); }
    assert all[|before|] == name[0] by { assert all == before + name + (a + z + h + y + l + s + after); }
  }

  // ----- _checksum -----

  /** The block with word 5 replaced. */
  function WithWord(block: seq<byte>, n: nat): (r: seq<byte>)
    requires |block| == A.BLOCK && n < 0x1_0000_0000
    ensures |r| == A.BLOCK
  {
    block[..20] + Word(n) + block[24..]
  }

  function Negated(n: nat): (r: nat)
    ensures r < 0x1_0000_0000 && (n + r) % 0x1_0000_0000 == 0
  {
    (0x1_0000_0000 - n % 0x1_0000_0000) % 0x1_0000_0000
  }

  function Checksummed(block: seq<byte>): (r: seq<byte>)
    requires |block| == A.BLOCK
    ensures |r| == A.BLOCK
  {
    WithWord(block, Negated(WordSum(WithWord(block, 0), 128)))
  }

  lemma WordRead(block: seq<byte>, n: nat)
    requires |block| == A.BLOCK && n < 0x1_0000_0000
    ensures Be32(WithWord(block, n), 20) == n
  {
    hide Word, Be32;
    WordReads(block[..20], n, block[24..]);
  }

  lemma {:induction false} SumWithWord(block: seq<byte>, n: nat, k: nat)
    requires |block| == A.BLOCK && n < 0x1_0000_0000 && k <= 128
    ensures WordSum(WithWord(block, n), k) == WordSum(WithWord(block, 0), k) + if k > 5 then n else 0
  {
    hide Be32;
    if k > 0 {
      SumWithWord(block, n, k - 1);
      if k - 1 == 5 {
        WordRead(block, n);
        WordRead(block, 0);
      } else {
        OtherWord(block, n, k - 1);
      }
    }
  }

  lemma OtherWord(block: seq<byte>, n: nat, k: nat)
    requires |block| == A.BLOCK && n < 0x1_0000_0000 && k < 128 && k != 5
    ensures Be32(WithWord(block, n), 4 * k) == Be32(WithWord(block, 0), 4 * k)
  {
    var a, b := WithWord(block, n), WithWord(block, 0);
    assert forall i | 4 * k <= i < 4 * k + 4 :: a[i] == b[i];
  }

  /** A block so written passes the validator's and the extractor's checksum, and only word 5 has changed. */
  lemma ChecksummedIsValid(block: seq<byte>)
    requires |block| == A.BLOCK
    ensures A.ValidChecksum(Checksummed(block))
    ensures Checksummed(block)[..20] == block[..20] && Checksummed(block)[24..] == block[24..]
  {
    hide WordSum;
    SumWithWord(block, Negated(WordSum(WithWord(block, 0), 128)), 128);
  }

  /** `_checksum`, on the block in place. */
  method Checksum(block: array<byte>)
    requires block.Length == A.BLOCK
    modifies block
    ensures block[..] == Checksummed(old(block[..]))
  {
    hide WordSum, Be32, Word;
    WriteWord(block, 0);
    var sum := SumWords(block[..]);
    WriteWord(block, Negated(sum));
  }

  method WriteWord(block: array<byte>, n: nat)
    requires block.Length == A.BLOCK && n < 0x1_0000_0000
    modifies block
    ensures block[..] == WithWord(old(block[..]), n)
    ensures forall m: nat | m < 0x1_0000_0000 :: WithWord(block[..], m) == WithWord(old(block[..]), m)
  {
    block[20], block[21], block[22], block[23] := n / 0x100_0000, n / 0x1_0000 % 0x100, n / 0x100 % 0x100, n % 0x100;
    assert block[..] == WithWord(old(block[..]), n);
    assert block[..20] == old(block[..20]) && block[24..] == old(block[24..]);
  }

  method SumWords(block: seq<byte>) returns (sum: nat)
    requires |block| == A.BLOCK
    ensures sum == WordSum(block, 128)
  {
    hide Be32;
    sum := 0;
    for i := 0 to 128
      invariant sum == WordSum(block, i)
    {
      sum := sum + Be32(block, 4 * i);
    }
  }
}
