/** The partition-table writers of the tests, and the proof that the parsers read back what they write. */
module PartitionWriter {
  import opened Bytes
  import opened Partitions
  import opened PartitionTables
  import opened Writing
  import F = Fixtures

  // ----- MBR -----

  datatype Primary = Primary(active: bool, code: byte, start: nat, sectors: nat)

  function RowBytes(slot: Option<Primary>): (r: seq<byte>)
    ensures |r| == 16
  {
    match slot
    case None => Zeros(16)
    case Some(p) => [if p.active then 0x80 else 0] + Zeros(3) + [p.code] + Zeros(3) + Little(p.start, 4) + Little(p.sectors, 4)
  }

  predicate Fits(slot: Option<Primary>, size: nat) {
    slot.Some? ==>
      && slot.value.code !in {0, 0x05, 0x0F, 0x85}
      && 1 <= slot.value.start < WORD && 1 <= slot.value.sectors < WORD
      && (slot.value.start + slot.value.sectors) * 512 <= size
  }

  function MbrImage(boot: seq<byte>, slots: seq<Option<Primary>>, rest: seq<byte>): (r: seq<byte>)
    requires |boot| == 446 && |slots| == 4
    ensures |r| == 512 + |rest|
  {
    boot + RowBytes(slots[0]) + RowBytes(slots[1]) + RowBytes(slots[2]) + RowBytes(slots[3]) + [0x55, 0xAA] + rest
  }

  function Listed(slots: seq<Option<Primary>>, n: nat): (r: seq<Partition>)
    requires n <= |slots|
    ensures |r| <= n
  {
    if n == 0 then [] else
      Listed(slots, n - 1) + match slots[n - 1]
                             case None => []
                             case Some(p) => [Partition(n - 1, p.start * 512, p.sectors * 512, [p.code], [])]
  }

  lemma RowReads(slot: Option<Primary>)
    requires slot.Some? ==> slot.value.start < WORD && slot.value.sectors < WORD
    ensures var row := RowBytes(slot);
            if slot.None? then row[0] == 0 && row[4] == 0 && Le32(row, 8) == 0 && Le32(row, 12) == 0
            else row[0] == (if slot.value.active then 0x80 else 0) && row[4] == slot.value.code
                 && Le32(row, 8) == slot.value.start && Le32(row, 12) == slot.value.sectors
  {
    hide Little;
    if slot.Some? {
      var p := slot.value;
      var front := [if p.active then 0x80 else 0] + Zeros(3) + [p.code] + Zeros(3);
      var row := RowBytes(slot);
      assert row == front + Little(p.start, 4) + Little(p.sectors, 4);
      LittleReads(front, p.start, Little(p.sectors, 4));
      assert row == (front + Little(p.start, 4)) + Little(p.sectors, 4) + [];
      LittleReads(front + Little(p.start, 4), p.sectors, []);
    }
  }

  lemma RowsInPlace(boot: seq<byte>, slots: seq<Option<Primary>>, rest: seq<byte>, i: nat)
    requires |boot| == 446 && |slots| == 4 && i < 4
    ensures RowOf(MbrImage(boot, slots, rest), i) == RowBytes(slots[i])
    ensures MbrImage(boot, slots, rest)[510..512] == [0x55, 0xAA]
  {
    hide RowBytes;
    var a, b, c, d, e := RowBytes(slots[0]), RowBytes(slots[1]), RowBytes(slots[2]), RowBytes(slots[3]), [0x55, 0xAA];
    var data := MbrImage(boot, slots, rest);
    assert data == boot + a + (b + c + d + e + rest);
    assert data == (boot + a) + b + (c + d + e + rest);
    assert data == (boot + a + b) + c + (d + e + rest);
    assert data == (boot + a + b + c) + d + (e + rest);
    assert data == (boot + a + b + c + d) + e + rest;
  }

  lemma SlotOutcome(slot: Option<Primary>, i: nat, size: nat)
    requires Fits(slot, size)
    ensures ReadRow(RowBytes(slot), i, size)
         == match slot case None => Nothing case Some(p) => Good(Partition(i, p.start * 512, p.sectors * 512, [p.code], []))
    ensures Plausible(RowBytes(slot)) <==> slot.Some?
  {
    hide RowBytes, Le32;
    RowReads(slot);
  }

  lemma {:induction false} RowsBack(boot: seq<byte>, slots: seq<Option<Primary>>, rest: seq<byte>, n: nat)
    requires |boot| == 446 && |slots| == 4 && n <= 4
    requires forall i | 0 <= i < 4 :: Fits(slots[i], 512 + |rest|)
    ensures Rows(MbrImage(boot, slots, rest), n) == Table(Listed(slots, n), [])
  {
    hide MbrImage, RowOf, ReadRow, RowBytes, Fits;
    if n > 0 {
      RowsBack(boot, slots, rest, n - 1);
      RowsInPlace(boot, slots, rest, n - 1);
      SlotOutcome(slots[n - 1], n - 1, 512 + |rest|);
      assert Listed(slots, n - 1) + [] == Listed(slots, n - 1);
    }
  }

  /** A table of primary partitions inside the image is read back row by row, with no error but its overlaps. */
  lemma MbrReadsBack(boot: seq<byte>, slots: seq<Option<Primary>>, rest: seq<byte>, most: nat)
    requires |boot| == 446 && |slots| == 4 && (exists i :: 0 <= i < 4 && slots[i].Some?)
    requires (forall i | 0 <= i < 4 :: Fits(slots[i], 512 + |rest|)) && |Listed(slots, 4)| <= most
    ensures Mbr(MbrImage(boot, slots, rest), most) == Some(Ok(Marked(Table(Listed(slots, 4), []))))
  {
    hide MbrImage, RowOf, Marked, Listed, Rows, Plausible, Fits, RowBytes;
    var data := MbrImage(boot, slots, rest);
    RowsBack(boot, slots, rest, 4);
    var i :| 0 <= i < 4 && slots[i].Some?;
    RowsInPlace(boot, slots, rest, i);
    SlotOutcome(slots[i], i, |data|);
    assert Plausible(RowOf(data, i));
  }

  // ----- RDB -----

  /** A partition as its PART block describes it. */
  datatype Spec = Spec(name: seq<byte>, surfaces: nat, perTrack: nat, low: nat, high: nat, kind: seq<byte>)

  predicate IsSpec(s: Spec) {
    && |s.name| <= 31 && |s.kind| == 4 && 0 < s.surfaces < WORD && 0 < s.perTrack < WORD && s.low <= s.high < WORD
  }

  function Cylinder(s: Spec, blockSize: nat): nat {
    s.surfaces * s.perTrack * blockSize
  }

  predicate SpecFits(s: Spec, blockSize: nat, size: nat) {
    s.low * Cylinder(s, blockSize) + (s.high - s.low + 1) * Cylinder(s, blockSize) <= size
  }

  /** The block with `sum` in its checksum word. */
  function Unsealed(s: Spec, next: nat, blockSize: nat, sum: nat): (r: seq<byte>)
    requires IsSpec(s) && next < WORD && IsBlockSize(blockSize) && sum < WORD
    ensures |r| == blockSize
  {
    PART + (Word(64) + (Word(sum) + (Zeros(4) + (Word(next) + (Zeros(16) + ([|s.name|] + (s.name + (Zeros(91 - |s.name|)
    + Geometry(s, blockSize)))))))))
  }

  /** The environment vector, from byte 128 on. */
  function Geometry(s: Spec, blockSize: nat): (r: seq<byte>)
    requires IsSpec(s) && IsBlockSize(blockSize)
    ensures |r| == blockSize - 128
  {
    Zeros(12) + (Word(s.surfaces) + (Zeros(4) + (Word(s.perTrack) + (Zeros(12) + (Word(s.low) + (Word(s.high) + (Zeros(20)
    + (s.kind + Zeros(blockSize - 196)))))))))
  }

  function PartBlock(s: Spec, next: nat, blockSize: nat): (r: seq<byte>)
    requires IsSpec(s) && next < WORD && IsBlockSize(blockSize)
    ensures |r| == blockSize
  {
    Unsealed(s, next, blockSize, F.Negated(WordSum(Unsealed(s, next, blockSize, 0), 64)))
  }

  /** What follows the checksum word. */
  function Tail(s: Spec, next: nat, blockSize: nat): (r: seq<byte>)
    requires IsSpec(s) && next < WORD && IsBlockSize(blockSize)
    ensures |r| == blockSize - 12
  {
    Zeros(4) + (Word(next) + (Zeros(16) + ([|s.name|] + (s.name + (Zeros(91 - |s.name|) + Geometry(s, blockSize))))))
  }

  lemma HeadOf(b: seq<byte>, sum: nat, tail: seq<byte>)
    requires sum < WORD && b == PART + (Word(64) + (Word(sum) + tail))
    ensures b[..4] == PART && Be32(b, 4) == 64 && Be32(b, 8) == sum && At(b, 12, tail)
  {
    hide Word, Be32, At;
    assert b + [] == b;
    AtStart(b, []);
    AtConcat(b, 0, PART, Word(64) + (Word(sum) + tail));
    AtSlice(b, 0, PART);
    WordThen(b, 4, 64, Word(sum) + tail);
    WordThen(b, 8, sum, tail);
  }

  lemma HeadFields(s: Spec, next: nat, blockSize: nat, sum: nat)
    requires IsSpec(s) && next < WORD && IsBlockSize(blockSize) && sum < WORD
    ensures var b := Unsealed(s, next, blockSize, sum);
            b[..4] == PART && Be32(b, 4) == 64 && Be32(b, 8) == sum && At(b, 12, Tail(s, next, blockSize))
  {
    hide Word, Be32, At, Tail, IsBlockSize, Unsealed;
    SplitAtSum(s, next, blockSize, sum);
    HeadOf(Unsealed(s, next, blockSize, sum), sum, Tail(s, next, blockSize));
  }

  lemma SplitAtSum(s: Spec, next: nat, blockSize: nat, sum: nat)
    requires IsSpec(s) && next < WORD && IsBlockSize(blockSize) && sum < WORD
    ensures Unsealed(s, next, blockSize, sum) == PART + (Word(64) + (Word(sum) + Tail(s, next, blockSize)))
  {
    hide Word, Zeros, Geometry, IsBlockSize;
  }

  lemma TailFields(s: Spec, next: nat, blockSize: nat, b: seq<byte>)
    requires IsSpec(s) && next < WORD && IsBlockSize(blockSize) && |b| == blockSize && At(b, 12, Tail(s, next, blockSize))
    ensures Be32(b, 16) == next && b[36] as nat == |s.name| && b[37..37 + |s.name|] == s.name
    ensures At(b, 128, Geometry(s, blockSize))
  {
    hide Word, Zeros, Be32, At, Geometry, IsBlockSize;
    var rest := s.name + (Zeros(91 - |s.name|) + Geometry(s, blockSize));
    AtConcat(b, 12, Zeros(4), Word(next) + (Zeros(16) + ([|s.name|] + rest)));
    WordThen(b, 16, next, Zeros(16) + ([|s.name|] + rest));
    AtConcat(b, 20, Zeros(16), [|s.name|] + rest);
    AtConcat(b, 36, [|s.name|], rest);
    AtSlice(b, 36, [|s.name|]);
    assert b[36..37][0] == b[36];
    AtConcat(b, 37, s.name, Zeros(91 - |s.name|) + Geometry(s, blockSize));
    AtSlice(b, 37, s.name);
    AtConcat(b, 37 + |s.name|, Zeros(91 - |s.name|), Geometry(s, blockSize));
  }

  lemma GeometryFields(s: Spec, blockSize: nat, b: seq<byte>)
    requires IsSpec(s) && IsBlockSize(blockSize) && |b| == blockSize && At(b, 128, Geometry(s, blockSize))
    ensures Be32(b, 140) == s.surfaces && Be32(b, 148) == s.perTrack && Be32(b, 164) == s.low && Be32(b, 168) == s.high
    ensures b[192..196] == s.kind
  {
    hide Word, Zeros, Be32, At, IsBlockSize;
    var e := Zeros(20) + (s.kind + Zeros(blockSize - 196));
    var d := Zeros(12) + (Word(s.low) + (Word(s.high) + e));
    AtConcat(b, 128, Zeros(12), Word(s.surfaces) + (Zeros(4) + (Word(s.perTrack) + d)));
    WordThen(b, 140, s.surfaces, Zeros(4) + (Word(s.perTrack) + d));
    AtConcat(b, 144, Zeros(4), Word(s.perTrack) + d);
    WordThen(b, 148, s.perTrack, d);
    AtConcat(b, 152, Zeros(12), Word(s.low) + (Word(s.high) + e));
    WordThen(b, 164, s.low, Word(s.high) + e);
    WordThen(b, 168, s.high, e);
    AtConcat(b, 172, Zeros(20), s.kind + Zeros(blockSize - 196));
    AtConcat(b, 192, s.kind, Zeros(blockSize - 196));
    AtSlice(b, 192, s.kind);
  }

  // The checksum word makes the sum vanish.

  lemma {:induction false} SumDiffers(a: seq<byte>, b: seq<byte>, n: nat, k: nat)
    requires |a| == |b| && 4 * k <= |a| && |a| >= 12 && a[..8] == b[..8] && a[12..] == b[12..]
    requires Be32(a, 8) == n && Be32(b, 8) == 0
    ensures WordSum(a, k) == WordSum(b, k) + if k > 2 then n else 0
  {
    hide Be32;
    if k > 0 {
      SumDiffers(a, b, n, k - 1);
      if k - 1 != 2 {
        SameWordAt(a, b, k - 1);
      }
    }
  }

  lemma SameWordAt(a: seq<byte>, b: seq<byte>, k: nat)
    requires |a| == |b| && 4 * k + 4 <= |a| && |a| >= 12 && a[..8] == b[..8] && a[12..] == b[12..] && k != 2
    ensures Be32(a, 4 * k) == Be32(b, 4 * k)
  {
    forall i | 4 * k <= i < 4 * k + 4
      ensures a[i] == b[i]
    {
      if i < 8 {
        assert a[i] == a[..8][i] && b[i] == b[..8][i];
      } else {
        assert a[i] == a[12..][i - 12] && b[i] == b[12..][i - 12];
      }
    }
  }

  lemma OnlyTheSum(s: Spec, next: nat, blockSize: nat, sum: nat)
    requires IsSpec(s) && next < WORD && IsBlockSize(blockSize) && sum < WORD
    ensures var a, b := Unsealed(s, next, blockSize, sum), Unsealed(s, next, blockSize, 0); a[..8] == b[..8] && a[12..] == b[12..]
  {
    hide Word, Zeros, Geometry, IsBlockSize;
    var tail := Tail(s, next, blockSize);
    assert Unsealed(s, next, blockSize, sum) == (PART + Word(64)) + Word(sum) + tail;
    assert Unsealed(s, next, blockSize, 0) == (PART + Word(64)) + Word(0) + tail;
  }

  lemma PartIsGood(s: Spec, next: nat, blockSize: nat)
    requires IsSpec(s) && next < WORD && IsBlockSize(blockSize)
    ensures PartBlock(s, next, blockSize)[..4] == PART && GoodChecksum(PartBlock(s, next, blockSize))
    ensures Be32(PartBlock(s, next, blockSize), 16) == next
  {
    hide Unsealed, WordSum, Be32, Geometry, Tail, At;
    var zero := Unsealed(s, next, blockSize, 0);
    var sum := F.Negated(WordSum(zero, 64));
    HeadFields(s, next, blockSize, 0);
    HeadFields(s, next, blockSize, sum);
    TailFields(s, next, blockSize, PartBlock(s, next, blockSize));
    OnlyTheSum(s, next, blockSize, sum);
    SumDiffers(PartBlock(s, next, blockSize), zero, sum, 64);
  }

  function PartitionOf(s: Spec, blockSize: nat, index: nat): Partition
    requires IsSpec(s)
  {
    Partition(index, s.low * Cylinder(s, blockSize), (s.high - s.low + 1) * Cylinder(s, blockSize), s.kind, s.name)
  }

  /** A PART block is read back as the partition it was written for. */
  lemma PartReads(s: Spec, next: nat, blockSize: nat, index: nat, size: nat)
    requires IsSpec(s) && next < WORD && IsBlockSize(blockSize) && SpecFits(s, blockSize, size)
    ensures ReadPart(PartBlock(s, next, blockSize), index, size) == Good(PartitionOf(s, blockSize, index))
  {
    hide Unsealed, WordSum, Be32, Geometry, Tail, At;
    var sum := F.Negated(WordSum(Unsealed(s, next, blockSize, 0), 64));
    HeadFields(s, next, blockSize, sum);
    TailFields(s, next, blockSize, PartBlock(s, next, blockSize));
    GeometryFields(s, blockSize, PartBlock(s, next, blockSize));
  }

  // The pointer chain.

  /** One PART block of the chain and where it lies. */
  datatype Placed = Placed(pointer: nat, spec: Spec)

  /** From entry `i` on, each entry's block is at its pointer and names the next one; the last names none. */
  predicate Chained(data: seq<byte>, entries: seq<Placed>, i: nat, blockSize: nat)
    requires IsBlockSize(blockSize) && i <= |entries|
    decreases |entries| - i
  {
    i == |entries| ||
    (&& entries[i].pointer < NO_POINTER && IsSpec(entries[i].spec) && SpecFits(entries[i].spec, blockSize, |data|)
     && At(data, entries[i].pointer * blockSize, PartBlock(entries[i].spec, PointerOf(entries, i + 1), blockSize))
     && Chained(data, entries, i + 1, blockSize))
  }

  function PointerOf(entries: seq<Placed>, i: nat): (r: nat)
    ensures r < WORD
  {
    if i < |entries| && entries[i].pointer < NO_POINTER then entries[i].pointer else NO_POINTER
  }

  predicate AreSpecs(entries: seq<Placed>) {
    forall i | 0 <= i < |entries| :: IsSpec(entries[i].spec)
  }

  predicate Distinct(entries: seq<Placed>) {
    forall j, k | 0 <= j < k < |entries| :: entries[j].pointer != entries[k].pointer
  }

  /** The pointers of the first `n` entries. */
  function Pointers(entries: seq<Placed>, n: nat): set<nat>
    requires n <= |entries|
  {
    if n == 0 then {} else Pointers(entries, n - 1) + {entries[n - 1].pointer}
  }

  lemma {:induction false} FreshPointer(entries: seq<Placed>, n: nat, i: nat)
    requires n <= i < |entries| && Distinct(entries)
    ensures entries[i].pointer !in Pointers(entries, n)
  {
    if n > 0 {
      FreshPointer(entries, n - 1, i);
    }
  }

  function PlacedPartitions(entries: seq<Placed>, n: nat, blockSize: nat): (r: seq<Partition>)
    requires n <= |entries| && AreSpecs(entries)
    ensures |r| == n
  {
    if n == 0 then [] else PlacedPartitions(entries, n - 1, blockSize) + [PartitionOf(entries[n - 1].spec, blockSize, n - 1)]
  }

  /** One turn of the pointer loop at a good block. */
  lemma FollowStep(data: seq<byte>, pointer: nat, block: seq<byte>, p: Partition, blockSize: nat, most: nat, w: Walk)
    requires IsBlockSize(blockSize) && |w.seen| < most && pointer < NO_POINTER && pointer !in w.seen && |block| == blockSize
    ensures |w.seen + {pointer}| == |w.seen| + 1
    ensures At(data, pointer * blockSize, block) && block[..4] == PART && GoodChecksum(block)
            && ReadPart(block, |w.table.partitions|, |data|) == Good(p) ==>
              var longer := Walk(w.table.(partitions := w.table.partitions + [p]), w.seen + {pointer});
              Follow(data, pointer, blockSize, most, w) == Follow(data, Be32(block, 16), blockSize, most, longer)
  {
    hide GoodChecksum, ReadPart, Be32, At;
    if At(data, pointer * blockSize, block) {
      AtSlice(data, pointer * blockSize, block);
    }
  }

  lemma {:induction false} ChainBack(data: seq<byte>, entries: seq<Placed>, i: nat, blockSize: nat, most: nat, w: Walk)
    requires IsBlockSize(blockSize) && i <= |entries| <= most && AreSpecs(entries) && Distinct(entries)
    requires Chained(data, entries, i, blockSize)
    requires w.seen == Pointers(entries, i) && |w.seen| == i && w.table == Table(PlacedPartitions(entries, i, blockSize), [])
    ensures Follow(data, PointerOf(entries, i), blockSize, most, w).table == Table(PlacedPartitions(entries, |entries|, blockSize), [])
    decreases |entries| - i
  {
    hide PartBlock, At, GoodChecksum, ReadPart, IsSpec, SpecFits, PartitionOf, Be32, IsBlockSize, Distinct;
    if i < |entries| {
      hide Follow;
      var e, next := entries[i], PointerOf(entries, i + 1);
      PartIsGood(e.spec, next, blockSize);
      PartReads(e.spec, next, blockSize, i, |data|);
      FreshPointer(entries, i, i);
      var p := PartitionOf(e.spec, blockSize, i);
      FollowStep(data, e.pointer, PartBlock(e.spec, next, blockSize), p, blockSize, most, w);
      var longer := Walk(w.table.(partitions := w.table.partitions + [p]), w.seen + {e.pointer});
      ChainBack(data, entries, i + 1, blockSize, most, longer);
    }
  }

  lemma PrefixWord(data: seq<byte>, n: nat, pos: nat)
    requires pos + 4 <= n <= |data|
    ensures Be32(data[..n], pos) == Be32(data, pos)
  {
  }

  /**
   An RDSK block at the front and a chain of PART blocks at distinct pointers are read back entry by entry, with no
   error but their overlaps.
   */
  lemma RdbReadsBack(data: seq<byte>, entries: seq<Placed>, blockSize: nat, most: nat)
    requires |data| >= 512 && IsBlockSize(blockSize) && data[..4] == RDSK && GoodChecksum(data[..512])
    requires Be32(data, 16) == blockSize && Be32(data, 28) == PointerOf(entries, 0)
    requires |entries| <= most && AreSpecs(entries) && Distinct(entries) && Chained(data, entries, 0, blockSize)
    ensures Rdb(data, most) == Some(Ok(Marked(Table(PlacedPartitions(entries, |entries|, blockSize), []))))
  {
    hide Follow, Chained, GoodChecksum, Marked, IsBlockSize, AreSpecs, Distinct, Be32, PointerOf;
    assert data[0..512] == data[..512] && data[0..4] == data[..4];
    PrefixWord(data, 512, 16);
    PrefixWord(data, 512, 28);
    ChainBack(data, entries, 0, blockSize, most, NEW_WALK);
  }
}
