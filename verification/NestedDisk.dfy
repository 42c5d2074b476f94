/** Runs on a disk whose partition holds a partition table of its own. */
module NestedDisk {
  import opened Bytes
  import opened ContainerDepth
  import opened ContainerEngine
  import opened ContainerFit
  import opened ContainerRun
  import opened ContainerTheorems
  import opened Containers
  import P = Partitions
  import opened PartitionTables
  import W = PartitionWriter
  import opened Writing

  // ----- the partition-table decoder as the engine sees it -----

  function Decimal(n: nat): (r: string)
    ensures r != []
  {
    if n < 10 then [('0' as int + n) as char] else Decimal(n / 10) + [('0' as int + n % 10) as char]
  }

  /** A partition without a name of its own is listed under its number. */
  function RangeOf(p: P.Partition): Range {
    var name := if p.name == [] then "partition-" + Decimal(p.index)
                else seq(|p.name|, i requires 0 <= i < |p.name| => p.name[i] as char);
    Range(name, p.index, p.start, p.length)
  }

  /** Partition tables are tried before every other kind; nothing else is recognized here. */
  function DiskContents(data: Blob, most: nat): Contents {
    match Parse(data, most)
    case Some(Ok(table)) =>
      Partitions(table.errors != [], seq(|table.partitions|, i requires 0 <= i < |table.partitions| => RangeOf(table.partitions[i])))
    case Some(Err(_)) => PartitionTableFails
    case None => Unrecognized
  }

  // ----- the disk -----

  /** A disk with one FAT16 partition, which fills it from sector 1 on. */
  function Disk(content: Blob): (r: Blob)
    ensures |r| == 512 + |content|
  {
    W.MbrImage(Zeros(446), [Some(W.Primary(false, 6, 1, |content| / 512)), None, None, None], content)
  }

  function Sector(): (r: Blob)
    ensures |r| == 512
  {
    seq(512, i => 0x41)
  }

  /** 1024 bytes: a table and one sector. */
  function InnerDisk(): (r: Blob)
    ensures |r| == 1024
  {
    Disk(Sector())
  }

  /** 1536 bytes: a table whose partition is the inner disk. */
  function OuterDisk(): (r: Blob)
    ensures |r| == 1536
  {
    Disk(InnerDisk())
  }

  /** The default budget, but with a total partition cap of 1024 bytes and the given depth bound. */
  function DiskConfig(hash: Blob -> Hash, maxDepth: nat): Config {
    Config(Budget(maxDepth, 100, 1000, 0x400_0000, 0x2000_0000, 100.0, 0x1000_0000, 1024, 0x400_0000),
           hash, (b: Blob) => NoDocument, (b: Blob) => DiskContents(b, 32))
  }

  // ----- what the decoder makes of it -----

  lemma {:induction false} NoAnchor(data: Blob, i: nat)
    requires forall k: nat | k < |data| / 512 :: data[k * 512] != RDSK[0]
    ensures Find(data, i) == None
    decreases 16 - i
  {
    if i < 16 && i < |data| / 512 {
      assert data[i * 512..i * 512 + 4][0] == data[i * 512];
      NoAnchor(data, i + 1);
    }
  }

  lemma MarkedAlone(p: P.Partition)
    ensures Marked(P.Table([p], [])) == P.Table([p], [])
  {
    assert P.Sorted([]) == [];
    assert [p][1..] == [];
    assert P.Sorted([p]) == [p];
  }

  lemma DiskStart(content: Blob)
    ensures Disk(content)[0] == 0 && Disk(content)[512..] == content
  {
    hide W.RowBytes;
    assert Zeros(446)[0] == 0;
  }

  /** A disk of whole sectors, none of which starts like an RDB, is read as one undamaged partition: its content. */
  lemma DiskDecodes(content: Blob)
    requires |content| % 512 == 0 && 0 < |content| < 0x1_0000_0000
    requires forall k: nat | k < |content| / 512 :: content[k * 512] != RDSK[0]
    ensures DiskContents(Disk(content), 32) == Partitions(false, [Range("partition-0", 0, 512, |content|)])
    ensures Disk(content)[512..512 + |content|] == content
  {
    hide W.MbrImage, Marked, Mbr, W.RowBytes, Find;
    var data := Disk(content);
    var slot := Some(W.Primary(false, 6, 1, |content| / 512));
    var p := P.Partition(0, 512, |content|, [6], []);
    DiskStart(content);
    forall k: nat | k < |data| / 512
      ensures data[k * 512] != RDSK[0]
    {
      if k > 0 {
        assert data[k * 512] == data[512..][(k - 1) * 512];
      }
    }
    NoAnchor(data, 0);
    ListedOne(slot);
    var slots := [slot, None, None, None];
    assert slots[0].Some?;
    W.MbrReadsBack(Zeros(446), slots, content, 32);
    MarkedAlone(p);
    assert RangeOf(p) == Range("partition-0", 0, 512, |content|);
  }

  lemma ListedOne(slot: Option<W.Primary>)
    requires slot.Some?
    ensures W.Listed([slot, None, None, None], 4)
         == [P.Partition(0, slot.value.start * 512, slot.value.sectors * 512, [slot.value.code], [])]
  {
    var slots := [slot, None, None, None];
    assert W.Listed(slots, 0) == [];
    var p := P.Partition(0, slot.value.start * 512, slot.value.sectors * 512, [slot.value.code], []);
    assert W.Listed(slots, 1) == W.Listed(slots, 0) + [p];
    assert W.Listed(slots, 2) == W.Listed(slots, 1) + [] && W.Listed(slots, 3) == W.Listed(slots, 2) + [];
  }

  lemma SectorIsPlain()
    ensures DiskContents(Sector(), 32) == Unrecognized
  {
    hide Find;
    var data := Sector();
    NoAnchor(data, 0);
    forall i: nat | i < 4
      ensures !Plausible(RowOf(data, i))
    {
      assert RowOf(data, i)[0] == data[446 + i * 16];
    }
  }

  // ----- what the engine makes of it -----

  /** A table with one partition: the expansion and the budget are the partition's. */
  lemma OnePartition(c: Config, source: Blob, range: Range, content: Blob, depth: nat, u: Usage)
    requires depth < c.budget.maxDepth && DocumentOf(c, source).NoDocument? && c.decode(source) == Partitions(false, [range])
    requires range.start + range.length <= |source| && source[range.start..range.start + range.length] == content
    ensures Expansion(c, source, depth) == ExpandChild(c, source, PartitionOf, range.name, range.index, content, depth)
    ensures Fits(c, source, depth, u) <==>
            && range.length <= c.budget.maxPartition && u.counted + range.length <= c.budget.maxTotalPartition
            && FitChild(c, source, content, Eof, depth, u)
  {
    hide ExpandChild, FitChild;
    var ranges := [range];
    assert Expansion(c, source, depth) == ExpandContents(c, source, depth) == ExpandRanges(c, source, ranges, 1, depth);
    assert ExpandRanges(c, source, ranges, 1, depth)
        == ExpandRanges(c, source, ranges, 0, depth) + ExpandRange(c, source, range, depth);
    assert Fits(c, source, depth, u) <==> FitRanges(c, source, ranges, 1, depth, u) by {
      assert Fits(c, source, depth, u) <==> FitContents(c, source, depth, u);
    }
    FitRangesNext(c, source, ranges, 0, depth, u);
    assert Grown(u, []) == u;
  }

  lemma NothingInside(c: Config, source: Blob, depth: nat, u: Usage)
    requires DocumentOf(c, source).NoDocument? && c.decode(source).Unrecognized?
    ensures Expansion(c, source, depth) == [] && Fits(c, source, depth, u)
  {
    if depth < c.budget.maxDepth {
      assert Expansion(c, source, depth) == ExpandContents(c, source, depth);
      assert FitContents(c, source, depth, u);
    }
  }

  /** Both tables are read, every budget is met when it is checked, and the two partitions together have 1536 bytes. */
  lemma NestedExpands(hash: Blob -> Hash)
    ensures var c := DiskConfig(hash, 3);
            && Fits(c, OuterDisk(), 0, Usage(0, 0, 0))
            && PartitionSum(Expansion(c, OuterDisk(), 0)) == 1536
  {
    hide W.MbrImage, Fits, Expansion, DiskContents;
    var c := DiskConfig(hash, 3);
    var outer, inner, sector := OuterDisk(), InnerDisk(), Sector();
    DiskStart(inner);
    DiskStart(sector);
    DiskDecodes(sector);
    assert inner[512] == inner[512..][0];
    DiskDecodes(inner);
    SectorIsPlain();
    NothingInside(c, sector, 2, Usage(2, 1536, 0));
    OnePartition(c, inner, Range("partition-0", 0, 512, 512), sector, 1, Usage(1, 1024, 0));
    OnePartition(c, outer, Range("partition-0", 0, 512, 1024), inner, 0, Usage(0, 0, 0));
    var o := Record(c, outer, PartitionOf, "partition-0", 0, inner, 0);
    var i := Record(c, inner, PartitionOf, "partition-0", 0, sector, 1);
    assert Expansion(c, inner, 1) == [i];
    assert Expansion(c, outer, 0) == [o] + [i];
    PartitionSumNext([], o);
    PartitionSumNext([o], i);
  }

  /**
   On this disk the engine ends COMPLETE without an event unless the deadline passes, having counted 1536 partition bytes
   against a cap of 1024: the outer length is added only once the inner one has been.
   */
  method NestedRun(hash: Blob -> Hash) returns (e: Engine, outcome: ContainerEngine.Outcome)
    ensures fresh(e) && e.c == DiskConfig(hash, 3)
    ensures !e.late ==>
      && outcome == Done && e.completeness == COMPLETE && e.limitEvents == []
      && e.materializedPartitionBytes == 1536 > e.c.budget.maxTotalPartition == 1024
  {
    hide *;
    NestedExpands(hash);
    e, outcome := FreshRun(DiskConfig(hash, 3), OuterDisk());
    CapOf(hash, 3);
  }

  lemma CapOf(hash: Blob -> Hash, maxDepth: nat)
    ensures DiskConfig(hash, maxDepth).budget.maxTotalPartition == 1024 && DiskConfig(hash, maxDepth).budget.maxDepth == maxDepth
  {
  }

  /** With a recursion bound of 0 no source is looked into, and nothing in the result says so. */
  method ShallowRun(c: Config, source: Blob) returns (e: Engine, outcome: ContainerEngine.Outcome)
    requires c.budget.maxDepth == 0
    ensures fresh(e) && e.c == c
    ensures !e.late ==>
      && outcome == Done && e.completeness == COMPLETE && e.limitEvents == []
      && e.derivedObjects == [] && e.relationships == []
  {
    hide *;
    AllFitsAtZero(c, source);
    e, outcome := FreshRun(c, source);
  }

  lemma AllFitsAtZero(c: Config, source: Blob)
    requires c.budget.maxDepth == 0
    ensures Fits(c, source, 0, Usage(0, 0, 0)) && Expansion(c, source, 0) == []
  {
  }

  /** The disk is such a source: under any larger bound its partition is extracted. */
  lemma ShallowMisses(hash: Blob -> Hash, d: nat)
    requires d > 0
    ensures var c := DiskConfig(hash, 0);
            && c.decode(OuterDisk()).Partitions?
            && Expansion(c, OuterDisk(), 0) == [] != Expansion(Deeper(c, d), OuterDisk(), 0)
  {
    hide W.MbrImage, DiskContents, Expansion;
    var c := DiskConfig(hash, 0);
    DiskStart(InnerDisk());
    DiskStart(Sector());
    assert InnerDisk()[512] == InnerDisk()[512..][0];
    DiskDecodes(InnerDisk());
    BoundIsEmpty(c, OuterDisk(), 0);
    BoundLosesNothing(c, OuterDisk(), d);
    assert c.decode(OuterDisk()).ranges[0] == Range("partition-0", 0, 512, 1024);
  }
}
