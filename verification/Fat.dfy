/**
 What the FAT extractor and the FAT validator share: the BIOS parameter block, the cluster layout, the
 allocation table and directory rows; and the reference notion of a cluster chain.
 */
module Fat {
  import opened Bytes

  datatype Variant = Fat12 | Fat16 | Fat32

  /** The fields of the BIOS parameter block both sides read. */
  datatype Bpb = Bpb(bps: nat, spc: nat, reserved: nat, copies: nat, rootEntries: nat, total: nat, fatSize: nat,
                     rootCluster: nat)

  function ReadBpb(data: seq<byte>): Bpb
    requires |data| >= 512
  {
    Bpb(Le16(data, 11), data[13], Le16(data, 14), data[16], Le16(data, 17),
        if Le16(data, 19) != 0 then Le16(data, 19) else Le32(data, 32),
        if Le16(data, 22) != 0 then Le16(data, 22) else Le32(data, 36),
        Le32(data, 44))
  }

  function RootSectors(b: Bpb): nat {
    if b.bps == 0 then 0 else (b.rootEntries * 32 + b.bps - 1) / b.bps
  }

  function FirstData(b: Bpb): nat {
    b.reserved + b.copies * b.fatSize + RootSectors(b)
  }

  function Clusters(b: Bpb): nat {
    if b.spc == 0 || b.total < FirstData(b) then 0 else (b.total - FirstData(b)) / b.spc
  }

  /** FAT type determination: the cluster count alone decides. */
  function VariantOf(clusters: nat): Variant {
    if clusters < 4085 then Fat12 else if clusters < 65525 then Fat16 else Fat32
  }

  /** A sector-per-cluster byte that is a power of two. */
  predicate PowerOfTwoByte(n: nat) {
    n in {1, 2, 4, 8, 16, 32, 64, 128}
  }

  /** A parsed image: the bytes, the first allocation table, and the cluster layout. */
  datatype Volume = Volume(data: seq<byte>, fat: seq<byte>, variant: Variant,
                           firstData: nat, spc: nat, bps: nat, clusters: nat)

  function ClusterSize(v: Volume): nat {
    v.spc * v.bps
  }

  function ClusterOffset(v: Volume, cluster: nat): nat
    requires cluster >= 2
  {
    (v.firstData + (cluster - 2) * v.spc) * v.bps
  }

  predicate InRange(v: Volume, cluster: nat) {
    2 <= cluster < v.clusters + 2
  }

  /** Every numbered cluster lies inside the image. */
  ghost predicate LaidOut(v: Volume) {
    && ClusterSize(v) > 0
    && forall c: nat | InRange(v, c) :: ClusterOffset(v, c) + ClusterSize(v) <= |v.data|
  }

  function ClusterBytes(v: Volume, cluster: nat): (r: seq<byte>)
    requires cluster >= 2 && ClusterOffset(v, cluster) + ClusterSize(v) <= |v.data|
    ensures |r| == ClusterSize(v)
  {
    v.data[ClusterOffset(v, cluster)..ClusterOffset(v, cluster) + ClusterSize(v)]
  }

  /** The parameter block is one both sides accept, as the validator's check states it. */
  predicate Coherent(b: Bpb, size: nat) {
    && b.bps in {512, 1024, 2048, 4096}
    && PowerOfTwoByte(b.spc)
    && b.reserved > 0
    && b.copies in {1, 2}
    && b.total > FirstData(b)
    && b.total * b.bps <= size
    && b.fatSize > 0
  }

  function FatStart(b: Bpb, copy: nat): nat {
    (b.reserved + copy * b.fatSize) * b.bps
  }

  /** Both allocation tables and the fixed root directory precede the data area, which is inside the image. */
  lemma TablesInside(b: Bpb, size: nat)
    requires Coherent(b, size)
    ensures FatStart(b, 0) + 512 <= FatStart(b, 1) <= FatStart(b, b.copies)
    ensures FatStart(b, b.copies) + RootSectors(b) * b.bps <= size
  {
    hide RootSectors;
    var first, roots := b.reserved + b.copies * b.fatSize, RootSectors(b);
    assert b.copies * b.fatSize >= b.fatSize by {
      MulMonotone(1, b.copies, b.fatSize);
    }
    Distribute(first, roots, b.bps);
    MulMonotone(FirstData(b), b.total, b.bps);
    Distribute(b.reserved, b.fatSize, b.bps);
    MulMonotone(1, b.fatSize, b.bps);
    MulMonotone(b.reserved + b.fatSize, first, b.bps);
  }

  lemma Distribute(a: nat, b: nat, c: nat)
    ensures (a + b) * c == a * c + b * c
  {
  }

  function VolumeOf(data: seq<byte>, b: Bpb): (v: Volume)
    requires Coherent(b, |data|)
    ensures LaidOut(v) && |v.fat| >= 512 && v.data == data
  {
    TablesInside(b, |data|);
    var v := Volume(data, data[FatStart(b, 0)..FatStart(b, 1)], VariantOf(Clusters(b)),
                    FirstData(b), b.spc, b.bps, Clusters(b));
    ClustersInside(b, v);
    v
  }

  /** The parameter-block arithmetic keeps every numbered cluster inside the image. */
  lemma ClustersInside(b: Bpb, v: Volume)
    requires Coherent(b, |v.data|)
    requires v.firstData == FirstData(b) && v.spc == b.spc && v.bps == b.bps && v.clusters == Clusters(b)
    ensures LaidOut(v)
  {
    MulMonotone(1, v.spc, v.bps);
    forall c: nat | InRange(v, c)
      ensures ClusterOffset(v, c) + ClusterSize(v) <= |v.data|
    {
      ClusterEnds(c - 2, v.clusters, v.spc, v.bps, v.firstData, b.total);
    }
  }

  lemma ClusterEnds(k: nat, clusters: nat, spc: nat, bps: nat, firstData: nat, total: nat)
    requires k < clusters && spc > 0 && total >= firstData && clusters == (total - firstData) / spc
    ensures (firstData + k * spc) * bps + spc * bps <= total * bps
  {
    MulMonotone(k + 1, clusters, spc);
    Distribute(k, 1, spc);
    assert clusters * spc <= total - firstData;
    MulMonotone(firstData + k * spc + spc, total, bps);
    Distribute(firstData + k * spc, spc, bps);
  }

  // ----- the allocation table -----

  function EntryPos(variant: Variant, cluster: nat): nat {
    match variant
    case Fat12 => cluster + cluster / 2
    case Fat16 => cluster * 2
    case Fat32 => cluster * 4
  }

  function EntryWidth(variant: Variant): nat {
    if variant.Fat32? then 4 else 2
  }

  /** The table's entry for a cluster, if the table is long enough to hold one. */
  function Entry(v: Volume, cluster: nat): Option<nat> {
    var pos := EntryPos(v.variant, cluster);
    if pos + EntryWidth(v.variant) > |v.fat| then None else
      match v.variant
      case Fat12 => Some(if cluster % 2 == 1 then Le16(v.fat, pos) / 16 else Le16(v.fat, pos) % 0x1000)
      case Fat16 => Some(Le16(v.fat, pos))
      case Fat32 => Some(Le32(v.fat, pos) % 0x1000_0000)
  }

  function EndMark(variant: Variant): nat {
    match variant
    case Fat12 => 0xFF8
    case Fat16 => 0xFFF8
    case Fat32 => 0x0FFF_FFF8
  }

  predicate IsEnd(v: Volume, cluster: nat) {
    Entry(v, cluster).Some? && Entry(v, cluster).value >= EndMark(v.variant)
  }

  /** `next` is the in-range successor the table gives `cluster`. */
  predicate IsLink(v: Volume, cluster: nat, next: nat) {
    Entry(v, cluster) == Some(next) && next < EndMark(v.variant) && InRange(v, next)
  }

  /** Consecutive clusters are linked by the table. */
  predicate Linked(v: Volume, trail: seq<nat>) {
    forall i | 0 <= i < |trail| - 1 :: IsLink(v, trail[i], trail[i + 1])
  }

  predicate Distinct<T(==)>(s: seq<T>) {
    forall i, j | 0 <= i < j < |s| :: s[i] != s[j]
  }

  /** `trail` is part of a chain from `start`: in range, without repetition, linked by the table. */
  predicate IsTrail(v: Volume, start: nat, trail: seq<nat>) {
    && trail != [] && trail[0] == start
    && (forall i | 0 <= i < |trail| :: InRange(v, trail[i]))
    && Distinct(trail)
    && Linked(v, trail)
  }

  /** `trail` is the whole chain from `start`: its last entry is an end mark. */
  predicate IsChain(v: Volume, start: nat, trail: seq<nat>) {
    IsTrail(v, start, trail) && IsEnd(v, trail[|trail| - 1])
  }

  /** The bytes of a list of clusters. */
  ghost function TrailBytes(v: Volume, trail: seq<nat>): (r: seq<byte>)
    requires LaidOut(v) && forall i | 0 <= i < |trail| :: InRange(v, trail[i])
    ensures |r| == |trail| * ClusterSize(v)
  {
    if trail == [] then [] else
      TrailBytes(v, trail[..|trail| - 1]) + ClusterBytes(v, trail[|trail| - 1])
  }

  // ----- directories -----

  datatype Row = End | Skip | Directory(start: nat) | File(start: nat, size: nat)

  /** A 32-byte row, names aside.  Deleted rows, long-name rows and volume labels are skipped. */
  function RowAt(directory: seq<byte>, offset: nat): (r: Row)
    requires offset + 32 <= |directory|
    ensures r.Directory? || r.File? ==> IsStart(r.start)
  {
    var attr := directory[offset + 11];
    if directory[offset] == 0 then End
    else if directory[offset] == 0xE5 || attr == 0x0F || attr / 8 % 2 == 1 then Skip
    else
      var start := Le16(directory, offset + 26) + 0x1_0000 * Le16(directory, offset + 20);
      if attr / 16 % 2 == 1 then Directory(start) else File(start, Le32(directory, offset + 28))
  }

  /**
   Name decoding, abstracted: the name each side makes of the row at an offset (the extractor also looks at the
   long-name rows before it).
   */
  datatype Names = Names(extracted: (seq<byte>, nat) -> string, validated: (seq<byte>, nat) -> string)

  /** The row's name for the extractor, which passes over the dot entries and over an empty name. */
  function Extracted(names: Names, directory: seq<byte>, offset: nat): (r: Option<string>)
    ensures r.Some? ==> r.value != ""
  {
    var name := names.extracted(directory, offset);
    if name == "." || name == ".." || name == "" then None else Some(name)
  }

  /** The row's name for the validator, which passes over the dot entries. */
  function Validated(names: Names, directory: seq<byte>, offset: nat): Option<string> {
    var name := names.validated(directory, offset);
    if name == "." || name == ".." then None else Some(name)
  }

  /** First clusters are 32-bit, which bounds the set of visited directories and so the recursion. */
  predicate IsStart(start: nat) {
    start < 0x1_0000_0000
  }

  ghost function Starts(): set<nat> {
    set s: nat | s < 0x1_0000_0000 && IsStart(s)
  }
}
