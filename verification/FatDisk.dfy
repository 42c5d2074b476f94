/** What lies in a FAT image, byte by byte: the parameter block, table entries by their half-bytes, clusters and rows. */
module FatDisk {
  import opened Bytes
  import opened Fat
  import opened Writing

  // ----- the parameter block -----

  /** A volume's parameters and what follows from them: sectors of the fixed root directory, and data clusters. */
  datatype Geometry = Geometry(bps: nat, spc: nat, reserved: nat, copies: nat, rootEntries: nat, total: nat, fatSize: nat,
                               rootCluster: nat, rootSectors: nat, clusters: nat)

  /** A two-byte field or, where that is zero, a four-byte one elsewhere. */
  predicate EitherIs(data: seq<byte>, half: nat, full: nat, n: nat) {
    if HalfIs(data, half, 0) then FullIs(data, full, n) else HalfIs(data, half, n)
  }

  predicate IsPower(n: nat, k: nat) {
    k < 8 && n == Pow2(k)
  }

  function DataStart(g: Geometry): nat {
    g.reserved + g.copies * g.fatSize + g.rootSectors
  }

  /** The image begins with this parameter block, and the volume it describes fits in the image. */
  ghost predicate GeometryAt(data: seq<byte>, g: Geometry) {
    && |data| >= 512
    && HalfIs(data, 11, g.bps) && g.bps in {512, 1024, 2048, 4096}
    && data[13] as nat == g.spc && (exists k: nat :: IsPower(g.spc, k))
    && HalfIs(data, 14, g.reserved) && g.reserved > 0
    && data[16] as nat == g.copies && 1 <= g.copies <= 2
    && HalfIs(data, 17, g.rootEntries)
    && EitherIs(data, 19, 32, g.total)
    && EitherIs(data, 22, 36, g.fatSize) && g.fatSize > 0
    && FullIs(data, 44, g.rootCluster)
    && 32 * g.rootEntries <= g.rootSectors * g.bps < 32 * g.rootEntries + g.bps
    && DataStart(g) < g.total && g.total * g.bps <= |data|
    && g.clusters * g.spc <= g.total - DataStart(g) < (g.clusters + 1) * g.spc
  }

  function GeometryOf(b: Bpb): Geometry {
    Geometry(b.bps, b.spc, b.reserved, b.copies, b.rootEntries, b.total, b.fatSize, b.rootCluster, RootSectors(b), Clusters(b))
  }

  lemma PowersOfTwo(n: nat)
    ensures PowerOfTwoByte(n) <==> exists k: nat :: IsPower(n, k)
  {
    assert Pow2(0) == 1 && Pow2(1) == 2 && Pow2(2) == 4 && Pow2(3) == 8;
    assert Pow2(4) == 16 && Pow2(5) == 32 && Pow2(6) == 64 && Pow2(7) == 128;
    hide Pow2;
    if PowerOfTwoByte(n) {
      assert IsPower(n, 0) || IsPower(n, 1) || IsPower(n, 2) || IsPower(n, 3)
          || IsPower(n, 4) || IsPower(n, 5) || IsPower(n, 6) || IsPower(n, 7);
    }
    forall k: nat | IsPower(n, k)
      ensures PowerOfTwoByte(n)
    {
      assert k == 0 || k == 1 || k == 2 || k == 3 || k == 4 || k == 5 || k == 6 || k == 7;
    }
  }

  /** A quotient by its remainder. */
  lemma QuotientIs(n: nat, d: nat, q: nat)
    requires d > 0
    ensures q == n / d <==> q * d <= n < (q + 1) * d
  {
    var p := n / d;
    assert (q + 1) * d == q * d + d && (p + 1) * d == p * d + d;
    if q < p {
      MulMonotone(q + 1, p, d);
    }
    if p < q {
      MulMonotone(p + 1, q, d);
    }
  }

  lemma CeilingIs(n: nat, d: nat, q: nat)
    requires d > 0
    ensures q == (n + d - 1) / d <==> n <= q * d < n + d
  {
    QuotientIs(n + d - 1, d, q);
    assert (q + 1) * d == q * d + d;
  }

  lemma FieldsIff(data: seq<byte>, b: Bpb)
    requires |data| >= 512
    ensures b == ReadBpb(data)
       <==> && HalfIs(data, 11, b.bps) && data[13] as nat == b.spc && HalfIs(data, 14, b.reserved) && data[16] as nat == b.copies
            && HalfIs(data, 17, b.rootEntries) && EitherIs(data, 19, 32, b.total) && EitherIs(data, 22, 36, b.fatSize)
            && FullIs(data, 44, b.rootCluster)
  {
    hide Le16, Le32, HalfIs, FullIs;
    HalfIff(data, 11, b.bps);
    HalfIff(data, 14, b.reserved);
    HalfIff(data, 17, b.rootEntries);
    HalfIff(data, 19, 0);
    HalfIff(data, 19, b.total);
    FullIff(data, 32, b.total);
    HalfIff(data, 22, 0);
    HalfIff(data, 22, b.fatSize);
    FullIff(data, 36, b.fatSize);
    FullIff(data, 44, b.rootCluster);
  }

  function BpbOf(g: Geometry): Bpb {
    Bpb(g.bps, g.spc, g.reserved, g.copies, g.rootEntries, g.total, g.fatSize, g.rootCluster)
  }

  /** Both sides accept a block exactly when it describes a volume that fits, and they compute that volume's layout. */
  lemma GeometryIff(data: seq<byte>, g: Geometry)
    requires |data| >= 512
    ensures GeometryAt(data, g) <==> Coherent(ReadBpb(data), |data|) && g == GeometryOf(ReadBpb(data))
  {
    hide Le16, Le32, HalfIs, FullIs, EitherIs, ReadBpb, PowerOfTwoByte;
    var b := BpbOf(g);
    FieldsIff(data, b);
    PowersOfTwo(g.spc);
    FieldsIff(data, ReadBpb(data));
    PowersOfTwo(ReadBpb(data).spc);
    if g.bps > 0 {
      CeilingIs(32 * g.rootEntries, g.bps, g.rootSectors);
    }
    if g.spc > 0 && DataStart(g) < g.total {
      QuotientIs(g.total - DataStart(g), g.spc, g.clusters);
    }
  }

  // ----- the allocation table -----

  /** The volume both sides read from an image with this parameter block. */
  ghost function VolumeAt(data: seq<byte>, g: Geometry): (v: Volume)
    requires GeometryAt(data, g)
    ensures LaidOut(v) && v.data == data && v.clusters == g.clusters
  {
    GeometryIff(data, g);
    VolumeOf(data, ReadBpb(data))
  }

  /** The first table follows the reserved sectors. */
  lemma TableIs(data: seq<byte>, g: Geometry)
    requires GeometryAt(data, g)
    ensures g.reserved * g.bps <= (g.reserved + g.fatSize) * g.bps <= |data|
    ensures VolumeAt(data, g).fat == data[g.reserved * g.bps..(g.reserved + g.fatSize) * g.bps]
    ensures var v := VolumeAt(data, g);
            v.variant == VariantOf(g.clusters) && v.firstData == DataStart(g) && v.spc == g.spc && v.bps == g.bps
  {
    hide ReadBpb;
    GeometryIff(data, g);
    TablesInside(ReadBpb(data), |data|);
  }

  /** Below FAT32 the root directory is the area behind the tables. */
  lemma FixedRoot(data: seq<byte>, b: Bpb, g: Geometry)
    requires Coherent(b, |data|) && g == GeometryOf(b)
    ensures var pos, size := FatStart(b, b.copies), RootSectors(b) * b.bps;
            && pos + size <= |data| && size == g.rootSectors * g.bps && pos == (g.reserved + g.copies * g.fatSize) * g.bps
            && At(data, pos, data[pos..pos + size])
            && forall part | |part| == size && At(data, pos, part) :: part == data[pos..pos + size]
  {
    hide Coherent, RootSectors;
    TablesInside(b, |data|);
    SliceIsOnly(data, FatStart(b, b.copies), RootSectors(b) * b.bps);
  }

  lemma SliceIsOnly(data: seq<byte>, pos: nat, size: nat)
    requires pos + size <= |data|
    ensures At(data, pos, data[pos..pos + size])
    ensures forall part | |part| == size && At(data, pos, part) :: part == data[pos..pos + size]
  {
  }

  /** Half-byte `j`, the low one of a byte first. */
  function Nibble(table: seq<byte>, j: nat): (r: nat)
    requires j < 2 * |table|
    ensures r < 16
  {
    if j % 2 == 0 then table[j / 2] as nat % 16 else table[j / 2] as nat / 16
  }

  /** The number whose half-bytes are those from `j` on, least significant first. */
  function Number(table: seq<byte>, j: nat, width: nat): nat
    requires j + width <= 2 * |table|
    decreases width
  {
    if width == 0 then 0 else Nibble(table, j) + 16 * Number(table, j + 1, width - 1)
  }

  /** An entry has three, four or seven half-bytes, at a distance of three, four or eight. */
  function Stride(g: Geometry): nat {
    if g.clusters < 4085 then 3 else if g.clusters < 65525 then 4 else 8
  }

  function Width(g: Geometry): nat {
    if g.clusters < 4085 then 3 else if g.clusters < 65525 then 4 else 7
  }

  predicate EntryIs(table: seq<byte>, g: Geometry, cluster: nat, value: nat) {
    Stride(g) * (cluster + 1) <= 2 * |table| && value == Number(table, Stride(g) * cluster, Width(g))
  }

  /** The eight highest values mark the end of a chain. */
  predicate Ends(g: Geometry, value: nat) {
    value + 8 >= Pow2(4 * Width(g))
  }

  lemma ThreeNibbles(t: seq<byte>, pos: nat)
    requires pos + 2 <= |t|
    ensures Number(t, 2 * pos, 3) == Le16(t, pos) % 0x1000 && Number(t, 2 * pos + 1, 3) == Le16(t, pos) / 16
    ensures Number(t, 2 * pos, 4) == Le16(t, pos)
  {
    TwoNibbles(t, pos);
    TwoNibbles(t, pos + 1);
    UnfoldThree(t, 2 * pos);
    UnfoldThree(t, 2 * pos + 1);
    assert Number(t, 2 * pos, 4) == Nibble(t, 2 * pos) + 16 * Number(t, 2 * pos + 1, 3);
    hide Nibble, Number;
    HighThree(t[pos] as nat, t[pos + 1] as nat);
    LowThree(t[pos] as nat, t[pos + 1] as nat);
  }

  lemma TwoNibbles(t: seq<byte>, pos: nat)
    requires pos < |t|
    ensures Nibble(t, 2 * pos) == t[pos] as nat % 16 && Nibble(t, 2 * pos + 1) == t[pos] as nat / 16
  {
  }

  lemma HighThree(a: nat, b: nat)
    requires a < 256 && b < 256
    ensures (a + 0x100 * b) / 16 == a / 16 + 16 * (b % 16) + 256 * (b / 16)
  {
    assert a + 0x100 * b == 16 * (a / 16 + 16 * b) + a % 16;
  }

  lemma LowThree(a: nat, b: nat)
    requires a < 256 && b < 256
    ensures (a + 0x100 * b) % 0x1000 == a % 16 + 16 * (a / 16) + 256 * (b % 16)
  {
    assert a + 0x100 * b == 0x1000 * (b / 16) + (a + 0x100 * (b % 16));
  }

  lemma UnfoldThree(t: seq<byte>, j: nat)
    requires j + 3 <= 2 * |t|
    ensures Number(t, j, 3) == Nibble(t, j) + 16 * Nibble(t, j + 1) + 256 * Nibble(t, j + 2)
  {
    hide Nibble;
    assert Number(t, j + 2, 1) == Nibble(t, j + 2) + 16 * Number(t, j + 3, 0);
    assert Number(t, j + 1, 2) == Nibble(t, j + 1) + 16 * Number(t, j + 2, 1);
  }

  lemma UnfoldFour(t: seq<byte>, j: nat, width: nat)
    requires j + 4 + width <= 2 * |t|
    ensures Number(t, j, 4 + width) == Number(t, j, 4) + 0x1_0000 * Number(t, j + 4, width)
  {
    hide Nibble;
    var last := Number(t, j + 4, width);
    assert Number(t, j + 3, 1) == Nibble(t, j + 3) + 16 * Number(t, j + 4, 0);
    assert Number(t, j + 2, 2) == Nibble(t, j + 2) + 16 * Number(t, j + 3, 1);
    assert Number(t, j + 1, 3) == Nibble(t, j + 1) + 16 * Number(t, j + 2, 2);
    assert Number(t, j + 3, 1 + width) == Nibble(t, j + 3) + 16 * last;
    assert Number(t, j + 2, 2 + width) == Nibble(t, j + 2) + 16 * Number(t, j + 3, 1 + width);
    assert Number(t, j + 1, 3 + width) == Nibble(t, j + 1) + 16 * Number(t, j + 2, 2 + width);
  }

  lemma SevenNibbles(t: seq<byte>, pos: nat)
    requires pos + 4 <= |t|
    ensures Number(t, 2 * pos, 7) == Le32(t, pos) % 0x1000_0000
  {
    hide Number;
    ThreeNibbles(t, pos);
    ThreeNibbles(t, pos + 2);
    UnfoldFour(t, 2 * pos, 3);
    assert Le32(t, pos) == Le16(t, pos) + 0x1_0000 * Le16(t, pos + 2);
    LowSeven(Le16(t, pos), Le16(t, pos + 2));
  }

  lemma LowSeven(low: nat, high: nat)
    requires low < 0x1_0000
    ensures (low + 0x1_0000 * high) % 0x1000_0000 == low + 0x1_0000 * (high % 0x1000)
  {
    assert low + 0x1_0000 * high == 0x1000_0000 * (high / 0x1000) + (low + 0x1_0000 * (high % 0x1000));
  }

  /** Both sides read the table by its half-bytes. */
  lemma EntryIff(v: Volume, g: Geometry, cluster: nat, value: nat)
    requires v.variant == VariantOf(g.clusters)
    ensures EntryIs(v.fat, g, cluster, value) <==> Entry(v, cluster) == Some(value)
  {
    hide Number, Le16, Le32;
    var pos := EntryPos(v.variant, cluster);
    if pos + EntryWidth(v.variant) <= |v.fat| {
      ThreeNibbles(v.fat, pos);
      if v.variant.Fat32? {
        SevenNibbles(v.fat, pos);
      }
    }
  }

  lemma EndsIff(g: Geometry, value: nat)
    ensures Ends(g, value) <==> value >= EndMark(VariantOf(g.clusters))
  {
    assert Pow2(12) == 0x1000;
    assert Pow2(16) == 16 * Pow2(12);
    assert Pow2(20) == 16 * Pow2(16);
    assert Pow2(24) == 16 * Pow2(20);
    assert Pow2(28) == 16 * Pow2(24);
  }

  // ----- clusters -----

  function ClusterPos(g: Geometry, cluster: nat): nat
    requires cluster >= 2
  {
    (DataStart(g) + (cluster - 2) * g.spc) * g.bps
  }

  /** The image is long enough to hold the cluster. */
  predicate ClusterIn(data: seq<byte>, g: Geometry, cluster: nat) {
    cluster >= 2 && ClusterPos(g, cluster) + g.spc * g.bps <= |data|
  }

  function ClusterOf(data: seq<byte>, g: Geometry, cluster: nat): (r: seq<byte>)
    requires ClusterIn(data, g, cluster)
    ensures |r| == g.spc * g.bps
  {
    data[ClusterPos(g, cluster)..ClusterPos(g, cluster) + g.spc * g.bps]
  }

  /** The bytes of the clusters, in order. */
  function Gathered(data: seq<byte>, g: Geometry, trail: seq<nat>): seq<byte>
    requires forall i | 0 <= i < |trail| :: ClusterIn(data, g, trail[i])
  {
    if trail == [] then [] else
      assert ClusterIn(data, g, trail[|trail| - 1]);
      Gathered(data, g, trail[..|trail| - 1]) + ClusterOf(data, g, trail[|trail| - 1])
  }

  // ----- rows -----

  /** A row that is passed over: deleted, or with the volume-label bit, which long-name rows have as well. */
  predicate Passes(directory: seq<byte>, offset: nat)
    requires offset + 32 <= |directory|
  {
    directory[offset] == 0xE5 || directory[offset + 11] as nat / 8 % 2 == 1
  }

  predicate IsDirectory(directory: seq<byte>, offset: nat)
    requires offset + 32 <= |directory|
  {
    directory[offset + 11] as nat / 16 % 2 == 1
  }

  /** A row's first cluster: its low half at 26, its high half at 20. */
  predicate StartIs(directory: seq<byte>, offset: nat, start: nat)
    requires offset + 32 <= |directory|
  {
    HalfIs(directory, offset + 26, start % 0x1_0000) && HalfIs(directory, offset + 20, start / 0x1_0000)
  }

  predicate SizeIs(directory: seq<byte>, offset: nat, size: nat)
    requires offset + 32 <= |directory|
  {
    FullIs(directory, offset + 28, size)
  }

  /** A row as both sides read it. */
  lemma RowIff(directory: seq<byte>, offset: nat)
    requires offset + 32 <= |directory|
    ensures var row := RowAt(directory, offset);
            && (row.End? <==> directory[offset] == 0)
            && (row.Skip? <==> directory[offset] != 0 && Passes(directory, offset))
            && (row.Directory? || row.File? ==>
                  && (row.Directory? <==> IsDirectory(directory, offset))
                  && (forall start: nat :: StartIs(directory, offset, start) <==> start == row.start))
            && (row.File? ==> forall size: nat :: SizeIs(directory, offset, size) <==> size == row.size)
  {
    hide Le16, Le32, HalfIs, FullIs;
    var row := RowAt(directory, offset);
    if row.Directory? || row.File? {
      forall start: nat
        ensures StartIs(directory, offset, start) <==> start == row.start
      {
        HalfIff(directory, offset + 26, start % 0x1_0000);
        HalfIff(directory, offset + 20, start / 0x1_0000);
      }
      if row.File? {
        forall size: nat
          ensures SizeIs(directory, offset, size) <==> size == row.size
        {
          FullIff(directory, offset + 28, size);
        }
      }
    }
  }
}
