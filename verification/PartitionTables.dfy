/** The MBR and RDB parsers of `partitions.py`. */
module PartitionTables {
  import opened Bytes
  import opened Partitions

  // MBR.

  function RowOf(data: seq<byte>, i: nat): (row: seq<byte>)
    requires |data| >= 512 && i < 4
    ensures |row| == 16
  {
    data[446 + i * 16..462 + i * 16]
  }

  predicate Plausible(row: seq<byte>)
    requires |row| == 16
  {
    row[0] in {0, 0x80} && row[4] != 0 && Le32(row, 12) != 0
  }

  datatype Outcome = Nothing | Bad(error: Finding) | Good(partition: Partition)

  function ReadRow(row: seq<byte>, i: nat, size: nat): (o: Outcome)
    requires |row| == 16
    ensures o.Good? ==> o.partition.index == i && o.partition.length > 0 && End(o.partition) <= size && o.partition.start >= 512
  {
    var start, length := Le32(row, 8) * 512, Le32(row, 12) * 512;
    if row[4] == 0 && start == 0 && length == 0 then Nothing
    else if row[0] !in {0, 0x80} then Bad(BadBootFlag(i, row[0]))
    else if row[4] in {0x05, 0x0F, 0x85} then Bad(ExtendedDeferred(i))
    else if length == 0 || start < 512 || start > size || length > size - start then Bad(OutsideImage(i))
    else Good(Partition(i, start, length, [row[4]], []))
  }

  function Noted(t: Table, o: Outcome): Table {
    match o
    case Nothing => t
    case Bad(error) => t.(errors := t.errors + [error])
    case Good(partition) => t.(partitions := t.partitions + [partition])
  }

  /** The first `n` rows. */
  function Rows(data: seq<byte>, n: nat): Table
    requires |data| >= 512 && n <= 4
  {
    if n == 0 then Table([], []) else Noted(Rows(data, n - 1), ReadRow(RowOf(data, n - 1), n - 1, |data|))
  }

  function Clipped(t: Table, most: nat): Table {
    if |t.partitions| > most then Table(t.partitions[..most], t.errors + [TooMany]) else t
  }

  function Marked(t: Table): Table {
    t.(errors := t.errors + Marks(Sorted(t.partitions)))
  }

  predicate HasPlausible(data: seq<byte>)
    requires |data| >= 512
  {
    exists i: nat :: i < 4 && Plausible(RowOf(data, i))
  }

  /** `_parse_mbr`: no table, a refused one, or its partitions and errors. */
  function Mbr(data: seq<byte>, most: nat): Option<Result<Table, Error>> {
    if |data| < 512 || !HasPlausible(data) then None
    else if data[510..512] != [0x55, 0xAA] then Some(Err(NoSignature))
    else Some(Ok(Marked(Clipped(Rows(data, 4), most))))
  }

  method ParseMbr(data: seq<byte>, most: nat) returns (r: Option<Result<Table, Error>>)
    ensures r == Mbr(data, most)
  {
    hide Marks, Sorted, ReadRow;
    if |data| < 512 {
      return None;
    }
    var plausible := 0;
    for i := 0 to 4
      invariant plausible > 0 <==> exists k: nat :: k < i && Plausible(RowOf(data, k))
    {
      if Plausible(RowOf(data, i)) {
        plausible := plausible + 1;
      }
    }
    if plausible == 0 {
      return None;
    }
    if data[510..512] != [0x55, 0xAA] {
      return Some(Err(NoSignature));
    }
    var partitions: seq<Partition>, errors: seq<Finding> := [], [];
    for index := 0 to 4
      invariant Table(partitions, errors) == Rows(data, index)
    {
      match ReadRow(RowOf(data, index), index, |data|)
      case Nothing =>
      case Bad(error) => errors := errors + [error];
      case Good(partition) => partitions := partitions + [partition];
    }
    if |partitions| > most {
      errors := errors + [TooMany];
      partitions := partitions[..most];
    }
    errors := MarkOverlaps(partitions, errors);
    return Some(Ok(Table(partitions, errors)));
  }

  // RDB.

  const NO_POINTER := 0xFFFF_FFFF
  const RDSK: seq<byte> := [0x52, 0x44, 0x53, 0x4B]
  const PART: seq<byte> := [0x50, 0x41, 0x52, 0x54]

  predicate GoodChecksum(block: seq<byte>) {
    |block| >= 24 && 6 <= Be32(block, 4) <= |block| / 4 && WordSum(block, Be32(block, 4)) % 0x1_0000_0000 == 0
  }

  /** The block that starts with "RDSK", among the first sixteen from `i` on. */
  function Find(data: seq<byte>, i: nat): (r: Option<nat>)
    ensures r.Some? ==> r.value * 512 + 512 <= |data|
    decreases 16 - i
  {
    if i >= 16 || i >= |data| / 512 then None
    else if data[i * 512..i * 512 + 4] == RDSK then Some(i)
    else Find(data, i + 1)
  }

  /** A power of two from 512 to 65536: `block_size & (block_size - 1)` is zero. */
  predicate IsBlockSize(n: nat) {
    n in {512, 1024, 2048, 4096, 8192, 16384, 32768, 65536}
  }

  /** Partition number `index`, from a good PART block. */
  function ReadPart(block: seq<byte>, index: nat, size: nat): (o: Outcome)
    requires IsBlockSize(|block|)
    ensures !o.Nothing?
    ensures o.Good? ==> o.partition.index == index && o.partition.length > 0 && End(o.partition) <= size
  {
    var nameLength := if block[36] <= 31 then block[36] as nat else 31;
    var surfaces, perTrack, low, high := Be32(block, 140), Be32(block, 148), Be32(block, 164), Be32(block, 168);
    if surfaces == 0 || perTrack == 0 || high < low then Bad(BadGeometry(index)) else
      var (start, length) := Extent(surfaces, perTrack, |block|, low, high);
      if start > size || length > size - start then Bad(OutsideImage(index))
      else Good(Partition(index, start, length, block[192..196], block[37..37 + nameLength]))
  }

  /** First byte and length of the cylinders `low` to `high`. */
  function Extent(surfaces: nat, perTrack: nat, blockSize: nat, low: nat, high: nat): (r: (nat, nat))
    requires surfaces > 0 && perTrack > 0 && blockSize > 0 && low <= high
    ensures r.1 > 0
  {
    CylinderPositive(surfaces, perTrack, blockSize, high - low + 1);
    (low * (surfaces * perTrack * blockSize), (high - low + 1) * (surfaces * perTrack * blockSize))
  }

  lemma CylinderPositive(surfaces: nat, perTrack: nat, blockSize: nat, cylinders: nat)
    requires surfaces > 0 && perTrack > 0 && blockSize > 0 && cylinders > 0
    ensures cylinders * (surfaces * perTrack * blockSize) > 0
  {
  }

  /** The table so far and the pointers followed. */
  datatype Walk = Walk(table: Table, seen: set<nat>)

  function Fail(w: Walk, error: Finding): Walk {
    w.(table := w.table.(errors := w.table.errors + [error]))
  }

  /** The pointer loop. */
  function Follow(data: seq<byte>, pointer: nat, blockSize: nat, most: nat, w: Walk): Walk
    requires IsBlockSize(blockSize) && |w.seen| <= most
    decreases most - |w.seen|
  {
    if pointer == NO_POINTER then w
    else if pointer in w.seen then Fail(w, PointerCycle)
    else if |w.seen| >= most then Fail(w, TooMany)
    else
      var here := w.(seen := w.seen + {pointer});
      var offset := pointer * blockSize;
      if offset > |data| || blockSize > |data| - offset then Fail(here, PointerOutside)
      else
        var block := data[offset..offset + blockSize];
        if block[..4] != PART || !GoodChecksum(block) then Fail(here, BadPartBlock(pointer))
        else
          var outcome := ReadPart(block, |w.table.partitions|, |data|);
          Follow(data, Be32(block, 16), blockSize, most, here.(table := Noted(w.table, outcome)))
  }

  const NEW_WALK := Walk(Table([], []), {})

  /** `_parse_rdb`. */
  function Rdb(data: seq<byte>, most: nat): Option<Result<Table, Error>> {
    match Find(data, 0)
    case None => None
    case Some(i) =>
      var rdb := data[i * 512..i * 512 + 512];
      if !GoodChecksum(rdb) then Some(Err(BadChecksum))
      else if !IsBlockSize(Be32(rdb, 16)) then Some(Err(BadBlockSize))
      else Some(Ok(Marked(Follow(data, Be32(rdb, 28), Be32(rdb, 16), most, NEW_WALK).table)))
  }

  method FindRdb(data: seq<byte>) returns (r: Option<nat>)
    ensures r == Find(data, 0)
  {
    var probeBlocks := if |data| / 512 < 16 then |data| / 512 else 16;
    for index := 0 to probeBlocks
      invariant Find(data, index) == Find(data, 0)
    {
      if data[index * 512..index * 512 + 4] == RDSK {
        return Some(index);
      }
    }
    return None;
  }

  method ParseRdb(data: seq<byte>, most: nat) returns (r: Option<Result<Table, Error>>)
    ensures r == Rdb(data, most)
  {
    var found := FindRdb(data);
    if found.None? {
      return None;
    }
    var rdb := data[found.value * 512..found.value * 512 + 512];
    if !GoodChecksum(rdb) {
      return Some(Err(BadChecksum));
    }
    var blockSize := Be32(rdb, 16);
    if !IsBlockSize(blockSize) {
      return Some(Err(BadBlockSize));
    }
    var partitions, errors := FollowPointers(data, Be32(rdb, 28), blockSize, most);
    errors := MarkOverlaps(partitions, errors);
    return Some(Ok(Table(partitions, errors)));
  }

  method FollowPointers(data: seq<byte>, first: nat, blockSize: nat, most: nat)
    returns (partitions: seq<Partition>, errors: seq<Finding>)
    requires IsBlockSize(blockSize)
    ensures Table(partitions, errors) == Follow(data, first, blockSize, most, NEW_WALK).table
  {
    hide ReadPart, GoodChecksum, Be32;
    var pointer: nat := first;
    var seen: set<nat> := {};
    partitions, errors := [], [];
    while pointer != NO_POINTER
      invariant |seen| <= most
      invariant Follow(data, pointer, blockSize, most, Walk(Table(partitions, errors), seen))
             == Follow(data, first, blockSize, most, NEW_WALK)
      decreases most - |seen|
    {
      ghost var w := Walk(Table(partitions, errors), seen);
      if pointer in seen {
        errors := errors + [PointerCycle];
        return;
      }
      if |seen| >= most {
        errors := errors + [TooMany];
        return;
      }
      seen := seen + {pointer};
      var offset := pointer * blockSize;
      if offset > |data| || blockSize > |data| - offset {
        errors := errors + [PointerOutside];
        return;
      }
      var block := data[offset..offset + blockSize];
      if block[..4] != PART || !GoodChecksum(block) {
        errors := errors + [BadPartBlock(pointer)];
        return;
      }
      var outcome := ReadPart(block, |partitions|, |data|);
      match outcome {
        case Nothing =>
        case Bad(error) => errors := errors + [error];
        case Good(partition) => partitions := partitions + [partition];
      }
      assert Table(partitions, errors) == Noted(w.table, outcome);
      pointer := Be32(block, 16);
      assert Walk(Table(partitions, errors), seen) == w.(seen := seen, table := Noted(w.table, outcome));
    }
  }

  /** `parse_partition_table`. */
  function Parse(data: seq<byte>, most: nat): Option<Result<Table, Error>> {
    if Rdb(data, most).Some? then Rdb(data, most) else Mbr(data, most)
  }

  method ParsePartitionTable(data: seq<byte>, most: nat) returns (r: Option<Result<Table, Error>>)
    ensures r == Parse(data, most)
  {
    hide Rdb, Mbr;
    r := ParseRdb(data, most);
    if r.None? {
      r := ParseMbr(data, most);
    }
  }

  // What a table says.

  /** Partitions with bytes, inside the image, each told by its index. */
  ghost predicate Sound(s: seq<Partition>, size: nat) {
    && Positive(s) && Inside(s, size)
    && forall i, j | 0 <= i < j < |s| :: s[i].index < s[j].index
  }

  predicate NoOverlapMarked(errors: seq<Finding>) {
    forall e | e in errors :: !e.Overlapping?
  }

  lemma SoundNext(s: seq<Partition>, p: Partition, size: nat)
    requires Sound(s, size) && p.length > 0 && End(p) <= size && forall q | q in s :: q.index < p.index
    ensures Sound(s + [p], size)
  {
  }

  lemma {:induction false} RowsSound(data: seq<byte>, n: nat)
    requires |data| >= 512 && n <= 4
    ensures var t := Rows(data, n);
            Sound(t.partitions, |data|) && NoOverlapMarked(t.errors) && |t.partitions| <= n && forall p | p in t.partitions :: p.index < n
  {
    hide RowOf, Sound;
    if n == 0 {
      assert Sound([], |data|) by { NoneSound(|data|); }
    } else {
      RowsSound(data, n - 1);
      var t, o := Rows(data, n - 1), ReadRow(RowOf(data, n - 1), n - 1, |data|);
      if o.Good? {
        SoundNext(t.partitions, o.partition, |data|);
      }
    }
  }

  lemma NoneSound(size: nat)
    ensures Sound([], size)
  {
  }

  lemma ClippedSound(t: Table, most: nat, size: nat)
    requires Sound(t.partitions, size) && NoOverlapMarked(t.errors)
    ensures Sound(Clipped(t, most).partitions, size) && NoOverlapMarked(Clipped(t, most).errors) && |Clipped(t, most).partitions| <= most
  {
  }

  /**
   The walk follows at most `most` pointers, each once, whatever cycles the blocks form, and takes at most one partition
   from each.
   */
  lemma {:induction false} FollowSound(data: seq<byte>, pointer: nat, blockSize: nat, most: nat, w: Walk)
    requires IsBlockSize(blockSize) && |w.seen| <= most && |w.table.partitions| <= |w.seen|
    requires Sound(w.table.partitions, |data|) && NoOverlapMarked(w.table.errors)
    requires forall i | 0 <= i < |w.table.partitions| :: w.table.partitions[i].index == i
    ensures var v := Follow(data, pointer, blockSize, most, w);
            && w.seen <= v.seen && |v.table.partitions| <= |v.seen| <= most
            && Sound(v.table.partitions, |data|) && NoOverlapMarked(v.table.errors)
            && forall i | 0 <= i < |v.table.partitions| :: v.table.partitions[i].index == i
    decreases most - |w.seen|
  {
    hide GoodChecksum, ReadPart, Sound;
    if pointer != NO_POINTER && pointer !in w.seen && |w.seen| < most {
      var offset := pointer * blockSize;
      if offset <= |data| && blockSize <= |data| - offset {
        var block := data[offset..offset + blockSize];
        if block[..4] == PART && GoodChecksum(block) {
          var outcome := ReadPart(block, |w.table.partitions|, |data|);
          if outcome.Good? {
            SoundNext(w.table.partitions, outcome.partition, |data|);
          }
          assert outcome.Bad? ==> !outcome.error.Overlapping? by { PartErrors(block, |w.table.partitions|, |data|); }
          FollowSound(data, Be32(block, 16), blockSize, most, Walk(Noted(w.table, outcome), w.seen + {pointer}));
        }
      }
    }
  }

  lemma PartErrors(block: seq<byte>, index: nat, size: nat)
    requires IsBlockSize(|block|)
    ensures ReadPart(block, index, size).Bad? ==> !ReadPart(block, index, size).error.Overlapping?
  {
  }

  lemma {:induction false} MarksOverlap(s: seq<Partition>)
    ensures forall e | e in Marks(s) :: e.Overlapping?
  {
    if |s| >= 2 {
      MarksOverlap(s[1..]);
    }
  }

  lemma MarkedTable(t: Table, size: nat)
    requires Sound(t.partitions, size) && NoOverlapMarked(t.errors)
    ensures var m := Marked(t);
            && (NoOverlapMarked(m.errors) <==> Apart(m.partitions))
            && (NoOverlapMarked(m.errors) ==> Total(m.partitions) <= size)
  {
    hide Apart, Marks, Sorted;
    var marks := Marks(Sorted(t.partitions));
    MarkedIffIntersecting(t.partitions);
    MarksOverlap(Sorted(t.partitions));
    if marks == [] {
      UnmarkedLengthsFit(t.partitions, size);
    } else {
      assert marks[0] in Marked(t).errors && marks[0] in marks;
    }
  }

  /**
   Whatever table is returned, its partitions are non-empty and inside the image, at most `most` of them; an overlap is
   reported exactly when two of them intersect; and if none is, their lengths sum to at most the image size.
   */
  lemma TablesAreSound(data: seq<byte>, most: nat)
    requires Parse(data, most).Some? && Parse(data, most).value.Ok?
    ensures var t := Parse(data, most).value.value;
            && Sound(t.partitions, |data|) && |t.partitions| <= most
            && (NoOverlapMarked(t.errors) <==> Apart(t.partitions))
            && (NoOverlapMarked(t.errors) ==> Total(t.partitions) <= |data|)
  {
    hide Sound, Apart, Follow, Rows, Clipped, Find, GoodChecksum, Marked, NoOverlapMarked;
    if Rdb(data, most).Some? {
      var i := Find(data, 0).value;
      var rdb := data[i * 512..i * 512 + 512];
      NewWalkSound(|data|);
      FollowSound(data, Be32(rdb, 28), Be32(rdb, 16), most, NEW_WALK);
      MarkedTable(Follow(data, Be32(rdb, 28), Be32(rdb, 16), most, NEW_WALK).table, |data|);
      MarkedSame(Follow(data, Be32(rdb, 28), Be32(rdb, 16), most, NEW_WALK).table);
    } else {
      RowsSound(data, 4);
      ClippedSound(Rows(data, 4), most, |data|);
      MarkedTable(Clipped(Rows(data, 4), most), |data|);
      MarkedSame(Clipped(Rows(data, 4), most));
    }
  }

  lemma NewWalkSound(size: nat)
    ensures Sound([], size) && NoOverlapMarked([])
  {
  }

  lemma MarkedSame(t: Table)
    ensures Marked(t).partitions == t.partitions
  {
  }
}
