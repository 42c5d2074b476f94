/** What partition tables say, byte by byte: each row and block as it lies in the image, and what the parsers report for it. */
module PartitionDisk {
  import opened Bytes
  import opened Partitions
  import opened PartitionTables
  import opened Writing

  function Goods(outcomes: seq<Outcome>): seq<Partition> {
    if outcomes == [] then [] else
      var last := outcomes[|outcomes| - 1];
      Goods(outcomes[..|outcomes| - 1]) + if last.Good? then [last.partition] else []
  }

  function Bads(outcomes: seq<Outcome>): seq<Finding> {
    if outcomes == [] then [] else
      var last := outcomes[|outcomes| - 1];
      Bads(outcomes[..|outcomes| - 1]) + if last.Bad? then [last.error] else []
  }

  lemma OutcomeNext(outcomes: seq<Outcome>, o: Outcome)
    ensures Noted(Table(Goods(outcomes), Bads(outcomes)), o) == Table(Goods(outcomes + [o]), Bads(outcomes + [o]))
  {
    assert (outcomes + [o])[..|outcomes|] == outcomes;
  }

  // ----- MBR -----

  datatype Row = Row(flag: byte, kind: byte, start: nat, sectors: nat)

  /** Row `i` of the four behind byte 446: flag, type, first sector and sector count. */
  predicate RowAt(data: seq<byte>, i: nat, row: Row)
    requires |data| >= 512 && i < 4
  {
    && data[446 + 16 * i] == row.flag && data[446 + 16 * i + 4] == row.kind
    && FullIs(data, 446 + 16 * i + 8, row.start) && FullIs(data, 446 + 16 * i + 12, row.sectors)
  }

  /** The sectors are there, and they do not include the table's own. */
  predicate Inside(row: Row, size: nat) {
    row.start >= 1 && row.sectors >= 1 && 512 * (row.start + row.sectors) <= size
  }

  /** What is reported for a row: the first of the four that applies. */
  predicate RowSays(row: Row, i: nat, size: nat, o: Outcome) {
    var empty := row.kind == 0 && row.start == 0 && row.sectors == 0;
    var flagged := row.flag == 0 || row.flag == 0x80;
    var extended := row.kind == 0x05 || row.kind == 0x0F || row.kind == 0x85;
    match o
    case Nothing => empty
    case Bad(BadBootFlag(k, flag)) => !empty && !flagged && k == i && flag == row.flag
    case Bad(ExtendedDeferred(k)) => !empty && flagged && extended && k == i
    case Bad(OutsideImage(k)) => !empty && flagged && !extended && !Inside(row, size) && k == i
    case Bad(_) => false
    case Good(p) =>
      flagged && !extended && Inside(row, size) && p == Partition(i, 512 * row.start, 512 * row.sectors, [row.kind], [])
  }

  function RowRead(data: seq<byte>, i: nat): Row
    requires |data| >= 512 && i < 4
  {
    var row := RowOf(data, i);
    Row(row[0], row[4], Le32(row, 8), Le32(row, 12))
  }

  lemma RowIff(data: seq<byte>, i: nat, row: Row)
    requires |data| >= 512 && i < 4
    ensures RowAt(data, i, row) <==> row == RowRead(data, i)
    ensures forall o :: RowSays(RowRead(data, i), i, |data|, o) <==> o == ReadRow(RowOf(data, i), i, |data|)
    ensures Plausible(RowOf(data, i)) <==> var r := RowRead(data, i); (r.flag == 0 || r.flag == 0x80) && r.kind != 0 && r.sectors != 0
  {
    hide FullIs, Le32;
    var pos := 446 + 16 * i;
    assert RowOf(data, i) == data[pos..pos + 16];
    SliceWord(data, pos, 8);
    SliceWord(data, pos, 12);
    FullIff(data, pos + 8, row.start);
    FullIff(data, pos + 12, row.sectors);
  }

  lemma SliceWord(data: seq<byte>, pos: nat, k: nat)
    requires pos + 16 <= |data| && k + 4 <= 16
    ensures Le32(data[pos..pos + 16], k) == Le32(data, pos + k)
  {
  }

  ghost predicate RowSaid(data: seq<byte>, i: nat, o: Outcome) {
    |data| >= 512 && i < 4 && exists row :: RowAt(data, i, row) && RowSays(row, i, |data|, o)
  }

  lemma SaidIff(data: seq<byte>, i: nat, o: Outcome)
    requires |data| >= 512 && i < 4
    ensures RowSaid(data, i, o) <==> o == ReadRow(RowOf(data, i), i, |data|)
  {
    hide RowAt, RowSays, ReadRow, RowOf, Plausible;
    RowIff(data, i, RowRead(data, i));
    forall row | RowAt(data, i, row)
      ensures row == RowRead(data, i)
    {
      RowIff(data, i, row);
    }
  }

  /** What four rows say, one after the other. */
  ghost predicate RowsSay(data: seq<byte>, outcomes: seq<Outcome>, n: nat)
    requires |data| >= 512 && n <= 4
  {
    |outcomes| == n && forall i | 0 <= i < n :: RowSaid(data, i, outcomes[i])
  }

  /** No more than `most` partitions are kept, and the overlaps of those kept are reported last. */
  function Reported(partitions: seq<Partition>, errors: seq<Finding>, most: nat): Table {
    var kept := if |partitions| > most then partitions[..most] else partitions;
    Table(kept, errors + (if |partitions| > most then [TooMany] else []) + Marks(Sorted(kept)))
  }

  lemma {:induction false} RowsRead(data: seq<byte>, outcomes: seq<Outcome>, n: nat)
    requires |data| >= 512 && n <= 4 && RowsSay(data, outcomes, n)
    ensures Rows(data, n) == Table(Goods(outcomes), Bads(outcomes))
  {
    hide RowOf, ReadRow, RowSaid, Noted;
    if n > 0 {
      var init := outcomes[..n - 1];
      RowsRead(data, init, n - 1);
      SaidIff(data, n - 1, outcomes[n - 1]);
      OutcomeNext(init, outcomes[n - 1]);
      assert init + [outcomes[n - 1]] == outcomes;
    }
  }

  lemma RowsFound(data: seq<byte>) returns (outcomes: seq<Outcome>)
    requires |data| >= 512
    ensures RowsSay(data, outcomes, 4)
  {
    hide RowOf, ReadRow, RowSaid;
    outcomes := seq(4, i requires 0 <= i < 4 => ReadRow(RowOf(data, i), i, |data|));
    forall i | 0 <= i < 4
      ensures RowSaid(data, i, outcomes[i])
    {
      SaidIff(data, i, outcomes[i]);
    }
  }

  /** A row that makes a table of the sector. */
  ghost predicate RowCounts(data: seq<byte>, i: nat) {
    |data| >= 512 && i < 4 && exists row :: RowAt(data, i, row) && (row.flag == 0 || row.flag == 0x80) && row.kind != 0 && row.sectors != 0
  }

  lemma CountsIff(data: seq<byte>)
    requires |data| >= 512
    ensures HasPlausible(data) <==> exists i: nat :: RowCounts(data, i)
  {
    hide RowOf, Plausible, RowAt;
    forall i: nat | i < 4
      ensures RowCounts(data, i) <==> Plausible(RowOf(data, i))
    {
      RowIff(data, i, RowRead(data, i));
      forall row | RowAt(data, i, row)
        ensures row == RowRead(data, i)
      {
        RowIff(data, i, row);
      }
    }
    if HasPlausible(data) {
      var i: nat :| i < 4 && Plausible(RowOf(data, i));
      assert RowCounts(data, i);
    }
  }

  /** The MBR parse on any bytes: no table, a refused one, or what its rows say. */
  lemma MbrIff(data: seq<byte>, most: nat, table: Table)
    ensures Mbr(data, most) == None <==> !exists i: nat :: RowCounts(data, i)
    ensures Mbr(data, most) == Some(Err(NoSignature))
       <==> (exists i: nat :: RowCounts(data, i)) && !At(data, 510, [0x55, 0xAA])
    ensures Mbr(data, most) == Some(Ok(table))
       <==> && (exists i: nat :: RowCounts(data, i)) && At(data, 510, [0x55, 0xAA])
            && exists outcomes :: RowsSay(data, outcomes, 4) && table == Reported(Goods(outcomes), Bads(outcomes), most)
  {
    hide RowCounts, RowsSay, Rows, Goods, Bads, Marks, Sorted, HasPlausible;
    if |data| >= 512 {
      CountsIff(data);
      SignatureIff(data);
      forall outcomes | RowsSay(data, outcomes, 4)
        ensures Marked(Clipped(Rows(data, 4), most)) == Reported(Goods(outcomes), Bads(outcomes), most)
      {
        RowsRead(data, outcomes, 4);
        assert Bads(outcomes) + [] == Bads(outcomes);
      }
      var outcomes := RowsFound(data);
    } else {
      assert forall i: nat :: !RowCounts(data, i) by { TooShort(data); }
    }
  }

  lemma TooShort(data: seq<byte>)
    requires |data| < 512
    ensures forall i: nat :: !RowCounts(data, i)
  {
  }

  lemma SignatureIff(data: seq<byte>)
    requires |data| >= 512
    ensures At(data, 510, [0x55, 0xAA]) <==> data[510..512] == [0x55, 0xAA]
  {
    var mark: seq<byte> := [0x55, 0xAA];
    if At(data, 510, mark) {
      assert data[510 + 0] == mark[0] && data[510 + 1] == mark[1];
    }
  }

  // ----- RDB -----

  /** The block's second word tells how many of its words add up to nothing: at least six, and no more than it has. */
  predicate SumAt(data: seq<byte>, pos: nat, size: nat, n: nat) {
    && pos + size <= |data| && 24 <= 4 * n <= size && WordIs(data, pos + 4, n)
    && WordTotal(data[pos..pos + 4 * n]) % 0x1_0000_0000 == 0
  }

  ghost predicate SumsUp(data: seq<byte>, pos: nat, size: nat) {
    exists n: nat :: SumAt(data, pos, size, n)
  }

  lemma SliceRead(data: seq<byte>, pos: nat, size: nat, k: nat)
    requires pos + size <= |data| && k + 4 <= size
    ensures Be32(data[pos..pos + size], k) == Be32(data, pos + k)
  {
  }

  lemma SumIff(data: seq<byte>, pos: nat, size: nat)
    requires pos + size <= |data| && size >= 24
    ensures GoodChecksum(data[pos..pos + size]) <==> SumsUp(data, pos, size)
  {
    hide WordSum, WordTotal, Be32, WordIs;
    var block := data[pos..pos + size];
    var n := Be32(block, 4);
    SliceRead(data, pos, size, 4);
    forall k: nat | SumAt(data, pos, size, k)
      ensures k == n
    {
      WordIff(data, pos + 4, k);
    }
    WordIff(data, pos + 4, n);
    if 4 * n <= size {
      TotalIsSum(block, n);
      assert block[..4 * n] == data[pos..pos + 4 * n];
      assert GoodChecksum(block) <==> SumAt(data, pos, size, n);
    }
  }

  /** What a PART block says of its partition, and of the block after it. */
  datatype Fields = Fields(name: seq<byte>, kind: seq<byte>, surfaces: nat, perTrack: nat, low: nat, high: nat, next: nat)

  /** The name is counted at 36 and cut after 31 bytes. */
  predicate FieldsAt(data: seq<byte>, pos: nat, f: Fields) {
    && pos + 512 <= |data|
    && |f.name| == (if data[pos + 36] <= 31 then data[pos + 36] as nat else 31) && At(data, pos + 37, f.name)
    && |f.kind| == 4 && At(data, pos + 192, f.kind)
    && WordIs(data, pos + 140, f.surfaces) && WordIs(data, pos + 148, f.perTrack)
    && WordIs(data, pos + 164, f.low) && WordIs(data, pos + 168, f.high) && WordIs(data, pos + 16, f.next)
  }

  /** What is reported for such a block: the cylinders `low` to `high`, if there are any and the image holds them. */
  predicate BlockSays(f: Fields, blockSize: nat, index: nat, size: nat, o: Outcome) {
    var cylinder, measured := f.surfaces * f.perTrack * blockSize, f.surfaces > 0 && f.perTrack > 0 && f.low <= f.high;
    match o
    case Nothing => false
    case Bad(BadGeometry(k)) => !measured && k == index
    case Bad(OutsideImage(k)) => measured && f.low * cylinder + (f.high - f.low + 1) * cylinder > size && k == index
    case Bad(_) => false
    case Good(p) =>
      && measured && f.low * cylinder + (f.high - f.low + 1) * cylinder <= size
      && p == Partition(index, f.low * cylinder, (f.high - f.low + 1) * cylinder, f.kind, f.name)
  }

  function FieldsRead(data: seq<byte>, pos: nat): Fields
    requires pos + 512 <= |data|
  {
    var n := if data[pos + 36] <= 31 then data[pos + 36] as nat else 31;
    Fields(data[pos + 37..pos + 37 + n], data[pos + 192..pos + 196], Be32(data, pos + 140), Be32(data, pos + 148),
           Be32(data, pos + 164), Be32(data, pos + 168), Be32(data, pos + 16))
  }

  lemma FieldsIff(data: seq<byte>, pos: nat, f: Fields)
    requires pos + 512 <= |data|
    ensures FieldsAt(data, pos, f) <==> f == FieldsRead(data, pos)
  {
    hide Be32, WordIs, At;
    WordIff(data, pos + 140, f.surfaces);
    WordIff(data, pos + 148, f.perTrack);
    WordIff(data, pos + 164, f.low);
    WordIff(data, pos + 168, f.high);
    WordIff(data, pos + 16, f.next);
    SliceIff(data, pos + 37, f.name);
    SliceIff(data, pos + 192, f.kind);
  }

  lemma SliceIff(data: seq<byte>, pos: nat, part: seq<byte>)
    ensures At(data, pos, part) <==> pos + |part| <= |data| && data[pos..pos + |part|] == part
  {
  }

  function OutcomeOf(f: Fields, blockSize: nat, index: nat, size: nat): Outcome
    requires blockSize > 0
  {
    if f.surfaces == 0 || f.perTrack == 0 || f.high < f.low then Bad(BadGeometry(index)) else
      var (start, length) := Extent(f.surfaces, f.perTrack, blockSize, f.low, f.high);
      if start > size || length > size - start then Bad(OutsideImage(index))
      else Good(Partition(index, start, length, f.kind, f.name))
  }

  lemma SaysIff(f: Fields, blockSize: nat, index: nat, size: nat, o: Outcome)
    requires blockSize > 0
    ensures BlockSays(f, blockSize, index, size, o) <==> o == OutcomeOf(f, blockSize, index, size)
  {
  }

  lemma BlockIff(data: seq<byte>, pos: nat, blockSize: nat, index: nat, o: Outcome)
    requires IsBlockSize(blockSize) && pos + blockSize <= |data|
    ensures BlockSays(FieldsRead(data, pos), blockSize, index, |data|, o)
       <==> o == ReadPart(data[pos..pos + blockSize], index, |data|)
    ensures Be32(data[pos..pos + blockSize], 16) == FieldsRead(data, pos).next
  {
    hide Be32, BlockSays, Extent;
    var block := data[pos..pos + blockSize];
    SliceRead(data, pos, blockSize, 16);
    SliceRead(data, pos, blockSize, 140);
    SliceRead(data, pos, blockSize, 148);
    SliceRead(data, pos, blockSize, 164);
    SliceRead(data, pos, blockSize, 168);
    var n := if block[36] <= 31 then block[36] as nat else 31;
    SliceOfSlice(data, pos, blockSize, 37, 37 + n);
    SliceOfSlice(data, pos, blockSize, 192, 196);
    assert block[36] == data[pos + 36];
    SaysIff(FieldsRead(data, pos), blockSize, index, |data|, o);
  }

  /** A chain of PART blocks, up to what ends it. */
  datatype Blocks = Over | Cycle | Full | Beyond | Broken(pointer: nat) | Linked(fields: Fields, outcome: Outcome, rest: Blocks)

  /** The block a pointer names begins with "PART" and its words add up to nothing. */
  ghost predicate IsPart(data: seq<byte>, pos: nat, blockSize: nat) {
    At(data, pos, [0x50, 0x41, 0x52, 0x54]) && SumsUp(data, pos, blockSize)
  }

  /** The chain from `pointer` on, `seen` being the pointers before it and `index` the partitions taken from them. */
  ghost predicate BlocksAt(data: seq<byte>, pointer: nat, blockSize: nat, most: nat, seen: set<nat>, index: nat, blocks: Blocks)
    decreases blocks
  {
    var pos := pointer * blockSize;
    if pointer == 0xFFFF_FFFF then blocks.Over?
    else if pointer in seen then blocks.Cycle?
    else if |seen| >= most then blocks.Full?
    else if pos + blockSize > |data| then blocks.Beyond?
    else if !IsPart(data, pos, blockSize) then blocks == Broken(pointer)
    else
      && blocks.Linked? && FieldsAt(data, pos, blocks.fields)
      && BlockSays(blocks.fields, blockSize, index, |data|, blocks.outcome)
      && BlocksAt(data, blocks.fields.next, blockSize, most, seen + {pointer}, if blocks.outcome.Good? then index + 1 else index, blocks.rest)
  }

  /** What is taken and reported along the chain. */
  function Taken(blocks: Blocks): seq<Partition> {
    if blocks.Linked? then (if blocks.outcome.Good? then [blocks.outcome.partition] else []) + Taken(blocks.rest) else []
  }

  function Errors(blocks: Blocks): seq<Finding> {
    match blocks
    case Over => []
    case Cycle => [PointerCycle]
    case Full => [TooMany]
    case Beyond => [PointerOutside]
    case Broken(pointer) => [BadPartBlock(pointer)]
    case Linked(_, outcome, rest) => (if outcome.Bad? then [outcome.error] else []) + Errors(rest)
  }

  lemma PartIff(data: seq<byte>, pos: nat, blockSize: nat)
    requires IsBlockSize(blockSize) && pos + blockSize <= |data|
    ensures var block := data[pos..pos + blockSize];
            IsPart(data, pos, blockSize) <==> block[..4] == PART && GoodChecksum(block)
  {
    hide GoodChecksum, SumsUp;
    SumIff(data, pos, blockSize);
    SliceOfSlice(data, pos, blockSize, 0, 4);
    SliceIff(data, pos, PART);
  }

  lemma TakenNext(w: Walk, blocks: Blocks, seen: set<nat>)
    requires blocks.Linked?
    ensures var next := Walk(Noted(w.table, blocks.outcome), seen);
            && next.table.partitions + Taken(blocks.rest) == w.table.partitions + Taken(blocks)
            && next.table.errors + Errors(blocks.rest) == w.table.errors + Errors(blocks)
            && |next.table.partitions| == |w.table.partitions| + if blocks.outcome.Good? then 1 else 0
  {
    var partitions, errors, o := w.table.partitions, w.table.errors, blocks.outcome;
    var taken: seq<Partition>, made: seq<Finding> := if o.Good? then [o.partition] else [], if o.Bad? then [o.error] else [];
    assert Noted(w.table, o) == Table(partitions + taken, errors + made);
    assert Taken(blocks) == taken + Taken(blocks.rest) && Errors(blocks) == made + Errors(blocks.rest);
    hide Taken, Errors, Noted;
    Regroup(partitions, taken, Taken(blocks.rest));
    Regroup(errors, made, Errors(blocks.rest));
  }

  lemma Regroup<T>(a: seq<T>, b: seq<T>, c: seq<T>)
    ensures (a + b) + c == a + (b + c)
  {
  }

  /** One turn of the pointer loop. */
  lemma FollowOnce(data: seq<byte>, pointer: nat, blockSize: nat, most: nat, w: Walk)
    requires IsBlockSize(blockSize) && |w.seen| <= most
    ensures var pos, here := pointer * blockSize, w.(seen := w.seen + {pointer});
            Follow(data, pointer, blockSize, most, w) ==
              if pointer == 0xFFFF_FFFF then w
              else if pointer in w.seen then Fail(w, PointerCycle)
              else if |w.seen| >= most then Fail(w, TooMany)
              else if pos + blockSize > |data| then Fail(here, PointerOutside)
              else if !IsPart(data, pos, blockSize) then Fail(here, BadPartBlock(pointer))
              else
                var outcome := ReadPart(data[pos..pos + blockSize], |w.table.partitions|, |data|);
                Follow(data, Be32(data[pos..pos + blockSize], 16), blockSize, most, Walk(Noted(w.table, outcome), here.seen))
  {
    hide IsPart, GoodChecksum, ReadPart, Noted, Be32;
    var pos := pointer * blockSize;
    if pos + blockSize <= |data| {
      PartIff(data, pos, blockSize);
    }
  }

  /** The pointer loop takes and reports what the chain says. */
  lemma {:induction false} ChainRead(data: seq<byte>, pointer: nat, blockSize: nat, most: nat, w: Walk, blocks: Blocks)
    requires IsBlockSize(blockSize) && |w.seen| <= most
    requires BlocksAt(data, pointer, blockSize, most, w.seen, |w.table.partitions|, blocks)
    ensures Follow(data, pointer, blockSize, most, w).table == Table(w.table.partitions + Taken(blocks), w.table.errors + Errors(blocks))
    decreases blocks
  {
    hide IsBlockSize, IsPart, FieldsAt, BlockSays, ReadPart, FieldsRead, Noted, Follow, Be32;
    FollowOnce(data, pointer, blockSize, most, w);
    var pos := pointer * blockSize;
    if blocks.Linked? {
      AtLeast(blockSize);
      FieldsIff(data, pos, blocks.fields);
      BlockIff(data, pos, blockSize, |w.table.partitions|, blocks.outcome);
      TakenNext(w, blocks, w.seen + {pointer});
      hide Taken, Errors;
      ChainRead(data, blocks.fields.next, blockSize, most, Walk(Noted(w.table, blocks.outcome), w.seen + {pointer}), blocks.rest);
    } else {
      assert w.table.partitions + [] == w.table.partitions && w.table.errors + [] == w.table.errors;
    }
  }

  lemma AtLeast(blockSize: nat)
    requires IsBlockSize(blockSize)
    ensures blockSize >= 512
  {
  }

  lemma {:induction false} ChainFound(data: seq<byte>, pointer: nat, blockSize: nat, most: nat, seen: set<nat>,
                                      index: nat) returns (blocks: Blocks)
    requires IsBlockSize(blockSize) && |seen| <= most
    ensures BlocksAt(data, pointer, blockSize, most, seen, index, blocks)
    decreases most - |seen|
  {
    hide IsBlockSize, IsPart, FieldsAt, BlockSays, GoodChecksum, ReadPart, FieldsRead;
    var pos := pointer * blockSize;
    if pointer == 0xFFFF_FFFF {
      return Over;
    }
    if pointer in seen {
      return Cycle;
    }
    if |seen| >= most {
      return Full;
    }
    if pos + blockSize > |data| {
      return Beyond;
    }
    if !IsPart(data, pos, blockSize) {
      return Broken(pointer);
    }
    AtLeast(blockSize);
    var fields, outcome := FieldsRead(data, pos), ReadPart(data[pos..pos + blockSize], index, |data|);
    FieldsIff(data, pos, fields);
    BlockIff(data, pos, blockSize, index, outcome);
    var rest := ChainFound(data, fields.next, blockSize, most, seen + {pointer}, if outcome.Good? then index + 1 else index);
    blocks := Linked(fields, outcome, rest);
  }

  predicate Marks512(data: seq<byte>, i: nat) {
    512 * i + 512 <= |data| && At(data, 512 * i, [0x52, 0x44, 0x53, 0x4B])
  }

  /** The table's block: the first of sixteen that begins with "RDSK". */
  predicate TableBlock(data: seq<byte>, i: nat) {
    i < 16 && Marks512(data, i) && forall j | 0 <= j < i :: !Marks512(data, j)
  }

  lemma {:induction false} FindIff(data: seq<byte>, from: nat, i: nat)
    requires from <= 16 && forall j | 0 <= j < from :: !Marks512(data, j)
    ensures Find(data, from) == Some(i) <==> TableBlock(data, i)
    decreases 16 - from
  {
    hide At;
    if from < 16 && from < |data| / 512 {
      SliceIff(data, 512 * from, RDSK);
      if !Marks512(data, from) {
        FindIff(data, from + 1, i);
      }
    }
  }

  /** A power of two from 512 to 65536. */
  predicate BlockSized(size: nat) {
    512 <= size <= 65536 && exists k | 0 <= k <= 16 :: size == Pow2(k)
  }

  lemma SizedIff(size: nat)
    ensures BlockSized(size) <==> IsBlockSize(size)
  {
    assert Pow2(4) == 16 && Pow2(8) == 256 && Pow2(9) == 512 && Pow2(10) == 1024 && Pow2(11) == 2048 && Pow2(12) == 4096;
    assert Pow2(13) == 8192 && Pow2(14) == 16384 && Pow2(15) == 32768 && Pow2(16) == 65536;
    assert Pow2(5) == 32 && Pow2(6) == 64 && Pow2(7) == 128;
  }

  /** The RDB parse on any bytes: no table, a refused one, or what its chain of PART blocks says. */
  lemma RdbIff(data: seq<byte>, most: nat, table: Table)
    ensures Rdb(data, most) == None <==> !exists i: nat :: TableBlock(data, i)
    ensures Rdb(data, most) == Some(Err(BadChecksum)) <==> exists i: nat :: TableBlock(data, i) && !SumsUp(data, 512 * i, 512)
    ensures Rdb(data, most) == Some(Err(BadBlockSize))
       <==> exists i: nat, size: nat :: TableBlock(data, i) && SumsUp(data, 512 * i, 512) && WordIs(data, 512 * i + 16, size) && !BlockSized(size)
    ensures Rdb(data, most) == Some(Ok(table)) <==> exists i: nat, size: nat, first: nat, blocks :: Listing(data, most, i, size, first, blocks, table)
  {
    hide TableBlock, Find, GoodChecksum, SumsUp, Be32, WordIs, BlockSized, IsBlockSize, Follow, BlocksAt, Marks, Sorted;
    forall i: nat
      ensures Find(data, 0) == Some(i) <==> TableBlock(data, i)
    {
      FindIff(data, 0, i);
    }
    if Find(data, 0).Some? {
      var i := Find(data, 0).value;
      var pos := 512 * i;
      var rdb := data[pos..pos + 512];
      SumIff(data, pos, 512);
      SliceRead(data, pos, 512, 16);
      SliceRead(data, pos, 512, 28);
      var size, first := Be32(rdb, 16), Be32(rdb, 28);
      WordIff(data, pos + 16, size);
      WordIff(data, pos + 28, first);
      SizedIff(size);
      OnlyWord(data, pos + 16);
      OnlyWord(data, pos + 28);
      if GoodChecksum(rdb) && IsBlockSize(size) {
        forall blocks | BlocksAt(data, first, size, most, {}, 0, blocks)
          ensures Follow(data, first, size, most, NEW_WALK).table == Table(Taken(blocks), Errors(blocks))
        {
          ChainRead(data, first, size, most, NEW_WALK, blocks);
          assert [] + Taken(blocks) == Taken(blocks) && [] + Errors(blocks) == Errors(blocks);
        }
        var blocks := ChainFound(data, first, size, most, {}, 0);
        var found := Marked(Follow(data, first, size, most, NEW_WALK).table);
        assert Rdb(data, most) == Some(Ok(found));
        assert Listing(data, most, i, size, first, blocks, found);
      }
    }
  }

  /** A table in block `i`, its block size and first pointer, the chain of PART blocks behind it, and what is returned. */
  ghost predicate Listing(data: seq<byte>, most: nat, i: nat, size: nat, first: nat, blocks: Blocks, table: Table) {
    && TableBlock(data, i) && SumsUp(data, 512 * i, 512)
    && WordIs(data, 512 * i + 16, size) && BlockSized(size) && WordIs(data, 512 * i + 28, first)
    && BlocksAt(data, first, size, most, {}, 0, blocks)
    && table == Table(Taken(blocks), Errors(blocks) + Marks(Sorted(Taken(blocks))))
  }

  lemma OnlyWord(data: seq<byte>, pos: nat)
    requires pos + 4 <= |data|
    ensures forall n: nat :: WordIs(data, pos, n) <==> n == Be32(data, pos)
  {
    hide Be32, WordIs;
    forall n: nat
      ensures WordIs(data, pos, n) <==> n == Be32(data, pos)
    {
      WordIff(data, pos, n);
    }
  }
}
