/** The ADF half of `structural.py`: the reference walk and the verdict around it. */
module AdfValidator {
  import opened Bytes
  import opened Adf
  import opened BootChecksum

  datatype Error = NodeLimit | CyclicChain | OutsideImage | BadHeader | CyclicBlocks | BadDataBlock | TruncatedFile

  /** One visited header: its kind, and for a file the declared size and the data blocks taken, in order. */
  datatype Visit = Visit(key: nat, kind: int, size: nat, blocks: seq<nat>)

  /** The walk's mutable state; `visits` is a log of the run that the properties refer to. */
  datatype Audit = Audit(seen: set<nat>, nodes: nat, visits: seq<Visit>)

  datatype Taken = Taken(seen: set<nat>, blocks: seq<nat>)

  /** The data-pointer loop: slots `n - 1` down to 0, stopping once `total` covers the declared size. */
  function TakeFrom(d: Disk, header: seq<byte>, key: nat, n: nat, t: Taken, total: nat): (r: Result<Taken, Error>)
    requires Sized(d) && |header| == BLOCK && n <= 72
    ensures r.Ok? ==> t.seen <= r.value.seen && t.blocks <= r.value.blocks
  {
    if n == 0 then
      if total < FileSize(header) then Err(TruncatedFile) else Ok(t)
    else
      var pointer := Slot(header, n - 1);
      if pointer == 0 then TakeFrom(d, header, key, n - 1, t, total)
      else if pointer in t.seen then Err(CyclicBlocks)
      else if !InImage(pointer) then Err(OutsideImage)
      else if !GoodDataBlock(d, Block(d, pointer), key) then Err(BadDataBlock)
      else
        var more, taken := total + PayloadSize(d, Block(d, pointer)), Taken(t.seen + {pointer}, t.blocks + [pointer]);
        if more >= FileSize(header) then Ok(taken) else TakeFrom(d, header, key, n - 1, taken, more)
  }

  /** What a header adds to the audit, apart from what lies below a directory. */
  function VisitHeader(d: Disk, key: nat, a: Audit): (r: Result<Audit, Error>)
    requires Sized(d) && InImage(key)
    ensures r.Ok? ==> a.seen <= r.value.seen && a.visits <= r.value.visits && |r.value.visits| == |a.visits| + 1
  {
    var header := Block(d, key);
    if Kind(header) == FILE then
      match TakeFrom(d, header, key, 72, Taken(a.seen, []), 0)
      case Err(e) => Err(e)
      case Ok(t) => Ok(a.(seen := t.seen, visits := a.visits + [Visit(key, FILE, FileSize(header), t.blocks)]))
    else Ok(a.(visits := a.visits + [Visit(key, Kind(header), 0, [])]))
  }

  function WalkBuckets(d: Disk, directory: seq<byte>, bucket: nat, a: Audit, maxNodes: nat): (r: Result<Audit, Error>)
    requires Sized(d) && |directory| == BLOCK && bucket <= 72
    ensures r.Ok? ==> a.seen <= r.value.seen && a.visits <= r.value.visits
    decreases Keys() - a.seen, 73 - bucket
  {
    if bucket == 72 then Ok(a) else
      match WalkChain(d, Slot(directory, bucket), a, maxNodes)
      case Err(e) => Err(e)
      case Ok(b) => WalkBuckets(d, directory, bucket + 1, b, maxNodes)
  }

  function WalkChain(d: Disk, key: nat, a: Audit, maxNodes: nat): (r: Result<Audit, Error>)
    requires Sized(d) && IsKey(key)
    ensures r.Ok? ==> a.seen <= r.value.seen && a.visits <= r.value.visits
    decreases Keys() - a.seen, 0
  {
    if key == 0 then Ok(a)
    else if a.nodes + 1 > maxNodes then Err(NodeLimit)
    else if key in a.seen then Err(CyclicChain)
    else if !InImage(key) then Err(OutsideImage)
    else if !IsHeader(Block(d, key)) then Err(BadHeader)
    else
      assert key in Keys();
      var header := Block(d, key);
      match VisitHeader(d, key, a.(nodes := a.nodes + 1, seen := a.seen + {key}))
      case Err(e) => Err(e)
      case Ok(b) =>
        if Kind(header) == DIRECTORY then
          match WalkBuckets(d, header, 0, b, maxNodes)
          case Err(e) => Err(e)
          case Ok(inner) => WalkChain(d, NextInChain(header), inner, maxNodes)
        else WalkChain(d, NextInChain(header), b, maxNodes)
  }

  function Start(): Audit { Audit({ROOT}, 0, []) }

  /** `_walk_adf`. */
  function Walk(d: Disk, maxNodes: nat): Result<Audit, Error>
    requires Sized(d)
  {
    WalkBuckets(d, Block(d, ROOT), 0, Start(), maxNodes)
  }

  predicate RootValid(d: Disk)
    requires Sized(d)
  {
    var root := Block(d, ROOT);
    Be32(root, 0) == 2 && SignedBe32(root, 508) == 1 && ValidChecksum(root)
  }

  /** Any block by number, the boot blocks included. */
  function AnyBlock(d: Disk, key: nat): (r: seq<byte>)
    requires Sized(d) && key < BLOCKS
    ensures |r| == BLOCK
  {
    d.data[key * BLOCK..(key + 1) * BLOCK]
  }

  /** The root block's 24 bitmap slots: zero slots aside, each names a checksummed block. */
  predicate BitmapSlotGood(d: Disk, slot: nat)
    requires Sized(d) && slot < 24
  {
    var key := Be32(Block(d, ROOT), 316 + 4 * slot);
    key != 0 ==> key < BLOCKS && ValidChecksum(AnyBlock(d, key))
  }

  datatype State = Valid | Damaged | Truncated | NonStandard

  /** The image gets state VALID: every check passes and the reference walk completes. */
  predicate IsValid(data: seq<byte>, maxNodes: nat)
    requires |data| >= 3
  {
    && |data| == IMAGE_SIZE && data[3] in {0, 1}
    && Accepts(Words(data[..1024], 256))
    && var d := Disk(data, data[3] == 0);
       && RootValid(d)
       && (forall slot | 0 <= slot < 24 :: BitmapSlotGood(d, slot))
       && Walk(d, maxNodes).Ok?
  }

  // ----- the loops -----

  class Walker {
    const d: Disk
    const maxNodes: nat
    var seen: set<nat>
    var nodes: nat
    ghost var visits: seq<Visit>

    ghost function Current(): Audit
      reads this
    {
      Audit(seen, nodes, visits)
    }

    constructor (d: Disk, maxNodes: nat)
      ensures this.d == d && this.maxNodes == maxNodes && Current() == Start()
    {
      this.d, this.maxNodes, seen, nodes, visits := d, maxNodes, {ROOT}, 0, [];
    }

    /** The file branch: marks the data blocks seen until the declared size is covered. */
    method TakeFile(header: seq<byte>, key: nat) returns (error: Option<Error>, ghost blocks: seq<nat>)
      requires Sized(d) && |header| == BLOCK
      modifies this`seen
      ensures old(seen) <= seen
      ensures match TakeFrom(d, header, key, 72, Taken(old(seen), []), 0)
              case Ok(t) => error.None? && t == Taken(seen, blocks)
              case Err(e) => error == Some(e)
    {
      hide Be32, Block, Slot, GoodDataBlock, PayloadSize;
      ghost var before := Taken(seen, []);
      var wanted, total: nat, n, dataSeen := FileSize(header), 0, 72, {};
      blocks := [];
      while n > 0
        invariant n <= 72 && dataSeen <= seen && before.seen <= seen
        invariant TakeFrom(d, header, key, n, Taken(seen, blocks), total) == TakeFrom(d, header, key, 72, before, 0)
      {
        var pointer := Slot(header, n - 1);
        if pointer != 0 {
          if pointer in dataSeen || pointer in seen {
            error := Some(CyclicBlocks);
            return;
          }
          dataSeen := dataSeen + {pointer};
          if !InImage(pointer) {
            seen := seen + {pointer};
            error := Some(OutsideImage);
            return;
          }
          var payload := Block(d, pointer);
          if !GoodDataBlock(d, payload, key) {
            seen := seen + {pointer};
            error := Some(BadDataBlock);
            return;
          }
          seen, blocks := seen + {pointer}, blocks + [pointer];
          total := total + PayloadSize(d, payload);
          if total >= wanted {
            break;
          }
        }
        n := n - 1;
      }
      error := if total < wanted then Some(TruncatedFile) else None;
    }

    /** `walk(directory)`. */
    method Walk(directory: seq<byte>) returns (error: Option<Error>)
      requires Sized(d) && |directory| == BLOCK
      modifies this
      ensures old(seen) <= seen
      ensures match WalkBuckets(d, directory, 0, old(Current()), maxNodes)
              case Ok(a) => error.None? && a == Current()
              case Err(e) => error == Some(e)
      decreases Keys() - seen
    {
      hide Block, Slot, NextInChain, IsHeader, Kind, FileSize, TakeFrom;
      ghost var before := Current();
      for bucket := 0 to 72
        invariant before.seen <= seen
        invariant WalkBuckets(d, directory, bucket, Current(), maxNodes) == WalkBuckets(d, directory, 0, before, maxNodes)
      {
        var key := Slot(directory, bucket);
        ghost var start := Current();
        ghost var whole := WalkChain(d, key, start, maxNodes);
        while key != 0
          invariant IsKey(key) && start.seen <= seen
          invariant WalkChain(d, key, Current(), maxNodes) == whole
          decreases Keys() - seen
        {
          nodes := nodes + 1;
          if nodes > maxNodes {
            return Some(NodeLimit);
          }
          if key in seen {
            return Some(CyclicChain);
          }
          assert key in Keys();
          seen := seen + {key};
          if !InImage(key) {
            return Some(OutsideImage);
          }
          var header := Block(d, key);
          if !IsHeader(header) {
            return Some(BadHeader);
          }
          if Kind(header) == DIRECTORY {
            visits := visits + [Visit(key, DIRECTORY, 0, [])];
            var inner := Walk(header);
            if inner.Some? {
              return inner;
            }
          } else if Kind(header) == FILE {
            ghost var blocks;
            var wrong;
            wrong, blocks := TakeFile(header, key);
            if wrong.Some? {
              return wrong;
            }
            visits := visits + [Visit(key, FILE, FileSize(header), blocks)];
          } else {
            visits := visits + [Visit(key, Kind(header), 0, [])];
          }
          key := NextInChain(header);
        }
      }
      return None;
    }
  }

  /** `_adf`: the state, which is VALID exactly when every check passes. */
  method ValidateAdf(data: seq<byte>, maxNodes: nat) returns (state: State)
    requires |data| >= 3
    ensures state == Valid <==> IsValid(data, maxNodes)
    ensures state == Truncated <==> |data| < IMAGE_SIZE
    ensures state == NonStandard <==> |data| > IMAGE_SIZE || (|data| == IMAGE_SIZE && data[3] !in {0, 1})
  {
    hide WalkBuckets, WalkChain, RootValid, BitmapSlotGood, Accepts, Words;
    var bootValid := false;
    if |data| >= 1024 {
      bootValid := BootBlockValid(data[..1024]);
    }
    if |data| != IMAGE_SIZE || data[3] !in {0, 1} {
      return if |data| < IMAGE_SIZE then Truncated else NonStandard;
    }
    var d := Disk(data, data[3] == 0);
    var damaged := !bootValid || !RootValid(d);
    var bitmapValid := true;
    for slot := 0 to 24
      invariant bitmapValid <==> forall s | 0 <= s < slot :: BitmapSlotGood(d, s)
    {
      if !BitmapSlotGood(d, slot) {
        bitmapValid := false;
      }
    }
    var walker := new Walker(d, maxNodes);
    var error := walker.Walk(Block(d, ROOT));
    return if damaged || !bitmapValid || error.Some? then Damaged else Valid;
  }
}
