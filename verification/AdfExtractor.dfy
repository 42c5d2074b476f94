/** The ADF half of `disk_images.py`. */
module AdfExtractor {
  import opened Bytes
  import opened Adf

  datatype Error = OutsideImage | BadRootChecksum | BadName | CyclicBlocks | BadDataBlock | TruncatedFile
                 | CyclicChain | BadHeader | UnsafeName | UnsupportedKind

  datatype DiskEntry = DiskEntry(path: seq<byte>, data: seq<byte>, index: nat)

  /** The data-pointer loop: pointers lie in slots `n - 1` down to 0, zero slots are passed over. */
  function FileFrom(d: Disk, header: seq<byte>, key: nat, n: nat, seen: set<nat>, out: seq<byte>): (r: Result<seq<byte>, Error>)
    requires Sized(d) && |header| == BLOCK && n <= 72
    ensures r.Ok? ==> |r.value| == FileSize(header)
  {
    if n == 0 then
      if |out| != FileSize(header) then Err(TruncatedFile) else Ok(out)
    else
      var pointer := Slot(header, n - 1);
      if pointer == 0 then FileFrom(d, header, key, n - 1, seen, out)
      else if pointer in seen then Err(CyclicBlocks)
      else if !InImage(pointer) then Err(OutsideImage)
      else if !GoodDataBlock(d, Block(d, pointer), key) then Err(BadDataBlock)
      else
        var more := out + Payload(d, Block(d, pointer), key);
        if |more| >= FileSize(header) then Ok(more[..FileSize(header)])
        else FileFrom(d, header, key, n - 1, seen + {pointer}, more)
  }

  function FileData(d: Disk, header: seq<byte>, key: nat): (r: Result<seq<byte>, Error>)
    requires Sized(d) && |header| == BLOCK
    ensures r.Ok? ==> |r.value| == FileSize(header)
  {
    FileFrom(d, header, key, 72, {}, [])
  }

  datatype Found = Found(entries: seq<DiskEntry>, visited: set<nat>)

  function Logical(prefix: seq<byte>, name: seq<byte>): seq<byte> {
    if prefix == [] then name else prefix + [SLASH] + name
  }

  /** The hash buckets of a directory from `bucket` on. */
  function WalkBuckets(d: Disk, directory: seq<byte>, bucket: nat, prefix: seq<byte>, f: Found): (r: Result<Found, Error>)
    requires Sized(d) && |directory| == BLOCK && bucket <= 72
    ensures r.Ok? ==> f.visited <= r.value.visited
    decreases Keys() - f.visited, 73 - bucket
  {
    if bucket == 72 then Ok(f) else
      match WalkChain(d, Slot(directory, bucket), prefix, f)
      case Err(e) => Err(e)
      case Ok(g) => WalkBuckets(d, directory, bucket + 1, prefix, g)
  }

  /** One hash chain from `key` on, descending into directories. */
  function WalkChain(d: Disk, key: nat, prefix: seq<byte>, f: Found): (r: Result<Found, Error>)
    requires Sized(d) && IsKey(key)
    ensures r.Ok? ==> f.visited <= r.value.visited
    decreases Keys() - f.visited, 0
  {
    if key == 0 then Ok(f)
    else if key in f.visited then Err(CyclicChain)
    else if !InImage(key) then Err(OutsideImage)
    else
      assert key in Keys();
      var header, g := Block(d, key), f.(visited := f.visited + {key});
      match ReadHeader(d, header)
      case Some(e) => Err(e)
      case None =>
        var logical := Logical(prefix, CountedString(header, 432));
        if Kind(header) == DIRECTORY then
          match WalkBuckets(d, header, 0, logical, g)
          case Err(e) => Err(e)
          case Ok(inner) => WalkChain(d, NextInChain(header), prefix, inner)
        else
          match FileData(d, header, key)
          case Err(e) => Err(e)
          case Ok(data) =>
            WalkChain(d, NextInChain(header), prefix, g.(entries := g.entries + [DiskEntry(logical, data, |g.entries|)]))
  }

  /** What is wrong with a header, if anything; a directory and a file pass. */
  function ReadHeader(d: Disk, header: seq<byte>): (r: Option<Error>)
    requires |header| == BLOCK
    ensures r.None? <==> IsHeader(header) && Accepted(header)
  {
    if !IsHeader(header) then Some(BadHeader)
    else if !HasCountedString(header, 432) then Some(BadName)
    else if !SafeName(CountedString(header, 432)) then Some(UnsafeName)
    else if Kind(header) !in {DIRECTORY, FILE} then Some(UnsupportedKind)
    else None
  }

  /** The image is a DOS\0 or DOS\1 floppy with a root block in the middle. */
  predicate Recognized(data: seq<byte>) {
    && |data| == IMAGE_SIZE
    && data[0] == 0x44 && data[1] == 0x4F && data[2] == 0x53 && data[3] in {0, 1}
    && var root := Block(DiskOf(data), ROOT);
       Be32(root, 0) == 2 && SignedBe32(root, 508) == 1
  }

  function DiskOf(data: seq<byte>): Disk
    requires |data| == IMAGE_SIZE
  {
    Disk(data, data[3] == 0)
  }

  /** `_parse_adf`. */
  function Parse(data: seq<byte>): Result<Option<seq<DiskEntry>>, Error> {
    if !Recognized(data) then Ok(None) else
      var d := DiskOf(data);
      var root := Block(d, ROOT);
      if !ValidChecksum(root) then Err(BadRootChecksum) else
        match WalkBuckets(d, root, 0, [], Found([], {ROOT}))
        case Err(e) => Err(e)
        case Ok(f) => if HasCountedString(root, 432) then Ok(Some(f.entries)) else Err(BadName)
  }

  // ----- the loops -----

  method ReadFile(d: Disk, header: seq<byte>, key: nat) returns (r: Result<seq<byte>, Error>)
    requires Sized(d) && |header| == BLOCK
    ensures r == FileData(d, header, key)
  {
    hide Be32, Block, Slot, GoodDataBlock, Payload;
    var size, out: seq<byte>, seen, n := FileSize(header), [], {}, 72;
    while n > 0
      invariant n <= 72
      invariant FileFrom(d, header, key, n, seen, out) == FileData(d, header, key)
    {
      var pointer := Slot(header, n - 1);
      if pointer != 0 {
        if pointer in seen {
          return Err(CyclicBlocks);
        }
        seen := seen + {pointer};
        if !InImage(pointer) {
          return Err(OutsideImage);
        }
        var value := Block(d, pointer);
        if !GoodDataBlock(d, value, key) {
          return Err(BadDataBlock);
        }
        out := out + Payload(d, value, key);
        if |out| >= size {
          return Ok(out[..size]);
        }
      }
      n := n - 1;
    }
    return if |out| != size then Err(TruncatedFile) else Ok(out);
  }

  class Walker {
    const d: Disk
    var entries: seq<DiskEntry>
    var visited: set<nat>

    constructor (d: Disk)
      ensures this.d == d && entries == [] && visited == {ROOT}
    {
      this.d, entries, visited := d, [], {ROOT};
    }

    /** `walk_directory`: the fields end up as the specification says, or its error is raised. */
    method Walk(directory: seq<byte>, prefix: seq<byte>) returns (error: Option<Error>)
      requires Sized(d) && |directory| == BLOCK
      modifies this
      ensures old(visited) <= visited
      ensures match WalkBuckets(d, directory, 0, prefix, old(Found(entries, visited)))
              case Ok(found) => error.None? && found == Found(entries, visited)
              case Err(e) => error == Some(e)
      decreases Keys() - visited
    {
      hide Block, Slot, NextInChain, ReadHeader, Kind, CountedString, HasCountedString, FileData;
      ghost var before := Found(entries, visited);
      for bucket := 0 to 72
        invariant before.visited <= visited
        invariant WalkBuckets(d, directory, bucket, prefix, Found(entries, visited))
               == WalkBuckets(d, directory, 0, prefix, before)
      {
        var key := Slot(directory, bucket);
        ghost var start := Found(entries, visited);
        ghost var chain := WalkChain(d, key, prefix, start);
        var chainSeen := {};
        while key != 0
          invariant IsKey(key) && chainSeen <= visited && start.visited <= visited
          invariant WalkChain(d, key, prefix, Found(entries, visited)) == chain
          decreases Keys() - visited
        {
          if key in chainSeen || key in visited {
            return Some(CyclicChain);
          }
          assert key in Keys();
          chainSeen, visited := chainSeen + {key}, visited + {key};
          if !InImage(key) {
            return Some(OutsideImage);
          }
          var header := Block(d, key);
          var wrong := ReadHeader(d, header);
          if wrong.Some? {
            return wrong;
          }
          var logical := Logical(prefix, CountedString(header, 432));
          if Kind(header) == DIRECTORY {
            var inner := Walk(header, logical);
            if inner.Some? {
              return inner;
            }
          } else {
            var data := ReadFile(d, header, key);
            if data.Err? {
              return Some(data.error);
            }
            entries := entries + [DiskEntry(logical, data.value, |entries|)];
          }
          key := NextInChain(header);
        }
      }
      return None;
    }
  }

  method ParseAdf(data: seq<byte>) returns (r: Result<Option<seq<DiskEntry>>, Error>)
    ensures r == Parse(data)
  {
    hide WalkBuckets, Block, ValidChecksum, Be32;
    if !Recognized(data) {
      return Ok(None);
    }
    var d := DiskOf(data);
    var root := Block(d, ROOT);
    if !ValidChecksum(root) {
      return Err(BadRootChecksum);
    }
    var walker := new Walker(d);
    var error := walker.Walk(root, []);
    if error.Some? {
      return Err(error.value);
    }
    return if HasCountedString(root, 432) then Ok(Some(walker.entries)) else Err(BadName);
  }
}
