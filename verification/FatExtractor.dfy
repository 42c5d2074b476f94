/** The FAT half of `disk_images.py`: raises on damage, returns the files' bytes. */
module FatExtractor {
  import opened Bytes
  import opened Fat

  datatype Error = EntryOutsideFat | InvalidChain | ClusterOutsideImage | MissingCluster | CyclicChain | TruncatedFile

  datatype DiskEntry = DiskEntry(path: string, data: seq<byte>, index: nat)

  /** `None` at the end of the chain; raises on an entry outside the table or a successor out of range. */
  function NextCluster(v: Volume, cluster: nat): Result<Option<nat>, Error> {
    match Entry(v, cluster)
    case None => Err(EntryOutsideFat)
    case Some(value) =>
      if value >= EndMark(v.variant) then Ok(None)
      else if !InRange(v, value) then Err(InvalidChain)
      else Ok(Some(value))
  }

  predicate ClusterReadable(v: Volume, cluster: nat) {
    cluster >= 2 && ClusterOffset(v, cluster) + ClusterSize(v) <= |v.data|
  }

  /** The chain loop from `current` on, `seen` and `out` being what it has passed and collected. */
  function ChainFrom(v: Volume, current: nat, seen: set<nat>, out: seq<byte>, wanted: Option<nat>)
    : (r: Result<seq<byte>, Error>)
    ensures r.Ok? && wanted.Some? ==> |r.value| == wanted.value
    decreases v.clusters + 1 - |seen|
  {
    if current in seen || |seen| > v.clusters then Err(CyclicChain)
    else if !ClusterReadable(v, current) then Err(ClusterOutsideImage)
    else
      var more := out + ClusterBytes(v, current);
      if wanted.Some? && |more| >= wanted.value then Ok(more[..wanted.value]) else
        match NextCluster(v, current)
        case Err(e) => Err(e)
        case Ok(Some(next)) => ChainFrom(v, next, seen + {current}, more, wanted)
        case Ok(None) => if wanted.Some? then Err(TruncatedFile) else Ok(more)
  }

  /** `chain(start, wanted)`: a file that is read has exactly its declared size. */
  function Chain(v: Volume, start: nat, wanted: Option<nat>): (r: Result<seq<byte>, Error>)
    ensures r.Ok? && wanted.Some? ==> |r.value| == wanted.value
  {
    if start < 2 then
      if wanted.Some? && wanted.value > 0 then Err(MissingCluster) else Ok([])
    else ChainFrom(v, start, {}, [], wanted)
  }

  datatype Found = Found(entries: seq<DiskEntry>, visited: set<nat>)

  function Logical(prefix: string, name: string): string {
    if prefix == "" then name else prefix + "/" + name
  }

  /** The directory loop from `offset` on, recursing into subdirectories not visited before. */
  function WalkFrom(v: Volume, names: Names, directory: seq<byte>, offset: nat, prefix: string, found: Found)
    : (r: Result<Found, Error>)
    ensures r.Ok? ==> found.visited <= r.value.visited && found.entries <= r.value.entries
    decreases Starts() - found.visited, |directory| - offset
  {
    if offset + 32 > |directory| then Ok(found) else
      var row, name := RowAt(directory, offset), Extracted(names, directory, offset);
      if row.End? then Ok(found)
      else if row.Skip? || name.None? || (row.Directory? && row.start in found.visited) then
        WalkFrom(v, names, directory, offset + 32, prefix, found)
      else
        var logical := Logical(prefix, name.value);
        if row.Directory? then
          match Chain(v, row.start, None)
          case Err(e) => Err(e)
          case Ok(child) =>
            assert row.start in Starts();
            match WalkFrom(v, names, child, 0, logical, found.(visited := found.visited + {row.start}))
            case Err(e) => Err(e)
            case Ok(inner) => WalkFrom(v, names, directory, offset + 32, prefix, inner)
        else
          match Chain(v, row.start, Some(row.size))
          case Err(e) => Err(e)
          case Ok(data) =>
            var entry := DiskEntry(logical, data, |found.entries|);
            WalkFrom(v, names, directory, offset + 32, prefix, found.(entries := found.entries + [entry]))
  }

  /** The image is recognized: signature, coherent block and, for FAT32, root fields the extractor accepts. */
  predicate Recognized(data: seq<byte>) {
    && |data| >= 512 && data[510] == 0x55 && data[511] == 0xAA
    && Coherent(ReadBpb(data), |data|)
    && (VariantOf(Clusters(ReadBpb(data))).Fat32? ==> AcceptedFat32Root(ReadBpb(data)))
  }

  predicate AcceptedFat32Root(b: Bpb) {
    b.rootEntries == 0 && b.rootCluster >= 2
  }

  function RootDirectory(data: seq<byte>): Result<seq<byte>, Error>
    requires Recognized(data)
  {
    var b := ReadBpb(data);
    var v := VolumeOf(data, b);
    TablesInside(b, |data|);
    if v.variant.Fat32? then Chain(v, b.rootCluster, None)
    else Ok(data[FatStart(b, b.copies)..FatStart(b, b.copies) + RootSectors(b) * b.bps])
  }

  /** `_parse_fat`: nothing, an error, or the entries in walking order. */
  function Parse(data: seq<byte>, names: Names): Result<Option<seq<DiskEntry>>, Error> {
    if !Recognized(data) then Ok(None) else
      match RootDirectory(data)
      case Err(e) => Err(e)
      case Ok(root) =>
        match WalkFrom(VolumeOf(data, ReadBpb(data)), names, root, 0, "", Found([], {}))
        case Err(e) => Err(e)
        case Ok(found) => Ok(Some(found.entries))
  }

  // ----- the loops -----

  method ReadChain(v: Volume, start: nat, wanted: Option<nat>) returns (r: Result<seq<byte>, Error>)
    ensures r == Chain(v, start, wanted)
  {
    if start < 2 {
      return if wanted.Some? && wanted.value > 0 then Err(MissingCluster) else Ok([]);
    }
    var out: seq<byte>, seen: set<nat>, current := [], {}, Some(start);
    while current.Some?
      invariant current.Some? ==> ChainFrom(v, current.value, seen, out, wanted) == Chain(v, start, wanted)
      invariant current.None? ==> Chain(v, start, wanted) == if wanted.Some? then Err(TruncatedFile) else Ok(out)
      invariant current.None? && wanted.Some? ==> |out| < wanted.value
      decreases v.clusters + 1 - |seen|, current.Some?
    {
      if current.value in seen || |seen| > v.clusters {
        return Err(CyclicChain);
      }
      seen := seen + {current.value};
      if !ClusterReadable(v, current.value) {
        return Err(ClusterOutsideImage);
      }
      out := out + ClusterBytes(v, current.value);
      if wanted.Some? && |out| >= wanted.value {
        return Ok(out[..wanted.value]);
      }
      match NextCluster(v, current.value) {
        case Err(e) => return Err(e);
        case Ok(next) => current := next;
      }
    }
    if wanted.Some? && |out| < wanted.value {
      return Err(TruncatedFile);
    }
    return Ok(out);
  }

  class Walker {
    const v: Volume
    const names: Names
    var entries: seq<DiskEntry>
    var visitedDirs: set<nat>

    constructor (v: Volume, names: Names)
      ensures this.v == v && this.names == names && entries == [] && visitedDirs == {}
    {
      this.v, this.names, entries, visitedDirs := v, names, [], {};
    }

    /** `walk(directory, prefix)`: the fields end up as the specification says, or its error is raised. */
    method Walk(directory: seq<byte>, prefix: string) returns (error: Option<Error>)
      modifies this
      ensures match WalkFrom(v, names, directory, 0, prefix, old(Found(entries, visitedDirs)))
              case Ok(found) => error.None? && found == Found(entries, visitedDirs)
              case Err(e) => error == Some(e)
      ensures old(visitedDirs) <= visitedDirs
      decreases Starts() - visitedDirs
    {
      ghost var before := Found(entries, visitedDirs);
      var offset := 0;
      while offset + 32 <= |directory|
        invariant before.visited <= visitedDirs
        invariant WalkFrom(v, names, directory, offset, prefix, Found(entries, visitedDirs))
               == WalkFrom(v, names, directory, 0, prefix, before)
        decreases |directory| - offset
      {
        var row := RowAt(directory, offset);
        if row.End? {
          return None;
        }
        var name := Extracted(names, directory, offset);
        if !row.Skip? && name.Some? {
          var logical := Logical(prefix, name.value);
          if row.File? {
            var data := ReadChain(v, row.start, Some(row.size));
            if data.Err? {
              return Some(data.error);
            }
            entries := entries + [DiskEntry(logical, data.value, |entries|)];
          } else if row.start !in visitedDirs {
            var child := ReadChain(v, row.start, None);
            if child.Err? {
              visitedDirs := visitedDirs + {row.start};
              return Some(child.error);
            }
            assert row.start in Starts();
            visitedDirs := visitedDirs + {row.start};
            var inner := Walk(child.value, logical);
            if inner.Some? {
              return inner;
            }
          }
        }
        offset := offset + 32;
      }
      return None;
    }
  }

  method ParseFat(data: seq<byte>, names: Names) returns (r: Result<Option<seq<DiskEntry>>, Error>)
    ensures r == Parse(data, names)
  {
    if !Recognized(data) {
      return Ok(None);
    }
    var root := RootDirectory(data);
    if root.Err? {
      return Err(root.error);
    }
    var walker := new Walker(VolumeOf(data, ReadBpb(data)), names);
    var error := walker.Walk(root.value, "");
    return if error.Some? then Err(error.value) else Ok(Some(walker.entries));
  }
}
