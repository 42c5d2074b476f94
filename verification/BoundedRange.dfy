/** `BoundedRangeReader`: a seekable view of one byte range of the root file. */
module BoundedRange {
  import opened Bytes

  datatype Error = OutsideRoot | OutsideRange | RootTruncated

  /** What the file gives for `size` bytes from `pos`: less where it has ended. */
  function FileRead(file: seq<byte>, pos: nat, size: nat): seq<byte> {
    if pos >= |file| then [] else if size <= |file| - pos then file[pos..pos + size] else file[pos..]
  }

  predicate AreChunks(chunks: seq<seq<byte>>, chunkSize: int) {
    forall c | c in chunks :: c != [] && (chunkSize > 0 ==> |c| <= chunkSize)
  }

  lemma NoChunks(chunkSize: int)
    ensures AreChunks([], chunkSize) && Flatten([]) == []
  {
  }

  lemma ChunkAdded(chunks: seq<seq<byte>>, next: seq<byte>, chunkSize: int)
    requires AreChunks(chunks, chunkSize) && next != [] && (chunkSize > 0 ==> |next| <= chunkSize)
    ensures AreChunks(chunks + [next], chunkSize)
  {
  }

  lemma SliceJoins(file: seq<byte>, from: nat, mid: nat, to: nat)
    requires from <= mid <= to <= |file|
    ensures file[from..mid] + file[mid..to] == file[from..to]
  {
  }

  class BoundedRangeReader {
    const file: seq<byte>
    const start: nat
    const length: nat
    var position: nat

    ghost predicate Valid()
      reads this
    {
      position <= length
    }

    constructor Make(file: seq<byte>, start: nat, length: nat)
      ensures Valid() && this.file == file && this.start == start && this.length == length && position == 0
    {
      this.file, this.start, this.length, position := file, start, length, 0;
    }

    /** The source's constructor, which raises for a range not inside the root of the size given. */
    static method Open(file: seq<byte>, start: int, length: int, rootSize: nat) returns (r: Result<BoundedRangeReader, Error>)
      ensures r.Ok? <==> 0 <= start && 0 <= length && start + length <= rootSize
      ensures r.Ok? ==> fresh(r.value) && r.value.Valid() && r.value.file == file && r.value.start == start && r.value.length == length
                        && r.value.position == 0
    {
      if start < 0 || length < 0 || start > rootSize || length > rootSize - start {
        return Err(OutsideRoot);
      }
      var reader := new BoundedRangeReader.Make(file, start, length);
      return Ok(reader);
    }

    /** `seek`: raises, without moving, unless the target lies inside the range. */
    method Seek(offset: int, whence: int) returns (r: Result<nat, Error>)
      requires Valid()
      modifies this
      ensures Valid()
      ensures var target := (if whence == 0 then 0 else if whence == 1 then old(position) else length) + offset;
              if 0 <= target <= length then r == Ok(target) && position == target
              else r == Err(OutsideRange) && position == old(position)
    {
      var target := if whence == 0 then offset else if whence == 1 then position + offset else length + offset;
      if target < 0 || target > length {
        return Err(OutsideRange);
      }
      position := target;
      return Ok(target);
    }

    /** `read`: never a byte from outside the range; a negative size asks for the rest of it. */
    method Read(size: int) returns (r: Result<seq<byte>, Error>)
      requires Valid()
      modifies this
      ensures Valid()
      ensures var rest := length - old(position);
              var n := if size < 0 || size > rest then rest else size;
              if start + old(position) + n <= |file| || n == 0 then
                r.Ok? && |r.value| == n && position == old(position) + n
                && (n > 0 ==> r.value == file[start + old(position)..start + old(position) + n])
              else r == Err(RootTruncated) && position == old(position)
    {
      var asked := if size < 0 then length - position else size;
      if asked > length - position {
        asked := length - position;
      }
      var end := position + asked;
      var value := FileRead(file, start + position, asked);
      if |value| != asked {
        return Err(RootTruncated);
      }
      position := end;
      return Ok(value);
    }

    /**
     `chunks`, read to the end: when the root file still has the whole range, the chunks together are exactly the range,
     for every chunk size but 0, for which the source would not end.
     */
    method Chunks(chunkSize: int) returns (r: Result<seq<seq<byte>>, Error>)
      requires Valid() && chunkSize != 0
      modifies this
      ensures Valid()
      ensures start + length <= |file| ==> r.Ok? && Flatten(r.value) == file[start..start + length]
      ensures r.Ok? && length > 0 ==> start + length <= |file| && AreChunks(r.value, chunkSize)
    {
      hide Flatten, AreChunks;
      var seek := Seek(0, 0);
      var chunks: seq<seq<byte>> := [];
      NoChunks(chunkSize);
      while position < length
        invariant Valid() && AreChunks(chunks, chunkSize)
        invariant position > 0 ==> start + position <= |file|
        invariant start + position <= |file| ==> Flatten(chunks) == file[start..start + position]
        decreases length - position
      {
        var before := position;
        var chunk := Read(if chunkSize < length - position then chunkSize else length - position);
        if chunk.Err? {
          return Err(chunk.error);
        }
        FlattenNext(chunks, chunk.value);
        ChunkAdded(chunks, chunk.value, chunkSize);
        chunks := chunks + [chunk.value];
        SliceJoins(file, start, start + before, start + position);
      }
      return Ok(chunks);
    }
  }
}
