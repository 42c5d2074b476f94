/** The ADF file writer of the disk-image tests: a payload cut into data blocks is read back byte for byte. */
module AdfFixture {
  import opened Bytes
  import opened Adf
  import opened Writing
  import X = AdfExtractor
  import F = Fixtures
  import K = AdfDisk

  function Capacity(ofs: bool): nat {
    if ofs then 488 else 512
  }

  /** An OFS data block before its checksum: type, owner, position, length, next. */
  function Unsealed(key: nat, index: nat, chunk: seq<byte>, next: nat): (r: seq<byte>)
    requires key < WORD && index < WORD && next < WORD && |chunk| <= 488
    ensures |r| == BLOCK
  {
    Word(8) + Word(key) + Word(index) + Word(|chunk|) + Word(next) + Zeros(4) + chunk + Zeros(488 - |chunk|)
  }

  function DataBlock(ofs: bool, key: nat, index: nat, chunk: seq<byte>, next: nat): (r: seq<byte>)
    requires key < WORD && index < WORD && next < WORD && |chunk| <= Capacity(ofs)
    ensures |r| == BLOCK
  {
    if ofs then F.Checksummed(Unsealed(key, index, chunk, next)) else chunk + Zeros(BLOCK - |chunk|)
  }

  lemma UnsealedFields(key: nat, index: nat, chunk: seq<byte>, next: nat)
    requires key < WORD && index < WORD && next < WORD && |chunk| <= 488
    ensures var u := Unsealed(key, index, chunk, next);
            Be32(u, 0) == 8 && Be32(u, 4) == key && Be32(u, 12) == |chunk| && u[24..][..|chunk|] == chunk
  {
    hide Word, Be32, Zeros;
    var a, b, c, l, n, tail := Word(8), Word(key), Word(index), Word(|chunk|), Word(next), Zeros(488 - |chunk|);
    var u := Unsealed(key, index, chunk, next);
    assert u == [] + a + (b + c + l + n + Zeros(4) + chunk + tail);
    WordReads([], 8, b + c + l + n + Zeros(4) + chunk + tail);
    assert u == a + b + (c + l + n + Zeros(4) + chunk + tail);
    WordReads(a, key, c + l + n + Zeros(4) + chunk + tail);
    assert u == (a + b + c) + l + (n + Zeros(4) + chunk + tail);
    WordReads(a + b + c, |chunk|, n + Zeros(4) + chunk + tail);
    assert u == (a + b + c + l + n + Zeros(4)) + chunk + tail;
    assert u[24..24 + |chunk|] == chunk;
  }

  /** What a reader of the block needs to find. */
  lemma DataBlockReads(d: Disk, key: nat, index: nat, chunk: seq<byte>, next: nat)
    requires key < WORD && index < WORD && next < WORD && |chunk| <= Capacity(d.ofs)
    ensures var block := DataBlock(d.ofs, key, index, chunk, next);
            && GoodDataBlock(d, block, key)
            && Payload(d, block, key) == PieceOf(d.ofs, chunk)
  {
    hide Zeros, Unsealed, F.Checksummed, WordSum;
    if d.ofs {
      var u := Unsealed(key, index, chunk, next);
      var block := F.Checksummed(u);
      UnsealedFields(key, index, chunk, next);
      F.ChecksummedIsValid(u);
      SameWord(block, u, 0);
      SameWord(block, u, 4);
      SameWord(block, u, 12);
      assert block[24..24 + |chunk|] == block[24..][..|chunk|];
    }
  }

  lemma SameWord(a: seq<byte>, b: seq<byte>, pos: nat)
    requires |a| >= 20 && |b| >= 20 && a[..20] == b[..20] && pos + 4 <= 20
    ensures Be32(a, pos) == Be32(b, pos)
  {
    assert forall i | pos <= i < pos + 4 :: a[i] == a[..20][i] == b[i];
  }

  /** What a reader gets of a chunk: on FFS the block's filler as well. */
  function PieceOf(ofs: bool, chunk: seq<byte>): seq<byte>
    requires |chunk| <= Capacity(ofs)
  {
    if ofs then chunk else chunk + Zeros(BLOCK - |chunk|)
  }

  /** The chunks the writer cuts a payload into: full ones, and at least one. */
  function Cut(payload: seq<byte>, capacity: nat): (r: seq<seq<byte>>)
    requires capacity > 0
    ensures r != [] && forall i | 0 <= i < |r| :: |r[i]| <= capacity
  {
    if |payload| <= capacity then [payload] else [payload[..capacity]] + Cut(payload[capacity..], capacity)
  }

  function Pieces(ofs: bool, payload: seq<byte>): seq<seq<byte>> {
    var chunks := Cut(payload, Capacity(ofs));
    seq(|chunks|, i requires 0 <= i < |chunks| => PieceOf(ofs, chunks[i]))
  }

  lemma {:induction false} FlattenFront(first: seq<byte>, rest: seq<seq<byte>>)
    ensures Flatten([first] + rest) == first + Flatten(rest)
    decreases |rest|
  {
    if rest != [] {
      var all, k := [first] + rest, |rest| - 1;
      assert all[..|all| - 1] == [first] + rest[..k];
      FlattenFront(first, rest[..k]);
    } else {
      assert [first] + rest == [] + [first];
      FlattenNext([], first);
    }
  }

  /** The chunks read cover the payload and no more. */
  lemma {:induction false} PiecesCover(ofs: bool, payload: seq<byte>)
    ensures K.Covers(Pieces(ofs, payload), payload, false)
    decreases |payload|
  {
    hide Zeros, Flatten;
    var capacity, pieces := Capacity(ofs), Pieces(ofs, payload);
    if |payload| <= capacity {
      assert pieces == [] + [PieceOf(ofs, payload)];
      FlattenNext([], PieceOf(ofs, payload));
      NothingJoined();
    } else {
      var first, rest := payload[..capacity], payload[capacity..];
      PiecesCover(ofs, rest);
      var more := Pieces(ofs, rest);
      assert Zeros(0) == [] && PieceOf(ofs, first) == first;
      assert Cut(payload, capacity) == [first] + Cut(rest, capacity);
      assert pieces == [first] + more;
      FlattenFront(first, more);
      FlattenFront(first, more[..|more| - 1]);
      assert pieces[..|pieces| - 1] == [first] + more[..|more| - 1];
      assert payload == first + rest;
      if |more| == 1 {
        NothingJoined();
      }
    }
  }

  lemma NothingJoined()
    ensures Flatten([]) == []
  {
  }

  /** The disk holds the file as the writer lays it out: its chunks in distinct data blocks. */
  predicate Written(d: Disk, key: nat, slots: seq<nat>, nexts: seq<nat>, payload: seq<byte>)
    requires Sized(d) && |slots| == 72 && key < WORD
  {
    var pointers, chunks := K.Pointers(slots, 72), Cut(payload, Capacity(d.ofs));
    && |pointers| == |chunks| == |nexts|
    && (forall i, j | 0 <= i < j < |pointers| :: pointers[i] != pointers[j])
    && (forall i | 0 <= i < |pointers| :: WrittenChunk(d, key, pointers[i], i, chunks[i], nexts[i]))
  }

  predicate WrittenChunk(d: Disk, key: nat, pointer: nat, i: nat, chunk: seq<byte>, next: nat)
    requires Sized(d) && key < WORD
  {
    && InImage(pointer) && next < WORD && i < 72 && |chunk| <= Capacity(d.ofs)
    && At(d.data, BLOCK * pointer, DataBlock(d.ofs, key, i + 1, chunk, next))
  }

  lemma ChunkIsPiece(d: Disk, key: nat, pointer: nat, i: nat, chunk: seq<byte>, next: nat)
    requires Sized(d) && key < WORD && WrittenChunk(d, key, pointer, i, chunk, next)
    ensures K.PieceAt(d, key, pointer, PieceOf(d.ofs, chunk))
  {
    hide GoodDataBlock, Payload, DataBlock, Zeros, K.PieceAt, At;
    AtSlice(d.data, BLOCK * pointer, DataBlock(d.ofs, key, i + 1, chunk, next));
    DataBlockReads(d, key, i + 1, chunk, next);
    K.PieceIff(d, key, pointer);
  }

  /** A file so written lies on the disk, OFS or FFS, and is read back byte for byte. */
  lemma FileReadsBack(d: Disk, header: seq<byte>, key: nat, slots: seq<nat>, nexts: seq<nat>, payload: seq<byte>)
    requires Sized(d) && |header| == BLOCK && key < WORD && K.TableIs(header, slots) && FileSize(header) == |payload|
    requires |slots| == 72 && Written(d, key, slots, nexts, payload)
    ensures K.PiecesAt(d, key, K.Pointers(slots, 72), Pieces(d.ofs, payload)) && K.Covers(Pieces(d.ofs, payload), payload, false)
    ensures X.FileData(d, header, key) == Ok(payload)
  {
    hide Slot, K.Pointers, FileSize, K.TableIs, K.PieceAt, WrittenChunk, Cut, K.Covers, X.FileFrom, PieceOf;
    var pointers, pieces := K.Pointers(slots, 72), Pieces(d.ofs, payload);
    forall i | 0 <= i < |pointers|
      ensures K.PieceAt(d, key, pointers[i], pieces[i])
    {
      ChunkIsPiece(d, key, pointers[i], i, Cut(payload, Capacity(d.ofs))[i], nexts[i]);
    }
    PiecesCover(d.ofs, payload);
    assert pointers[0..] == pointers && pieces[..0] == [];
    K.FileReads(d, header, key, slots, pieces, payload, 72, 0);
    assert K.Taken(pointers, 0) == {};
  }
}
