/** What lies on an ADF disk, byte by byte: words, sealed blocks, headers and the pieces of a file. */
module AdfDisk {
  import opened Bytes
  import opened Adf
  import opened Writing
  import X = AdfExtractor

  predicate Sealed(block: seq<byte>) {
    WordTotal(block) % 0x1_0000_0000 == 0
  }

  /** Both sides' checksum accepts exactly the sealed blocks. */
  lemma SealedIffValid(block: seq<byte>)
    requires |block| == BLOCK
    ensures ValidChecksum(block) <==> Sealed(block)
  {
    hide WordSum, WordTotal;
    TotalIsSum(block, 128);
    assert block[..512] == block;
  }

  /** A block's words are the disk's. */
  lemma BlockWord(d: Disk, key: nat, pos: nat, n: nat)
    requires Sized(d) && InImage(key) && pos + 4 <= BLOCK
    ensures WordIs(d.data, BLOCK * key + pos, n) <==> Be32(Block(d, key), pos) == n
  {
    WordIff(d.data, BLOCK * key + pos, n);
  }

  predicate SealedAt(data: seq<byte>, key: nat)
    requires |data| == IMAGE_SIZE && InImage(key)
  {
    Sealed(data[BLOCK * key..BLOCK * key + BLOCK])
  }

  // ----- data blocks -----

  /** `bytes` are what the data block at `pointer` gives the file whose header is `key`. */
  predicate PieceAt(d: Disk, key: nat, pointer: nat, bytes: seq<byte>)
    requires Sized(d)
  {
    && 2 <= pointer < 1760
    && if d.ofs then
         && WordIs(d.data, 512 * pointer, 8) && WordIs(d.data, 512 * pointer + 4, key)
         && |bytes| <= 488 && WordIs(d.data, 512 * pointer + 12, |bytes|) && At(d.data, 512 * pointer + 24, bytes)
         && SealedAt(d.data, pointer)
       else |bytes| == 512 && At(d.data, 512 * pointer, bytes)
  }

  lemma PieceIff(d: Disk, key: nat, pointer: nat)
    requires Sized(d)
    ensures InImage(pointer) && GoodDataBlock(d, Block(d, pointer), key)
            ==> PieceAt(d, key, pointer, Payload(d, Block(d, pointer), key))
    ensures forall bytes | PieceAt(d, key, pointer, bytes) ::
              InImage(pointer) && GoodDataBlock(d, Block(d, pointer), key) && Payload(d, Block(d, pointer), key) == bytes
  {
    hide Be32, WordIs, At, ValidChecksum, Sealed;
    if InImage(pointer) {
      var block := Block(d, pointer);
      SealedIffValid(block);
      if d.ofs {
        BlockWord(d, pointer, 0, 8);
        BlockWord(d, pointer, 4, key);
        BlockWord(d, pointer, 12, Be32(block, 12));
      }
      forall bytes | PieceAt(d, key, pointer, bytes)
        ensures GoodDataBlock(d, block, key) && Payload(d, block, key) == bytes
      {
        if d.ofs {
          BlockWord(d, pointer, 12, |bytes|);
          AtSlice(d.data, 512 * pointer + 24, bytes);
          assert d.data[512 * pointer + 24..512 * pointer + 24 + |bytes|] == block[24..24 + |bytes|];
        } else {
          AtSlice(d.data, 512 * pointer, bytes);
        }
      }
      if GoodDataBlock(d, block, key) {
        PayloadIsThere(d, key, pointer);
      }
    }
  }

  lemma PayloadIsThere(d: Disk, key: nat, pointer: nat)
    requires Sized(d) && InImage(pointer) && GoodDataBlock(d, Block(d, pointer), key)
    ensures At(d.data, 512 * pointer + if d.ofs then 24 else 0, Payload(d, Block(d, pointer), key))
  {
    hide Be32, ValidChecksum;
  }

  // ----- files -----

  /** The non-zero pointers of a header's table in reading order: slot `n - 1` first, slot 0 last. */
  function Pointers(slots: seq<nat>, n: nat): seq<nat>
    requires n <= |slots|
  {
    if n == 0 then [] else (if slots[n - 1] == 0 then [] else [slots[n - 1]]) + Pointers(slots, n - 1)
  }

  /** Each pointer gives its piece, and none is used twice. */
  predicate PiecesAt(d: Disk, key: nat, pointers: seq<nat>, pieces: seq<seq<byte>>)
    requires Sized(d)
  {
    && |pieces| <= |pointers|
    && (forall i | 0 <= i < |pieces| :: PieceAt(d, key, pointers[i], pieces[i]))
    && (forall i, j | 0 <= i < j < |pieces| :: pointers[i] != pointers[j])
  }

  /** The joined pieces begin with the content, and no piece is left over; only an empty table needs none. */
  predicate Covers(pieces: seq<seq<byte>>, content: seq<byte>, empty: bool) {
    && (pieces == [] <==> empty)
    && content <= Flatten(pieces)
    && (|pieces| > 1 ==> |Flatten(pieces[..|pieces| - 1])| < |content|)
  }

  predicate FileAt(d: Disk, key: nat, slots: seq<nat>, pieces: seq<seq<byte>>, content: seq<byte>)
    requires Sized(d) && |slots| == 72
  {
    var pointers := Pointers(slots, 72);
    WordIs(d.data, 512 * key + 324, |content|) && PiecesAt(d, key, pointers, pieces) && Covers(pieces, content, pointers == [])
  }

  lemma {:induction false} FlattenGrows(pieces: seq<seq<byte>>, i: nat)
    requires i <= |pieces|
    ensures |Flatten(pieces[..i])| <= |Flatten(pieces)|
    decreases |pieces|
  {
    if i < |pieces| {
      assert pieces[..|pieces| - 1][..i] == pieces[..i];
      FlattenGrows(pieces[..|pieces| - 1], i);
    } else {
      assert pieces[..i] == pieces;
    }
  }

  predicate TableIs(header: seq<byte>, slots: seq<nat>)
    requires |header| == BLOCK
  {
    |slots| == 72 && forall k | 0 <= k < 72 :: Slot(header, k) == slots[k]
  }

  /** One pointer: its piece is added, and reading stops at the declared size. */
  lemma PieceStep(d: Disk, header: seq<byte>, key: nat, n: nat, seen: set<nat>, out: seq<byte>, bytes: seq<byte>)
    requires Sized(d) && |header| == BLOCK && 0 < n <= 72 && Slot(header, n - 1) != 0 && Slot(header, n - 1) !in seen
    requires PieceAt(d, key, Slot(header, n - 1), bytes)
    ensures X.FileFrom(d, header, key, n, seen, out)
         == if |out + bytes| >= FileSize(header) then Ok((out + bytes)[..FileSize(header)])
            else X.FileFrom(d, header, key, n - 1, seen + {Slot(header, n - 1)}, out + bytes)
  {
    hide Slot, GoodDataBlock, Payload, Block, PieceAt, FileSize;
    PieceIff(d, key, Slot(header, n - 1));
  }

  function Taken(pointers: seq<nat>, i: nat): set<nat>
    requires i <= |pointers|
  {
    set j | 0 <= j < i :: pointers[j]
  }

  lemma EnoughPointers(d: Disk, key: nat, pointers: seq<nat>, pieces: seq<seq<byte>>)
    requires Sized(d) && PiecesAt(d, key, pointers, pieces)
    ensures |pieces| <= |pointers|
  {
  }

  lemma TakeNext(d: Disk, key: nat, pointers: seq<nat>, pieces: seq<seq<byte>>, i: nat)
    requires Sized(d) && PiecesAt(d, key, pointers, pieces) && i < |pieces|
    ensures PieceAt(d, key, pointers[i], pieces[i]) && pointers[i] !in Taken(pointers, i)
    ensures Taken(pointers, i + 1) == Taken(pointers, i) + {pointers[i]}
  {
    hide PieceAt;
  }

  lemma NextPointer(header: seq<byte>, slots: seq<nat>, n: nat, i: nat)
    requires |header| == BLOCK && TableIs(header, slots) && 0 < n <= 72 && i <= |Pointers(slots, 72)|
    requires Pointers(slots, n) == Pointers(slots, 72)[i..]
    ensures slots[n - 1] == Slot(header, n - 1)
    ensures slots[n - 1] == 0 ==> Pointers(slots, n - 1) == Pointers(slots, 72)[i..]
    ensures slots[n - 1] != 0 ==>
              i < |Pointers(slots, 72)| && Pointers(slots, 72)[i] == slots[n - 1] && Pointers(slots, n - 1) == Pointers(slots, 72)[i + 1..]
  {
    hide Slot;
    if slots[n - 1] != 0 {
      assert Pointers(slots, n)[1..] == Pointers(slots, n - 1);
    }
  }

  lemma ZeroPointer(d: Disk, header: seq<byte>, key: nat, n: nat, seen: set<nat>, out: seq<byte>)
    requires Sized(d) && |header| == BLOCK && 0 < n <= 72 && Slot(header, n - 1) == 0
    ensures X.FileFrom(d, header, key, n, seen, out) == X.FileFrom(d, header, key, n - 1, seen, out)
  {
  }

  /** The end of the table. */
  lemma NoPointer(d: Disk, header: seq<byte>, key: nat, slots: seq<nat>, i: nat, seen: set<nat>, out: seq<byte>)
    requires Sized(d) && |header| == BLOCK && |slots| == 72 && i <= |Pointers(slots, 72)|
    requires Pointers(slots, 0) == Pointers(slots, 72)[i..]
    ensures |Pointers(slots, 72)| == i
    ensures X.FileFrom(d, header, key, 0, seen, out) == if |out| != FileSize(header) then Err(X.TruncatedFile) else Ok(out)
  {
    assert Pointers(slots, 0) == [];
  }

  /** A file's pieces are read up to its size. */
  lemma {:induction false} FileReads(d: Disk, header: seq<byte>, key: nat, slots: seq<nat>, pieces: seq<seq<byte>>,
                                     content: seq<byte>,
                                     n: nat, i: nat)
    requires Sized(d) && |header| == BLOCK && |slots| == 72 && TableIs(header, slots) && n <= 72 && FileSize(header) == |content|
    requires var pointers := Pointers(slots, 72);
             && PiecesAt(d, key, pointers, pieces) && Covers(pieces, content, pointers == [])
             && i <= |pointers| && Pointers(slots, n) == pointers[i..] && (i < |pieces| || pieces == [])
    ensures X.FileFrom(d, header, key, n, Taken(Pointers(slots, 72), i), Flatten(pieces[..i])) == Ok(content)
  {
    hide Slot, GoodDataBlock, Payload, Block, PieceAt, FileSize, X.FileFrom, TableIs, Pointers, Taken, PiecesAt;
    var pointers := Pointers(slots, 72);
    if n == 0 {
      NoPointer(d, header, key, slots, i, Taken(pointers, i), Flatten(pieces[..i]));
      EnoughPointers(d, key, pointers, pieces);
      assert pieces[..i] == pieces == [];
      return;
    }
    hide Flatten;
    NextPointer(header, slots, n, i);
    if slots[n - 1] == 0 {
      ZeroPointer(d, header, key, n, Taken(pointers, i), Flatten(pieces[..i]));
      FileReads(d, header, key, slots, pieces, content, n - 1, i);
    } else {
      TakeNext(d, key, pointers, pieces, i);
      PieceStep(d, header, key, n, Taken(pointers, i), Flatten(pieces[..i]), pieces[i]);
      FlattenStep(pieces, i);
      if i + 1 == |pieces| {
        assert pieces[..i + 1] == pieces;
        assert content == Flatten(pieces)[..|content|];
      } else {
        ShortOfContent(pieces, content, i + 1);
        hide Covers;
        FileReads(d, header, key, slots, pieces, content, n - 1, i + 1);
      }
    }
  }

  lemma FlattenStep(pieces: seq<seq<byte>>, i: nat)
    requires i < |pieces|
    ensures Flatten(pieces[..i + 1]) == Flatten(pieces[..i]) + pieces[i]
  {
    hide Flatten;
    FlattenNext(pieces[..i], pieces[i]);
    assert pieces[..i] + [pieces[i]] == pieces[..i + 1];
  }

  lemma ShortOfContent(pieces: seq<seq<byte>>, content: seq<byte>, i: nat)
    requires i < |pieces| && |pieces| > 1 && |Flatten(pieces[..|pieces| - 1])| < |content|
    ensures |Flatten(pieces[..i])| < |content|
  {
    hide Flatten;
    assert pieces[..|pieces| - 1][..i] == pieces[..i];
    FlattenGrows(pieces[..|pieces| - 1], i);
  }

  /** What was read came from the pieces of a file. */
  lemma {:induction false} FileFound(d: Disk, header: seq<byte>, key: nat, slots: seq<nat>, n: nat, done: seq<seq<byte>>)
    returns (pieces: seq<seq<byte>>)
    requires Sized(d) && |header| == BLOCK && |slots| == 72 && TableIs(header, slots) && n <= 72
    requires var pointers := Pointers(slots, 72);
             && PiecesAt(d, key, pointers, done)
             && Pointers(slots, n) == pointers[|done|..]
             && (done != [] ==> |Flatten(done)| < FileSize(header))
             && X.FileFrom(d, header, key, n, Taken(pointers, |done|), Flatten(done)).Ok?
    ensures var pointers := Pointers(slots, 72);
            var content := X.FileFrom(d, header, key, n, Taken(pointers, |done|), Flatten(done)).value;
            PiecesAt(d, key, pointers, pieces) && Covers(pieces, content, pointers == []) && |content| == FileSize(header)
  {
    hide Slot, GoodDataBlock, Payload, Block, PieceAt, FileSize, Flatten, Taken, TableIs, Pointers;
    var pointers := Pointers(slots, 72);
    if n == 0 {
      NoPointer(d, header, key, slots, |done|, Taken(pointers, |done|), Flatten(done));
      return done;
    }
    NextPointer(header, slots, n, |done|);
    if slots[n - 1] == 0 {
      pieces := FileFound(d, header, key, slots, n - 1, done);
    } else {
      var i := |done|;
      PieceIff(d, key, pointers[i]);
      var more := done + [Payload(d, Block(d, pointers[i]), key)];
      OneMore(d, key, pointers, done, more[i]);
      PieceStep(d, header, key, n, Taken(pointers, i), Flatten(done), more[i]);
      FlattenNext(done, more[i]);
      hide X.FileFrom;
      if |Flatten(more)| >= FileSize(header) {
        pieces := more;
        assert pieces[..|pieces| - 1] == done;
      } else {
        pieces := FileFound(d, header, key, slots, n - 1, more);
      }
    }
  }

  lemma OneMore(d: Disk, key: nat, pointers: seq<nat>, done: seq<seq<byte>>, piece: seq<byte>)
    requires Sized(d) && PiecesAt(d, key, pointers, done) && |done| < |pointers|
    requires pointers[|done|] !in Taken(pointers, |done|) && PieceAt(d, key, pointers[|done|], piece)
    ensures PiecesAt(d, key, pointers, done + [piece])
    ensures Taken(pointers, |done| + 1) == Taken(pointers, |done|) + {pointers[|done|]}
  {
    hide PieceAt;
    assert forall j | 0 <= j < |done| :: pointers[j] in Taken(pointers, |done|);
  }

  // ----- headers -----

  /** A sealed header block: its type, hash table or pointer table, name and kind. */
  predicate HeaderAt(data: seq<byte>, key: nat, name: seq<byte>, slots: seq<nat>, kind: nat)
    requires |data| == IMAGE_SIZE
  {
    && 2 <= key < 1760 && |slots| == 72 && |name| <= 79
    && WordIs(data, 512 * key, 2)
    && (forall k | 0 <= k < 72 :: WordIs(data, 512 * key + 24 + 4 * k, slots[k]))
    && At(data, 512 * key + 432, [|name|] + name)
    && WordIs(data, 512 * key + 508, kind)
    && SealedAt(data, key)
  }

  /** One component of a path. */
  predicate PathName(name: seq<byte>) {
    name != [] && name != [0x2E] && name != [0x2E, 0x2E] && forall c | c in name :: c != 0x2F && c != 0x5C
  }

  lemma NameIff(d: Disk, key: nat, name: seq<byte>)
    requires Sized(d) && InImage(key) && |name| <= 79
    ensures At(d.data, 512 * key + 432, [|name|] + name)
       <==> HasCountedString(Block(d, key), 432) && CountedString(Block(d, key), 432) == name
  {
    var pos, counted := 512 * key + 432, [|name|] + name;
    var block := Block(d, key);
    if At(d.data, pos, counted) {
      assert d.data[pos + 0] == counted[0];
      forall i | 0 <= i < |name|
        ensures block[433..433 + |name|][i] == name[i]
      {
        assert d.data[pos + (1 + i)] == counted[1 + i];
      }
    }
    if HasCountedString(block, 432) && CountedString(block, 432) == name {
      forall i | 0 <= i < |counted|
        ensures d.data[pos + i] == counted[i]
      {
        assert i > 0 ==> CountedString(block, 432)[i - 1] == block[432 + i];
      }
    }
  }

  /** A header is read as it lies there. */
  lemma HeaderReads(d: Disk, key: nat, name: seq<byte>, slots: seq<nat>, kind: nat)
    requires Sized(d) && HeaderAt(d.data, key, name, slots, kind)
    ensures var block := Block(d, key);
            && IsHeader(block) && TableIs(block, slots) && Be32(block, 508) == kind
            && HasCountedString(block, 432) && CountedString(block, 432) == name
  {
    hide Be32, WordIs, ValidChecksum, Sealed, At, HasCountedString, CountedString;
    var block := Block(d, key);
    SealedIffValid(block);
    BlockWord(d, key, 0, 2);
    BlockWord(d, key, 508, kind);
    NameIff(d, key, name);
    forall k | 0 <= k < 72
      ensures Slot(block, k) == slots[k]
    {
      BlockWord(d, key, 24 + 4 * k, slots[k]);
    }
  }

  /** What is read as a header lies there. */
  lemma HeaderFound(d: Disk, key: nat)
    requires Sized(d) && InImage(key) && IsHeader(Block(d, key)) && HasCountedString(Block(d, key), 432)
    ensures var block := Block(d, key);
            HeaderAt(d.data, key, CountedString(block, 432), Table(block), Be32(block, 508)) && TableIs(block, Table(block))
  {
    hide Be32, WordIs, ValidChecksum, Sealed, At, Block;
    var block := Block(d, key);
    SealedIffValid(block);
    assert block == d.data[BLOCK * key..BLOCK * key + BLOCK] by { BlockSlice(d, key); }
    BlockWord(d, key, 0, 2);
    BlockWord(d, key, 508, Be32(block, 508));
    NameIff(d, key, CountedString(block, 432));
    forall k | 0 <= k < 72
      ensures WordIs(d.data, 512 * key + 24 + 4 * k, Table(block)[k])
    {
      BlockWord(d, key, 24 + 4 * k, Slot(block, k));
    }
  }

  lemma BlockSlice(d: Disk, key: nat)
    requires Sized(d) && InImage(key)
    ensures Block(d, key) == d.data[BLOCK * key..BLOCK * key + BLOCK]
  {
  }

  function Table(block: seq<byte>): seq<nat>
    requires |block| == BLOCK
  {
    seq(72, k requires 0 <= k < 72 => Slot(block, k))
  }
}
