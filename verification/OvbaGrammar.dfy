/** The containers the decoder accepts: decoding succeeds exactly on the byte strings that spell chunks, and gives their meaning. */
module OvbaGrammar {
  import opened Bytes
  import opened Ovba
  import opened OvbaPacker
  import opened Writing

  /** The groups of a chunk body; only the last may hold fewer than eight tokens, and that one may be a flag byte alone. */
  datatype Groups = Done | Group(tokens: seq<Token>, rest: Groups)

  predicate ValidGroups(groups: Groups, position: nat) {
    groups.Group? ==> ValidTokens(groups.tokens, position) && ValidGroups(groups.rest, position + TotalLength(groups.tokens))
  }

  lemma AppliedLength(output: seq<byte>, start: nat, tokens: seq<Token>)
    requires start <= |output| && ValidTokens(tokens, |output| - start)
    ensures |ApplyTokens(output, start, tokens)| == |output| + TotalLength(tokens)
  {
    hide ApplyTokens, ValidTokens, TotalLength;
    ApplyTokensSplit(output, start, tokens, |tokens|);
    assert tokens[..|tokens|] == tokens;
  }

  function ApplyGroups(output: seq<byte>, start: nat, groups: Groups): (r: seq<byte>)
    requires start <= |output| && ValidGroups(groups, |output| - start)
    ensures |r| >= |output|
    decreases groups
  {
    match groups
    case Done => output
    case Group(tokens, rest) =>
      AppliedLength(output, start, tokens);
      ApplyGroups(ApplyTokens(output, start, tokens), start, rest)
  }

  /** The bytes from `cursor` to `end` spell the groups: a flag byte, then an item for each token, up to eight. */
  predicate GroupsAt(data: seq<byte>, cursor: nat, end: nat, groups: Groups, position: nat)
    decreases groups
  {
    match groups
    case Done => cursor == end
    case Group(tokens, rest) =>
      && cursor < end <= |data| && GroupAt(data, cursor + 1, end, data[cursor], 0, tokens, position)
      && GroupsAt(data, cursor + 1 + |GroupItems(tokens, position)|, end, rest, position + TotalLength(tokens))
  }

  lemma {:induction false} GroupsAreValid(data: seq<byte>, cursor: nat, end: nat, groups: Groups, position: nat)
    requires GroupsAt(data, cursor, end, groups, position)
    ensures ValidGroups(groups, position) && cursor <= end
    decreases groups
  {
    hide ValidTokens, At, Selects, InBudget, TotalLength;
    if groups.Group? {
      GroupsAreValid(data, cursor + 1 + |GroupItems(groups.tokens, position)|, end, groups.rest, position + TotalLength(groups.tokens));
    }
  }

  lemma {:induction false} GroupsDecode(data: seq<byte>, cursor: nat, end: nat, groups: Groups, output: seq<byte>,
                                        start: nat, maximum: nat)
    requires cursor <= end <= |data| && start <= |output| <= maximum && InBudget(|output| - start, end - cursor)
    requires GroupsAt(data, cursor, end, groups, |output| - start)
    ensures ValidGroups(groups, |output| - start)
    ensures DecodeGroups(data, cursor, end, output, start, maximum) ==
            var out := ApplyGroups(output, start, groups);
            if |out| <= maximum then Some(out) else None
    decreases groups
  {
    hide At, Bit, DecodeItems, GroupItems, TotalLength, InBudget, ValidTokens, GroupAt, ApplyTokens;
    GroupsAreValid(data, cursor, end, groups, |output| - start);
    if groups.Group? {
      var tokens := groups.tokens;
      AppliedLength(output, start, tokens);
      GroupIsAt(data, cursor + 1, end, data[cursor], 0, tokens, |output| - start);
      ItemsRoundTrip(data, cursor + 1, end, data[cursor], 0, tokens, output, start, maximum);
      var mid := ApplyTokens(output, start, tokens);
      if |mid| <= maximum {
        GroupsDecode(data, cursor + 1 + |GroupItems(tokens, |output| - start)|, end, groups.rest, mid, start, maximum);
      }
    }
  }

  lemma GroupIsAt(data: seq<byte>, cursor: nat, end: nat, flags: byte, bit: nat, rest: seq<Token>, position: nat)
    requires GroupAt(data, cursor, end, flags, bit, rest, position)
    ensures ValidTokens(rest, position) && cursor + |GroupItems(rest, position)| <= end <= |data|
  {
  }

  // ----- what was decoded spells chunks -----

  lemma {:induction false} JoinBack(n: nat, k: nat)
    ensures Join(ShiftRight(n, k), LowBits(n, k), k) == n
  {
    if k > 0 {
      JoinBack(n / 2, k - 1);
      var low := LowBits(n, k);
      assert low % 2 == n % 2 && low / 2 == LowBits(n / 2, k - 1);
    }
  }

  /** An item that was decoded is a token's bytes. */
  lemma ItemFound(data: seq<byte>, cursor: nat, end: nat, isCopy: bool, output: seq<byte>, start: nat,
                  maximum: nat) returns (token: Token)
    requires cursor < end <= |data| && start <= |output| <= maximum && InBudget(|output| - start, end - cursor)
    requires DecodeItem(data, cursor, end, isCopy, output, start, maximum).Some?
    ensures token.Copy? == isCopy && ValidToken(token, |output| - start)
    ensures At(data, cursor, TokenBytes(token, |output| - start)) && cursor + |TokenBytes(token, |output| - start)| <= end
  {
    hide LengthBits, Join, LowBits, ShiftRight, Pow2;
    if isCopy {
      var word, k := Le16(data, cursor), LengthBits(|output| - start);
      LengthBitsBounds(|output| - start);
      JoinBack(word, k);
      token := Copy(ShiftRight(word, k) + 1, LowBits(word, k) + 3);
      var bytes := TokenBytes(token, |output| - start);
      assert bytes == [word % 256, word / 256];
      assert data[cursor] == word % 256 && data[cursor + 1] == word / 256;
      assert forall i | 0 <= i < 2 :: data[cursor + i] == bytes[i];
    } else {
      token := Literal(data[cursor]);
    }
  }

  /** A group that was decoded is spelled by its flag bits and items. */
  lemma {:induction false} ItemsFound(data: seq<byte>, cursor: nat, end: nat, flags: byte, bit: nat,
                                      output: seq<byte>, start: nat, maximum: nat) returns (tokens: seq<Token>)
    requires cursor <= end <= |data| && bit <= 8 && start <= |output| <= maximum && InBudget(|output| - start, end - cursor)
    requires DecodeItems(data, cursor, end, flags, bit, output, start, maximum).Some?
    ensures GroupAt(data, cursor, end, flags, bit, tokens, |output| - start)
    decreases 8 - bit
  {
    hide At, Bit, LengthBits, TokenBytes, ValidToken, DecodeItem;
    if bit == 8 || cursor == end {
      assert At(data, cursor, []) by { NothingAt(data, cursor); }
      return [];
    }
    var token := ItemFound(data, cursor, end, Bit(flags, bit), output, start, maximum);
    var position := |output| - start;
    ItemRoundTrip(data, cursor, end, token, output, start, maximum);
    var more := ApplyToken(output, start, token);
    var size := |TokenBytes(token, position)|;
    var rest := ItemsFound(data, cursor + size, end, flags, bit + 1, more, start, maximum);
    tokens := [token] + rest;
    hide InBudget, GroupAt, ApplyToken;
    OneBefore(data, cursor, end, flags, bit, token, rest, position);
  }

  /** An item in front of a group's others. */
  lemma OneBefore(data: seq<byte>, cursor: nat, end: nat, flags: byte, bit: nat, token: Token, rest: seq<Token>, position: nat)
    requires ValidToken(token, position) && token.Copy? == Bit(flags, bit) && At(data, cursor, TokenBytes(token, position))
    requires cursor <= end && InBudget(position, end - cursor)
    requires GroupAt(data, cursor + |TokenBytes(token, position)|, end, flags, bit + 1, rest, position + TokenLength(token))
    ensures GroupAt(data, cursor, end, flags, bit, [token] + rest, position)
  {
    hide At, Bit, LengthBits, TokenBytes, ValidToken, InBudget;
    var tokens := [token] + rest;
    assert tokens[1..] == rest;
    AtJoin(data, cursor, TokenBytes(token, position), GroupItems(rest, position + TokenLength(token)));
  }

  lemma NothingAt(data: seq<byte>, cursor: nat)
    requires cursor <= |data|
    ensures At(data, cursor, [])
  {
  }

  lemma {:induction false} GroupsFound(data: seq<byte>, cursor: nat, end: nat, output: seq<byte>, start: nat,
                                       maximum: nat) returns (groups: Groups)
    requires cursor <= end <= |data| && start <= |output| <= maximum && InBudget(|output| - start, end - cursor)
    requires DecodeGroups(data, cursor, end, output, start, maximum).Some?
    ensures GroupsAt(data, cursor, end, groups, |output| - start)
    decreases end - cursor
  {
    hide At, Bit, DecodeItems, GroupItems, TotalLength, InBudget, ValidTokens, GroupAt, ApplyTokens;
    if cursor == end {
      return Done;
    }
    var position := |output| - start;
    var tokens := ItemsFound(data, cursor + 1, end, data[cursor], 0, output, start, maximum) by { OneRead(position, end - cursor); }
    GroupIsAt(data, cursor + 1, end, data[cursor], 0, tokens, position);
    AppliedLength(output, start, tokens);
    ItemsRoundTrip(data, cursor + 1, end, data[cursor], 0, tokens, output, start, maximum);
    var rest := GroupsFound(data, cursor + 1 + |GroupItems(tokens, position)|, end, ApplyTokens(output, start, tokens), start, maximum);
    groups := Group(tokens, rest);
  }

  lemma OneRead(position: nat, unread: nat)
    requires InBudget(position, unread) && unread > 0
    ensures InBudget(position, unread - 1)
  {
  }

  // ----- chunks -----

  datatype Piece = Plain(bytes: seq<byte>) | Grouped(groups: Groups)

  /** A chunk from `cursor` to `end`: signature 011, its size less three, and one flag bit in its header; then its body. */
  predicate PieceAt(data: seq<byte>, cursor: nat, end: nat, piece: Piece) {
    && cursor + 3 <= end <= cursor + 4098 && end <= |data|
    && At(data, cursor, Little((if piece.Grouped? then 0x8000 else 0) + 0x3000 + (end - cursor - 3), 2))
    && match piece
       case Plain(bytes) => end == cursor + 2 + |bytes| && At(data, cursor + 2, bytes)
       case Grouped(groups) => GroupsAt(data, cursor + 2, end, groups, 0)
  }

  datatype Pieces = Last | More(piece: Piece, end: nat, rest: Pieces)

  predicate PiecesAt(data: seq<byte>, cursor: nat, pieces: Pieces)
    decreases pieces
  {
    match pieces
    case Last => cursor == |data|
    case More(piece, end, rest) => PieceAt(data, cursor, end, piece) && PiecesAt(data, end, rest)
  }

  predicate ValidPiece(piece: Piece) {
    piece.Grouped? ==> ValidGroups(piece.groups, 0)
  }

  predicate ValidPieces(pieces: Pieces) {
    pieces.More? ==> ValidPiece(pieces.piece) && ValidPieces(pieces.rest)
  }

  /** What a chunk expands to, on its own. */
  function PieceMeaning(piece: Piece): seq<byte>
    requires ValidPiece(piece)
  {
    match piece
    case Plain(bytes) => bytes
    case Grouped(groups) => ApplyGroups([], 0, groups)
  }

  /** The chunks' expansions, concatenated. */
  function Meaning(pieces: Pieces): seq<byte>
    requires ValidPieces(pieces)
  {
    if pieces.Last? then [] else PieceMeaning(pieces.piece) + Meaning(pieces.rest)
  }

  lemma {:induction false} GroupsStandAlone(before: seq<byte>, output: seq<byte>, groups: Groups)
    requires ValidGroups(groups, |output|)
    ensures ApplyGroups(before + output, |before|, groups) == before + ApplyGroups(output, 0, groups)
    decreases groups
  {
    hide ValidTokens, TotalLength, ApplyTokens;
    if groups.Group? {
      AppliedLength(output, 0, groups.tokens);
      TokensStayInChunk(before, output, groups.tokens);
      GroupsStandAlone(before, ApplyTokens(output, 0, groups.tokens), groups.rest);
    }
  }

  lemma HeaderBits(word: nat, size: nat, packed: bool)
    requires word < 0x1_0000 && size < 0x1000
    ensures word == (if packed then 0x8000 else 0) + 0x3000 + size
       <==> word / 0x1000 % 8 == 3 && word % 0x1000 == size && (word >= 0x8000 <==> packed)
  {
  }

  lemma HeaderIff(data: seq<byte>, cursor: nat, end: nat, packed: bool)
    requires cursor + 3 <= end <= cursor + 4098 && end <= |data|
    ensures At(data, cursor, Little((if packed then 0x8000 else 0) + 0x3000 + (end - cursor - 3), 2))
       <==> ChunkFits(data, cursor) && ChunkEnd(data, cursor) == end && (Le16(data, cursor) >= 0x8000 <==> packed)
  {
    hide Little, Le16;
    HeaderBits(Le16(data, cursor), end - cursor - 3, packed);
    LittleIff(data, cursor, (if packed then 0x8000 else 0) + 0x3000 + (end - cursor - 3));
  }

  /** One chunk decodes to its expansion behind what is out. */
  lemma PieceDecodes(data: seq<byte>, cursor: nat, end: nat, piece: Piece, output: seq<byte>, maximum: nat)
    requires PieceAt(data, cursor, end, piece) && |output| <= maximum
    ensures ValidPiece(piece) && ChunkFits(data, cursor) && ChunkEnd(data, cursor) == end
    ensures DecodeChunk(data, cursor, output, maximum) ==
            var out := output + PieceMeaning(piece);
            if |out| <= maximum then Some(out) else None
  {
    hide Little, Le16, DecodeGroups, ApplyGroups;
    HeaderIff(data, cursor, end, piece.Grouped?);
    match piece
    case Plain(bytes) => AtSlice(data, cursor + 2, bytes);
    case Grouped(groups) =>
      GroupsDecode(data, cursor + 2, end, groups, output, |output|, maximum);
      GroupsStandAlone(output, [], groups);
      assert output + [] == output;
  }

  lemma PieceFound(data: seq<byte>, cursor: nat, output: seq<byte>, maximum: nat) returns (piece: Piece)
    requires ChunkFits(data, cursor) && |output| <= maximum && DecodeChunk(data, cursor, output, maximum).Some?
    ensures PieceAt(data, cursor, ChunkEnd(data, cursor), piece)
  {
    hide Little, Le16, DecodeGroups, GroupsAt;
    var end := ChunkEnd(data, cursor);
    HeaderIff(data, cursor, end, Le16(data, cursor) >= 0x8000);
    if Le16(data, cursor) >= 0x8000 {
      var groups := GroupsFound(data, cursor + 2, end, output, |output|, maximum);
      piece := Grouped(groups);
    } else {
      piece := Plain(data[cursor + 2..end]);
    }
  }

  lemma {:induction false} PiecesDecode(data: seq<byte>, cursor: nat, pieces: Pieces, output: seq<byte>, maximum: nat)
    requires cursor <= |data| && PiecesAt(data, cursor, pieces) && |output| <= maximum
    ensures ValidPieces(pieces)
    ensures DecodeChunks(data, cursor, output, maximum) ==
            var out := output + Meaning(pieces);
            if |out| <= maximum then Some(out) else None
    decreases pieces
  {
    hide PieceAt, ChunkFits, ChunkEnd, DecodeChunk, PieceMeaning, ValidPiece;
    if pieces.More? {
      PieceInside(data, cursor, pieces.end, pieces.piece);
      PieceDecodes(data, cursor, pieces.end, pieces.piece, output, maximum);
      var more := output + PieceMeaning(pieces.piece);
      PiecesDecode(data, pieces.end, pieces.rest, if |more| <= maximum then more else [], maximum);
      assert output + Meaning(pieces) == more + Meaning(pieces.rest);
    } else {
      assert output + [] == output;
    }
  }

  lemma PieceInside(data: seq<byte>, cursor: nat, end: nat, piece: Piece)
    requires PieceAt(data, cursor, end, piece)
    ensures cursor < end <= |data|
  {
  }

  lemma {:induction false} PiecesFound(data: seq<byte>, cursor: nat, output: seq<byte>, maximum: nat) returns (pieces: Pieces)
    requires cursor <= |data| && |output| <= maximum && DecodeChunks(data, cursor, output, maximum).Some?
    ensures PiecesAt(data, cursor, pieces)
    decreases |data| - cursor
  {
    hide PieceAt, DecodeChunk, Le16;
    if cursor == |data| {
      return Last;
    }
    var end := ChunkEnd(data, cursor);
    var piece := PieceFound(data, cursor, output, maximum);
    PieceInside(data, cursor, end, piece);
    var rest := PiecesFound(data, end, DecodeChunk(data, cursor, output, maximum).value, maximum);
    pieces := More(piece, end, rest);
  }

  /**
   Decoding succeeds with `out` exactly when the container is a byte 1 and chunks whose concatenated expansions are
   `out`, of at most `maximum` bytes.
   */
  lemma DecodeIff(data: seq<byte>, maximum: nat, out: seq<byte>)
    ensures DecodeContainer(data, maximum) == Some(out)
       <==> && data != [] && data[0] == 1 && |out| <= maximum
            && exists pieces :: PiecesAt(data, 1, pieces) && ValidPieces(pieces) && out == Meaning(pieces)
  {
    hide DecodeChunks, PiecesAt, ValidPieces, Meaning;
    if data != [] && data[0] == 1 {
      forall pieces | PiecesAt(data, 1, pieces)
        ensures ValidPieces(pieces)
        ensures DecodeContainer(data, maximum) == if |Meaning(pieces)| <= maximum then Some(Meaning(pieces)) else None
      {
        PiecesDecode(data, 1, pieces, [], maximum);
        assert [] + Meaning(pieces) == Meaning(pieces);
      }
      if DecodeContainer(data, maximum).Some? {
        var pieces := PiecesFound(data, 1, [], maximum);
      }
    }
  }
}
