/** A packer that uses the decoder's own offset and length split, and the proof that the decoder undoes it. */
module OvbaPacker {
  import opened Bytes
  import opened Ovba
  import opened Writing

  // ----- packing -----

  function TokenBytes(token: Token, position: nat): (r: seq<byte>)
    requires ValidToken(token, position)
    ensures |r| == if token.Copy? then 2 else 1
  {
    match token
    case Literal(b) => [b]
    case Copy(offset, length) =>
      CopyWordFits(token, position);
      var word := Join(offset - 1, length - 3, LengthBits(position));
      [word % 256, word / 256]
  }

  /** The token word fits 16 bits, and shifting and masking recover the offset and the length. */
  lemma CopyWordFits(token: Token, position: nat)
    requires token.Copy? && ValidToken(token, position)
    ensures position < 0x1_0000
    ensures var k := LengthBits(position);
            var word := Join(token.offset - 1, token.length - 3, k);
            word < 0x1_0000 && ShiftRight(word, k) == token.offset - 1 && LowBits(word, k) == token.length - 3
  {
    hide Join, LowBits, ShiftRight, Pow2, BitLength;
    Pow2Values();
    if position >= 0x1_0000 {
      BitLengthAtLeast(position, 16);
      assert false;
    }
    var k := LengthBits(position);
    BelowPow2OfBitLength(position);
    Pow2Monotone(BitLength(position), 16 - k);
    JoinSplits(token.offset - 1, token.length - 3, k);
    JoinFits(token.offset - 1, token.length - 3, k, 16);
  }

  /** The flag byte of a group: bit i says that token i is a copy. */
  function Flags(group: seq<Token>): nat {
    if group == [] then 0 else (if group[0].Copy? then 1 else 0) + 2 * Flags(group[1..])
  }

  lemma {:induction false} FlagsSelect(flags: nat, bit: nat, group: seq<Token>)
    requires ShiftRight(flags, bit) == Flags(group)
    ensures Selects(flags, bit, group)
    decreases |group|
  {
    if group != [] {
      ShiftOnce(flags, bit);
      assert Flags(group) / 2 == Flags(group[1..]);
      FlagsSelect(flags, bit + 1, group[1..]);
    }
  }

  lemma {:induction false} ShiftOnce(n: nat, k: nat)
    ensures ShiftRight(n, k + 1) == ShiftRight(n, k) / 2
    ensures Bit(n, k) == (ShiftRight(n, k) % 2 == 1)
  {
    if k > 0 {
      ShiftOnce(n / 2, k - 1);
    }
  }

  lemma {:induction false} FlagsFit(group: seq<Token>)
    ensures Flags(group) < Pow2(|group|)
  {
    if group != [] {
      FlagsFit(group[1..]);
    }
  }

  function GroupItems(group: seq<Token>, position: nat): (r: seq<byte>)
    requires ValidTokens(group, position)
    ensures |r| >= |group|
    decreases group
  {
    if group == [] then [] else
      TokenBytes(group[0], position) + GroupItems(group[1..], position + TokenLength(group[0]))
  }

  function TotalLength(tokens: seq<Token>): nat {
    if tokens == [] then 0 else TokenLength(tokens[0]) + TotalLength(tokens[1..])
  }

  lemma {:induction false} SplitTokens(tokens: seq<Token>, k: nat, position: nat)
    requires k <= |tokens| && ValidTokens(tokens, position)
    ensures ValidTokens(tokens[..k], position)
    ensures ValidTokens(tokens[k..], position + TotalLength(tokens[..k]))
    decreases k
  {
    if k > 0 {
      SplitTokens(tokens[1..], k - 1, position + TokenLength(tokens[0]));
      assert tokens[..k][1..] == tokens[1..][..k - 1];
      assert tokens[k..] == tokens[1..][k - 1..];
    } else {
      assert tokens[0..] == tokens;
    }
  }

  function GroupSize(tokens: seq<Token>): nat {
    if |tokens| < 8 then |tokens| else 8
  }

  lemma {:induction false} FlagsFitByte(group: seq<Token>)
    requires |group| <= 8
    ensures Flags(group) < 256
  {
    FlagsFit(group);
    Pow2Monotone(|group|, 8);
    assert Pow2(8) == 256;
  }

  /** Groups of eight tokens, each behind its flag byte. */
  function PackTokens(tokens: seq<Token>, position: nat): (r: seq<byte>)
    requires ValidTokens(tokens, position)
    ensures tokens != [] ==> |r| >= 2
    decreases |tokens|
  {
    if tokens == [] then [] else
      var k := GroupSize(tokens);
      SplitTokens(tokens, k, position);
      FlagsFitByte(tokens[..k]);
      [Flags(tokens[..k])]
      + (GroupItems(tokens[..k], position) + PackTokens(tokens[k..], position + TotalLength(tokens[..k])))
  }

  /** A chunk body holds 1 to 4096 bytes, which is what the 12-bit size field can say. */
  predicate ValidChunk(chunk: Chunk) {
    match chunk
    case Raw(bytes) => 1 <= |bytes| <= 4096
    case Packed(tokens) => ValidTokens(tokens, 0) && 1 <= |PackTokens(tokens, 0)| <= 4096
  }

  predicate ValidChunks(chunks: seq<Chunk>) {
    chunks == [] || (ValidChunk(chunks[0]) && ValidChunks(chunks[1..]))
  }

  function ChunkBody(chunk: Chunk): (r: seq<byte>)
    requires ValidChunk(chunk)
    ensures 1 <= |r| <= 4096
  {
    match chunk
    case Raw(bytes) => bytes
    case Packed(tokens) => PackTokens(tokens, 0)
  }

  function ChunkBytes(chunk: Chunk): (r: seq<byte>)
    requires ValidChunk(chunk)
    ensures 3 <= |r| <= 4098
  {
    var body := ChunkBody(chunk);
    var header := (if chunk.Packed? then 0x8000 else 0) + 0x3000 + (|body| - 1);
    [header % 256, header / 256] + body
  }

  function EncodeChunks(chunks: seq<Chunk>): seq<byte>
    requires ValidChunks(chunks)
  {
    if chunks == [] then [] else ChunkBytes(chunks[0]) + EncodeChunks(chunks[1..])
  }

  function Encode(chunks: seq<Chunk>): seq<byte>
    requires ValidChunks(chunks)
  {
    [1] + EncodeChunks(chunks)
  }

  /** The meaning of a container: its chunks' expansions, concatenated. */
  function Expand(output: seq<byte>, chunks: seq<Chunk>): (r: seq<byte>)
    requires ValidChunks(chunks)
    ensures |r| >= |output|
    decreases chunks
  {
    if chunks == [] then output else Expand(ApplyChunk(output, chunks[0]), chunks[1..])
  }

  // ----- decoding undoes packing -----

  lemma {:induction false} ItemRoundTrip(data: seq<byte>, cursor: nat, end: nat, token: Token, output: seq<byte>,
                                         start: nat, maximum: nat)
    requires cursor < end <= |data| && start <= |output| <= maximum && InBudget(|output| - start, end - cursor)
    requires ValidToken(token, |output| - start)
    requires At(data, cursor, TokenBytes(token, |output| - start))
    requires cursor + |TokenBytes(token, |output| - start)| <= end
    ensures DecodeItem(data, cursor, end, token.Copy?, output, start, maximum) ==
            var out := ApplyToken(output, start, token);
            if |out| <= maximum then Some(Step(cursor + |TokenBytes(token, |output| - start)|, out)) else None
  {
    hide LengthBits, Join, LowBits, ShiftRight;
    var bytes := TokenBytes(token, |output| - start);
    assert data[cursor + 0] == bytes[0];
    if token.Copy? {
      assert data[cursor + 1] == bytes[1];
      CopyWordFits(token, |output| - start);
      assert Le16(data, cursor) == Join(token.offset - 1, token.length - 3, LengthBits(|output| - start));
    }
  }

  /** Flag bits from `bit` on select exactly the copies among `rest`. */
  predicate Selects(flags: nat, bit: nat, rest: seq<Token>)
    decreases |rest|
  {
    rest == [] || (Bit(flags, bit) == rest[0].Copy? && Selects(flags, bit + 1, rest[1..]))
  }

  /** `rest` is what remains of the group at `cursor`, and it ends the chunk unless eight items were reached. */
  predicate GroupAt(data: seq<byte>, cursor: nat, end: nat, flags: byte, bit: nat, rest: seq<Token>, position: nat) {
    && cursor <= end <= |data| && InBudget(position, end - cursor)
    && bit + |rest| <= 8 && Selects(flags, bit, rest)
    && ValidTokens(rest, position)
    && At(data, cursor, GroupItems(rest, position))
    && var after := cursor + |GroupItems(rest, position)|;
       after <= end && (bit + |rest| < 8 ==> after == end)
  }

  /** Decoding the first item of `rest` leaves the remainder in place. */
  lemma {:induction false} FirstItem(data: seq<byte>, cursor: nat, end: nat, flags: byte, bit: nat, rest: seq<Token>,
                  output: seq<byte>, start: nat, maximum: nat)
    requires start <= |output| <= maximum && rest != []
    requires GroupAt(data, cursor, end, flags, bit, rest, |output| - start)
    ensures cursor < end
    ensures var more := ApplyToken(output, start, rest[0]);
            var next := cursor + |TokenBytes(rest[0], |output| - start)|;
            && DecodeItem(data, cursor, end, Bit(flags, bit), output, start, maximum)
               == (if |more| <= maximum then Some(Step(next, more)) else None)
            && (|more| <= maximum ==> GroupAt(data, next, end, flags, bit + 1, rest[1..], |more| - start))
  {
    var position := |output| - start;
    AtConcat(data, cursor, TokenBytes(rest[0], position), GroupItems(rest[1..], position + TokenLength(rest[0])));
    ItemRoundTrip(data, cursor, end, rest[0], output, start, maximum);
  }

  /** The items of one group decode to its remaining tokens `rest` applied in order. */
  lemma {:induction false} ItemsRoundTrip(data: seq<byte>, cursor: nat, end: nat, flags: byte, bit: nat, rest: seq<Token>,
                                          output: seq<byte>, start: nat, maximum: nat)
    requires start <= |output| <= maximum && GroupAt(data, cursor, end, flags, bit, rest, |output| - start)
    ensures DecodeItems(data, cursor, end, flags, bit, output, start, maximum) ==
            var out := ApplyTokens(output, start, rest);
            if |out| <= maximum then Some(Step(cursor + |GroupItems(rest, |output| - start)|, out)) else None
    decreases |rest|
  {
    hide At, Bit, DecodeItem, InBudget, LengthBits, TokenBytes, ValidToken;
    if rest != [] {
      FirstItem(data, cursor, end, flags, bit, rest, output, start, maximum);
      var more := ApplyToken(output, start, rest[0]);
      if |more| <= maximum {
        var next := cursor + |TokenBytes(rest[0], |output| - start)|;
        ItemsRoundTrip(data, next, end, flags, bit + 1, rest[1..], more, start, maximum);
      }
    }
  }

  lemma {:induction false} ApplyTokensSplit(output: seq<byte>, start: nat, tokens: seq<Token>, k: nat)
    requires start <= |output| && k <= |tokens| && ValidTokens(tokens, |output| - start)
    ensures ValidTokens(tokens[..k], |output| - start)
    ensures var mid := ApplyTokens(output, start, tokens[..k]);
            && |mid| == |output| + TotalLength(tokens[..k])
            && ValidTokens(tokens[k..], |mid| - start)
            && ApplyTokens(output, start, tokens) == ApplyTokens(mid, start, tokens[k..])
    decreases k
  {
    hide CopyRun, LengthBits, ValidToken, ApplyToken;
    if k == 0 {
      assert tokens[0..] == tokens;
    } else {
      var first, rest := tokens[0], tokens[1..];
      ApplyTokensSplit(ApplyToken(output, start, first), start, rest, k - 1);
      assert tokens[..k][0] == first && tokens[..k][1..] == rest[..k - 1];
      assert tokens[k..] == rest[k - 1..];
    }
  }

  /** `tokens` are packed at `cursor` and fill the chunk up to `end`. */
  predicate PackedAt(data: seq<byte>, cursor: nat, end: nat, tokens: seq<Token>, position: nat) {
    && cursor <= end <= |data| && InBudget(position, end - cursor)
    && ValidTokens(tokens, position)
    && At(data, cursor, PackTokens(tokens, position))
    && cursor + |PackTokens(tokens, position)| == end
  }

  /** Where the first group's flag byte, its items and the remaining groups lie. */
  lemma {:induction false} FirstGroupAt(data: seq<byte>, cursor: nat, end: nat, tokens: seq<Token>, position: nat)
    requires tokens != [] && PackedAt(data, cursor, end, tokens, position)
    ensures cursor < end
    ensures var group := tokens[..GroupSize(tokens)];
            && data[cursor] == Flags(group)
            && GroupAt(data, cursor + 1, end, data[cursor], 0, group, position)
            && ValidTokens(tokens[GroupSize(tokens)..], position + TotalLength(group))
            && At(data, cursor + 1 + |GroupItems(group, position)|,
                  PackTokens(tokens[GroupSize(tokens)..], position + TotalLength(group)))
            && cursor + 1 + |GroupItems(group, position)|
               + |PackTokens(tokens[GroupSize(tokens)..], position + TotalLength(group))| == end
  {
    hide Bit, GroupItems, LengthBits, TotalLength, ValidToken;
    var k := GroupSize(tokens);
    var group := tokens[..k];
    SplitTokens(tokens, k, position);
    FlagsFitByte(group);
    var items := GroupItems(group, position);
    var rest := PackTokens(tokens[k..], position + TotalLength(group));
    AtConcat(data, cursor, [Flags(group)], items + rest);
    AtConcat(data, cursor + 1, items, rest);
    assert data[cursor + 0] == [Flags(group)][0];
    FlagsSelect(Flags(group), 0, group);
  }

  lemma {:induction false} GroupsRoundTrip(data: seq<byte>, cursor: nat, end: nat, tokens: seq<Token>,
                                           output: seq<byte>, start: nat, maximum: nat)
    requires start <= |output| <= maximum && PackedAt(data, cursor, end, tokens, |output| - start)
    ensures DecodeGroups(data, cursor, end, output, start, maximum) ==
            var out := ApplyTokens(output, start, tokens);
            if |out| <= maximum then Some(out) else None
    decreases |tokens|
  {
    hide At, Bit, DecodeItems, LengthBits, TokenBytes, ValidToken, GroupItems, TotalLength, InBudget, GroupAt, ValidTokens;
    if tokens != [] {
      var k := GroupSize(tokens);
      FirstGroupAt(data, cursor, end, tokens, |output| - start);
      ApplyTokensSplit(output, start, tokens, k);
      ItemsRoundTrip(data, cursor + 1, end, data[cursor], 0, tokens[..k], output, start, maximum);
      var mid := ApplyTokens(output, start, tokens[..k]);
      if |mid| <= maximum {
        var next := cursor + 1 + |GroupItems(tokens[..k], |output| - start)|;
        GroupsRoundTrip(data, next, end, tokens[k..], mid, start, maximum);
      }
    }
  }

  /** Where a chunk's header, its body and the chunks after it lie. */
  lemma {:induction false} FirstChunkAt(data: seq<byte>, cursor: nat, chunk: Chunk, rest: seq<byte>)
    requires ValidChunk(chunk) && At(data, cursor, ChunkBytes(chunk) + rest)
    ensures var end := cursor + 2 + |ChunkBody(chunk)|;
            && ChunkFits(data, cursor)
            && end == ChunkEnd(data, cursor)
            && (Le16(data, cursor) >= 0x8000 <==> chunk.Packed?)
            && At(data, cursor + 2, ChunkBody(chunk))
            && At(data, end, rest)
  {
    var body := ChunkBody(chunk);
    var header := (if chunk.Packed? then 0x8000 else 0) + 0x3000 + (|body| - 1);
    var word: seq<byte> := [header % 256, header / 256];
    AtConcat(data, cursor, word + body, rest);
    AtConcat(data, cursor, word, body);
    assert data[cursor + 0] == word[0] && data[cursor + 1] == word[1];
    assert Le16(data, cursor) == header;
  }

  lemma {:induction false} ChunkRoundTrip(data: seq<byte>, cursor: nat, chunk: Chunk, output: seq<byte>, maximum: nat)
    requires ValidChunk(chunk) && |output| <= maximum && ChunkFits(data, cursor)
    requires Le16(data, cursor) >= 0x8000 <==> chunk.Packed?
    requires ChunkEnd(data, cursor) == cursor + 2 + |ChunkBody(chunk)| && At(data, cursor + 2, ChunkBody(chunk))
    ensures DecodeChunk(data, cursor, output, maximum) ==
            var out := ApplyChunk(output, chunk);
            if |out| <= maximum then Some(out) else None
  {
    var end := ChunkEnd(data, cursor);
    match chunk
    case Packed(tokens) => GroupsRoundTrip(data, cursor + 2, end, tokens, output, |output|, maximum);
    case Raw(bytes) => assert data[cursor + 2..end] == bytes;
  }

  lemma {:induction false} ChunksRoundTrip(data: seq<byte>, cursor: nat, chunks: seq<Chunk>, output: seq<byte>, maximum: nat)
    requires ValidChunks(chunks) && |output| <= maximum
    requires At(data, cursor, EncodeChunks(chunks)) && cursor + |EncodeChunks(chunks)| == |data|
    ensures DecodeChunks(data, cursor, output, maximum) ==
            var out := Expand(output, chunks);
            if |out| <= maximum then Some(out) else None
    decreases |chunks|
  {
    if chunks != [] {
      FirstChunkAt(data, cursor, chunks[0], EncodeChunks(chunks[1..]));
      ChunkRoundTrip(data, cursor, chunks[0], output, maximum);
      var more := ApplyChunk(output, chunks[0]);
      assert Expand(output, chunks) == Expand(more, chunks[1..]);
      if |more| <= maximum {
        assert DecodeChunks(data, cursor, output, maximum) == DecodeChunks(data, ChunkEnd(data, cursor), more, maximum);
        ChunksRoundTrip(data, ChunkEnd(data, cursor), chunks[1..], more, maximum);
      }
    }
  }

  /** Decoding a packed container yields its chunks' expansion exactly when that fits `maximum`. */
  lemma {:induction false} RoundTrip(chunks: seq<Chunk>, maximum: nat)
    requires ValidChunks(chunks)
    ensures DecodeContainer(Encode(chunks), maximum) ==
            if |Expand([], chunks)| <= maximum then Some(Expand([], chunks)) else None
  {
    var data := Encode(chunks);
    assert data[1..1 + |EncodeChunks(chunks)|] == EncodeChunks(chunks);
    ChunksRoundTrip(data, 1, chunks, [], maximum);
  }

  lemma {:induction false} ChunkStandsAlone(output: seq<byte>, chunk: Chunk)
    requires ValidChunk(chunk)
    ensures ApplyChunk(output, chunk) == output + ApplyChunk([], chunk)
  {
    match chunk
    case Packed(tokens) =>
      assert output + [] == output;
      TokensStayInChunk(output, [], tokens);
    case Raw(bytes) =>
      assert [] + bytes == bytes;
  }

  /** `Expand` is a concatenation: each chunk contributes what it expands to on its own. */
  lemma {:induction false} ExpandConcatenates(output: seq<byte>, chunks: seq<Chunk>)
    requires ValidChunks(chunks)
    ensures Expand(output, chunks) == output + Expand([], chunks)
    decreases |chunks|
  {
    if chunks != [] {
      var own, rest := ApplyChunk([], chunks[0]), chunks[1..];
      calc {
        Expand(output, chunks);
        { ChunkStandsAlone(output, chunks[0]); }
        Expand(output + own, rest);
        { ExpandConcatenates(output + own, rest); }
        output + own + Expand([], rest);
        output + (own + Expand([], rest));
        { ExpandConcatenates(own, rest); }
        output + Expand(own, rest);
      }
    }
  }
}
