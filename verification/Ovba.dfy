/**
 The MS-OVBA container decoder: a bit-packed LZ77 whose offset/length split depends on how much of
 the current chunk has been written.  `DecompressVba` is the decoder's nested loop; `DecodeContainer` specifies it.
 */
module Ovba {
  import opened Bytes

  // ----- bit arithmetic -----

  function BitLength(n: nat): nat {
    if n == 0 then 0 else 1 + BitLength(n / 2)
  }

  predicate Bit(n: nat, i: nat) {
    if i == 0 then n % 2 == 1 else Bit(n / 2, i - 1)
  }

  /** `16 - max(4, bit_length(max(1, position)))`: negative only from position 65536 on. */
  function LengthBits(position: nat): int {
    16 - Max(4, BitLength(Max(1, position)))
  }

  lemma {:induction false} BitLengthBounds(n: nat, k: nat)
    requires n < Pow2(k)
    ensures BitLength(n) <= k
  {
    if n > 0 {
      BitLengthBounds(n / 2, k - 1);
    }
  }

  lemma {:induction false} BitLengthAtLeast(n: nat, k: nat)
    requires n >= Pow2(k)
    ensures BitLength(n) >= k + 1
  {
    if k > 0 {
      BitLengthAtLeast(n / 2, k - 1);
    }
  }

  lemma {:induction false} BelowPow2OfBitLength(n: nat)
    ensures n < Pow2(BitLength(n))
  {
    if n > 0 {
      BelowPow2OfBitLength(n / 2);
    }
  }

  lemma Pow2Values()
    ensures Pow2(3) == 8 && Pow2(4) == 16 && Pow2(12) == 4096 && Pow2(16) == 65536
  {
    assert Pow2(4) == 16;
    assert Pow2(8) == 256;
    assert Pow2(12) == 4096;
    assert Pow2(16) == 65536;
  }

  lemma {:induction false} Pow2Monotone(a: nat, b: nat)
    requires a <= b
    ensures Pow2(a) <= Pow2(b)
  {
    if a < b {
      Pow2Monotone(a, b - 1);
    }
  }

  /** Below 65536 the shift count is never negative, and once 4096 bytes are out a copy adds at most 10. */
  lemma LengthBitsBounds(position: nat)
    requires position < 0x1_0000
    ensures 0 <= LengthBits(position) <= 12
    ensures Pow2(LengthBits(position)) <= 4096
    ensures position >= 4096 ==> Pow2(LengthBits(position)) <= 8
  {
    Pow2Values();
    BitLengthBounds(Max(1, position), 16);
    Pow2Monotone(LengthBits(position), 12);
    if position >= 4096 {
      BitLengthAtLeast(position, 12);
      Pow2Monotone(LengthBits(position), 3);
    }
  }

  /** `n >> k`. */
  function ShiftRight(n: nat, k: nat): nat {
    if k == 0 then n else ShiftRight(n / 2, k - 1)
  }

  /** `n & ((1 << k) - 1)`. */
  function LowBits(n: nat, k: nat): (r: nat)
    ensures r < Pow2(k)
  {
    if k == 0 then 0 else n % 2 + 2 * LowBits(n / 2, k - 1)
  }

  /** The number whose low `k` bits are `low` and whose remaining bits are `high`. */
  function Join(high: nat, low: nat, k: nat): nat {
    if k == 0 then high else low % 2 + 2 * Join(high, low / 2, k - 1)
  }

  lemma {:induction false} JoinSplits(high: nat, low: nat, k: nat)
    requires low < Pow2(k)
    ensures ShiftRight(Join(high, low, k), k) == high && LowBits(Join(high, low, k), k) == low
  {
    if k > 0 {
      JoinSplits(high, low / 2, k - 1);
      var word := Join(high, low, k);
      assert word / 2 == Join(high, low / 2, k - 1) && word % 2 == low % 2;
    }
  }

  lemma {:induction false} JoinFits(high: nat, low: nat, k: nat, bits: nat)
    requires k <= bits && high < Pow2(bits - k)
    ensures Join(high, low, k) < Pow2(bits)
  {
    if k > 0 {
      JoinFits(high, low / 2, k - 1, bits - 1);
    }
  }

  /** The copy-token bit count of [MS-OVBA] section 2.4.1.3.19.1: the least count of at least 4 that covers `position`. */
  predicate IsSpecifiedBitCount(position: nat, count: nat) {
    count >= 4 && position <= Pow2(count) && (count > 4 ==> position > Pow2(count - 1))
  }

  /** The decoder's split follows the specification except at powers of two from 16 on, where it takes one bit more. */
  lemma BitCountAgainstSpecification(position: nat, count: nat)
    requires position >= 1 && IsSpecifiedBitCount(position, count)
    ensures 16 - LengthBits(position) == count <==> !(position >= 16 && position == Pow2(count))
    ensures 16 - LengthBits(position) == count || 16 - LengthBits(position) == count + 1
  {
    var length := BitLength(position);
    Pow2Values();
    BelowPow2OfBitLength(position);
    if position < Pow2(count) {
      BitLengthBounds(position, count);
      if count > 4 {
        BitLengthAtLeast(position, count - 1);
      }
    } else {
      Pow2Monotone(4, count);
      BitLengthAtLeast(position, count);
      BitLengthBounds(position, count + 1);
    }
  }

  // ----- what a token means -----

  datatype Token = Literal(b: byte) | Copy(offset: nat, length: nat)

  /** Appends `n` bytes one at a time, each the byte `offset` places back. */
  function CopyRun(output: seq<byte>, offset: nat, n: nat): (r: seq<byte>)
    requires 1 <= offset <= |output|
    ensures |r| == |output| + n
    decreases n
  {
    if n == 0 then output else CopyRun(output + [output[|output| - offset]], offset, n - 1)
  }

  /** An overlapping copy is a periodic extension: every appended byte repeats the one `offset` before it. */
  lemma {:induction false} CopyIsPeriodic(output: seq<byte>, offset: nat, n: nat)
    requires 1 <= offset <= |output|
    ensures CopyRun(output, offset, n)[..|output|] == output
    ensures forall j :: |output| <= j < |output| + n ==> CopyRun(output, offset, n)[j] == CopyRun(output, offset, n)[j - offset]
    decreases n
  {
    if n > 0 {
      var next := output + [output[|output| - offset]];
      var run := CopyRun(next, offset, n - 1);
      CopyIsPeriodic(next, offset, n - 1);
      assert run[..|output|] == run[..|next|][..|output|];
      assert run[|output|] == run[..|next|][|output|];
      assert run[|output| - offset] == run[..|output|][|output| - offset];
    }
  }

  /** A copy token is expressible at `position` when the split has room for it and it stays in the chunk. */
  predicate ValidToken(token: Token, position: nat) {
    match token
    case Literal(_) => true
    case Copy(offset, length) =>
      && LengthBits(position) >= 0
      && 1 <= offset <= position
      && 3 <= length <= Pow2(LengthBits(position)) + 2
  }

  function TokenLength(token: Token): nat {
    match token
    case Literal(_) => 1
    case Copy(_, length) => length
  }

  predicate ValidTokens(tokens: seq<Token>, position: nat) {
    tokens == [] ||
    (ValidToken(tokens[0], position) && ValidTokens(tokens[1..], position + TokenLength(tokens[0])))
  }

  /** The output after one token; `start` is where the chunk begins in `output`. */
  function ApplyToken(output: seq<byte>, start: nat, token: Token): (r: seq<byte>)
    requires start <= |output| && ValidToken(token, |output| - start)
    ensures |r| == |output| + TokenLength(token)
  {
    match token
    case Literal(b) => output + [b]
    case Copy(offset, length) => CopyRun(output, offset, length)
  }

  function ApplyTokens(output: seq<byte>, start: nat, tokens: seq<Token>): (r: seq<byte>)
    requires start <= |output| && ValidTokens(tokens, |output| - start)
    ensures |r| >= |output|
    decreases tokens
  {
    if tokens == [] then output else ApplyTokens(ApplyToken(output, start, tokens[0]), start, tokens[1..])
  }

  datatype Chunk = Raw(bytes: seq<byte>) | Packed(tokens: seq<Token>)

  function ApplyChunk(output: seq<byte>, chunk: Chunk): (r: seq<byte>)
    requires chunk.Packed? ==> ValidTokens(chunk.tokens, 0)
    ensures |r| >= |output|
  {
    match chunk
    case Raw(bytes) => output + bytes
    case Packed(tokens) => ApplyTokens(output, |output|, tokens)
  }

  /** Tokens never reach back before their chunk: what precedes the chunk does not change their effect. */
  lemma {:induction false} TokensStayInChunk(before: seq<byte>, output: seq<byte>, tokens: seq<Token>)
    requires ValidTokens(tokens, |output|)
    ensures ApplyTokens(before + output, |before|, tokens) == before + ApplyTokens(output, 0, tokens)
    decreases tokens
  {
    if tokens != [] {
      var next := ApplyToken(output, 0, tokens[0]);
      assert ApplyToken(before + output, |before|, tokens[0]) == before + next by {
        if tokens[0].Copy? {
          CopyStaysInChunk(before, output, tokens[0].offset, tokens[0].length);
        } else {
          assert before + output + [tokens[0].b] == before + (output + [tokens[0].b]);
        }
      }
      TokensStayInChunk(before, next, tokens[1..]);
    }
  }

  lemma {:induction false} CopyStaysInChunk(before: seq<byte>, output: seq<byte>, offset: nat, n: nat)
    requires 1 <= offset <= |output|
    ensures CopyRun(before + output, offset, n) == before + CopyRun(output, offset, n)
    decreases n
  {
    if n > 0 {
      var b := output[|output| - offset];
      assert (before + output)[|before + output| - offset] == b;
      assert before + output + [b] == before + (output + [b]);
      CopyStaysInChunk(before, output + [b], offset, n - 1);
    }
  }

  // ----- specification of the decoder -----

  /** Bounds the position inside a chunk: what is out, plus ten per byte still to read, stays below 65536. */
  predicate InBudget(position: int, unread: int) {
    0 <= position && 0 <= unread <= 4096 && position + 10 * unread <= 8193 + 10 * 4096
  }

  /** One copy token keeps the budget, so the shift count of the next one is not negative either. */
  lemma CopyKeepsBudget(position: nat, unread: nat, length: nat)
    requires InBudget(position, unread) && unread >= 2
    requires LengthBits(position) >= 0 ==> length < Pow2(LengthBits(position)) + 3
    ensures LengthBits(position) >= 0
    ensures InBudget(position + length, unread - 2)
  {
    LengthBitsBounds(position);
  }

  datatype Step = Step(cursor: nat, output: seq<byte>)

  /** One item of a group: a two-byte copy token or a literal byte. */
  function DecodeItem(data: seq<byte>, cursor: nat, end: nat, isCopy: bool,
                      output: seq<byte>, start: nat, maximum: nat): (r: Option<Step>)
    requires cursor < end <= |data| && start <= |output| <= maximum && InBudget(|output| - start, end - cursor)
    ensures r.Some? ==> cursor < r.value.cursor <= end && |output| <= |r.value.output| <= maximum
    ensures r.Some? ==> InBudget(|r.value.output| - start, end - r.value.cursor)
  {
    if isCopy then
      if cursor + 2 > end then None else
        var token := Le16(data, cursor);
        var position := |output| - start;
        LengthBitsBounds(position);
        var length := LowBits(token, LengthBits(position)) + 3;
        var offset := ShiftRight(token, LengthBits(position)) + 1;
        CopyKeepsBudget(position, end - cursor, length);
        if offset > position || |output| + length > maximum then None else
          Some(Step(cursor + 2, CopyRun(output, offset, length)))
    else
      if |output| + 1 > maximum then None else Some(Step(cursor + 1, output + [data[cursor]]))
  }

  /** The items of one group, from flag bit `bit` on. */
  function DecodeItems(data: seq<byte>, cursor: nat, end: nat, flags: byte, bit: nat,
                       output: seq<byte>, start: nat, maximum: nat): (r: Option<Step>)
    requires cursor <= end <= |data| && bit <= 8 && start <= |output| <= maximum
    requires InBudget(|output| - start, end - cursor)
    ensures r.Some? ==> cursor <= r.value.cursor <= end && |output| <= |r.value.output| <= maximum
    ensures r.Some? ==> InBudget(|r.value.output| - start, end - r.value.cursor)
    decreases 8 - bit
  {
    if bit == 8 || cursor == end then Some(Step(cursor, output)) else
      var item := DecodeItem(data, cursor, end, Bit(flags, bit), output, start, maximum);
      if item.None? then None else
        DecodeItems(data, item.value.cursor, end, flags, bit + 1, item.value.output, start, maximum)
  }

  /** A compressed chunk body, group by group, up to exactly `end`. */
  function DecodeGroups(data: seq<byte>, cursor: nat, end: nat,
                        output: seq<byte>, start: nat, maximum: nat): (r: Option<seq<byte>>)
    requires cursor <= end <= |data| && start <= |output| <= maximum && InBudget(|output| - start, end - cursor)
    ensures r.Some? ==> |output| <= |r.value| <= maximum
    decreases end - cursor
  {
    if cursor == end then Some(output) else
      var items := DecodeItems(data, cursor + 1, end, data[cursor], 0, output, start, maximum);
      if items.None? then None else
        DecodeGroups(data, items.value.cursor, end, items.value.output, start, maximum)
  }

  /** Where the chunk whose header is at `cursor` ends. */
  function ChunkEnd(data: seq<byte>, cursor: nat): (r: nat)
    requires cursor + 2 <= |data|
    ensures cursor + 3 <= r <= cursor + 4098
  {
    cursor + Le16(data, cursor) % 0x1000 + 3
  }

  /** The chunk's header is whole, carries the signature bits 011, and the chunk lies inside `data`. */
  predicate ChunkFits(data: seq<byte>, cursor: nat) {
    && cursor + 2 <= |data|
    && Le16(data, cursor) / 0x1000 % 8 == 3
    && ChunkEnd(data, cursor) <= |data|
  }

  function DecodeChunk(data: seq<byte>, cursor: nat, output: seq<byte>, maximum: nat): (r: Option<seq<byte>>)
    requires ChunkFits(data, cursor) && |output| <= maximum
    ensures r.Some? ==> |output| <= |r.value| <= maximum
  {
    var end := ChunkEnd(data, cursor);
    if Le16(data, cursor) >= 0x8000 then
      DecodeGroups(data, cursor + 2, end, output, |output|, maximum)
    else if |output| + (end - (cursor + 2)) > maximum then None
    else Some(output + data[cursor + 2..end])
  }

  function DecodeChunks(data: seq<byte>, cursor: nat, output: seq<byte>, maximum: nat): (r: Option<seq<byte>>)
    requires cursor <= |data| && |output| <= maximum
    ensures r.Some? ==> |output| <= |r.value| <= maximum
    decreases |data| - cursor
  {
    if cursor == |data| then Some(output)
    else if !ChunkFits(data, cursor) then None
    else
      var more := DecodeChunk(data, cursor, output, maximum);
      if more.None? then None else DecodeChunks(data, ChunkEnd(data, cursor), more.value, maximum)
  }

  function DecodeContainer(data: seq<byte>, maximum: nat): (r: Option<seq<byte>>)
    ensures r.Some? ==> |r.value| <= maximum
  {
    if data == [] || data[0] != 1 then None else DecodeChunks(data, 1, [], maximum)
  }

  // ----- the decoder's loop -----

  /** Copies one run byte by byte, giving up as soon as the output passes `maximum`. */
  method AppendRun(output: seq<byte>, offset: nat, length: nat, maximum: nat)
    returns (more: Option<seq<byte>>)
    requires 1 <= offset <= |output| <= maximum
    ensures more == if |output| + length > maximum then None else Some(CopyRun(output, offset, length))
  {
    var out := output;
    var done := 0;
    while done < length
      invariant done <= length
      invariant 1 <= offset <= |out| <= maximum
      invariant |out| == |output| + done
      invariant CopyRun(out, offset, length - done) == CopyRun(output, offset, length)
    {
      out := out + [out[|out| - offset]];
      done := done + 1;
      if |out| > maximum {
        return None;
      }
    }
    return Some(out);
  }

  /** One turn of the inner loop; the shift count is never negative and every index is in bounds. */
  method DecompressItem(data: seq<byte>, cursor: nat, end: nat, isCopy: bool, output: seq<byte>, start: nat, maximum: nat)
    returns (result: Option<Step>)
    requires cursor < end <= |data| && start <= |output| <= maximum && InBudget(|output| - start, end - cursor)
    ensures result == DecodeItem(data, cursor, end, isCopy, output, start, maximum)
  {
    hide Le16, LengthBits, LowBits, ShiftRight, CopyRun;
    if isCopy {
      if cursor + 2 > end {
        return None;
      }
      var token := Le16(data, cursor);
      var position := |output| - start;
      LengthBitsBounds(position);
      var length := LowBits(token, LengthBits(position)) + 3;
      var offset := ShiftRight(token, LengthBits(position)) + 1;
      if offset > position {
        return None;
      }
      var more := AppendRun(output, offset, length, maximum);
      if more.None? {
        return None;
      }
      return Some(Step(cursor + 2, more.value));
    } else {
      if |output| + 1 > maximum {
        return None;
      }
      return Some(Step(cursor + 1, output + [data[cursor]]));
    }
  }

  /** The eight-item inner loop. */
  method DecompressGroup(data: seq<byte>, begin: nat, end: nat, flags: byte, before: seq<byte>, start: nat, maximum: nat)
    returns (result: Option<Step>)
    requires begin <= end <= |data| && start <= |before| <= maximum && InBudget(|before| - start, end - begin)
    ensures result == DecodeItems(data, begin, end, flags, 0, before, start, maximum)
  {
    hide DecodeItem, Bit, InBudget;
    var cursor, output, bit := begin, before, 0;
    while bit < 8 && cursor < end
      invariant bit <= 8 && begin <= cursor <= end && start <= |output| <= maximum
      invariant InBudget(|output| - start, end - cursor)
      invariant DecodeItems(data, cursor, end, flags, bit, output, start, maximum)
             == DecodeItems(data, begin, end, flags, 0, before, start, maximum)
    {
      var item := DecompressItem(data, cursor, end, Bit(flags, bit), output, start, maximum);
      if item.None? {
        return None;
      }
      cursor, output := item.value.cursor, item.value.output;
      bit := bit + 1;
    }
    return Some(Step(cursor, output));
  }

  /** One chunk, raw or compressed; a compressed one is consumed up to exactly its end. */
  method DecompressChunk(data: seq<byte>, begin: nat, before: seq<byte>, maximum: nat)
    returns (result: Option<seq<byte>>)
    requires ChunkFits(data, begin) && |before| <= maximum
    ensures result == DecodeChunk(data, begin, before, maximum)
  {
    hide DecodeItems, LengthBits, Le16;
    var end, start := ChunkEnd(data, begin), |before|;
    if Le16(data, begin) < 0x8000 {
      var output := before + data[begin + 2..end];
      return if |output| > maximum then None else Some(output);
    }
    var output, cursor := before, begin + 2;
    while cursor < end
      invariant begin + 2 <= cursor <= end && start <= |output| <= maximum
      invariant InBudget(|output| - start, end - cursor)
      invariant DecodeGroups(data, cursor, end, output, start, maximum)
             == DecodeGroups(data, begin + 2, end, before, start, maximum)
    {
      var group := DecompressGroup(data, cursor + 1, end, data[cursor], output, start, maximum);
      if group.None? {
        return None;
      }
      cursor, output := group.value.cursor, group.value.output;
    }
    return Some(output);
  }

  /** `_decompress_vba`. */
  method DecompressVba(data: seq<byte>, maximum: nat) returns (result: Option<seq<byte>>)
    ensures result == DecodeContainer(data, maximum)
  {
    if data == [] || data[0] != 1 {
      return None;
    }
    var output: seq<byte>, cursor := [], 1;
    while cursor < |data|
      invariant 1 <= cursor <= |data| && |output| <= maximum
      invariant DecodeChunks(data, cursor, output, maximum) == DecodeContainer(data, maximum)
      decreases |data| - cursor
    {
      if !ChunkFits(data, cursor) {
        return None;
      }
      var more := DecompressChunk(data, cursor, output, maximum);
      if more.None? {
        return None;
      }
      cursor, output := ChunkEnd(data, cursor), more.value;
    }
    return Some(output);
  }
}
