/** Bytes and the fixed-width integers the parsers read from them. */
module Bytes {
  type byte = b: int | 0 <= b < 256

  /** Little-endian 16-bit read. */
  function Le16(data: seq<byte>, pos: nat): (r: nat)
    requires pos + 2 <= |data|
    ensures r < 0x1_0000
  {
    data[pos] as int + 0x100 * data[pos + 1] as int
  }

  /** Little-endian 32-bit read. */
  function Le32(data: seq<byte>, pos: nat): (r: nat)
    requires pos + 4 <= |data|
    ensures r < 0x1_0000_0000
  {
    data[pos] as int + 0x100 * data[pos + 1] as int + 0x1_0000 * data[pos + 2] as int + 0x100_0000 * data[pos + 3] as int
  }

  /** Big-endian 32-bit read. */
  function Be32(data: seq<byte>, pos: nat): (r: nat)
    requires pos + 4 <= |data|
    ensures r < 0x1_0000_0000
  {
    data[pos + 3] as int + 0x100 * data[pos + 2] as int + 0x1_0000 * data[pos + 1] as int + 0x100_0000 * data[pos] as int
  }

  datatype Option<+T> = None | Some(value: T)

  datatype Result<+T, +E> = Ok(value: T) | Err(error: E)

  function Max(a: nat, b: nat): nat { if a < b then b else a }

  function Pow2(n: nat): (r: nat)
    ensures r >= 1
  {
    if n == 0 then 1 else 2 * Pow2(n - 1)
  }

  lemma MulMonotone(a: nat, b: nat, c: nat)
    requires a <= b
    ensures a * c <= b * c
  {
    assert b * c == a * c + (b - a) * c;
  }

  /** Sum of the first `n` big-endian words. */
  function WordSum(block: seq<byte>, n: nat): nat
    requires 4 * n <= |block|
  {
    if n == 0 then 0 else WordSum(block, n - 1) + Be32(block, 4 * (n - 1))
  }

  /** The words of a block, first byte most significant, added up. */
  function WordTotal(block: seq<byte>): nat {
    if |block| < 4 then 0 else
      0x100_0000 * block[0] as int + 0x1_0000 * block[1] as int + 0x100 * block[2] as int + block[3] as int + WordTotal(block[4..])
  }

  lemma {:induction false} TotalAppend(block: seq<byte>, last: seq<byte>)
    requires |block| % 4 == 0 && |last| == 4
    ensures WordTotal(block + last) == WordTotal(block) + Be32(last, 0)
  {
    if block == [] {
      assert block + last == last && last[4..] == [];
    } else {
      assert (block + last)[4..] == block[4..] + last;
      TotalAppend(block[4..], last);
    }
  }

  lemma {:induction false} TotalIsSum(block: seq<byte>, n: nat)
    requires 4 * n <= |block|
    ensures WordTotal(block[..4 * n]) == WordSum(block, n)
  {
    if n > 0 {
      var m := 4 * (n - 1);
      assert block[..4 * n] == block[..m] + block[m..m + 4];
      TotalAppend(block[..m], block[m..m + 4]);
      TotalIsSum(block, n - 1);
    }
  }

  /** The pieces of a stream, joined. */
  function Flatten(chunks: seq<seq<byte>>): seq<byte> {
    if chunks == [] then [] else Flatten(chunks[..|chunks| - 1]) + chunks[|chunks| - 1]
  }

  lemma FlattenNext(chunks: seq<seq<byte>>, next: seq<byte>)
    ensures Flatten(chunks + [next]) == Flatten(chunks) + next
  {
    assert (chunks + [next])[..|chunks|] == chunks;
  }
}
