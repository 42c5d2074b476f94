/** What the writers share: words of either byte order, zero fill, and finding a part of what was written. */
module Writing {
  import opened Bytes

  const WORD := 0x1_0000_0000

  /** A big-endian word. */
  function Word(n: nat): (r: seq<byte>)
    requires n < WORD
    ensures |r| == 4
  {
    [n / 0x100_0000, n / 0x1_0000 % 0x100, n / 0x100 % 0x100, n % 0x100]
  }

  function Zeros(n: nat): (r: seq<byte>)
    ensures |r| == n
  {
    seq(n, i => 0)
  }

  /** `part` lies in `data` at `pos`. */
  predicate At(data: seq<byte>, pos: nat, part: seq<byte>) {
    pos + |part| <= |data| && forall i | 0 <= i < |part| :: data[pos + i] == part[i]
  }

  lemma AtConcat(data: seq<byte>, pos: nat, a: seq<byte>, b: seq<byte>)
    requires At(data, pos, a + b)
    ensures At(data, pos, a) && At(data, pos + |a|, b)
  {
    forall i | 0 <= i < |b|
      ensures data[pos + |a| + i] == b[i]
    {
      assert (a + b)[|a| + i] == b[i];
    }
    forall i | 0 <= i < |a|
      ensures data[pos + i] == a[i]
    {
      assert (a + b)[i] == a[i];
    }
  }

  lemma AtJoin(data: seq<byte>, pos: nat, a: seq<byte>, b: seq<byte>)
    requires At(data, pos, a) && At(data, pos + |a|, b)
    ensures At(data, pos, a + b)
  {
    forall i | 0 <= i < |a + b|
      ensures data[pos + i] == (a + b)[i]
    {
      assert i >= |a| ==> data[pos + |a| + (i - |a|)] == b[i - |a|];
    }
  }

  lemma AtSlice(data: seq<byte>, pos: nat, part: seq<byte>)
    requires At(data, pos, part)
    ensures pos + |part| <= |data| && data[pos..pos + |part|] == part
  {
  }

  lemma SliceOfSlice(data: seq<byte>, pos: nat, size: nat, a: nat, b: nat)
    requires pos + size <= |data| && a <= b <= size
    ensures data[pos..pos + size][a..b] == data[pos + a..pos + b]
  {
    var part, slice := data[pos..pos + size][a..b], data[pos + a..pos + b];
    forall i | 0 <= i < b - a
      ensures part[i] == slice[i]
    {
      assert data[pos..pos + size][a + i] == data[pos + (a + i)];
    }
  }

  lemma AtStart(whole: seq<byte>, after: seq<byte>)
    ensures At(whole + after, 0, whole)
  {
  }

  lemma WordAt(data: seq<byte>, pos: nat, n: nat)
    requires n < WORD && At(data, pos, Word(n))
    ensures pos + 4 <= |data| && Be32(data, pos) == n
  {
    var part := Word(n);
    assert part[0] == data[pos + 0] && part[1] == data[pos + 1] && part[2] == data[pos + 2] && part[3] == data[pos + 3];
    assert n / 0x1_0000 == n / 0x100 / 0x100 && n / 0x100_0000 == n / 0x1_0000 / 0x100;
  }

  lemma LastDigit(high: nat, low: nat)
    requires low < 0x100
    ensures (0x100 * high + low) / 0x100 == high && (0x100 * high + low) % 0x100 == low
  {
  }

  /** What is read as a word is the word written there. */
  lemma ReadIsWritten(data: seq<byte>, pos: nat)
    requires pos + 4 <= |data|
    ensures At(data, pos, Word(Be32(data, pos)))
  {
    var a, b, c, e := data[pos] as int, data[pos + 1] as int, data[pos + 2] as int, data[pos + 3] as int;
    var n := 0x100 * (0x100 * (0x100 * a + b) + c) + e;
    LastDigit(0x100 * (0x100 * a + b) + c, e);
    LastDigit(0x100 * a + b, c);
    LastDigit(a, b);
    assert n / 0x1_0000 == n / 0x100 / 0x100 && n / 0x100_0000 == n / 0x1_0000 / 0x100;
    assert forall i | 0 <= i < 4 :: data[pos + i] == Word(n)[i];
  }

  /** The big-endian word at `pos`. */
  predicate WordIs(data: seq<byte>, pos: nat, n: nat) {
    n < WORD && At(data, pos, Word(n))
  }

  lemma WordIff(data: seq<byte>, pos: nat, n: nat)
    requires pos + 4 <= |data|
    ensures WordIs(data, pos, n) <==> Be32(data, pos) == n
  {
    if n < WORD && At(data, pos, Word(n)) {
      WordAt(data, pos, n);
    }
    if Be32(data, pos) == n {
      ReadIsWritten(data, pos);
    }
  }

  /** A word and what lies behind it. */
  lemma WordThen(data: seq<byte>, pos: nat, n: nat, rest: seq<byte>)
    requires n < WORD && At(data, pos, Word(n) + rest)
    ensures pos + 4 <= |data| && Be32(data, pos) == n && At(data, pos + 4, rest)
  {
    hide Word;
    AtConcat(data, pos, Word(n), rest);
    WordAt(data, pos, n);
  }

  /** A written word is read back, whatever surrounds it. */
  lemma WordReads(before: seq<byte>, n: nat, after: seq<byte>)
    requires n < WORD
    ensures Be32(before + Word(n) + after, |before|) == n
  {
    hide Be32;
    WordAt(before + Word(n) + after, |before|, n);
  }

  /** A little-endian number of `width` bytes. */
  function Little(n: nat, width: nat): (r: seq<byte>)
    ensures |r| == width
  {
    if width == 0 then [] else [n % 256] + Little(n / 256, width - 1)
  }

  lemma LittleTwo(n: nat)
    ensures Little(n, 2) == [n % 256, n / 256 % 256]
  {
    assert Little(n / 256, 1) == [n / 256 % 256] + Little(n / 256 / 256, 0);
  }

  lemma LittleFour(n: nat)
    requires n < 0x1_0000_0000
    ensures var r := Little(n, 4); r[0] as int + 0x100 * r[1] as int + 0x1_0000 * r[2] as int + 0x100_0000 * r[3] as int == n
  {
    var m := n / 0x1_0000;
    assert n / 256 / 256 == m;
    assert Little(n, 4) == [n % 256] + ([n / 256 % 256] + Little(m, 2));
    LittleTwo(m);
  }

  lemma LittleReads(before: seq<byte>, n: nat, after: seq<byte>)
    ensures n < 0x1_0000 ==> Le16(before + Little(n, 2) + after, |before|) == n
    ensures n < 0x1_0000_0000 ==> Le32(before + Little(n, 4) + after, |before|) == n
  {
    hide Little;
    var two, four := before + Little(n, 2) + after, before + Little(n, 4) + after;
    LittleTwo(n);
    assert forall i | 0 <= i < 2 :: two[|before| + i] == Little(n, 2)[i];
    assert forall i | 0 <= i < 4 :: four[|before| + i] == Little(n, 4)[i];
    if n < 0x1_0000_0000 {
      LittleFour(n);
    }
  }

  /** A two-byte number lies where it is read. */
  lemma LittleIff(data: seq<byte>, pos: nat, n: nat)
    requires pos + 2 <= |data| && n < 0x1_0000
    ensures At(data, pos, Little(n, 2)) <==> Le16(data, pos) == n
  {
    hide Little;
    LittleTwo(n);
    var part := Little(n, 2);
    if At(data, pos, part) {
      assert data[pos + 0] == part[0] && data[pos + 1] == part[1];
    }
    if Le16(data, pos) == n {
      assert n % 256 == data[pos] as nat && n / 256 == data[pos + 1] as nat;
      assert forall i | 0 <= i < 2 :: data[pos + i] == part[i];
    }
  }

  /** A little-endian field of two bytes, and one of four. */
  predicate HalfIs(data: seq<byte>, pos: nat, n: nat) {
    n < 0x1_0000 && At(data, pos, Little(n, 2))
  }

  predicate FullIs(data: seq<byte>, pos: nat, n: nat) {
    n < 0x1_0000_0000 && At(data, pos, Little(n, 4))
  }

  lemma HalfIff(data: seq<byte>, pos: nat, n: nat)
    requires pos + 2 <= |data|
    ensures HalfIs(data, pos, n) <==> Le16(data, pos) == n
  {
    hide Little;
    if n < 0x1_0000 {
      LittleIff(data, pos, n);
    }
  }

  lemma FullIff(data: seq<byte>, pos: nat, n: nat)
    requires pos + 4 <= |data|
    ensures FullIs(data, pos, n) <==> Le32(data, pos) == n
  {
    hide Little;
    var part, low, high := Little(n, 4), n % 0x1_0000, n / 0x1_0000;
    LittleFourParts(n);
    if n < 0x1_0000_0000 {
      HalfIff(data, pos, low);
      HalfIff(data, pos + 2, high);
      assert At(data, pos, part) <==> At(data, pos, Little(low, 2)) && At(data, pos + 2, Little(high, 2)) by {
        if At(data, pos, part) {
          AtConcat(data, pos, Little(low, 2), Little(high, 2));
        }
        if At(data, pos, Little(low, 2)) && At(data, pos + 2, Little(high, 2)) {
          AtJoin(data, pos, Little(low, 2), Little(high, 2));
        }
      }
      assert Le32(data, pos) == Le16(data, pos) + 0x1_0000 * Le16(data, pos + 2);
    }
  }

  lemma LittleFourParts(n: nat)
    ensures Little(n, 4) == Little(n % 0x1_0000, 2) + Little(n / 0x1_0000, 2)
  {
    var m := n / 0x1_0000;
    assert n / 256 / 256 == m;
    assert Little(n, 4) == [n % 256] + ([n / 256 % 256] + Little(m, 2));
    LittleTwo(n % 0x1_0000);
    assert n % 0x1_0000 % 256 == n % 256 && n % 0x1_0000 / 256 % 256 == n / 256 % 256;
  }
}
