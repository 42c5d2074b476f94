/**
 What the CRC-16 is, apart from its shift loop: the one 16-bit value that makes the bits of the data, followed by its own,
 a multiple of x^16 + x^15 + x^2 + 1 over GF(2).
 */
module CrcPolynomial {
  import opened Bytes
  import opened Crc16

  // ----- polynomials over GF(2) -----

  /** A polynomial's coefficients, the highest power first. */
  type Polynomial = seq<bool>

  /** The coefficient of x^d. */
  function Coefficient(p: Polynomial, d: int): bool {
    0 <= d < |p| && p[|p| - 1 - d]
  }

  /** Addition in GF(2). */
  function Add(a: bool, b: bool): bool {
    a != b
  }

  /** `q` times x^16 + x^15 + x^2 + 1. */
  function TimesGenerator(q: Polynomial): (r: Polynomial)
    ensures |r| == |q| + 16
  {
    seq(|q| + 16, i requires 0 <= i < |q| + 16 => ProductAt(q, |q| + 15 - i))
  }

  function ProductAt(q: Polynomial, d: int): bool {
    Add(Add(Coefficient(q, d - 16), Coefficient(q, d - 15)), Add(Coefficient(q, d - 2), Coefficient(q, d)))
  }

  ghost predicate IsMultiple(p: Polynomial) {
    exists q: Polynomial :: p == TimesGenerator(q)
  }

  // ----- bits of bytes -----

  /** Bit `k` of a number, the lowest being bit 0. */
  predicate Bit(n: nat, k: nat) {
    if k == 0 then n % 2 == 1 else Bit(n / 2, k - 1)
  }

  /** The lowest `n` bits, the lowest first. */
  function LowFirst(value: nat, n: nat): (r: seq<bool>)
    ensures |r| == n
  {
    seq(n, k requires 0 <= k < n => Bit(value, k))
  }

  /** The bits of a byte string, each byte's low bit first. */
  function Bits(data: seq<byte>): (r: seq<bool>)
    ensures |r| == 8 * |data|
  {
    if data == [] then [] else Bits(data[..|data| - 1]) + LowFirst(data[|data| - 1] as nat, 8)
  }

  /** The data followed by the two bytes, low byte first. */
  function WithCrc(data: seq<byte>, crc: nat): seq<byte>
    requires crc < 0x1_0000
  {
    data + [crc % 256, crc / 256]
  }

  lemma {:induction false} XorBit(a: nat, b: nat, k: nat)
    ensures Bit(Xor(a, b), k) == Add(Bit(a, k), Bit(b, k))
    decreases k
  {
    XorHalf(a, b);
    if k > 0 {
      hide Xor;
      XorBit(a / 2, b / 2, k - 1);
    } else {
      SumParity(a, b);
    }
  }

  lemma {:induction false} NoBit(n: nat, k: nat, m: nat)
    requires n < Pow2(m) && k >= m
    ensures !Bit(n, k)
    decreases k
  {
    if k > 0 {
      NoBit(n / 2, k - 1, if m > 0 then m - 1 else 0);
    }
  }

  lemma HalfBit(n: nat, k: nat)
    ensures Bit(n / 2, k) == Bit(n, k + 1)
  {
  }

  // ----- one bit of data -----

  /** The register after one more bit of data. */
  function FeedBit(crc: nat, bit: bool): nat {
    Step(Xor(crc, if bit then 1 else 0))
  }

  /** The quotient's next coefficient: the bit that falls out of the register. */
  function Out(crc: nat, bit: bool): bool {
    Add(crc % 2 == 1, bit)
  }

  /** The polynomial the register folds in: its bit k stands for x^(15 - k). */
  lemma GeneratorBits(k: nat)
    ensures Bit(POLYNOMIAL, k) <==> k == 0 || k == 13 || k == 15
  {
    if k >= 16 {
      Word();
      NoBit(POLYNOMIAL, k, 16);
    } else {
      assert Bit(0xA001, 0) && !Bit(0xA001, 1) && !Bit(0xA001, 2) && !Bit(0xA001, 3);
      assert !Bit(0xA00, 0) && !Bit(0xA00, 1) && !Bit(0xA00, 2) && !Bit(0xA00, 3);
      assert !Bit(0xA0, 0) && !Bit(0xA0, 1) && !Bit(0xA0, 2) && !Bit(0xA0, 3);
      assert !Bit(0xA, 0) && Bit(0xA, 1) && !Bit(0xA, 2) && Bit(0xA, 3);
      if k >= 4 { HalfByte(0xA001, k - 4); }
      if k >= 8 { HalfByte(0xA00, k - 8); }
      if k >= 12 { HalfByte(0xA0, k - 12); }
    }
  }

  lemma HalfByte(n: nat, k: nat)
    ensures Bit(n / 16, k) == Bit(n, k + 4)
  {
    assert n / 2 / 2 / 2 / 2 == n / 16;
    HalfBit(n, k + 3);
    HalfBit(n / 2, k + 2);
    HalfBit(n / 2 / 2, k + 1);
    HalfBit(n / 2 / 2 / 2, k);
  }

  lemma NoBits(k: nat)
    ensures !Bit(0, k)
  {
    NoBit(0, k, 0);
  }

  /** Bit `k` of the register after one more bit of data. */
  lemma FedBit(crc: nat, bit: bool, k: nat)
    ensures Bit(FeedBit(crc, bit), k) == Add(Bit(crc, k + 1), Out(crc, bit) && (k == 0 || k == 13 || k == 15))
  {
    hide Xor;
    var b := if bit then 1 else 0;
    var x := Xor(crc, b);
    XorHalf(crc, b);
    SumParity(crc, b);
    assert Masked(x) == if Out(crc, bit) then POLYNOMIAL else 0;
    XorBit(x / 2, Masked(x), k);
    HalfBit(x, k);
    XorBit(crc, b, k + 1);
    NoBits(k);
    GeneratorBits(k);
  }

  lemma Appended(q: Polynomial, u: bool, e: int)
    ensures Coefficient(q + [u], e) == if e == 0 then u else Coefficient(q, e - 1)
  {
  }

  /** A further quotient coefficient shifts the product and adds the generator to its end. */
  lemma ProductAppended(q: Polynomial, u: bool, d: int)
    ensures ProductAt(q + [u], d) == Add(ProductAt(q, d - 1), u && (d == 16 || d == 15 || d == 2 || d == 0))
  {
    hide Coefficient;
    Appended(q, u, d - 16);
    Appended(q, u, d - 15);
    Appended(q, u, d - 2);
    Appended(q, u, d);
    NotNegative(q, -1);
  }

  lemma NotNegative(q: Polynomial, e: int)
    requires e < 0
    ensures !Coefficient(q, e)
  {
  }

  /** One bit of data keeps "data and register are the generator times the quotient". */
  lemma OneBit(m: seq<bool>, crc: nat, bit: bool, q: Polynomial)
    requires crc < 0x1_0000 && m + LowFirst(crc, 16) == TimesGenerator(q)
    ensures (m + [bit]) + LowFirst(FeedBit(crc, bit), 16) == TimesGenerator(q + [Out(crc, bit)])
  {
    hide Bit, FeedBit, ProductAt;
    var u, n := Out(crc, bit), |q|;
    var before, after := m + LowFirst(crc, 16), (m + [bit]) + LowFirst(FeedBit(crc, bit), 16);
    forall i | 0 <= i < n + 17
      ensures after[i] == ProductAt(q + [u], n + 16 - i)
    {
      var d := n + 16 - i;
      ProductAppended(q, u, d);
      if i < n + 16 {
        assert before[i] == ProductAt(q, n + 15 - i);
      } else {
        NoProduct(q);
      }
      if i == n {
        LowBit(crc);
      } else if i > n {
        var k := i - n - 1;
        FedBit(crc, bit, k);
        if k == 15 {
          Word();
          NoBit(crc, 16, 16);
        }
      }
    }
  }

  lemma NoProduct(q: Polynomial)
    ensures !ProductAt(q, -1)
  {
  }

  lemma LowBit(n: nat)
    ensures Bit(n, 0) <==> n % 2 == 1
  {
  }

  // ----- one byte of data -----

  /** The register after the lowest `n` bits of a value. */
  function FeedBits(crc: nat, value: nat, n: nat): nat {
    if n == 0 then crc else FeedBit(FeedBits(crc, value, n - 1), Bit(value, n - 1))
  }

  function Outs(crc: nat, value: nat, n: nat): (r: seq<bool>)
    ensures |r| == n
  {
    if n == 0 then [] else Outs(crc, value, n - 1) + [Out(FeedBits(crc, value, n - 1), Bit(value, n - 1))]
  }

  function Shift(n: nat, s: nat): nat {
    if s == 0 then n else Shift(n, s - 1) / 2
  }

  lemma {:induction false} ShiftedBit(n: nat, s: nat, k: nat)
    ensures Bit(Shift(n, s), k) == Bit(n, s + k)
    decreases s
  {
    if s > 0 {
      HalfBit(Shift(n, s - 1), k);
      ShiftedBit(n, s - 1, k + 1);
    }
  }

  lemma StepEven(h: nat)
    ensures Step(2 * h) == h
  {
    XorZero(h);
  }

  lemma SplitNumber(s: nat)
    ensures s == Xor(s % 2, 2 * (s / 2))
  {
    XorZero(s / 2);
  }

  /** Feeding a byte at once and feeding it bit by bit are the same. */
  lemma {:induction false} Ahead(crc: nat, value: nat, n: nat)
    ensures Steps(Xor(crc, value), n) == Xor(FeedBits(crc, value, n), Shift(value, n))
    decreases n
  {
    hide Xor, Step;
    if n > 0 {
      Ahead(crc, value, n - 1);
      var c, s := FeedBits(crc, value, n - 1), Shift(value, n - 1);
      var b, h := s % 2, s / 2;
      ShiftedBit(value, n - 1, 0);
      LowBit(s);
      SplitNumber(s);
      XorAssociates(c, b, 2 * h);
      StepLinear(Xor(c, b), 2 * h);
      StepEven(h);
    }
  }

  lemma ByteBits(crc: nat, value: byte)
    ensures Feed(crc, value) == FeedBits(crc, value as nat, 8)
  {
    hide Xor, Steps, FeedBits;
    Ahead(crc, value as nat, 8);
    ShiftedOut(value as nat);
    XorZero(FeedBits(crc, value as nat, 8));
  }

  lemma {:induction false} ShiftBound(n: nat, s: nat, t: nat)
    requires n < Pow2(s + t)
    ensures Shift(n, s) < Pow2(t)
    decreases s
  {
    if s > 0 {
      ShiftBound(n, s - 1, t + 1);
    }
  }

  lemma ShiftedOut(value: nat)
    requires value < 256
    ensures Shift(value, 8) == 0
  {
    assert Pow2(4) == 16;
    assert Pow2(8) == 256;
    ShiftBound(value, 8, 0);
  }

  lemma {:induction false} SomeBits(m: seq<bool>, crc: nat, value: nat, n: nat, q: Polynomial)
    requires crc < 0x1_0000 && m + LowFirst(crc, 16) == TimesGenerator(q)
    ensures FeedBits(crc, value, n) < 0x1_0000
    ensures (m + LowFirst(value, n)) + LowFirst(FeedBits(crc, value, n), 16) == TimesGenerator(q + Outs(crc, value, n))
    decreases n
  {
    hide TimesGenerator, FeedBit, Out, Bit;
    if n == 0 {
      assert m + LowFirst(value, 0) == m && q + [] == q;
    } else {
      SomeBits(m, crc, value, n - 1, q);
      var c, bit := FeedBits(crc, value, n - 1), Bit(value, n - 1);
      OneBit(m + LowFirst(value, n - 1), c, bit, q + Outs(crc, value, n - 1));
      FeedBitWord(c, bit);
      assert m + LowFirst(value, n - 1) + [bit] == m + LowFirst(value, n);
      assert q + Outs(crc, value, n - 1) + [Out(c, bit)] == q + Outs(crc, value, n);
    }
  }

  lemma FeedBitWord(crc: nat, bit: bool)
    requires crc < 0x1_0000
    ensures FeedBit(crc, bit) < 0x1_0000
  {
    hide Xor, Step;
    XorWord(crc, if bit then 1 else 0);
    StepWord(Xor(crc, if bit then 1 else 0));
  }

  // ----- the data -----

  /** The quotient of the division the register carries out. */
  function Quotient(data: seq<byte>): (r: Polynomial)
    ensures |r| == 8 * |data|
  {
    if data == [] then [] else
      Quotient(data[..|data| - 1]) + Outs(Crc(data[..|data| - 1]), data[|data| - 1] as nat, 8)
  }

  lemma {:induction false} RegisterDivides(data: seq<byte>)
    ensures Bits(data) + LowFirst(Crc(data), 16) == TimesGenerator(Quotient(data))
  {
    hide TimesGenerator, FeedBits, Outs, Feed, Bit;
    if data == [] {
      NothingDivides();
    } else {
      var before, last := data[..|data| - 1], data[|data| - 1];
      RegisterDivides(before);
      CrcWord(before);
      SomeBits(Bits(before), Crc(before), last as nat, 8, Quotient(before));
      ByteBits(Crc(before), last);
    }
  }

  lemma NothingDivides()
    ensures [] + LowFirst(0, 16) == TimesGenerator([])
  {
    hide Bit;
    forall k | 0 <= k < 16
      ensures LowFirst(0, 16)[k] == TimesGenerator([])[k]
    {
      NoBits(k);
      assert TimesGenerator([])[k] == ProductAt([], 15 - k) == false;
    }
  }

  lemma TwoBytes(crc: nat)
    requires crc < 0x1_0000
    ensures LowFirst(crc % 256, 8) + LowFirst(crc / 256, 8) == LowFirst(crc, 16)
  {
    forall k | 0 <= k < 8
      ensures Bit(crc % 256, k) == Bit(crc, k) && Bit(crc / 256, k) == Bit(crc, k + 8)
    {
      LowBits(crc, k);
      HighBits(crc, k);
    }
  }

  /** What lies above bit `t` does not show below it. */
  lemma {:induction false} BitBelow(high: nat, low: nat, m: nat, t: nat, k: nat)
    requires m == Pow2(t) && k < t
    ensures Bit(m * high + low, k) == Bit(low, k)
    decreases k
  {
    var half := Pow2(t - 1);
    var rest := half * high;
    assert m * high == 2 * rest;
    HalfOfSum(rest, low);
    if k > 0 {
      BitBelow(high, low / 2, half, t - 1, k - 1);
    }
  }

  lemma HalfOfSum(a: nat, b: nat)
    ensures (2 * a + b) / 2 == a + b / 2 && (2 * a + b) % 2 == b % 2
  {
  }

  lemma LowBits(crc: nat, k: nat)
    requires k < 8
    ensures Bit(crc % 256, k) == Bit(crc, k)
  {
    assert Pow2(4) == 16;
    assert Pow2(8) == 256;
    BitBelow(crc / 256, crc % 256, 256, 8, k);
  }

  lemma HighBits(crc: nat, k: nat)
    ensures Bit(crc / 256, k) == Bit(crc, k + 8)
  {
    HalfByte(crc, k + 4);
    HalfByte(crc / 16, k);
    assert crc / 16 / 16 == crc / 256;
  }

  lemma CrcBits(data: seq<byte>, crc: nat)
    requires crc < 0x1_0000
    ensures Bits(WithCrc(data, crc)) == Bits(data) + LowFirst(crc, 16)
  {
    hide LowFirst;
    TwoBytes(crc);
    var one := data + [crc % 256];
    assert WithCrc(data, crc)[..|data| + 1] == one && one[..|data|] == data;
    assert Bits(WithCrc(data, crc)) == Bits(data) + LowFirst(crc % 256, 8) + LowFirst(crc / 256, 8);
  }

  /** The data and its CRC are a multiple of the generator, with this quotient. */
  lemma CrcDivides(data: seq<byte>)
    ensures Crc(data) < 0x1_0000 && Bits(WithCrc(data, Crc(data))) == TimesGenerator(Quotient(data))
  {
    hide TimesGenerator, LowFirst, Bits, Quotient;
    CrcWord(data);
    CrcBits(data, Crc(data));
    RegisterDivides(data);
  }

  // ----- no other value does -----

  /** A product's leading coefficients determine the quotient's. */
  lemma {:induction false} SameQuotient(q: Polynomial, r: Polynomial, i: nat)
    requires |q| == |r| && i <= |q| && TimesGenerator(q)[..|q|] == TimesGenerator(r)[..|q|]
    ensures q[..i] == r[..i]
    decreases i
  {
    if i > 0 {
      SameQuotient(q, r, i - 1);
      hide ProductAt;
      var n := |q|;
      assert TimesGenerator(q)[..n][i - 1] == ProductAt(q, n + 16 - i) && TimesGenerator(r)[..n][i - 1] == ProductAt(r, n + 16 - i);
      NextCoefficient(q, r, i);
      assert q[..i] == q[..i - 1] + [q[i - 1]] && r[..i] == r[..i - 1] + [r[i - 1]];
    }
  }

  lemma NextCoefficient(q: Polynomial, r: Polynomial, i: nat)
    requires |q| == |r| && 0 < i <= |q| && q[..i - 1] == r[..i - 1] && ProductAt(q, |q| + 16 - i) == ProductAt(r, |q| + 16 - i)
    ensures q[i - 1] == r[i - 1]
  {
    var n := |q|;
    forall j | 0 <= j < i - 1
      ensures q[j] == r[j]
    {
      assert q[j] == q[..i - 1][j] && r[j] == r[..i - 1][j];
    }
  }

  lemma {:induction false} BitsDetermine(a: nat, b: nat, n: nat)
    requires a < Pow2(n) && b < Pow2(n) && forall k | 0 <= k < n :: Bit(a, k) == Bit(b, k)
    ensures a == b
    decreases n
  {
    if n > 0 {
      forall k | 0 <= k < n - 1
        ensures Bit(a / 2, k) == Bit(b / 2, k)
      {
        HalfBit(a, k);
        HalfBit(b, k);
        assert Bit(a, k + 1) == Bit(b, k + 1);
      }
      BitsDetermine(a / 2, b / 2, n - 1);
      assert Bit(a, 0) == Bit(b, 0);
    }
  }

  /** `Crc(data)` is the only 16-bit value that completes the data to a multiple of x^16 + x^15 + x^2 + 1. */
  lemma CrcIsTheRemainder(data: seq<byte>, crc: nat)
    requires crc < 0x1_0000
    ensures IsMultiple(Bits(WithCrc(data, crc))) <==> crc == Crc(data)
  {
    hide TimesGenerator, LowFirst, Bits;
    CrcDivides(data);
    var p := Bits(WithCrc(data, crc));
    if IsMultiple(p) {
      var q: Polynomial :| p == TimesGenerator(q);
      var r := Quotient(data);
      CrcBits(data, crc);
      CrcBits(data, Crc(data));
      assert p[..|q|] == Bits(data) && TimesGenerator(r)[..|r|] == Bits(data);
      SameQuotient(q, r, |q|);
      assert q[..|q|] == q && r[..|r|] == r;
      SameTail(Bits(data), crc, Crc(data));
    }
  }

  lemma SameTail(m: seq<bool>, a: nat, b: nat)
    requires a < 0x1_0000 && b < 0x1_0000 && m + LowFirst(a, 16) == m + LowFirst(b, 16)
    ensures a == b
  {
    hide Bit;
    Word();
    forall k | 0 <= k < 16
      ensures Bit(a, k) == Bit(b, k)
    {
      assert (m + LowFirst(a, 16))[|m| + k] == Bit(a, k) && (m + LowFirst(b, 16))[|m| + k] == Bit(b, k);
    }
    BitsDetermine(a, b, 16);
  }
}
