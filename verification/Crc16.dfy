/** The CRC-16 of `structural.py`, and why it sees every change of two neighbouring bytes. */
module Crc16 {
  import opened Bytes

  const POLYNOMIAL := 0xA001

  /** Bitwise exclusive or. */
  function Xor(a: nat, b: nat): nat {
    if a == 0 && b == 0 then 0 else 2 * Xor(a / 2, b / 2) + (a + b) % 2
  }

  function Masked(bit: nat): nat {
    if bit % 2 == 1 then POLYNOMIAL else 0
  }

  /** One bit: shift right, and fold in the polynomial when a one falls out. */
  function Step(crc: nat): nat {
    Xor(crc / 2, Masked(crc))
  }

  function Steps(crc: nat, n: nat): nat {
    if n == 0 then crc else Step(Steps(crc, n - 1))
  }

  /** One byte. */
  function Feed(crc: nat, value: byte): nat {
    Steps(Xor(crc, value as nat), 8)
  }

  function Crc(data: seq<byte>): nat {
    if data == [] then 0 else Feed(Crc(data[..|data| - 1]), data[|data| - 1])
  }

  /** `_crc16`. */
  method ComputeCrc(data: seq<byte>) returns (crc: nat)
    ensures crc == Crc(data)
  {
    crc := 0;
    for i := 0 to |data|
      invariant crc == Crc(data[..i])
    {
      assert data[..i + 1][..i] == data[..i];
      ghost var before := crc;
      crc := Xor(crc, data[i] as nat);
      for bit := 0 to 8
        invariant crc == Steps(Xor(before, data[i] as nat), bit)
      {
        crc := Xor(crc / 2, if crc % 2 == 1 then 0xA001 else 0);
      }
    }
    assert data[..|data|] == data;
  }

  // Exclusive or.

  lemma {:induction false} XorZero(a: nat)
    ensures Xor(a, 0) == a == Xor(0, a)
  {
    if a > 0 {
      XorZero(a / 2);
    }
  }

  lemma {:induction false} XorSelf(a: nat)
    ensures Xor(a, a) == 0
  {
    if a > 0 {
      XorSelf(a / 2);
    }
  }

  lemma {:induction false} XorCommutes(a: nat, b: nat)
    ensures Xor(a, b) == Xor(b, a)
  {
    if a > 0 || b > 0 {
      XorCommutes(a / 2, b / 2);
    }
  }

  /** Shifting right works bit by bit. */
  lemma XorHalf(a: nat, b: nat)
    ensures Xor(a, b) / 2 == Xor(a / 2, b / 2) && Xor(a, b) % 2 == (a + b) % 2
  {
  }

  lemma {:induction false} XorAssociates(a: nat, b: nat, c: nat)
    ensures Xor(Xor(a, b), c) == Xor(a, Xor(b, c))
    decreases a + b + c
  {
    if a + b + c > 0 {
      XorHalf(a, b);
      XorHalf(b, c);
      XorAssociates(a / 2, b / 2, c / 2);
      SameHalves(Xor(Xor(a, b), c), Xor(a, Xor(b, c)), a, b, c);
    }
  }

  lemma SameHalves(x: nat, y: nat, a: nat, b: nat, c: nat)
    requires x == Xor(Xor(a, b), c) && y == Xor(a, Xor(b, c))
    requires Xor(Xor(a / 2, b / 2), c / 2) == Xor(a / 2, Xor(b / 2, c / 2))
    ensures x == y
  {
    hide Xor;
    var left, right := Xor(a, b), Xor(b, c);
    XorHalf(left, c);
    XorHalf(a, right);
    assert x / 2 == y / 2 by {
      XorHalf(a, b);
      XorHalf(b, c);
    }
    assert x % 2 == y % 2 by {
      XorHalf(a, b);
      XorHalf(b, c);
      Parity(left, a, b, c);
      Parity(right, b, c, a);
    }
  }

  lemma Parity(m: nat, a: nat, b: nat, c: nat)
    requires m % 2 == (a + b) % 2
    ensures (m + c) % 2 == (a + b + c) % 2
  {
  }

  /** Only equal numbers cancel. */
  lemma {:induction false} XorCancels(a: nat, b: nat)
    requires Xor(a, b) == 0
    ensures a == b
  {
    if a > 0 || b > 0 {
      XorCancels(a / 2, b / 2);
    }
  }

  lemma {:induction false} XorBound(a: nat, b: nat, n: nat)
    requires a < Pow2(n) && b < Pow2(n)
    ensures Xor(a, b) < Pow2(n)
  {
    if n > 0 {
      XorBound(a / 2, b / 2, n - 1);
    }
  }

  lemma Word()
    ensures Pow2(16) == 0x1_0000
  {
    assert Pow2(4) == 16;
    assert Pow2(8) == 256;
    assert Pow2(12) == 4096;
  }

  lemma XorWord(a: nat, b: nat)
    requires a < 0x1_0000 && b < 0x1_0000
    ensures Xor(a, b) < 0x1_0000
  {
    Word();
    XorBound(a, b, 16);
  }

  /** `(a ^ b) ^ (c ^ d) == (a ^ c) ^ (b ^ d)`. */
  lemma XorSwap(a: nat, b: nat, c: nat, d: nat)
    ensures Xor(Xor(a, b), Xor(c, d)) == Xor(Xor(a, c), Xor(b, d))
  {
    hide Xor;
    XorAssociates(a, b, Xor(c, d));
    XorAssociates(b, c, d);
    XorCommutes(b, c);
    XorAssociates(c, b, d);
    XorAssociates(a, c, Xor(b, d));
  }

  // The bit step is linear and loses nothing.

  lemma SumParity(a: nat, b: nat)
    ensures (a + b) % 2 == if a % 2 == b % 2 then 0 else 1
  {
  }

  lemma MaskedLinear(a: nat, b: nat)
    ensures Masked(Xor(a, b)) == Xor(Masked(a), Masked(b))
  {
    hide Xor;
    XorHalf(a, b);
    SumParity(a, b);
    MaskedParity(Xor(a, b), a, b);
  }

  lemma MaskedParity(sum: nat, a: nat, b: nat)
    requires sum % 2 == if a % 2 == b % 2 then 0 else 1
    ensures Masked(sum) == Xor(Masked(a), Masked(b))
  {
    hide Xor;
    if a % 2 == b % 2 {
      XorSelf(Masked(a));
      assert Masked(a) == Masked(b);
      assert Masked(sum) == 0;
    } else if a % 2 == 1 {
      XorZero(Masked(a));
      assert Masked(b) == 0 && Masked(sum) == Masked(a);
    } else {
      XorZero(Masked(b));
      assert Masked(a) == 0 && Masked(sum) == Masked(b);
    }
  }

  lemma StepLinear(a: nat, b: nat)
    ensures Step(Xor(a, b)) == Xor(Step(a), Step(b))
  {
    hide Xor, Masked;
    XorHalf(a, b);
    MaskedLinear(a, b);
    XorSwap(a / 2, b / 2, Masked(a), Masked(b));
  }

  lemma {:induction false} StepsLinear(a: nat, b: nat, n: nat)
    ensures Steps(Xor(a, b), n) == Xor(Steps(a, n), Steps(b, n))
  {
    hide Xor, Step;
    if n > 0 {
      StepsLinear(a, b, n - 1);
      StepLinear(Steps(a, n - 1), Steps(b, n - 1));
    }
  }

  lemma StepWord(crc: nat)
    requires crc < 0x1_0000
    ensures Step(crc) < 0x1_0000
    ensures Step(crc) == 0 ==> crc == 0
  {
    hide Xor;
    XorWord(crc / 2, Masked(crc));
    if Step(crc) == 0 {
      XorCancels(crc / 2, Masked(crc));
    }
  }

  lemma {:induction false} StepsWord(crc: nat, n: nat)
    requires crc < 0x1_0000
    ensures Steps(crc, n) < 0x1_0000
    ensures Steps(crc, n) == 0 ==> crc == 0
  {
    hide Step;
    if n > 0 {
      StepsWord(crc, n - 1);
      StepWord(Steps(crc, n - 1));
    }
  }

  /** The bit step is injective on 16-bit states. */
  lemma StepInjective(a: nat, b: nat)
    requires a < 0x1_0000 && b < 0x1_0000 && Step(a) == Step(b)
    ensures a == b
  {
    hide Xor, Step;
    StepLinear(a, b);
    XorSelf(Step(a));
    XorWord(a, b);
    StepWord(Xor(a, b));
    XorCancels(a, b);
  }

  lemma {:induction false} CrcWord(data: seq<byte>)
    ensures Crc(data) < 0x1_0000
  {
    hide Xor, Steps;
    if data != [] {
      var before := Crc(data[..|data| - 1]);
      CrcWord(data[..|data| - 1]);
      XorWord(before, data[|data| - 1] as nat);
      StepsWord(Xor(before, data[|data| - 1] as nat), 8);
    }
  }

  /** The difference of two checksums depends on the difference of the inputs alone. */
  lemma FeedLinear(c: nat, d: nat, v: byte, w: byte)
    ensures Xor(Feed(c, v), Feed(d, w)) == Steps(Xor(Xor(c, d), Xor(v as nat, w as nat)), 8)
  {
    hide Xor, Steps;
    StepsLinear(Xor(c, v as nat), Xor(d, w as nat), 8);
    XorSwap(c, v as nat, d, w as nat);
  }

  lemma Shifted(y: nat)
    ensures Steps(256 * y, 8) == y
  {
    hide Xor, Steps;
    Halves(256 * y, 8, y, 256);
  }

  lemma {:induction false} Halves(x: nat, n: nat, y: nat, m: nat)
    requires m == Pow2(n) && x == m * y
    ensures Steps(x, n) == y
    decreases n
  {
    hide Xor;
    if n > 0 {
      assert x == (m / 2) * (2 * y);
      Halves(x, n - 1, 2 * y, m / 2);
      XorZero(y);
    } else {
      assert m == 1;
    }
  }

  /** Two neighbouring byte differences, not both zero, leave a difference. */
  lemma PairLeavesTrace(d: nat, e: nat)
    requires d < 256 && e < 256 && (d != 0 || e != 0)
    ensures Steps(Xor(Steps(d, 8), e), 8) != 0
    ensures Xor(Steps(d, 8), e) < 0x1_0000
  {
    hide Xor, Steps;
    var both := Xor(d, 256 * e);
    XorWord(d, 256 * e);
    StepsLinear(d, 256 * e, 8);
    Shifted(e);
    StepsWord(both, 8);
    if both == 0 {
      XorCancels(d, 256 * e);
    }
    StepsWord(Steps(both, 8), 8);
  }

  /** The inputs are equal but, at most, at `i` and `i + 1`. */
  ghost predicate DifferAt(p: seq<byte>, q: seq<byte>, i: nat) {
    |p| == |q| && forall k | 0 <= k < |p| && k != i && k != i + 1 :: p[k] == q[k]
  }

  lemma {:induction false} Tail(p: seq<byte>, q: seq<byte>, i: nat, n: nat)
    requires DifferAt(p, q, i) && i + 2 <= n <= |p|
    ensures Crc(p[..i + 2]) != Crc(q[..i + 2]) ==> Crc(p[..n]) != Crc(q[..n])
    decreases n
  {
    hide Feed;
    if n > i + 2 && Crc(p[..i + 2]) != Crc(q[..i + 2]) {
      Tail(p, q, i, n - 1);
      FeedKeepsDifference(Crc(p[..n - 1]), Crc(q[..n - 1]), p[n - 1]) by { CrcWord(p[..n - 1]); CrcWord(q[..n - 1]); }
      assert p[..n][..n - 1] == p[..n - 1] && q[..n][..n - 1] == q[..n - 1];
    }
  }

  lemma FeedKeepsDifference(c: nat, d: nat, v: byte)
    requires c < 0x1_0000 && d < 0x1_0000 && c != d
    ensures Feed(c, v) != Feed(d, v)
  {
    hide Xor, Steps, Feed;
    if Feed(c, v) == Feed(d, v) {
      FeedLinear(c, d, v, v);
      XorSelf(Feed(c, v));
      XorSelf(v as nat);
      XorZero(Xor(c, d));
      XorWord(c, d);
      StepsWord(Xor(c, d), 8);
      XorCancels(c, d);
    }
  }

  lemma PairDiffers(c: nat, v: byte, w: byte, v': byte, w': byte)
    requires v != v' || w != w'
    ensures Feed(Feed(c, v), w) != Feed(Feed(c, v'), w')
  {
    hide Xor, Steps, Feed;
    var d, e := Xor(v as nat, v' as nat), Xor(w as nat, w' as nat);
    FeedLinear(c, c, v, v');
    XorSelf(c);
    XorZero(d);
    assert Xor(Feed(c, v), Feed(c, v')) == Steps(d, 8);
    FeedLinear(Feed(c, v), Feed(c, v'), w, w');
    assert d < 256 && e < 256 by { XorByte(v, v'); XorByte(w, w'); }
    if d == 0 { XorCancels(v as nat, v' as nat); }
    if e == 0 { XorCancels(w as nat, w' as nat); }
    PairLeavesTrace(d, e);
    XorSelf(Feed(Feed(c, v), w));
  }

  lemma XorByte(v: byte, w: byte)
    ensures Xor(v as nat, w as nat) < 256
  {
    assert Pow2(4) == 16;
    assert Pow2(8) == 256;
    XorBound(v as nat, w as nat, 8);
  }

  /** A change confined to two neighbouring bytes always changes the checksum. */
  lemma AdjacentChangeSeen(p: seq<byte>, q: seq<byte>, i: nat)
    requires DifferAt(p, q, i) && p != q && i + 2 <= |p|
    ensures Crc(p) != Crc(q)
  {
    hide Xor, Steps, Feed;
    assert p[..i] == q[..i];
    var c := Crc(p[..i]);
    assert p[..i + 2][..i + 1] == p[..i + 1] && p[..i + 1][..i] == p[..i];
    assert q[..i + 2][..i + 1] == q[..i + 1] && q[..i + 1][..i] == q[..i];
    PairDiffers(c, p[i], p[i + 1], q[i], q[i + 1]);
    Tail(p, q, i, |p|);
    assert p[..|p|] == p && q[..|q|] == q;
  }

  lemma OneByte(p: seq<byte>, q: seq<byte>)
    requires |p| == |q| == 1 && p[0] != q[0]
    ensures Crc(p) != Crc(q)
  {
    hide Xor, Steps, Feed;
    assert p[..0] == [] == q[..0];
    assert Crc(p) == Feed(0, p[0]) && Crc(q) == Feed(0, q[0]);
    XorByte(p[0], q[0]);
    assert Xor(0, 0) == 0 by { XorSelf(0); }
    XorZero(Xor(p[0] as nat, q[0] as nat));
    if Crc(p) == Crc(q) {
      FeedLinear(0, 0, p[0], q[0]);
      XorSelf(Crc(p));
      StepsWord(Xor(p[0] as nat, q[0] as nat), 8);
      XorCancels(p[0] as nat, q[0] as nat);
    }
  }

  /** A change confined to positions `i` and `i + 1`, wherever they fall in the input, always changes the checksum. */
  lemma NearbyChangeSeen(p: seq<byte>, q: seq<byte>, i: nat)
    requires DifferAt(p, q, i) && p != q
    ensures Crc(p) != Crc(q)
  {
    hide Crc;
    if i + 2 <= |p| {
      AdjacentChangeSeen(p, q, i);
    } else if |p| == 1 {
      OneByte(p, q);
    } else {
      AdjacentChangeSeen(p, q, |p| - 2);
    }
  }
}
