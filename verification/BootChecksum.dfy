/**
 The Amiga boot-block checksum: a 32-bit sum with end-around carry.  The validator accepts a block whose sum is all
 ones; the fixture builder patches word 1 to make it so.
 */
module BootChecksum {
  import opened Bytes

  const WORD := 0x1_0000_0000
  const ONES := 0xFFFF_FFFF

  type word = w: int | 0 <= w < WORD

  /** One step of the carry sum: wrap at 32 bits, and add the carry back when the sum wrapped. */
  function AddCarry(total: word, value: word): word {
    var sum := (total + value) % WORD;
    if sum < total then (sum + 1) % WORD else sum
  }

  function CarrySum(words: seq<word>): word {
    if words == [] then 0 else AddCarry(CarrySum(words[..|words| - 1]), words[|words| - 1])
  }

  /** The plain sum, unbounded. */
  function Sum(words: seq<word>): nat {
    if words == [] then 0 else Sum(words[..|words| - 1]) + words[|words| - 1]
  }

  /** The representative of `n` modulo 2^32 - 1 that is 0 only for 0. */
  function Residue(n: nat): (r: word)
    ensures r == 0 <==> n == 0
  {
    if n == 0 then 0 else (n - 1) % ONES + 1
  }

  lemma StepIsModular(n: nat, value: word)
    ensures AddCarry(Residue(n), value) == Residue(n + value)
  {
    if n > 0 {
      var q, t := (n - 1) / ONES, Residue(n);
      CarryOnce(t, value);
      ResidueSplits(n);
      hide Residue, AddCarry;
      if t + value <= ONES {
        ResidueIs(n + value, q, t + value);
      } else {
        ResidueIs(n + value, q + 1, t + value - ONES);
      }
    } else if value > 0 {
      ResidueIs(value, 0, value);
    }
  }

  lemma CarryOnce(t: word, value: word)
    requires 1 <= t
    ensures AddCarry(t, value) == if t + value <= ONES then t + value else t + value - ONES
  {
  }

  /** The residue in 1..ONES is unique. */
  lemma ResidueIs(n: nat, q: nat, t: word)
    requires n == q * ONES + t && 1 <= t <= ONES
    ensures Residue(n) == t
  {
    ModUnique(n - 1, q, t - 1);
  }

  lemma ResidueSplits(n: nat)
    requires n > 0
    ensures n == (n - 1) / ONES * ONES + Residue(n) && 1 <= Residue(n) <= ONES
  {
  }

  lemma ModUnique(n: nat, q: nat, r: nat)
    requires n == q * ONES + r && r < ONES
    ensures n % ONES == r
  {
  }

  /** The carry sum of any words is 0 if all are 0, else the representative in 1..2^32-1 of their sum modulo 2^32-1. */
  lemma {:induction false} CarrySumIsResidue(words: seq<word>)
    ensures CarrySum(words) == Residue(Sum(words))
  {
    if words != [] {
      var init := words[..|words| - 1];
      CarrySumIsResidue(init);
      StepIsModular(Sum(init), words[|words| - 1]);
    }
  }

  /** The sum is 0 exactly when every word is. */
  lemma {:induction false} SumIsZero(words: seq<word>)
    ensures Sum(words) == 0 <==> forall i | 0 <= i < |words| :: words[i] == 0
  {
    if words != [] {
      SumIsZero(words[..|words| - 1]);
    }
  }

  lemma {:induction false} SumOfUpdate(words: seq<word>, i: nat, value: word)
    requires i < |words|
    ensures Sum(words[i := value]) == Sum(words) - words[i] + value
  {
    var k := |words| - 1;
    var updated := words[i := value];
    if i == k {
      assert updated[..k] == words[..k];
    } else {
      assert updated[..k] == words[..k][i := value];
      SumOfUpdate(words[..k], i, value);
    }
  }

  /** `~total & 0xFFFFFFFF`. */
  function Complement(total: word): word {
    ONES - total
  }

  /** `_boot_checksum` of the fixture builder: word 1 becomes the complement of the sum taken with word 1 cleared. */
  function Patched(words: seq<word>): seq<word>
    requires |words| == 256
  {
    words[1 := Complement(CarrySum(words[1 := 0]))]
  }

  predicate Accepts(words: seq<word>) {
    |words| == 256 && CarrySum(words) == ONES
  }

  /** Patching word 1 always makes the validator accept. */
  lemma PatchedIsAccepted(words: seq<word>)
    requires |words| == 256
    ensures Accepts(Patched(words))
  {
    hide CarrySum, Sum;
    var cleared := words[1 := 0];
    var t := CarrySum(cleared);
    CarrySumIsResidue(cleared);
    CarrySumIsResidue(Patched(words));
    assert Patched(words) == cleared[1 := Complement(t)];
    SumOfUpdate(cleared, 1, Complement(t));
    var n := Sum(cleared);
    if n == 0 {
      ModUnique(ONES - 1, 0, ONES - 1);
    } else {
      var q := (n - 1) / ONES;
      assert n + (ONES - t) - 1 == q * ONES + (ONES - 1);
      ModUnique(n + (ONES - t) - 1, q, ONES - 1);
    }
  }

  /** The validator accepts exactly the blocks whose words sum to a positive multiple of 2^32-1. */
  lemma AcceptedIffSumVanishes(words: seq<word>)
    requires |words| == 256
    ensures Accepts(words) <==> Sum(words) > 0 && Sum(words) % ONES == 0
  {
    hide CarrySum, Sum;
    CarrySumIsResidue(words);
    var n := Sum(words);
    if n > 0 {
      var q, r := n / ONES, n % ONES;
      if r == 0 {
        ModUnique(n - 1, q - 1, ONES - 1);
      } else {
        ModUnique(n - 1, q, r - 1);
      }
    }
  }

  /** The words of a block, big-endian. */
  function Words(block: seq<byte>, n: nat): (r: seq<word>)
    requires 4 * n <= |block|
    ensures |r| == n
  {
    if n == 0 then [] else Words(block, n - 1) + [Be32(block, 4 * (n - 1))]
  }

  /** `_boot_checksum` on the boot block's words, in place. */
  method PatchBootBlock(image: array<word>)
    requires image.Length == 256
    modifies image
    ensures image[..] == Patched(old(image[..]))
  {
    image[1] := 0;
    ghost var cleared := old(image[..])[1 := 0];
    assert image[..] == cleared;
    var total: word, n := 0, 0;
    while n < 256
      invariant n <= 256 && image[..] == cleared && total == CarrySum(cleared[..n])
    {
      assert cleared[..n + 1][..n] == cleared[..n];
      var previous := total;
      total := (total + image[n]) % WORD;
      if total < previous {
        total := (total + 1) % WORD;
      }
      n := n + 1;
    }
    assert cleared[..256] == cleared;
    image[1] := Complement(total);
  }

  /** `_amiga_boot_checksum`: `previous` detects the wrap. */
  method BootBlockValid(block: seq<byte>) returns (valid: bool)
    ensures valid <==> |block| == 1024 && Accepts(Words(block, 256))
  {
    if |block| != 1024 {
      return false;
    }
    hide Be32;
    var total: word, n := 0, 0;
    while n < 256
      invariant n <= 256 && total == CarrySum(Words(block, n))
    {
      assert Words(block, n + 1)[..n] == Words(block, n);
      var previous := total;
      total := (total + Be32(block, 4 * n)) % WORD;
      if total < previous {
        total := (total + 1) % WORD;
      }
      n := n + 1;
    }
    return total == ONES;
  }
}
