/** The five-step base-two logarithm of blockchain/chainview.go. */
module Log2 {
  import opened Primitives

  function Pow2(k: nat): (p: nat)
    ensures p >= 1
  {
    if k == 0 then 1 else 2 * Pow2(k - 1)
  }

  function Shl(x: nat, k: nat): nat {
    if k == 0 then x else 2 * Shl(x, k - 1)
  }

  function Shr(x: nat, k: nat): nat {
    if k == 0 then x else Shr(x / 2, k - 1)
  }

  /** Bitwise and. */
  function And(a: nat, b: nat): nat {
    if a == 0 || b == 0 then 0 else 2 * And(a / 2, b / 2) + if a % 2 == 1 && b % 2 == 1 then 1 else 0
  }

  const MASKS: seq<uint32> := [0xffff0000, 0xff00, 0xf0, 0xc, 0x2]

  lemma Pow2Mono(a: nat, b: nat)
    requires a <= b
    ensures Pow2(a) <= Pow2(b)
  {
    if a < b {
      Pow2Mono(a, b - 1);
    }
  }

  /** A mask of w ones keeps every number of at most w bits. */
  lemma {:induction false} AndOnes(n: nat, w: nat)
    requires n < Pow2(w)
    ensures And(n, Pow2(w) - 1) == n
  {
    if n != 0 {
      AndOnes(n / 2, w - 1);
    }
  }

  /** A mask shifted up by k bits only sees the number shifted down by k bits. */
  lemma {:induction false} AndShifted(n: nat, m: nat, k: nat)
    ensures And(n, Shl(m, k)) == Shl(And(Shr(n, k), m), k)
  {
    if k > 0 {
      AndShifted(n / 2, m, k - 1);
      AndEven(n, Shl(m, k - 1));
    }
  }

  lemma {:induction false} AndEven(n: nat, m: nat)
    ensures And(n, 2 * m) == 2 * And(n / 2, m)
  {
    assert 2 * m / 2 == m;
  }

  lemma {:induction false} ShlZero(x: nat, k: nat)
    ensures Shl(x, k) == 0 <==> x == 0
  {
    if k > 0 {
      ShlZero(x, k - 1);
    }
  }

  /** What remains of a number of k + j bits once its low k bits are dropped. */
  lemma {:induction false} ShrBounds(n: nat, k: nat, j: nat)
    ensures n < Pow2(k + j) <==> Shr(n, k) < Pow2(j)
  {
    if k > 0 {
      ShrBounds(n / 2, k - 1, j);
    }
  }

  lemma {:induction false} ShrShr(x: nat, r: nat, e: nat)
    ensures Shr(Shr(x, r), e) == Shr(x, r + e)
  {
    if r > 0 {
      ShrShr(x / 2, r - 1, e);
    }
  }

  /** Among numbers below 2^(2e), the mask of the upper e bits detects those of at least 2^e. */
  lemma MaskDetects(n: nat, e: nat)
    requires n < Pow2(2 * e)
    ensures And(n, Shl(Pow2(e) - 1, e)) != 0 <==> n >= Pow2(e)
    ensures Shr(n, e) < Pow2(e)
    ensures n >= Pow2(e) ==> Shr(n, e) != 0
  {
    AndShifted(n, Pow2(e) - 1, e);
    ShrBounds(n, e, e);
    ShrBounds(n, e, 0);
    AndOnes(Shr(n, e), e);
    ShlZero(Shr(n, e), e);
  }

  /** The exponent tried in step i: 16, 8, 4, 2, 1, then 0. */
  function Exponent(i: nat): nat {
    if i == 0 then 16 else Exponent(i - 1) / 2
  }

  lemma Exponents()
    ensures Exponent(1) == 8 && Exponent(2) == 4 && Exponent(3) == 2 && Exponent(4) == 1 && Exponent(5) == 0
  {
    assert Exponent(2) == 4;
    assert Exponent(4) == 1;
  }

  /** Each literal mask is a run of as many ones as the step's exponent, shifted up by as many bits. */
  lemma Masks(i: nat)
    requires i < 5
    ensures MASKS[i] == Shl(Pow2(Exponent(i)) - 1, Exponent(i))
  {
    Exponents();
    ShlIsProduct(Pow2(Exponent(i)) - 1, Exponent(i));
    SmallPowers();
  }

  lemma SmallPowers()
    ensures Pow2(1) == 2 && Pow2(2) == 4 && Pow2(4) == 16 && Pow2(8) == 256 && Pow2(16) == 65536
    ensures Pow2(32) == 0x1_0000_0000
  {
    assert Pow2(4) == 16;
    assert Pow2(6) == 64;
    assert Pow2(8) == 256;
    assert Pow2(12) == 4096 by { assert Pow2(10) == 1024; }
    assert Pow2(16) == 65536 by { assert Pow2(14) == 16384; }
    assert Pow2(20) == 0x10_0000 by { assert Pow2(18) == 0x4_0000; }
    assert Pow2(24) == 0x100_0000 by { assert Pow2(22) == 0x40_0000; }
    assert Pow2(28) == 0x1000_0000 by { assert Pow2(26) == 0x400_0000; }
    assert Pow2(32) == 0x1_0000_0000 by { assert Pow2(30) == 0x4000_0000; }
  }

  lemma {:induction false} ShlIsProduct(x: nat, k: nat)
    ensures Shl(x, k) == x * Pow2(k)
  {
    if k > 0 {
      ShlIsProduct(x, k - 1);
    }
  }

  /** What the loop knows before a step: n is x without its rv lowest bits, and fits in the given bits. */
  ghost predicate Remaining(x: nat, n: nat, rv: nat, bits: nat) {
    && n == Shr(x, rv) && (x != 0 ==> n != 0) && (x == 0 ==> rv == 0)
    && n < Pow2(bits) && rv + bits <= 32
  }

  /** How many bits can be left before step i. */
  function Bits(i: nat): (b: nat) {
    if i < 5 then 2 * Exponent(i) else 1
  }

  lemma BitsHalve(i: nat)
    requires i < 5
    ensures Bits(i) == 2 * Exponent(i) && Bits(i + 1) == Exponent(i)
  {
    Exponents();
  }

  lemma RemainingStep(x: nat, n: nat, rv: nat, e: nat, mask: nat)
    requires mask == Shl(Pow2(e) - 1, e) && Remaining(x, n, rv, 2 * e)
    ensures And(n, mask) != 0 ==> Remaining(x, Shr(n, e), rv + e, e)
    ensures And(n, mask) == 0 ==> Remaining(x, n, rv, e)
  {
    MaskDetects(n, e);
    ShrShr(x, rv, e);
  }

  lemma LogStep(x: nat, n: nat, rv: nat, i: nat, e: nat, mask: nat)
    requires i < 5 && e == Exponent(i) && mask == MASKS[i] && Remaining(x, n, rv, Bits(i))
    ensures And(n, mask) != 0 ==> Remaining(x, Shr(n, e), rv + e, Bits(i + 1))
    ensures And(n, mask) == 0 ==> Remaining(x, n, rv, Bits(i + 1))
  {
    BitsHalve(i);
    Masks(i);
    RemainingStep(x, n, rv, e, mask);
  }

  lemma RemainingFirst(x: uint32)
    ensures Remaining(x, x, 0, Bits(0))
  {
    SmallPowers();
  }

  lemma RemainingLast(x: nat, n: nat, rv: nat)
    requires Remaining(x, n, rv, Bits(5))
    ensures x != 0 ==> rv < 32 && Pow2(rv) <= x < Pow2(rv + 1)
  {
    ShrBounds(x, rv, 0);
    ShrBounds(x, rv, 1);
  }

  method FastLog2Floor(x: uint32) returns (rv: nat)
    ensures x == 0 ==> rv == 0
    ensures x != 0 ==> rv < 32 && Pow2(rv) <= x < Pow2(rv + 1)
  {
    rv := 0;
    var n: nat := x;
    var exponent := 16;
    RemainingFirst(x);
    for i := 0 to 5
      invariant exponent == Exponent(i) && Remaining(x, n, rv, Bits(i))
    {
      LogStep(x, n, rv, i, exponent, MASKS[i]);
      if And(n, MASKS[i]) != 0 {
        rv := rv + exponent;
        n := Shr(n, exponent);
      }
      exponent := exponent / 2;
    }
    RemainingLast(x, n, rv);
  }
}
