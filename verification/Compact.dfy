/**
 * The compact form of difficulty targets (blockchain/difficulty.go): an 8-bit base-256 exponent,
 * a sign bit and a 23-bit mantissa.  Shifts by whole bytes are products and quotients by powers of
 * 256, masks of contiguous bits are remainders and quotients by powers of two.
 */
module Compact {
  import opened Primitives
  import opened Arithmetic

  const SIGN_BIT := 0x80_0000
  const MANTISSA_LIMIT := 0x80_0000
  const EXPONENT_UNIT := 0x100_0000

  function Pow256(k: nat): (p: nat)
    ensures p >= 1
  {
    if k == 0 then 1 else 256 * Pow256(k - 1)
  }

  /** len(n.Bytes()): the number of bytes of the big-endian form without leading zeroes. */
  function ByteLen(n: nat): (k: nat)
    ensures k == 0 <==> n == 0
  {
    if n == 0 then 0 else 1 + ByteLen(n / 256)
  }

  /** Shift left and right by k bytes. */
  function Shl(n: nat, k: nat): nat {
    MulNat(n, Pow256(k));
    n * Pow256(k)
  }

  function Shr(n: nat, k: nat): nat {
    DivNat(n, Pow256(k));
    n / Pow256(k)
  }

  function CompactToBig(compact: uint32): (n: int) {
    var mantissa := compact % MANTISSA_LIMIT;
    var isNegative := compact / SIGN_BIT % 2 != 0;
    var exponent := compact / EXPONENT_UNIT;
    var bn :=
      if exponent <= 3 then Shr(mantissa, 3 - exponent) else Shl(mantissa, exponent - 3);
    if isNegative then -bn else bn
  }

  /** The mantissa the encoder starts from, before the sign bit is looked at. */
  function Leading(n: nat): nat {
    var exponent := ByteLen(n);
    if exponent <= 3 then Shl(n, 3 - exponent) else Shr(n, exponent - 3)
  }

  function BigToCompact(n: nat): (compact: uint32) {
    if n == 0 then 0 else PackLeading(ByteLen(n), Leading(n) % 0x1_0000_0000)
  }

  /** A mantissa that reaches into the sign bit is shifted down a byte and the exponent raised. */
  function PackLeading(exponent: nat, mantissa: uint32): (compact: uint32) {
    if mantissa / SIGN_BIT % 2 != 0 then
      Pack(exponent + 1, mantissa / 256)
    else
      Pack(exponent, mantissa)
  }

  /** uint32(exponent<<24) | mantissa, for a mantissa that leaves the exponent bits clear. */
  function Pack(exponent: nat, mantissa: nat): (compact: uint32) {
    (exponent * EXPONENT_UNIT + mantissa) % 0x1_0000_0000
  }

  const ONE_LSH_256: nat := Pow256(32)

  function CalcWork(bits: uint32): (w: nat) {
    var difficulty := CompactToBig(bits);
    if difficulty <= 0 then 0 else ONE_LSH_256 / (difficulty + 1)
  }

  // --- Powers and quotients

  lemma Pow256Add(a: nat, b: nat)
    ensures Pow256(a + b) == Pow256(a) * Pow256(b)
  {
    if a != 0 {
      Pow256Add(a - 1, b);
      calc {
        Pow256(a + b);
        256 * Pow256(a - 1 + b);
        256 * (Pow256(a - 1) * Pow256(b));
        Pow256(a) * Pow256(b);
      }
    }
  }

  /** A number has k bytes exactly when it lies in [256^(k-1), 256^k). */
  lemma {:induction false} ByteLenBounds(n: nat)
    requires n > 0
    ensures Pow256(ByteLen(n) - 1) <= n < Pow256(ByteLen(n))
  {
    if n >= 256 {
      ByteLenBounds(n / 256);
    } else {
      assert ByteLen(n / 256) == 0;
    }
  }

  lemma {:induction false} ByteLenUnique(n: nat, k: nat)
    requires k > 0 && Pow256(k - 1) <= n < Pow256(k)
    ensures ByteLen(n) == k
  {
    if k == 1 {
      assert ByteLen(n / 256) == 0;
    } else {
      ByteLenUnique(n / 256, k - 1);
    }
  }

  // --- The rounding law

  /** Sign clear, mantissa using its top bits, exponent at least 3. */
  predicate Canonical(c: uint32) {
    && c / SIGN_BIT % 2 == 0
    && 0x8000 <= c % MANTISSA_LIMIT
    && 3 <= c / EXPONENT_UNIT
  }

  /** The three fields of a packed value come back unchanged. */
  lemma PackFields(e: nat, m: nat)
    requires e < 256 && m < MANTISSA_LIMIT
    ensures Pack(e, m) == e * EXPONENT_UNIT + m
    ensures Pack(e, m) % MANTISSA_LIMIT == m
    ensures Pack(e, m) / SIGN_BIT % 2 == 0
    ensures Pack(e, m) / EXPONENT_UNIT == e
  {
  }

  lemma Unpack(c: uint32)
    requires c / SIGN_BIT % 2 == 0
    ensures c == Pack(c / EXPONENT_UNIT, c % MANTISSA_LIMIT)
  {
  }

  /** The value of a canonical encoding is its mantissa times a power of 256. */
  lemma PackedValue(e: nat, m: nat)
    requires 3 <= e < 256 && m < MANTISSA_LIMIT
    ensures CompactToBig(Pack(e, m)) == m * Pow256(e - 3)
  {
    PackFields(e, m);
    if e == 3 {
      assert m / Pow256(0) == m;
    }
  }

  /** Every canonical encoding survives decoding and encoding again. */
  lemma CanonicalRoundTrip(c: uint32)
    requires Canonical(c)
    ensures CompactToBig(c) > 0
    ensures BigToCompact(CompactToBig(c)) == c
  {
    var e, m := c / EXPONENT_UNIT, c % MANTISSA_LIMIT;
    Unpack(c);
    PackedValue(e, m);
    if m >= 0x1_0000 {
      EncodeLong(m, e);
    } else {
      EncodeShort(m, e);
    }
  }

  lemma EncodeFrom(n: nat, e: nat, m: nat)
    requires n > 0 && ByteLen(n) == e && Leading(n) == m && m < 0x100_0000
    ensures BigToCompact(n) == if m < MANTISSA_LIMIT then Pack(e, m) else Pack(e + 1, m / 256)
  {
    LeadingFits(e, m);
  }

  lemma LeadingFits(e: nat, m: nat)
    requires m < 0x100_0000
    ensures m % 0x1_0000_0000 == m
    ensures PackLeading(e, m) == if m < MANTISSA_LIMIT then Pack(e, m) else Pack(e + 1, m / 256)
  {
  }

  /** Three mantissa bytes in use: the number has as many bytes as the exponent says. */
  lemma EncodeLong(m: nat, e: nat)
    requires 3 <= e < 256 && 0x1_0000 <= m < MANTISSA_LIMIT
    ensures m * Pow256(e - 3) > 0
    ensures BigToCompact(m * Pow256(e - 3)) == Pack(e, m)
  {
    var p := Pow256(e - 3);
    var n := m * p;
    assert n > 0 && ByteLen(n) == e by { LengthOf(n, m, 2, e - 3); }
    assert Leading(n) == m by { LeadingOf(n, m, e); }
    EncodeFrom(n, e, m);
  }

  /** Two mantissa bytes in use: the encoder meets the sign bit and moves one byte up. */
  lemma EncodeShort(m: nat, e: nat)
    requires 3 <= e < 256 && 0x8000 <= m < 0x1_0000
    ensures m * Pow256(e - 3) > 0
    ensures BigToCompact(m * Pow256(e - 3)) == Pack(e, m)
  {
    var n := m * Pow256(e - 3);
    assert n > 0 && ByteLen(n) == e - 1 by { LengthOf(n, m, 1, e - 3); }
    assert Leading(n) == m * 256 by {
      if e == 3 {
        assert Pow256(0) == 1 && Pow256(1) == 256;
      } else {
        assert m * (256 * Pow256(e - 4)) == (m * 256) * Pow256(e - 4) by { MulAssoc(m, 256, Pow256(e - 4)); }
        LeadingOf(n, m * 256, e - 1);
      }
    }
    EncodeFrom(n, e - 1, m * 256);
  }

  /** A number of j + 1 bytes times 256^k has j + 1 + k bytes. */
  lemma LengthOf(n: nat, m: nat, j: nat, k: nat)
    requires n == m * Pow256(k) && Pow256(j) <= m < Pow256(j + 1)
    ensures n > 0 && ByteLen(n) == j + 1 + k
  {
    Pow256Add(j, k);
    Pow256Add(j + 1, k);
    MulMono(Pow256(j), m, Pow256(k));
    MulMonoStrict(m, Pow256(j + 1), Pow256(k));
    ByteLenUnique(n, j + 1 + k);
  }

  lemma LeadingOf(n: nat, m: nat, e: nat)
    requires e >= 3 && ByteLen(n) == e && n == m * Pow256(e - 3)
    ensures Leading(n) == m
  {
    if e > 3 {
      MulMonoStrict(m, m + 1, Pow256(e - 3));
      DivUnique(n, Pow256(e - 3), m);
    } else {
      assert Pow256(0) == 1;
    }
  }

  /** n is m followed by k bytes that the encoding drops. */
  predicate Truncated(n: nat, m: nat, k: nat) {
    && 0x8000 <= m < MANTISSA_LIMIT
    && m * Pow256(k) <= n < (m + 1) * Pow256(k)
    && BigToCompact(n) == Pack(k + 3, m)
  }

  /** A number with at least sixteen significant bits is cut to a mantissa above a power of 256. */
  lemma NormalForm(n: nat) returns (m: nat, k: nat)
    requires n >= 0x8000 && ByteLen(n) <= 254
    ensures k < 253 && Truncated(n, m, k)
  {
    var e := ByteLen(n);
    if e <= 3 {
      m, k := NormalFormSmall(n);
    } else {
      var lead := Leading(n);
      assert 0x1_0000 <= lead < 0x100_0000 by { LeadingBounds(n); }
      if lead < MANTISSA_LIMIT {
        m, k := lead, e - 3;
        LeadingBounds(n);
        EncodeFrom(n, e, lead);
      } else {
        m, k := lead / 256, e - 2;
        LeadingBounds(n);
        DropByte(n, lead, e - 3);
        EncodeFrom(n, e, lead);
      }
    }
  }

  lemma NormalFormSmall(n: nat) returns (m: nat, k: nat)
    requires n >= 0x8000 && ByteLen(n) <= 3
    ensures k <= 1 && Truncated(n, m, k)
  {
    SmallLength(n);
    EncodeFrom(n, ByteLen(n), Leading(n));
    assert Pow256(0) == 1 && Pow256(1) == 256;
    if n < MANTISSA_LIMIT {
      m, k := n, 0;
    } else {
      m, k := n / 256, 1;
    }
  }

  lemma DropByte(n: nat, lead: nat, k: nat)
    requires lead * Pow256(k) <= n < (lead + 1) * Pow256(k)
    ensures lead / 256 * Pow256(k + 1) <= n < (lead / 256 + 1) * Pow256(k + 1)
  {
    var m, p := lead / 256, Pow256(k);
    assert Pow256(k + 1) == 256 * p;
    MulAssoc(m, 256, p);
    MulAssoc(m + 1, 256, p);
    MulMono(m * 256, lead, p);
    MulMono(lead + 1, (m + 1) * 256, p);
  }

  lemma SmallLength(n: nat)
    requires n >= 0x8000 && ByteLen(n) <= 3
    ensures ByteLen(n) == (if n < 0x1_0000 then 2 else 3)
    ensures Leading(n) == (if n < 0x1_0000 then n * 256 else n)
    ensures n < 0x100_0000
  {
    assert Pow256(0) == 1 && Pow256(1) == 0x100 && Pow256(2) == 0x1_0000 && Pow256(3) == 0x100_0000;
    ByteLenBounds(n);
  }

  lemma LeadingBounds(n: nat)
    requires n > 0 && ByteLen(n) > 3
    ensures 0x1_0000 <= Leading(n) < 0x100_0000
    ensures Leading(n) * Pow256(ByteLen(n) - 3) <= n < (Leading(n) + 1) * Pow256(ByteLen(n) - 3)
  {
    var k := ByteLen(n) - 3;
    var p := Pow256(k);
    assert Leading(n) == n / p;
    ByteLenBounds(n);
    Pow256Add(2, k);
    Pow256Add(3, k);
    assert Pow256(2) == 0x1_0000 && Pow256(3) == 0x100_0000;
    DivBounds(n, p);
    if n / p < 0x1_0000 {
      MulMono(n / p + 1, 0x1_0000, p);
    } else if n / p >= 0x100_0000 {
      MulMono(0x100_0000, n / p, p);
    }
  }

  /** Numbers below 2^15 are encoded without loss, left-aligned under a small exponent. */
  lemma SmallExact(n: nat)
    requires n < 0x8000
    ensures CompactToBig(BigToCompact(n)) == n
  {
    assert Pow256(0) == 1 && Pow256(1) == 0x100 && Pow256(2) == 0x1_0000 && Pow256(3) == 0x100_0000;
    if n > 0 {
      ByteLenBounds(n);
      if n < 0x80 {
        ByteLenUnique(n, 1);
        EncodeFrom(n, 1, n * 0x1_0000);
        PackFields(1, n * 0x1_0000);
      } else if n < 0x100 {
        ByteLenUnique(n, 1);
        EncodeFrom(n, 1, n * 0x1_0000);
        PackFields(2, n * 0x100);
      } else {
        ByteLenUnique(n, 2);
        EncodeFrom(n, 2, n * 0x100);
        PackFields(2, n * 0x100);
      }
    }
  }

  /**
   * Encoding and decoding a target yields the largest representable value that does not exceed it,
   * and that value has the same encoding.
   */
  lemma EncodingRoundsDown(n: nat, c: uint32)
    requires ByteLen(n) <= 254
    ensures 0 <= CompactToBig(BigToCompact(n)) <= n
    ensures BigToCompact(CompactToBig(BigToCompact(n))) == BigToCompact(n)
    ensures 0 <= CompactToBig(c) <= n ==> CompactToBig(c) <= CompactToBig(BigToCompact(n))
  {
    if n < 0x8000 {
      SmallExact(n);
    } else {
      var m, k := NormalForm(n);
      PackFields(k + 3, m);
      PackedValue(k + 3, m);
      CanonicalRoundTrip(BigToCompact(n));
      if 0 <= CompactToBig(c) <= n {
        NothingBetween(n, m, k, c);
      }
    }
  }

  lemma NothingBetween(n: nat, m: nat, k: nat, c: uint32)
    requires 0x8000 <= m < MANTISSA_LIMIT && m * Pow256(k) <= n < (m + 1) * Pow256(k)
    requires 0 <= CompactToBig(c) <= n
    ensures CompactToBig(c) <= m * Pow256(k)
  {
    var f, e := c % MANTISSA_LIMIT, c / EXPONENT_UNIT;
    if c / SIGN_BIT % 2 != 0 {
      MulNat(m, Pow256(k));
    } else if k == 0 {
      assert Pow256(0) == 1;
    } else {
      AboveSmaller(m, k);
      if e <= 3 {
        ShrShrinks(f, 3 - e);
      } else if e - 3 >= k {
        MultipleBelow(n, m, k, f, e - 3);
      } else {
        SmallerExponent(f, e - 3, k - 1);
      }
    }
  }

  lemma AboveSmaller(m: nat, k: nat)
    requires m >= 0x8000 && k >= 1
    ensures m * Pow256(k) >= 0x80_0000 * Pow256(k - 1) >= 0x80_0000
  {
    MulMono(0x8000, m, Pow256(k));
    MulAssoc(0x8000, 256, Pow256(k - 1));
  }

  lemma ShrShrinks(f: nat, j: nat)
    ensures Shr(f, j) <= f
  {
    DivBounds(f, Pow256(j));
    MulMono(1, Pow256(j), Shr(f, j));
  }

  lemma MultipleBelow(n: nat, m: nat, k: nat, f: nat, j: nat)
    requires j >= k && f * Pow256(j) <= n < (m + 1) * Pow256(k)
    ensures f * Pow256(j) <= m * Pow256(k)
  {
    Pow256Add(j - k, k);
    var g := f * Pow256(j - k);
    assert f * Pow256(j) == g * Pow256(k) by { MulAssoc(f, Pow256(j - k), Pow256(k)); }
    if g > m {
      MulMono(m + 1, g, Pow256(k));
    } else {
      MulMono(g, m, Pow256(k));
    }
  }

  lemma SmallerExponent(f: nat, j: nat, k: nat)
    requires f < 0x80_0000 && j <= k
    ensures f * Pow256(j) <= 0x80_0000 * Pow256(k)
  {
    Pow256Mono(j, k);
    MulMono(Pow256(j), Pow256(k), f);
    MulMono(f, 0x80_0000, Pow256(k));
  }

  lemma Pow256Mono(a: nat, b: nat)
    requires a <= b
    ensures Pow256(a) <= Pow256(b)
  {
    Pow256Add(b - a, a);
    MulMono(1, Pow256(b - a), Pow256(a));
  }

}
