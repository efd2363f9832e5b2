/**
 * Compressed amounts of money (blockchain/compress.go).  Amounts are unsigned 64-bit integers, and so are
 * compressed amounts: what does not fit is cut off.
 */
module Amounts {
  import opened Primitives

  function Pow10(e: nat): (p: nat)
    ensures p >= 1
  {
    if e == 0 then 1 else 10 * Pow10(e - 1)
  }

  /** Take up to nine zeroes off the end. */
  function Strip(a: nat, e: nat): (r: (nat, nat))
    requires a > 0 && e <= 9
    ensures r.0 > 0 && r.1 <= 9 && (r.1 < 9 ==> r.0 % 10 != 0) && r.0 <= a
  {
    if a % 10 == 0 && e < 9 then Strip(a / 10, e + 1) else (a, e)
  }

  /** Put e zeroes at the end. */
  function Raise(n: nat, e: nat): nat
    decreases e
  {
    if e == 0 then n else Raise(n * 10, e - 1)
  }

  /** The number that stands for an amount, before it is cut down to 64 bits. */
  function Packed(a: nat): nat {
    if a == 0 then 0
    else
      var (n, e) := Strip(a, 0);
      if e < 9 then 1 + 10 * (9 * (n / 10) + n % 10 - 1) + e else 10 + 10 * (n - 1)
  }

  /** The amount a number stands for, before it is cut down to 64 bits. */
  function Unpacked(x: nat): nat {
    if x == 0 then 0
    else
      var e, m := (x - 1) % 10, (x - 1) / 10;
      var n := if e < 9 then m / 9 * 10 + m % 9 + 1 else m + 1;
      Raise(n, e)
  }

  /** compressTxOutAmount. */
  function CompressAmount(a: uint64): uint64 {
    Packed(a) % TWO_64
  }

  /** decompressTxOutAmount. */
  function DecompressAmount(x: nat): uint64 {
    Unpacked(x) % TWO_64
  }

  // --- Without the cut

  lemma {:induction false} StripThenRaise(a: nat, e: nat)
    requires a > 0 && e <= 9
    ensures var (n, f) := Strip(a, e); e <= f && Raise(n, f) == Raise(a, e)
  {
    if a % 10 == 0 && e < 9 {
      StripThenRaise(a / 10, e + 1);
    }
  }

  lemma AmountFields(n: nat, e: nat)
    requires n > 0 && e < 9 && n % 10 != 0
    ensures var m := 9 * (n / 10) + n % 10 - 1; m >= 0 && m / 9 * 10 + m % 9 + 1 == n
    ensures var m := 9 * (n / 10) + n % 10 - 1; (10 * m + e) % 10 == e && (10 * m + e) / 10 == m
  {
  }

  /** A packed amount is taken apart into the digits and the zeroes it was put together from. */
  lemma UnpackDigit(n: nat, e: nat, m: nat)
    requires n > 0 && e < 9 && n % 10 != 0 && m == 9 * (n / 10) + n % 10 - 1
    ensures Unpacked(1 + 10 * m + e) == Raise(n, e)
  {
    AmountFields(n, e);
    var x := 1 + 10 * m + e;
    assert x - 1 == 10 * m + e;
  }

  lemma UnpackNine(n: nat)
    requires n > 0
    ensures Unpacked(10 + 10 * (n - 1)) == Raise(n, 9)
  {
    var x := 10 + 10 * (n - 1);
    assert x - 1 == 10 * (n - 1) + 9 && (x - 1) % 10 == 9 && (x - 1) / 10 == n - 1;
  }

  lemma PackedRoundTrip(a: nat)
    ensures Unpacked(Packed(a)) == a
  {
    if a > 0 {
      var (n, e) := Strip(a, 0);
      StripThenRaise(a, 0);
      if e < 9 {
        UnpackDigit(n, e, 9 * (n / 10) + n % 10 - 1);
      } else {
        UnpackNine(n);
      }
    }
  }

  // --- What the cut does

  /** The largest amount that does not end in zero and whose packed form has 64 bits. */
  const LARGEST_PACKED := 2_049_638_230_412_172_402

  const NANO_SOTER_PER_SOTER := 1_000_000_000

  /** The largest amount a transaction may move. */
  const MAX_NANO_SOTER := 2_100_000 * NANO_SOTER_PER_SOTER

  /** Nothing is cut off. */
  predicate AmountFits(a: nat) {
    a % 10 == 0 || a <= LARGEST_PACKED
  }

  lemma PackedFits(a: uint64)
    ensures Packed(a) < TWO_64 <==> AmountFits(a)
    ensures a % 10 != 0 ==> Packed(a) == 9 * a + a % 10 - 9
  {
    if a % 10 == 0 && a > 0 {
      assert Strip(a, 0) == Strip(a / 10, 1);
    }
  }

  lemma {:induction false} RaiseIs(n: nat, e: nat)
    ensures Raise(n, e) == n * Pow10(e)
    decreases e
  {
    if e > 0 {
      RaiseIs(n * 10, e - 1);
    }
  }

  /** The digits and zeroes read from a packed amount that has lost 10 * (9 * hi + lo) - e. */
  lemma CutDigits(a: nat, x: nat, hi: nat, lo: nat, e: nat)
    requires a % 10 != 0 && lo < 9 && e < 9 && x >= 1 && x == 9 * a + a % 10 - 9 - (10 * (9 * hi + lo) - e)
    ensures (x - 1) % 10 == e
    ensures var m := (x - 1) / 10; var n := m / 9 * 10 + m % 9 + 1;
      n == a - (10 * hi + lo) || n == a - (10 * hi + lo) - 1
  {
    var m := 9 * (a / 10) + a % 10 - 1 - (9 * hi + lo);
    assert x - 1 == 10 * m + e;
    assert (x - 1) / 10 == m;
  }

  lemma Factor(u: int, p: int, a: int, b: int, w: int, v: int)
    requires p * u == 1 + v * TWO_64 && p * a == b + w * TWO_64
    ensures a == u * b + (u * w - v * a) * TWO_64
  {
    assert u * (p * a) == u * b + u * w * TWO_64;
    assert u * (p * a) == p * u * a == a + v * a * TWO_64;
  }

  lemma SameRest(a: nat, b: nat, z: int)
    requires a < TWO_64 && b < TWO_64 && a == b + z * TWO_64
    ensures a == b
  {
  }

  /**
   * Taking `cut` off and multiplying by p + 1 leads back to the amount for one amount only, because p can
   * be divided out modulo 2^64.
   */
  lemma OnlyOne(a: uint64, n: nat, cut: nat, p: nat, u: nat, v: nat, r: Rest)
    requires n == a - cut && p * u == 1 + v * TWO_64 && n * (p + 1) % TWO_64 == a
    requires r.rest < TWO_64 && u * (cut * (p + 1)) == r.rest + r.times * TWO_64
    ensures a == r.rest
  {
    var w := n * (p + 1) / TWO_64;
    assert n * (p + 1) == a + w * TWO_64;
    assert n * (p + 1) == a * p + a - cut * (p + 1);
    assert p * a == cut * (p + 1) + w * TWO_64;
    Factor(u, p, a, cut * (p + 1), w, v);
    assert r.times * TWO_64 + (u * w - v * a) * TWO_64 == (r.times + u * w - v * a) * TWO_64;
    SameRest(a, r.rest, r.times + u * w - v * a);
  }

  /** An amount whose packed form has lost k times 2^64 lies between k and k + 1 ninths of 2^64. */
  predicate InNinth(a: nat, k: nat) {
    k * 2_049_638_230_412_172_401 <= a <= (k + 1) * 2_049_638_230_412_172_403
  }

  /** A number as quotient and rest modulo 2^64. */
  datatype Rest = Rest(rest: nat, times: nat)

  /**
   * k times 2^64 is 10 * (9 * hi + lo) - e, p is 10^e - 1 with the inverse u modulo 2^64, and neither of the
   * two amounts that would be read back lies in the k-th ninth.
   */
  predicate Incompatible(k: nat, hi: nat, lo: nat, e: nat, p: nat, u: nat, v: nat, r: Rest, q: Rest) {
    && lo < 9 && e < 9 && k * TWO_64 == 10 * (9 * hi + lo) - e && p + 1 == Pow10(e) && p * u == 1 + v * TWO_64
    && r.rest < TWO_64 && u * ((10 * hi + lo) * (p + 1)) == r.rest + r.times * TWO_64 && !InNinth(r.rest, k)
    && q.rest < TWO_64 && u * ((10 * hi + lo + 1) * (p + 1)) == q.rest + q.times * TWO_64 && !InNinth(q.rest, k)
  }

  /** It is not read back: neither of the two amounts that would be have lost that much. */
  lemma CutLoses(a: uint64, k: nat, x: nat, hi: nat, lo: nat, e: nat, p: nat, u: nat, v: nat, r: Rest, q: Rest)
    requires a % 10 != 0 && 1 <= x < TWO_64 && x == 9 * a + a % 10 - 9 - k * TWO_64
    requires Incompatible(k, hi, lo, e, p, u, v, r, q)
    ensures DecompressAmount(x) != a
  {
    CutDigits(a, x, hi, lo, e);
    var m := (x - 1) / 10;
    var n := m / 9 * 10 + m % 9 + 1;
    RaiseIs(n, e);
    assert InNinth(a, k);
    if n * (p + 1) % TWO_64 == a {
      OnlyOne(a, n, a - n, p, u, v, if n == a - (10 * hi + lo) then r else q);
    }
  }

  lemma Tens()
    ensures Pow10(2) == 100 && Pow10(4) == 10_000 && Pow10(6) == 1_000_000 && Pow10(8) == 100_000_000
  {
    assert Pow10(4) == 100 * Pow10(2) && Pow10(6) == 100 * Pow10(4) && Pow10(8) == 100 * Pow10(6);
  }

  lemma Lost1(a: uint64, x: nat)
    requires a % 10 != 0 && 1 <= x < TWO_64 && x == 9 * a + a % 10 - 9 - 1 * TWO_64
    ensures DecompressAmount(x) != a
  {
    Tens();
    CutLoses(a, 1, x, 204_963_823_041_217_240, 2, 4, 9_999,
      13_458_245_626_333_751_279, 7_295,
      Rest(15_288_550_632_769_423_584, 14_953_606_251_481_945_867_176),
      Rest(10_300_052_185_393_623_248, 14_953_606_251_481_945_874_472));
  }

  lemma Lost2(a: uint64, x: nat)
    requires a % 10 != 0 && 1 <= x < TWO_64 && x == 9 * a + a % 10 - 9 - 2 * TWO_64
    ensures DecompressAmount(x) != a
  {
    Tens();
    CutLoses(a, 2, x, 409_927_646_082_434_480, 4, 8, 99_999_999,
      300_153_063_250_403_071, 1_627_133,
      Rest(14_480_868_974_329_830_400, 6_670_068_072_231_179_356_278_725),
      Rest(14_781_022_037_580_233_472, 6_670_068_072_231_179_357_905_858));
  }

  lemma Lost3(a: uint64, x: nat)
    requires a % 10 != 0 && 1 <= x < TWO_64 && x == 9 * a + a % 10 - 9 - 3 * TWO_64
    ensures DecompressAmount(x) != a
  {
    Tens();
    CutLoses(a, 3, x, 614_891_469_123_651_720, 5, 2, 99,
      12_670_490_878_911_611_211, 68,
      Rest(1_925_417_731_599_313_468, 422_349_695_963_720_373_677),
      Rest(14_595_908_610_510_924_680, 422_349_695_963_720_373_745));
  }

  lemma Lost4(a: uint64, x: nat)
    requires a % 10 != 0 && 1 <= x < TWO_64 && x == 9 * a + a % 10 - 9 - 4 * TWO_64
    ensures DecompressAmount(x) != a
  {
    Tens();
    CutLoses(a, 4, x, 819_855_292_164_868_960, 7, 6, 999_999,
      1_672_254_362_768_354_751, 90_653,
      Rest(14_161_661_572_577_611_840, 743_224_161_230_379_889_323_260),
      Rest(15_833_915_935_345_966_592, 743_224_161_230_379_889_413_913));
  }

  lemma Lost6(a: uint64, x: nat)
    requires a % 10 != 0 && 1 <= x < TWO_64 && x == 9 * a + a % 10 - 9 - 6 * TWO_64
    ensures DecompressAmount(x) != a
  {
    Tens();
    CutLoses(a, 6, x, 1_229_782_938_247_303_441, 1, 4, 9_999,
      13_458_245_626_333_751_279, 7_295,
      Rest(4_486_081_875_444_583_760, 89_721_637_508_891_675_195_765),
      Rest(17_944_327_501_778_335_040, 89_721_637_508_891_675_203_060));
  }

  lemma Lost7(a: uint64, x: nat)
    requires a % 10 != 0 && 1 <= x < TWO_64 && x == 9 * a + a % 10 - 9 - 7 * TWO_64
    ensures DecompressAmount(x) != a
  {
    Tens();
    CutLoses(a, 7, x, 1_434_746_761_288_520_681, 3, 8, 99_999_999,
      300_153_063_250_403_071, 1_627_133,
      Rest(4_266_028_162_630_124_288, 23_345_238_252_809_127_745_348_407),
      Rest(4_566_181_225_880_527_360, 23_345_238_252_809_127_746_975_540));
  }

  lemma Lost8(a: uint64, x: nat)
    requires a % 10 != 0 && 1 <= x < TWO_64 && x == 9 * a + a % 10 - 9 - 8 * TWO_64
    ensures DecompressAmount(x) != a
  {
    Tens();
    CutLoses(a, 8, x, 1_639_710_584_329_737_921, 4, 2, 99,
      12_670_490_878_911_611_211, 68,
      Rest(7_432_526_512_302_726_184, 1_126_265_855_903_254_329_851),
      Rest(1_656_273_317_504_785_780, 1_126_265_855_903_254_329_920));
  }

  /** An amount whose packed form was cut is not read back. */
  lemma LostAt(a: uint64, k: nat, x: nat)
    requires 1 <= k <= 8 && a % 10 != 0 && 1 <= x < TWO_64 && x == 9 * a + a % 10 - 9 - k * TWO_64
    ensures DecompressAmount(x) != a
  {
    match k
    case 1 => Lost1(a, x);
    case 2 => Lost2(a, x);
    case 3 => Lost3(a, x);
    case 4 => Lost4(a, x);
    case 5 => LostWhole(a, x);
    case 6 => Lost6(a, x);
    case 7 => Lost7(a, x);
    case 8 => Lost8(a, x);
  }

  /** Five times 2^64 is a multiple of ten, so that no zero appears. */
  lemma LostWhole(a: uint64, x: nat)
    requires a % 10 != 0 && 1 <= x < TWO_64 && x == 9 * a + a % 10 - 9 - 5 * TWO_64
    ensures DecompressAmount(x) != a
  {
    CutDigits(a, x, 1_024_819_115_206_086_200, 8, 0);
  }

  /** How often 2^64 is cut off a packed amount. */
  lemma CutCount(a: uint64, x: nat)
    requires a % 10 != 0 && x == 9 * a + a % 10 - 9 && x >= TWO_64
    ensures 1 <= x / TWO_64 <= 8 && x % TWO_64 >= 1 && x % TWO_64 == x - x / TWO_64 * TWO_64
  {
    var k := x / TWO_64;
    assert x == 10 * (9 * (a / 10) + a % 10 - 1) + 1;
    assert x % TWO_64 == x - k * TWO_64;
  }

  lemma Uncut(a: uint64, x: nat)
    requires x < TWO_64 && Unpacked(x) == a
    ensures x % TWO_64 == x && DecompressAmount(x) == a
  {
  }

  lemma Cut(a: uint64, x: nat)
    requires a % 10 != 0 && x == 9 * a + a % 10 - 9 && x >= TWO_64
    ensures DecompressAmount(x % TWO_64) != a
  {
    CutCount(a, x);
    LostAt(a, x / TWO_64, x % TWO_64);
  }

  /**
   * A compressed amount is read back if and only if nothing was cut off: up to LARGEST_PACKED, and beyond
   * that for amounts that end in zero.
   */
  lemma AmountRoundTrip(a: uint64)
    ensures DecompressAmount(CompressAmount(a)) == a <==> AmountFits(a)
  {
    var x := Packed(a);
    PackedFits(a);
    if AmountFits(a) {
      PackedRoundTrip(a);
      Uncut(a, x);
    } else {
      Cut(a, x);
    }
  }

  /** An amount that fits a signed 64-bit integer, and what becomes of it. */
  lemma AmountLost()
    ensures !AmountFits(2_100_000_000_000_000_001)
    ensures DecompressAmount(CompressAmount(2_100_000_000_000_000_001)) == 5_555_605_888_118_086_368
  {
    var a: uint64 := 2_100_000_000_000_000_001;
    PackedFits(a);
    var x := CompressAmount(a);
    assert x == 453_255_926_290_448_385;
    assert (x - 1) % 10 == 4 && (x - 1) / 10 == 45_325_592_629_044_838;
    RaiseIs(50_361_769_587_827_598, 4);
    Tens();
  }
}
