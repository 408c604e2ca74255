/**
 Fixed-point arithmetic: prices, quantities and cash are integers scaled by SCALE.

 The product of a price and a quantity is rounded half away from zero.  The narrow build
 promotes to a wider integer and divides; the wide build has no wider integer to promote
 to, so it splits both factors at the scale and recombines checked partial products.
 Here both are written down, and the second is proved to be the first.
 */
module FixedPoint {

  datatype Checked = Fits(value: int) | Overflow

  const SCALE: int := 1_000_000_000

  // The two integers a raw value can be stored in.
  const I64_MAX: int := 0x7fff_ffff_ffff_ffff
  const I64_MIN: int := -I64_MAX - 1
  const I128_MAX: int := 0x7fff_ffff_ffff_ffff_ffff_ffff_ffff_ffff
  const I128_MIN: int := -I128_MAX - 1

  function Abs(x: int): nat {
    if x < 0 then -x else x
  }

  function Min(a: int, b: int): int {
    if a <= b then a else b
  }

  function Max(a: int, b: int): int {
    if a <= b then b else a
  }

  // Rust's `/` and `%` truncate toward zero.

  function TruncDiv(n: int, d: int): (q: int)
    requires d > 0
  {
    if n >= 0 then n / d else -((-n) / d)
  }

  function TruncMod(n: int, d: int): (r: int)
    requires d > 0
  {
    n - d * TruncDiv(n, d)
  }

  /** Truncation brackets the quotient on the side of zero, and the remainder keeps the sign. */
  lemma TruncDivBounds(n: int, d: int)
    requires d > 0
    ensures n == d * TruncDiv(n, d) + TruncMod(n, d)
    ensures Abs(TruncMod(n, d)) < d
    ensures n >= 0 ==> TruncMod(n, d) >= 0 && TruncDiv(n, d) >= 0
    ensures n <= 0 ==> TruncMod(n, d) <= 0 && TruncDiv(n, d) <= 0
  {
  }

  /** The promote-and-divide rounding: half a divisor is added away from zero, then truncated. */
  function RoundDiv(n: int, d: int): (q: int)
    requires d > 0
  {
    if n >= 0 then TruncDiv(n + d / 2, d) else TruncDiv(n - d / 2, d)
  }

  /** What "rounded half away from zero" means, without saying how it is computed. */
  predicate IsHalfAway(q: int, n: int, d: int)
    requires d > 0
  {
    && 2 * Abs(q * d - n) <= d
    && (2 * Abs(q * d - n) == d ==> Abs(n) <= Abs(q * d))
  }

  /** A multiple of a positive divisor is zero or at least one divisor away from it. */
  lemma MultipleGap(k: int, d: int)
    requires d > 0
    ensures k >= 1 ==> k * d >= d
    ensures k <= -1 ==> k * d <= -d
    ensures (-k) * d == -(k * d)
  {
  }

  lemma EuclidIsUnique(d: int, q: int, r: int, q': int, r': int)
    requires 0 <= r < d && 0 <= r' < d && q * d + r == q' * d + r'
    ensures q == q' && r == r'
  {
    assert (q - q') * d == q * d - q' * d;
    MultipleGap(q - q', d);
  }

  lemma HalfAwayFromEuclid(q: int, r: int, n: int, h: int, d: int)
    requires n >= 0 && d == 2 * h && n + h == q * d + r && 0 <= r < d
    ensures IsHalfAway(q, n, d)
  {
  }

  /** For an even divisor the computation meets the meaning. */
  lemma RoundDivIsHalfAway(n: int, d: int)
    requires d > 0 && d % 2 == 0
    ensures IsHalfAway(RoundDiv(n, d), n, d)
  {
    var h := d / 2;
    if n >= 0 {
      HalfAwayFromEuclid((n + h) / d, (n + h) % d, n, h, d);
    } else {
      var q := (-n + h) / d;
      HalfAwayFromEuclid(q, (-n + h) % d, -n, h, d);
      MultipleGap(q, d);
      assert RoundDiv(n, d) == -q;
    }
  }

  lemma HalfAwayBracket(q: int, n: int, d: int)
    requires d > 0 && n >= 0 && IsHalfAway(q, n, d)
    ensures 0 <= 2 * n + d - q * (2 * d) < 2 * d
  {
    assert q * (2 * d) == 2 * (q * d);
    MultipleGap(q, d);
  }

  lemma HalfAwayIsUniqueAboveZero(q: int, q': int, n: int, d: int)
    requires d > 0 && n >= 0 && IsHalfAway(q, n, d) && IsHalfAway(q', n, d)
    ensures q == q'
  {
    HalfAwayBracket(q, n, d);
    HalfAwayBracket(q', n, d);
    EuclidIsUnique(2 * d, q, 2 * n + d - q * (2 * d), q', 2 * n + d - q' * (2 * d));
  }

  /** The meaning admits one answer only. */
  lemma HalfAwayIsUnique(q: int, q': int, n: int, d: int)
    requires d > 0 && IsHalfAway(q, n, d) && IsHalfAway(q', n, d)
    ensures q == q'
  {
    if n >= 0 {
      HalfAwayIsUniqueAboveZero(q, q', n, d);
    } else {
      MultipleGap(q, d);
      MultipleGap(q', d);
      HalfAwayIsUniqueAboveZero(-q, -q', -n, d);
    }
  }

  /** `price * qty` in one scale, without a range. */
  function Notional(price: int, qty: int): (m: int) {
    RoundDiv(price * qty, SCALE)
  }

  function Narrow(value: int, min: int, max: int): (r: Checked) {
    if min <= value <= max then Fits(value) else Overflow
  }

  /** The narrow build: an exact product, rounded, then narrowed back to 64 bits. */
  function NotionalNarrow(price: int, qty: int): (r: Checked) {
    Narrow(Notional(price, qty), I64_MIN, I64_MAX)
  }

  // Checked arithmetic in 128 bits.

  function CheckedMul(a: int, b: int): (r: Checked) {
    Narrow(a * b, I128_MIN, I128_MAX)
  }

  function CheckedAdd(a: int, b: int): (r: Checked) {
    Narrow(a + b, I128_MIN, I128_MAX)
  }

  function Then(r: Checked, f: int -> Checked): Checked {
    match r
    case Fits(v) => f(v)
    case Overflow => Overflow
  }

  /** The wide build: split both factors at the scale and recombine, checking every step. */
  function NotionalWide(a: int, b: int): (r: Checked) {
    var aw, ar := TruncDiv(a, SCALE), TruncMod(a, SCALE);
    var bw, br := TruncDiv(b, SCALE), TruncMod(b, SCALE);
    var whole := Then(CheckedMul(aw, bw), v => CheckedMul(v, SCALE));
    var cross := Then(CheckedMul(aw, br), v => Then(CheckedMul(ar, bw), w => CheckedAdd(v, w)));
    var sum := Then(whole, v => Then(cross, w => CheckedAdd(v, w)));
    Then(sum, v => CheckedAdd(v, RoundDiv(ar * br, SCALE)))
  }

  lemma ProductSign(a: int, b: int)
    ensures (a >= 0 && b >= 0) || (a <= 0 && b <= 0) ==> a * b >= 0
    ensures (a >= 0 && b <= 0) || (a <= 0 && b >= 0) ==> a * b <= 0
  {
  }

  /** Rounding commutes with adding whole units that do not pull against the fraction. */
  lemma RoundDivShift(k: int, n: int, d: int)
    requires d > 0
    requires (k >= 0 && n >= 0) || (k <= 0 && n <= 0)
    ensures RoundDiv(k * d + n, d) == k + RoundDiv(n, d)
  {
    if k >= 0 && n >= 0 {
      RoundDivShiftUp(k, n, d);
    } else {
      RoundDivShiftUp(-k, -n, d);
      MultipleGap(k, d);
      RoundDivOdd(k * d + n, d);
      RoundDivOdd(n, d);
    }
  }

  lemma RoundDivShiftUp(k: nat, n: nat, d: int)
    requires d > 0
    ensures RoundDiv(k * d + n, d) == k + RoundDiv(n, d)
  {
    ProductSign(k, d);
    QuotientShift(k, n + d / 2, d);
    assert k * d + (n + d / 2) == k * d + n + d / 2;
  }

  /** Rounding treats the two signs alike. */
  lemma RoundDivOdd(n: int, d: int)
    requires d > 0
    ensures RoundDiv(-n, d) == -RoundDiv(n, d)
  {
    if n == 0 {
      QuotientIsUnique(d / 2, d, 0, d / 2);
    }
  }

  lemma QuotientShift(k: nat, n: nat, d: int)
    requires d > 0
    ensures (k * d + n) / d == k + n / d
  {
    var q, r := n / d, n % d;
    assert k * d + n == (k + q) * d + r;
    QuotientIsUnique(k * d + n, d, k + q, r);
  }

  lemma QuotientIsUnique(n: int, d: int, q: int, r: int)
    requires d > 0 && 0 <= r < d && n == q * d + r
    ensures n / d == q && n % d == r
  {
    EuclidIsUnique(d, n / d, n % d, q, r);
  }

  /** Rounding down to a multiple loses less than one of them. */
  lemma FloorToMultiple(x: int, d: int)
    requires d > 0
    ensures 0 <= x - (x / d) * d < d && ((x / d) * d) % d == 0
  {
    var q := x / d;
    assert x == d * q + x % d && d * q == q * d;
    QuotientIsUnique(q * d, d, q, 0);
  }

  /** A rounded fraction lies on the side of zero its numerator lies on. */
  lemma RoundDivSign(n: int, d: int)
    requires d > 0
    ensures n >= 0 ==> RoundDiv(n, d) >= 0
    ensures n <= 0 ==> RoundDiv(n, d) <= 0
  {
    if n == 0 {
      assert (d / 2) / d == 0;
    }
  }

  /** A step toward a total from zero fits whenever the total does. */
  lemma PartialFits(part: int, total: int)
    requires 0 <= part <= total || total <= part <= 0
    requires I128_MIN <= total <= I128_MAX
    ensures Narrow(part, I128_MIN, I128_MAX) == Fits(part)
  {
  }

  lemma SplitProduct(aw: int, ar: int, bw: int, br: int)
    ensures (SCALE * aw + ar) * (SCALE * bw + br)
         == (aw * bw * SCALE + (aw * br + ar * bw)) * SCALE + ar * br
  {
    var s := SCALE;
    assert (s * aw + ar) * (s * bw + br) == s * aw * (s * bw + br) + ar * (s * bw + br);
    assert s * aw * (s * bw + br) == (aw * bw * s) * s + (aw * br) * s;
    assert ar * (s * bw + br) == (ar * bw) * s + ar * br;
  }

  /**
   The wide product is the promote-and-divide product, for all signs, and it reports an
   overflow exactly when that rounded product does not fit: neither the whole part, nor the
   cross terms, nor any partial sum overflows on its own.
   */
  lemma WideNotionalIsExact(a: int, b: int)
    ensures NotionalWide(a, b) == Narrow(Notional(a, b), I128_MIN, I128_MAX)
  {
    var aw, ar := TruncDiv(a, SCALE), TruncMod(a, SCALE);
    var bw, br := TruncDiv(b, SCALE), TruncMod(b, SCALE);
    TruncDivBounds(a, SCALE);
    TruncDivBounds(b, SCALE);
    var ww, wr, rw, fine := aw * bw, aw * br, ar * bw, ar * br;
    var whole, cross, rounded := ww * SCALE, wr + rw, RoundDiv(fine, SCALE);
    var total := whole + cross + rounded;
    SplitProduct(aw, ar, bw, br);
    assert a * b == (whole + cross) * SCALE + fine;
    ProductSign(aw, bw); ProductSign(aw, br); ProductSign(ar, bw); ProductSign(ar, br);
    RoundDivSign(fine, SCALE);
    RoundDivShift(whole + cross, fine, SCALE);
    assert Notional(a, b) == total;
    if I128_MIN <= total <= I128_MAX {
      PartialFits(ww, total);
      PartialFits(whole, total);
      PartialFits(wr, total);
      PartialFits(rw, total);
      PartialFits(cross, total);
      PartialFits(whole + cross, total);
    }
  }

  /** Wherever the narrow build answers, the wide build gives the same answer. */
  lemma WideAgreesWithNarrow(a: int, b: int)
    requires NotionalNarrow(a, b).Fits?
    ensures NotionalWide(a, b) == NotionalNarrow(a, b)
  {
    WideNotionalIsExact(a, b);
  }

  lemma AbsOfProduct(x: int, y: int)
    ensures Abs(x * y) == Abs(x) * Abs(y)
    ensures (x >= 0) == (y >= 0) ==> x * y == Abs(x) * Abs(y)
    ensures (x >= 0) != (y >= 0) ==> x * y == -(Abs(x) * Abs(y))
    ensures x == 0 || y == 0 ==> x * y == 0
  {
    if x < 0 && y >= 0 {
      assert (-x) * y == -(x * y);
    } else if x >= 0 && y < 0 {
      assert x * (-y) == -(x * y);
    } else if x < 0 && y < 0 {
      assert (-x) * (-y) == x * y;
    }
  }

  /** One rounding moves a product by at most half a unit of scale. */
  lemma NotionalError(price: int, qty: int)
    ensures IsHalfAway(Notional(price, qty), price * qty, SCALE)
    ensures 2 * Abs(SCALE * Notional(price, qty) - price * qty) <= SCALE
  {
    RoundDivIsHalfAway(price * qty, SCALE);
  }

  /** Whole contracts are priced without rounding. */
  lemma NotionalOfWhole(price: int, contracts: int)
    ensures Notional(price, contracts * SCALE) == price * contracts
  {
    assert price * (contracts * SCALE) == (price * contracts) * SCALE;
    RoundDivShift(price * contracts, 0, SCALE);
  }
}
