/**
 What a share split does to sizes and prices.

 Both legs truncate toward zero, so value is preserved only to fixed-point resolution.  The
 bounds below say how much can be lost, that size can never be manufactured, and exactly
 when a quote and an order that did not cross before the split cross after it.
 */
module Corporate {
  import opened FixedPoint

  function SplitQuantity(ratio: int, quantity: int): (q: int)
    requires ratio > 0
  {
    TruncDiv(quantity * ratio, SCALE)
  }

  function SplitPrice(ratio: int, price: int): (p: int)
    requires ratio > 0
  {
    TruncDiv(price * SCALE, ratio)
  }

  /** The product of two truncated quotients, against the product of the exact ones. */
  lemma SplitValueArithmetic(q: nat, p: nat, r: int, s: int, q': nat, p': nat, a: int, b: int)
    requires r > 0 && s > 0
    requires q * r == s * q' + a && 0 <= a < s
    requires p * s == r * p' + b && 0 <= b < r
    ensures (q * p - q' * p') * (r * s) == (s * q') * b + a * (r * p') + a * b
    ensures (s * q') * b <= (r * s) * q' && a * (r * p') <= (r * s) * p' && a * b < r * s
    ensures 0 <= (s * q') * b && 0 <= a * (r * p') && 0 <= a * b
  {
    ExpandSplit(q, p, r, s, q', p', a, b);
    assert (s * q') * b <= (r * s) * q' by {
      MulMonotone(s * q', b, r);
      assert (s * q') * r == (r * s) * q';
    }
    assert a * (r * p') <= (r * s) * p' by {
      MulMonotone(r * p', a, s);
      assert (r * p') * s == (r * s) * p' && (r * p') * a == a * (r * p');
    }
    assert a * b < r * s by {
      MulMonotone(a, b, r);
      MulMonotone(r, a, s - 1);
      assert a * r == r * a && r * (s - 1) == r * s - r;
    }
  }

  lemma MulMonotone(k: int, x: int, y: int)
    requires k >= 0 && x <= y
    ensures k * x <= k * y
    ensures x >= 0 ==> k * x >= 0
  {
  }

  lemma ExpandSplit(q: int, p: int, r: int, s: int, q': int, p': int, a: int, b: int)
    requires q * r == s * q' + a && p * s == r * p' + b
    ensures (q * p - q' * p') * (r * s) == (s * q') * b + a * (r * p') + a * b
  {
    assert (q * p) * (r * s) == (q * r) * (p * s);
    assert (q * r) * (p * s) == (s * q' + a) * (r * p' + b);
    assert (s * q' + a) * (r * p' + b) == (s * q') * (r * p') + (s * q') * b + a * (r * p') + a * b;
    assert (s * q') * (r * p') == (q' * p') * (r * s);
    assert (q * p - q' * p') * (r * s) == (q * p) * (r * s) - (q' * p') * (r * s);
  }

  lemma CancelBound(e: int, bound: int, m: int)
    requires m > 0
    ensures e * m >= 0 ==> e >= 0
    ensures e * m < bound * m ==> e < bound
  {
  }

  lemma SplitValueBound(q: nat, p: nat, r: int, s: int, q': nat, p': nat, a: int, b: int)
    requires r > 0 && s > 0
    requires q * r == s * q' + a && 0 <= a < s
    requires p * s == r * p' + b && 0 <= b < r
    ensures 0 <= q * p - q' * p' < q' + p' + 1
  {
    SplitValueArithmetic(q, p, r, s, q', p', a, b);
    var e, m := q * p - q' * p', r * s;
    assert m > 0 && (q' + p' + 1) * m == m * q' + m * p' + m;
    CancelBound(e, q' + p' + 1, m);
  }

  lemma TruncDivOfNat(n: nat, d: int) returns (q: nat, rem: nat)
    requires d > 0
    ensures q == TruncDiv(n, d) && rem < d && n == d * q + rem
  {
    q, rem := n / d, n % d;
  }

  lemma SplitOdd(ratio: int, x: int)
    requires ratio > 0
    ensures Abs(SplitQuantity(ratio, x)) == SplitQuantity(ratio, Abs(x))
    ensures Abs(SplitPrice(ratio, x)) == SplitPrice(ratio, Abs(x))
  {
    if x < 0 {
      assert x * ratio == -(Abs(x) * ratio) && x * SCALE == -(Abs(x) * SCALE);
      TruncDivOdd(Abs(x) * ratio, SCALE);
      TruncDivOdd(Abs(x) * SCALE, ratio);
    }
    ProductSign(Abs(x), ratio);
    TruncDivBounds(Abs(x) * ratio, SCALE);
    TruncDivBounds(Abs(x) * SCALE, ratio);
  }

  /** A split never creates value, long or short, and loses less than one raw unit on each leg. */
  lemma SplitLosesLittleValue(ratio: int, q: int, p: int)
    requires ratio > 0
    ensures var q', p' := SplitQuantity(ratio, q), SplitPrice(ratio, p);
            0 <= Abs(q) * Abs(p) - Abs(q') * Abs(p') < Abs(q') + Abs(p') + 1
  {
    SplitOdd(ratio, q);
    SplitOdd(ratio, p);
    SplitLosesLittleLongValue(ratio, Abs(q), Abs(p));
  }

  lemma SplitLosesLittleLongValue(ratio: int, q: nat, p: nat)
    requires ratio > 0
    ensures var q', p' := SplitQuantity(ratio, q), SplitPrice(ratio, p);
            0 <= q * p - q' * p' < q' + p' + 1
  {
    ProductSign(q, ratio);
    var q', a := TruncDivOfNat(q * ratio, SCALE);
    var p', b := TruncDivOfNat(p * SCALE, ratio);
    SplitValueBound(q, p, ratio, SCALE, q', p', a, b);
  }

  lemma TruncDivMonotone(n: int, n': int, d: int)
    requires d > 0 && n <= n'
    ensures TruncDiv(n, d) <= TruncDiv(n', d)
  {
    TruncDivBounds(n, d);
    TruncDivBounds(n', d);
    var k := TruncDiv(n', d) - TruncDiv(n, d);
    assert k * d == d * TruncDiv(n', d) - d * TruncDiv(n, d);
    MultipleGap(k, d);
  }

  lemma SplitBackArithmetic(q: nat, r: int, r2: int, s: int, q': nat, q'': nat)
    requires r > 0 && r2 > 0 && s > 0 && r * r2 <= s * s
    requires s * q' <= q * r && s * q'' <= q' * r2
    ensures q'' <= q
  {
    assert s * (s * q'') <= s * (q' * r2) by { MulMonotone(s, s * q'', q' * r2); }
    assert s * (q' * r2) <= (q * r) * r2 by {
      assert s * (q' * r2) == r2 * (s * q');
      MulMonotone(r2, s * q', q * r);
    }
    assert (q * r) * r2 <= q * (s * s) by {
      assert (q * r) * r2 == q * (r * r2);
      MulMonotone(q, r * r2, s * s);
    }
    assert (q - q'') * (s * s) >= 0 by {
      assert s * (s * q'') == q'' * (s * s);
      assert (q - q'') * (s * s) == q * (s * s) - q'' * (s * s);
    }
    ProductSign(s, s);
    CancelBound(q - q'', 0, s * s);
  }

  lemma TruncDivOdd(n: int, d: int)
    requires d > 0
    ensures TruncDiv(-n, d) == -TruncDiv(n, d)
  {
  }

  /** Splitting and splitting back by no more than the inverse never manufactures size. */
  lemma SplitBackNeverGrows(r: int, r2: int, q: int)
    requires r > 0 && r2 > 0 && r * r2 <= SCALE * SCALE
    ensures Abs(SplitQuantity(r2, SplitQuantity(r, q))) <= Abs(q)
  {
    if q >= 0 {
      SplitBackFromLong(r, r2, q);
    } else {
      SplitBackFromLong(r, r2, -q);
      TruncDivOdd(-q * r, SCALE);
      assert q * r == -(-q * r);
      var q' := SplitQuantity(r, -q);
      TruncDivOdd(q' * r2, SCALE);
      assert -q' * r2 == -(q' * r2);
    }
  }

  lemma SplitBackFromLong(r: int, r2: int, q: nat)
    requires r > 0 && r2 > 0 && r * r2 <= SCALE * SCALE
    ensures 0 <= SplitQuantity(r2, SplitQuantity(r, q)) <= q
  {
    ProductSign(q, r);
    TruncDivBounds(q * r, SCALE);
    var q' := SplitQuantity(r, q);
    ProductSign(q', r2);
    TruncDivBounds(q' * r2, SCALE);
    SplitBackArithmetic(q, r, r2, SCALE, q', SplitQuantity(r2, q'));
  }

  // ----- Requoting a market -----

  /** Requoting every price by one ratio never inverts two of them. */
  lemma RequotingKeepsOrder(ratio: int, low: int, high: int)
    requires ratio > 0 && low <= high
    ensures SplitPrice(ratio, low) <= SplitPrice(ratio, high)
  {
    TruncDivMonotone(low * SCALE, high * SCALE, ratio);
  }

  lemma QuotientsDiffer(x: nat, y: nat, d: int)
    requires d > 0 && y <= x
    ensures y / d < x / d <==> x % d < x - y
  {
    var qx, qy := x / d, y / d;
    assert x == d * qx + x % d && y == d * qy + y % d;
    assert (qx - qy) * d == d * qx - d * qy;
    MultipleGap(qx - qy, d);
  }

  /**
   Is the gap between two prices wider than what rounding toward zero eats?  On one side of zero
   that is the farther price's remainder; across zero, one of the two must not round to zero.
   */
  predicate GapSurvives(ratio: int, low: int, high: int)
    requires ratio > 0
  {
    if low >= 0 then (high * SCALE) % ratio < (high - low) * SCALE
    else if high <= 0 then (-low * SCALE) % ratio < (high - low) * SCALE
    else high * SCALE >= ratio || -low * SCALE >= ratio
  }

  lemma GapAboveZero(ratio: int, low: nat, high: nat)
    requires ratio > 0 && low < high
    ensures SplitPrice(ratio, low) < SplitPrice(ratio, high)
       <==> (high * SCALE) % ratio < (high - low) * SCALE
  {
    assert (high - low) * SCALE == high * SCALE - low * SCALE;
    QuotientsDiffer(high * SCALE, low * SCALE, ratio);
  }

  lemma SplitPriceOdd(ratio: int, p: int)
    requires ratio > 0
    ensures SplitPrice(ratio, -p) == -SplitPrice(ratio, p)
  {
    assert -p * SCALE == -(p * SCALE);
    TruncDivOdd(p * SCALE, ratio);
  }

  lemma GapAcrossZero(ratio: int, below: nat, above: nat)
    requires ratio > 0
    ensures -SplitPrice(ratio, below) < SplitPrice(ratio, above) <==> above * SCALE >= ratio || below * SCALE >= ratio
  {
    QuotientOfSmall(above * SCALE, ratio);
    QuotientOfSmall(below * SCALE, ratio);
  }

  lemma QuotientOfSmall(n: nat, d: int)
    requires d > 0
    ensures TruncDiv(n, d) > 0 <==> n >= d
  {
    TruncDivBounds(n, d);
    MultipleGap(TruncDiv(n, d), d);
    assert d * TruncDiv(n, d) == TruncDiv(n, d) * d;
  }

  /**
   A split keeps a gap between an order and the opposite quote open exactly when the gap survives
   the rounding.  Otherwise the two round onto one price and an order that was resting becomes
   marketable.  A gap worth the ratio always survives on one side of zero.
   */
  lemma GapSurvivesSplit(ratio: int, low: int, high: int)
    requires ratio > 0 && low < high
    ensures SplitPrice(ratio, low) < SplitPrice(ratio, high) <==> GapSurvives(ratio, low, high)
    ensures (low >= 0 || high <= 0) && (high - low) * SCALE >= ratio ==> GapSurvives(ratio, low, high)
  {
    hide SplitPrice;
    assert (high * SCALE) % ratio < ratio && (-low * SCALE) % ratio < ratio;
    if low >= 0 {
      GapAboveZero(ratio, low, high);
    } else if high <= 0 {
      GapAboveZero(ratio, -high, -low);
      SplitPriceOdd(ratio, low);
      SplitPriceOdd(ratio, high);
    } else {
      GapAcrossZero(ratio, -low, high);
      SplitPriceOdd(ratio, low);
    }
  }

  /** Some gap closes under a ratio exactly when it shrinks prices: a forward split. */
  lemma SplitCanCloseGap(ratio: int)
    requires ratio > 0
    ensures (exists low: int, high: int :: low < high && SplitPrice(ratio, low) == SplitPrice(ratio, high)) <==> ratio > SCALE
  {
    hide SplitPrice;
    if ratio > SCALE {
      SmallestPriceVanishes(ratio);
    } else {
      forall low: int, high: int | low < high ensures SplitPrice(ratio, low) < SplitPrice(ratio, high) {
        GapSurvivesSplit(ratio, low, high);
        WholeGap(high - low);
        WholeGap(high);
      }
    }
  }

  lemma SmallestPriceVanishes(ratio: int)
    requires ratio > SCALE
    ensures SplitPrice(ratio, 0) == 0 && SplitPrice(ratio, 1) == 0
  {
  }

  lemma WholeGap(gap: int)
    ensures gap >= 1 ==> gap * SCALE >= SCALE
  {
  }
}
