/**
 Kalshi's quadratic fee with exchange balance rounding.

 The trade fee is rounded up to a centicent and the cash movement down to a whole cent; what
 that rounding overcharges accumulates per order and is handed back a cent at a time.
 */
module Fees {
  import opened FixedPoint
  import opened Sums
  import opened Orders

  const CENTICENT: int := SCALE / 10_000
  const CENT: int := SCALE / 100

  datatype Rates = Rates(taker: int, maker: Option<int>)

  datatype FeeContext = FeeContext(orderId: OrderId, side: Side, price: int, quantity: int, isTaker: bool)

  /** rate * quantity * p * (1 - p), before it is rounded up. */
  function RawFee(rate: int, price: int, quantity: int): int {
    var pq := Notional(price, SCALE - price);
    Notional(rate, Notional(pq, quantity))
  }

  function RoundUp(raw: int): int {
    TruncDiv(raw + (CENTICENT - 1), CENTICENT) * CENTICENT
  }

  function TradeFee(rates: Rates, ctx: FeeContext): int {
    match (if ctx.isTaker then Some(rates.taker) else rates.maker)
    case None => 0
    case Some(rate) => RoundUp(RawFee(rate, ctx.price, ctx.quantity))
  }

  /** Cash the fill brings in before fees. */
  function Revenue(ctx: FeeContext): int {
    var gross := Notional(ctx.price, ctx.quantity);
    if ctx.side.Buy? then -gross else gross
  }

  /** Overpayment from flooring the cash movement to a cent. */
  function RoundingFee(rates: Rates, ctx: FeeContext): int {
    var after := Revenue(ctx) - TradeFee(rates, ctx);
    after - (after / CENT) * CENT
  }

  function Rebate(accumulated: int): int {
    TruncDiv(accumulated, CENT) * CENT
  }

  datatype Charged = Charged(commission: int, accumulators: map<OrderId, int>)

  function Charge(rates: Rates, acc: map<OrderId, int>, ctx: FeeContext): Charged {
    var rounding := RoundingFee(rates, ctx);
    var accumulated := ValueOr(acc, ctx.orderId, 0) + rounding;
    var rebate := Rebate(accumulated);
    Charged(TradeFee(rates, ctx) + rounding - rebate, acc[ctx.orderId := accumulated - rebate])
  }

  // ----- One fill -----

  lemma QuotientOfNegative(m: int, d: int)
    requires d > 0 && m > 0
    ensures TruncDiv(-m, d) == -(m / d)
  {
  }

  /**
   A fee is rounded to a centicent not below it, and to the least such one exactly when the raw fee
   is above minus one centicent or one raw unit past a centicent: further below zero the division
   rounds toward zero, which is up once more.
   */
  lemma RoundUpIsLeastCenticent(raw: int)
    ensures RoundUp(raw) % CENTICENT == 0 && raw <= RoundUp(raw)
    ensures RoundUp(raw) < raw + CENTICENT <==> raw > -CENTICENT || raw % CENTICENT == 1
  {
    var d := CENTICENT;
    var n := raw + (d - 1);
    var q := TruncDiv(n, d);
    if n >= 0 {
      assert n == d * (n / d) + n % d;
      RoundedAbove(raw, d, n / d, n % d);
    } else {
      var m := -n;
      QuotientOfNegative(m, d);
      assert m == d * (m / d) + m % d;
      RoundedBelow(raw, d, m / d, m % d);
    }
    QuotientIsUnique(RoundUp(raw), d, q, 0);
  }

  lemma RoundedAbove(raw: int, d: int, q: int, r: int)
    requires d > 1 && raw + (d - 1) == d * q + r && 0 <= r < d
    ensures raw <= q * d < raw + d
  {
  }

  /** Below zero: how far the multiple is above the raw fee, by the remainder it was left with. */
  lemma RoundedBelow(raw: int, d: int, q: int, r: int)
    requires d > 1 && -(raw + (d - 1)) == d * q + r && 0 <= r < d
    ensures raw <= -q * d && (-q * d < raw + d <==> r == 0) && (raw % d == 1 <==> r == 0)
  {
    assert -q * d == raw + (d - 1) + r;
    if r == 0 {
      QuotientIsUnique(raw, d, -q - 1, 1);
    } else if r == 1 {
      QuotientIsUnique(raw, d, -q - 1, 0);
    } else {
      QuotientIsUnique(raw, d, -q - 2, d + 1 - r);
    }
  }

  // ----- The curve -----

  lemma CurveIdentity(s: int, rate: int, q: int, x: int, pq: int, scaled: int, raw: int)
    ensures s * s * s * raw - rate * q * x
         == (s * s) * (s * raw - rate * scaled) + (s * rate) * (s * scaled - pq * q) + (rate * q) * (s * pq - x)
  {
    assert (s * s) * (s * raw - rate * scaled) == s * s * s * raw - s * s * rate * scaled;
    assert (s * rate) * (s * scaled - pq * q) == s * s * rate * scaled - s * rate * pq * q;
    assert (rate * q) * (s * pq - x) == s * rate * pq * q - rate * q * x;
  }

  lemma ScaledError(k: int, e: int, s: nat)
    requires 2 * Abs(e) <= s
    ensures 2 * Abs(k * e) <= Abs(k) * s
  {
    AbsOfProduct(k, e);
    assert Abs(k) * (2 * Abs(e)) <= Abs(k) * s;
  }

  /** Each of the three roundings on the way is within half a unit. */
  lemma CurveBound(s: nat, rate: int, q: int, x: int, pq: int, scaled: int, raw: int)
    requires 2 * Abs(s * pq - x) <= s && 2 * Abs(s * scaled - pq * q) <= s && 2 * Abs(s * raw - rate * scaled) <= s
    ensures 2 * Abs(s * s * s * raw - rate * q * x) <= Abs(s * s) * s + Abs(s * rate) * s + Abs(rate * q) * s
  {
    CurveIdentity(s, rate, q, x, pq, scaled, raw);
    ScaledError(s * s, s * raw - rate * scaled, s);
    ScaledError(s * rate, s * scaled - pq * q, s);
    ScaledError(rate * q, s * pq - x, s);
  }

  /** The gap the three roundings may leave, in the fourth power of the scale. */
  function CurveSlack(rate: int, quantity: int): int {
    Abs(SCALE * SCALE) * SCALE + Abs(SCALE * rate) * SCALE + Abs(rate * quantity) * SCALE
  }

  /** The raw fee is the rate on the size times p (1 - p), to within the three roundings. */
  lemma RawFeeFollowsCurve(rate: int, price: int, quantity: int)
    ensures 2 * Abs(SCALE * SCALE * SCALE * RawFee(rate, price, quantity) - rate * quantity * (price * (SCALE - price)))
              <= CurveSlack(rate, quantity)
  {
    hide Notional;
    var pq := Notional(price, SCALE - price);
    var scaled := Notional(pq, quantity);
    NotionalError(price, SCALE - price);
    NotionalError(pq, quantity);
    NotionalError(rate, scaled);
    CurveBound(SCALE, rate, quantity, price * (SCALE - price), pq, scaled, Notional(rate, scaled));
  }

  /** What a fill is charged at: the taker's rate or the maker's, which there need not be. */
  function RateFor(rates: Rates, ctx: FeeContext): Option<int> {
    match ctx.isTaker
    case true => Some(rates.taker)
    case false => rates.maker
  }

  /**
   A taker is charged the taker rate and a maker the maker rate, or nothing where makers pay none:
   the curve at that rate rounded up to a centicent, and never less than it.
   */
  lemma TradeFeeFollowsCurve(rates: Rates, ctx: FeeContext)
    ensures RateFor(rates, ctx).None? ==> TradeFee(rates, ctx) == 0
    ensures RateFor(rates, ctx).Some? ==>
              var rate, fee := RateFor(rates, ctx).value, TradeFee(rates, ctx);
              var exact := rate * ctx.quantity * (ctx.price * (SCALE - ctx.price));
              var cube := SCALE * SCALE * SCALE;
              && fee % CENTICENT == 0
              && 2 * (cube * fee) >= 2 * exact - CurveSlack(rate, ctx.quantity)
              && (RawFee(rate, ctx.price, ctx.quantity) > -CENTICENT ==>
                    2 * (cube * fee) < 2 * exact + CurveSlack(rate, ctx.quantity) + 2 * (cube * CENTICENT))
  {
    hide RawFee, CurveSlack, RoundUp;
    if RateFor(rates, ctx).Some? {
      var rate := RateFor(rates, ctx).value;
      var raw := RawFee(rate, ctx.price, ctx.quantity);
      RawFeeFollowsCurve(rate, ctx.price, ctx.quantity);
      RoundUpIsLeastCenticent(raw);
      Cubed(SCALE * SCALE * SCALE, raw, RoundUp(raw), CENTICENT);
    }
  }

  lemma Cubed(cube: int, raw: int, fee: int, step: int)
    requires cube > 0 && raw <= fee
    ensures cube * raw <= cube * fee
    ensures fee < raw + step ==> cube * fee < cube * raw + cube * step
  {
    if fee < raw + step {
      assert cube * fee < cube * (raw + step);
    }
  }

  predicate WholeCents(x: int) {
    x % CENT == 0
  }

  lemma SumOfCents(a: int, b: int)
    requires WholeCents(a) && WholeCents(b)
    ensures WholeCents(a + b)
  {
    QuotientIsUnique(a + b, CENT, a / CENT + b / CENT, 0);
  }

  lemma FloorToCent(x: int)
    ensures 0 <= x - (x / CENT) * CENT < CENT
    ensures WholeCents((x / CENT) * CENT)
  {
    FloorToMultiple(x, CENT);
  }

  lemma RoundingIsUnderOneCent(rates: Rates, ctx: FeeContext)
    ensures 0 <= RoundingFee(rates, ctx) < CENT
    ensures WholeCents(Revenue(ctx) - TradeFee(rates, ctx) - RoundingFee(rates, ctx))
  {
    FloorToCent(Revenue(ctx) - TradeFee(rates, ctx));
  }

  lemma RebateLeavesUnderOneCent(accumulated: nat)
    ensures WholeCents(Rebate(accumulated)) && 0 <= accumulated - Rebate(accumulated) < CENT
    ensures Rebate(accumulated) >= 0
  {
    assert accumulated == CENT * (accumulated / CENT) + accumulated % CENT;
    QuotientIsUnique(Rebate(accumulated), CENT, accumulated / CENT, 0);
  }

  predicate UnderOneCent(acc: map<OrderId, int>) {
    forall id :: id in acc ==> 0 <= acc[id] < CENT
  }

  /** Whatever the fill, the account moves by a whole number of cents. */
  lemma ChargeMovesWholeCents(rates: Rates, acc: map<OrderId, int>, ctx: FeeContext)
    requires UnderOneCent(acc)
    ensures WholeCents(Revenue(ctx) - Charge(rates, acc, ctx).commission)
    ensures UnderOneCent(Charge(rates, acc, ctx).accumulators)
    ensures Charge(rates, acc, ctx).commission
         == TradeFee(rates, ctx) + Charge(rates, acc, ctx).accumulators[ctx.orderId] - ValueOr(acc, ctx.orderId, 0)
  {
    RoundingIsUnderOneCent(rates, ctx);
    var accumulated := ValueOr(acc, ctx.orderId, 0) + RoundingFee(rates, ctx);
    RebateLeavesUnderOneCent(accumulated);
    SumOfCents(Revenue(ctx) - TradeFee(rates, ctx) - RoundingFee(rates, ctx), Rebate(accumulated));
  }

  // ----- Any interleaving of fills across orders -----

  datatype FeeOp = Fill(ctx: FeeContext) | Close(id: OrderId)

  function After(rates: Rates, ops: seq<FeeOp>): map<OrderId, int> {
    if ops == [] then map[]
    else
      var acc := After(rates, ops[..|ops| - 1]);
      match ops[|ops| - 1]
      case Fill(ctx) => Charge(rates, acc, ctx).accumulators
      case Close(id) => acc - {id}
  }

  /** Commission charged to an order since it was opened. */
  function CommissionOf(rates: Rates, ops: seq<FeeOp>, id: OrderId): int {
    if ops == [] then 0
    else
      var front := ops[..|ops| - 1];
      match ops[|ops| - 1]
      case Fill(ctx) =>
        CommissionOf(rates, front, id)
          + (if ctx.orderId == id then Charge(rates, After(rates, front), ctx).commission else 0)
      case Close(closed) => if closed == id then 0 else CommissionOf(rates, front, id)
  }

  /** The order's own trade fees over the same time. */
  function TradeFeesOf(rates: Rates, ops: seq<FeeOp>, id: OrderId): int {
    if ops == [] then 0
    else
      var front := ops[..|ops| - 1];
      match ops[|ops| - 1]
      case Fill(ctx) =>
        TradeFeesOf(rates, front, id) + (if ctx.orderId == id then TradeFee(rates, ctx) else 0)
      case Close(closed) => if closed == id then 0 else TradeFeesOf(rates, front, id)
  }

  lemma {:induction false} AccumulatorsStayUnderOneCent(rates: Rates, ops: seq<FeeOp>)
    ensures UnderOneCent(After(rates, ops))
    decreases |ops|
  {
    if ops != [] {
      var n := |ops| - 1;
      AccumulatorsStayUnderOneCent(rates, ops[..n]);
      if ops[n].Fill? {
        ChargeMovesWholeCents(rates, After(rates, ops[..n]), ops[n].ctx);
      }
    }
  }

  /**
   Over any sequence of fills interleaved across orders, what an open order has been charged is
   its own trade fees plus what its accumulator still owes back, which is under one cent.
   */
  lemma {:induction false} OrderPaysItsFeesPlusAccumulator(rates: Rates, ops: seq<FeeOp>, id: OrderId)
    ensures var owed := ValueOr(After(rates, ops), id, 0);
            && 0 <= owed < CENT
            && CommissionOf(rates, ops, id) == TradeFeesOf(rates, ops, id) + owed
    decreases |ops|
  {
    AccumulatorsStayUnderOneCent(rates, ops);
    if ops != [] {
      var n := |ops| - 1;
      OrderPaysItsFeesPlusAccumulator(rates, ops[..n], id);
      AccumulatorsStayUnderOneCent(rates, ops[..n]);
      if ops[n].Fill? {
        ChargeMovesWholeCents(rates, After(rates, ops[..n]), ops[n].ctx);
      }
    }
  }

  /** And every one of those fills moved cash by whole cents. */
  lemma EveryFillMovesWholeCents(rates: Rates, ops: seq<FeeOp>, ctx: FeeContext)
    ensures WholeCents(Revenue(ctx) - Charge(rates, After(rates, ops), ctx).commission)
  {
    AccumulatorsStayUnderOneCent(rates, ops);
    ChargeMovesWholeCents(rates, After(rates, ops), ctx);
  }

  /** The fee model, with its per-order accumulators. */
  class KalshiFees {
    const rates: Rates
    var rounding: map<OrderId, int>

    constructor (rates: Rates)
      ensures this.rates == rates && rounding == map[]
    {
      this.rates, rounding := rates, map[];
    }

    method Commission(ctx: FeeContext) returns (commission: int)
      modifies this
      ensures Charged(commission, rounding) == Charge(rates, old(rounding), ctx)
    {
      var rate := if ctx.isTaker then Some(rates.taker) else rates.maker;
      var tradeFee := if rate.Some? then RoundUp(RawFee(rate.value, ctx.price, ctx.quantity)) else 0;
      var gross := Notional(ctx.price, ctx.quantity);
      var revenue := if ctx.side.Buy? then -gross else gross;
      var afterTradeFee := revenue - tradeFee;
      var centAligned := afterTradeFee / CENT * CENT;
      var roundingFee := afterTradeFee - centAligned;
      var accumulated := ValueOr(rounding, ctx.orderId, 0) + roundingFee;
      var rebate := TruncDiv(accumulated, CENT) * CENT;
      rounding := rounding[ctx.orderId := accumulated - rebate];
      commission := tradeFee + roundingFee - rebate;
    }

    method OrderClosed(id: OrderId)
      modifies this
      ensures rounding == old(rounding) - {id}
    {
      rounding := rounding - {id};
    }
  }
}
