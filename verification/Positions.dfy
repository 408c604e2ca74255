/**
 Positions as a fold over fills.

 Prices are averaged and profits are rounded, so no identity about money is exact.  What is
 exact is how far off it can be: every fill moves the books away from the cash that changed
 hands by less than the larger of its resulting position and half a unit of scale.
 */
module Positions {
  import opened FixedPoint
  import opened Orders

  datatype Holding = Holding(
    quantity: int,
    averagePrice: int,
    realizedPnl: int,
    commissions: int,
    fillCount: nat)

  const FLAT: Holding := Holding(0, 0, 0, 0, 0)

  /** Does the fill open a position or add to one, rather than reduce or reverse it? */
  predicate AddsTo(before: int, signed: int) {
    before == 0 || (before > 0) == (signed > 0)
  }

  function AddedPrice(h: Holding, price: int, signed: int): int {
    var total := Abs(h.quantity) + Abs(signed);
    if total == 0 then 0
    else TruncDiv(h.averagePrice * Abs(h.quantity) + price * Abs(signed), total)
  }

  /** Profit realised on the part of a position a fill closes. */
  function RealizedBy(h: Holding, price: int, signed: int): int {
    var direction := if h.quantity > 0 then 1 else -1;
    Notional((price - h.averagePrice) * direction, Min(Abs(signed), Abs(h.quantity)))
  }

  function ReducedPrice(h: Holding, price: int, after: int): int {
    if after == 0 then 0
    else if (after > 0) != (h.quantity > 0) then price
    else h.averagePrice
  }

  function Applied(h: Holding, f: Fill): (h': Holding)
    ensures h'.quantity == h.quantity + f.Signed()
    ensures h'.commissions == h.commissions + f.commission
    ensures h'.fillCount == h.fillCount + 1
  {
    var signed := f.Signed();
    var after := h.quantity + signed;
    if AddsTo(h.quantity, signed) then
      Holding(after, AddedPrice(h, f.price, signed), h.realizedPnl - f.commission,
              h.commissions + f.commission, h.fillCount + 1)
    else
      Holding(after, ReducedPrice(h, f.price, after),
              h.realizedPnl + RealizedBy(h, f.price, signed) - f.commission,
              h.commissions + f.commission, h.fillCount + 1)
  }

  // ----- Profit against cash, with the rounding accounted for -----

  /** Profit before commissions. */
  function Gross(h: Holding): int {
    h.realizedPnl + h.commissions
  }

  /** Cash the fill moved, in squared scale: what a sale brought in, less what a purchase took. */
  function CashFlow(f: Fill): int {
    -(f.Signed() * f.price)
  }

  /** Cost basis of what is still held, in squared scale. */
  function Basis(h: Holding): int {
    h.averagePrice * h.quantity
  }

  /** How far one fill may move the accounts apart. */
  function Slack(after: int): nat {
    Max(Abs(after), SCALE / 2)
  }

  /** What one fill adds to the gap between cash and reported profit. */
  function Drift(h: Holding, f: Fill): int {
    var h' := Applied(h, f);
    CashFlow(f) + Basis(h') - Basis(h) - SCALE * (Gross(h') - Gross(h))
  }

  lemma AddingArithmetic(q: int, signed: int, avg: int, p: int, avg': int, rem: int)
    requires AddsTo(q, signed)
    requires avg * Abs(q) + p * Abs(signed) == Abs(q + signed) * avg' + rem
    requires Abs(rem) <= Abs(q + signed)
    ensures Abs(-(signed * p) + avg' * (q + signed) - avg * q) <= Abs(q + signed)
  {
    if q + signed >= 0 {
      assert Abs(q) == q && Abs(signed) == signed;
    } else {
      assert Abs(q) == -q && Abs(signed) == -signed;
      assert avg * -q == -(avg * q) && p * -signed == -(signed * p);
      assert -(q + signed) * avg' == -(avg' * (q + signed));
    }
  }

  lemma AddingDrift(h: Holding, f: Fill)
    requires AddsTo(h.quantity, f.Signed())
    ensures Abs(Drift(h, f)) <= Abs(h.quantity + f.Signed())
  {
    var q, signed := h.quantity, f.Signed();
    var total := Abs(q) + Abs(signed);
    assert total == Abs(q + signed);
    var avg' := AddedPrice(h, f.price, signed);
    if total != 0 {
      var weighted := h.averagePrice * Abs(q) + f.price * Abs(signed);
      TruncDivBounds(weighted, total);
      AddingArithmetic(q, signed, h.averagePrice, f.price, avg', TruncMod(weighted, total));
    }
    assert Basis(Applied(h, f)) == avg' * (q + signed);
  }

  lemma ReducingDrift(h: Holding, f: Fill)
    requires !AddsTo(h.quantity, f.Signed())
    ensures 2 * Abs(Drift(h, f)) <= SCALE
  {
    var signed := f.Signed();
    var after := h.quantity + signed;
    var closing := Min(Abs(signed), Abs(h.quantity));
    var direction := if h.quantity > 0 then 1 else -1;
    var perUnit := (f.price - h.averagePrice) * direction;
    NotionalError(perUnit, closing);
    var h' := Applied(h, f);
    assert CashFlow(f) + Basis(h') - Basis(h) == perUnit * closing by {
      ReducingMovesClosedProfit(h, f, direction, closing);
    }
  }

  lemma PartialCloseArithmetic(q: int, signed: int, avg: int, p: int, dc: int)
    requires signed == -dc
    ensures -(signed * p) + avg * (q + signed) - avg * q == (p - avg) * dc
  {
    assert signed * p == -(p * dc);
    assert avg * signed == -(avg * dc);
    assert avg * (q + signed) == avg * q + avg * signed;
    assert (p - avg) * dc == p * dc - avg * dc;
  }

  lemma ReversalArithmetic(signed: int, avg: int, p: int, dc: int)
    ensures -(signed * p) + p * (dc + signed) - avg * dc == (p - avg) * dc
  {
    assert p * (dc + signed) == p * dc + signed * p;
    assert (p - avg) * dc == p * dc - avg * dc;
  }

  /** Closing, in part, in full or through zero, moves exactly the closed quantity's profit. */
  lemma ReducingMovesClosedProfit(h: Holding, f: Fill, direction: int, closing: int)
    requires !AddsTo(h.quantity, f.Signed())
    requires direction == if h.quantity > 0 then 1 else -1
    requires closing == Min(Abs(f.Signed()), Abs(h.quantity))
    ensures CashFlow(f) + Basis(Applied(h, f)) - Basis(h)
         == ((f.price - h.averagePrice) * direction) * closing
  {
    var q, signed, p, avg := h.quantity, f.Signed(), f.price, h.averagePrice;
    var dc := if q > 0 then closing else -closing;
    assert ((p - avg) * direction) * closing == (p - avg) * dc;
    if Abs(signed) <= Abs(q) {
      PartialCloseArithmetic(q, signed, avg, p, dc);
      assert Applied(h, f).averagePrice == (if q + signed == 0 then 0 else avg);
      assert Basis(Applied(h, f)) == avg * (q + signed);
    } else {
      ReversalArithmetic(signed, avg, p, dc);
      assert q == dc;
      assert Applied(h, f).averagePrice == p;
    }
  }

  /** One fill, of any size, side and sign, through any of the three branches. */
  lemma FillDrift(h: Holding, f: Fill)
    ensures Abs(Drift(h, f)) <= Slack(h.quantity + f.Signed())
  {
    if AddsTo(h.quantity, f.Signed()) {
      AddingDrift(h, f);
    } else {
      ReducingDrift(h, f);
    }
  }

  /** A quotient rounded toward zero. */
  predicate IsTowardZero(q: int, n: int, d: int) {
    d * Abs(q) <= Abs(n) < d * Abs(q) + d && (q > 0 ==> n > 0) && (q < 0 ==> n < 0)
  }

  lemma TruncIsTowardZero(n: int, d: int)
    requires d > 0
    ensures IsTowardZero(TruncDiv(n, d), n, d)
  {
    TruncDivBounds(n, d);
  }

  /**
   The average price a fill leaves: the size-weighted mean, rounded toward zero, when it opens or
   adds; unchanged when it closes a part; the fill's own price when it goes through zero; and none
   on a flat position.
   */
  lemma AveragePriceIs(h: Holding, f: Fill)
    ensures var h' := Applied(h, f);
            var q, s := h.quantity, f.Signed();
            if q == 0 || q * s > 0 || (s == 0 && q < 0) then
              q + s != 0 ==> IsTowardZero(h'.averagePrice, h.averagePrice * Abs(q) + f.price * Abs(s), Abs(q) + Abs(s))
            else if q + s == 0 then h'.averagePrice == 0
            else if q * (q + s) > 0 then h'.averagePrice == h.averagePrice
            else h'.averagePrice == f.price
  {
    var q, s := h.quantity, f.Signed();
    SignOfProduct(q, s);
    SignOfProduct(q, q + s);
    var total := Abs(q) + Abs(s);
    if total > 0 {
      TruncIsTowardZero(h.averagePrice * Abs(q) + f.price * Abs(s), total);
    }
  }

  lemma SignOfProduct(x: int, y: int)
    ensures x * y > 0 <==> (x > 0 && y > 0) || (x < 0 && y < 0)
  {
  }

  function Replayed(h: Holding, fills: seq<Fill>): (h': Holding)
    decreases |fills|
  {
    if fills == [] then h else Replayed(Applied(h, fills[0]), fills[1..])
  }

  function TotalCashFlow(fills: seq<Fill>): int {
    if fills == [] then 0 else CashFlow(fills[0]) + TotalCashFlow(fills[1..])
  }

  function TotalSlack(quantity: int, fills: seq<Fill>): nat
    decreases |fills|
  {
    if fills == [] then 0
    else
      var after := quantity + fills[0].Signed();
      Slack(after) + TotalSlack(after, fills[1..])
  }

  /**
   Profit conservation over any history: cash received plus the basis of what is held is the
   gross profit reported, to within the accumulated slack.
   */
  lemma {:induction false} ProfitIsConserved(h: Holding, fills: seq<Fill>)
    ensures var h' := Replayed(h, fills);
            Abs(TotalCashFlow(fills) + Basis(h') - Basis(h) - SCALE * (Gross(h') - Gross(h)))
              <= TotalSlack(h.quantity, fills)
    decreases |fills|
  {
    if fills != [] {
      var h1 := Applied(h, fills[0]);
      FillDrift(h, fills[0]);
      ProfitIsConserved(h1, fills[1..]);
    }
  }

  /** From flat back to flat, reported profit is the cash that came out, to within the slack. */
  lemma {:induction false} RoundTripProfit(h: Holding, fills: seq<Fill>)
    requires h.quantity == 0 && Replayed(h, fills).quantity == 0
    ensures Abs(TotalCashFlow(fills) - SCALE * (Gross(Replayed(h, fills)) - Gross(h))) <= TotalSlack(0, fills)
  {
    ProfitIsConserved(h, fills);
    FlatHasNoBasis(h);
    FlatHasNoBasis(Replayed(h, fills));
  }

  lemma FlatHasNoBasis(h: Holding)
    requires h.quantity == 0
    ensures Basis(h) == 0
  {
  }

  lemma {:induction false} ReplayedAppend(h: Holding, fills: seq<Fill>, f: Fill)
    ensures Replayed(h, fills + [f]) == Applied(Replayed(h, fills), f)
    decreases |fills|
  {
    if fills == [] {
      assert (fills + [f])[1..] == [];
    } else {
      assert (fills + [f])[1..] == fills[1..] + [f];
      ReplayedAppend(Applied(h, fills[0]), fills[1..], f);
    }
  }

  // ----- The portfolio -----

  type Book = map<Slot, Holding>

  function At(positions: Book, slot: Slot): Holding {
    if slot in positions then positions[slot] else FLAT
  }

  function PortfolioApplied(positions: Book, f: Fill): (p: Book) {
    positions[f.slot := Applied(At(positions, f.slot), f)]
  }

  function FillsOf(fills: seq<Fill>, slot: Slot): (own: seq<Fill>) {
    if fills == [] then []
    else
      var rest := FillsOf(fills[..|fills| - 1], slot);
      var last := fills[|fills| - 1];
      if last.slot == slot then rest + [last] else rest
  }

  /** One netted position in one instrument outcome. */
  class Position {
    var quantity: int
    var averagePrice: int
    var realizedPnl: int
    var commissions: int
    var fillCount: nat

    constructor ()
      ensures Value() == FLAT
    {
      quantity, averagePrice, realizedPnl, commissions, fillCount := 0, 0, 0, 0, 0;
    }

    function Value(): Holding
      reads this
    {
      Holding(quantity, averagePrice, realizedPnl, commissions, fillCount)
    }

    method Apply(f: Fill)
      modifies this
      ensures Value() == Applied(old(Value()), f)
    {
      var signed := f.Signed();
      var before := quantity;
      var after := before + signed;
      if before == 0 || (before > 0) == (signed > 0) {
        var existing := averagePrice * Abs(before);
        var incoming := f.price * Abs(signed);
        var total := Abs(before) + Abs(signed);
        averagePrice := if total == 0 then 0 else TruncDiv(existing + incoming, total);
      } else {
        var closing := Min(Abs(signed), Abs(before));
        var direction := if before > 0 then 1 else -1;
        var perUnit := (f.price - averagePrice) * direction;
        realizedPnl := realizedPnl + Notional(perUnit, closing);
        if after == 0 {
          averagePrice := 0;
        } else if (after > 0) != (before > 0) {
          averagePrice := f.price;
        }
      }
      quantity := after;
      commissions := commissions + f.commission;
      realizedPnl := realizedPnl - f.commission;
      fillCount := fillCount + 1;
    }
  }

  /**
   Rebuilding a portfolio from its fill history: each position is the fold of its own fills
   and nothing else, so interleaving with other books cannot move it.
   */
  method Replay(fills: seq<Fill>) returns (positions: Book)
    ensures forall slot :: At(positions, slot) == Replayed(FLAT, FillsOf(fills, slot))
    ensures forall slot :: slot in positions <==> FillsOf(fills, slot) != []
  {
    positions := map[];
    for i := 0 to |fills|
      invariant forall slot :: At(positions, slot) == Replayed(FLAT, FillsOf(fills[..i], slot))
      invariant forall slot :: slot in positions <==> FillsOf(fills[..i], slot) != []
    {
      var f := fills[i];
      ghost var before := positions;
      assert fills[..i + 1][..i] == fills[..i];
      positions := PortfolioApplied(positions, f);
      forall slot
        ensures At(positions, slot) == Replayed(FLAT, FillsOf(fills[..i + 1], slot))
      {
        if slot == f.slot {
          ReplayedAppend(FLAT, FillsOf(fills[..i], slot), f);
        }
      }
    }
    assert fills[..|fills|] == fills;
  }
}
