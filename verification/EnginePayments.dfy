/**
 Payments on what is held: funding, dividends, and the cash-out of a delisted instrument.

 Each is told position by position, and for an account holding the opposite positions: funding
 and dividends move between longs and shorts without creating or losing money.
 */
module EnginePayments {
  import opened FixedPoint
  import opened Sums
  import opened Orders
  import opened Positions
  import opened Engine
  import opened EngineCoherence
  import opened EngineRuns
  import opened EngineAccount
  import opened EngineRisk

  predicate Below(slot: Slot, instrument: nat, outcomes: nat) {
    slot.instrument == instrument && slot.outcome < outcomes
  }

  // ----- Funding -----

  /** The price funding is charged at: the oracle's where there is one, else the mark. */
  function ReferencePrice(m: MarketData, slot: Slot): Option<int> {
    if slot in m.oracles then Some(m.oracles[slot])
    else if slot in m.marks then Some(m.marks[slot])
    else None
  }

  /** What each priced open position pays: the rate on its signed value. */
  function FundingDues(s: State, instrument: nat, outcomes: nat, rate: int): map<Slot, int> {
    map slot | slot in s.account.positions && Below(slot, instrument, outcomes)
               && s.account.positions[slot].quantity != 0 && ReferencePrice(s.market, slot).Some?
      :: Notional(rate, Notional(ReferencePrice(s.market, slot).value, s.account.positions[slot].quantity))
  }

  lemma {:induction false} FundingIsTheDues(s: State, instrument: nat, outcomes: nat, rate: int)
    ensures FundingTotal(s, instrument, outcomes, rate) == -MapSum(FundingDues(s, instrument, outcomes, rate))
    decreases outcomes
  {
    hide Notional;
    if outcomes == 0 {
      assert FundingDues(s, instrument, 0, rate) == map[];
    } else {
      FundingIsTheDues(s, instrument, outcomes - 1, rate);
      var slot := Slot(instrument, outcomes - 1);
      var below := FundingDues(s, instrument, outcomes - 1, rate);
      var all := FundingDues(s, instrument, outcomes, rate);
      if slot in all {
        assert all == below[slot := all[slot]];
        MapSumUpdate(below, slot, all[slot]);
      } else {
        assert all == below;
      }
    }
  }

  /**
   A funding payment charges every priced open position of the instrument the rate on its value at
   the oracle, or the mark where there is none: longs pay and shorts receive when the rate is
   positive.  It moves cash and the funding paid, and nothing else.
   */
  lemma FundingChargesEachPosition(c: Config, s: State, instrument: nat, rate: int)
    requires s.fault.None?
    ensures var dues := MapSum(FundingDues(s, instrument, c.outcomes(instrument), rate));
            Step(c, s, Funding(instrument, rate))
              == s.(account := s.account.(cash := s.account.cash - dues, fundingPaid := s.account.fundingPaid + dues))
  {
    hide FundingTotal, FundingDues;
    FundingIsTheDues(s, instrument, c.outcomes(instrument), rate);
  }

  lemma NotionalOdd(price: int, qty: int)
    ensures Notional(price, -qty) == -Notional(price, qty)
  {
    assert price * -qty == -(price * qty);
    RoundDivOdd(price * qty, SCALE);
  }

  lemma NotionalSign(price: int, qty: int)
    ensures price >= 0 && qty >= 0 ==> Notional(price, qty) >= 0
  {
    if price >= 0 && qty >= 0 {
      ProductSign(price, qty);
      RoundDivSign(price * qty, SCALE);
    }
  }

  /** A long of positive price pays a positive rate, a short receives as much. */
  lemma LongsPay(s: State, instrument: nat, outcomes: nat, rate: int, slot: Slot)
    requires slot in FundingDues(s, instrument, outcomes, rate) && rate >= 0 && ReferencePrice(s.market, slot).value >= 0
    ensures s.account.positions[slot].quantity > 0 ==> FundingDues(s, instrument, outcomes, rate)[slot] >= 0
    ensures s.account.positions[slot].quantity < 0 ==> FundingDues(s, instrument, outcomes, rate)[slot] <= 0
  {
    hide Notional;
    var p, q := ReferencePrice(s.market, slot).value, s.account.positions[slot].quantity;
    NotionalSign(p, q);
    NotionalSign(p, -q);
    NotionalOdd(p, q);
    NotionalSign(rate, Notional(p, q));
    NotionalSign(rate, Notional(p, -q));
    NotionalOdd(rate, Notional(p, q));
  }

  /** One account holds exactly the opposite of the other, in the same market. */
  predicate Mirrors(s: State, s': State) {
    && s'.market == s.market && s'.account.positions.Keys == s.account.positions.Keys
    && (forall slot :: slot in s.account.positions ==>
          s'.account.positions[slot].quantity == -s.account.positions[slot].quantity)
  }

  lemma {:induction false} FundingMirrors(s: State, s': State, instrument: nat, outcomes: nat, rate: int)
    requires Mirrors(s, s')
    ensures FundingTotal(s', instrument, outcomes, rate) == -FundingTotal(s, instrument, outcomes, rate)
    decreases outcomes
  {
    hide Notional;
    if outcomes > 0 {
      FundingMirrors(s, s', instrument, outcomes - 1, rate);
      var slot := Slot(instrument, outcomes - 1);
      var q := At(s.account.positions, slot).quantity;
      var price := ReferencePrice(s.market, slot);
      if price.Some? {
        NotionalOdd(price.value, q);
        NotionalOdd(rate, Notional(price.value, q));
      }
    }
  }

  // ----- Dividends -----

  function DividendDues(positions: map<Slot, Holding>, instrument: nat, outcomes: nat, perShare: int): map<Slot, int> {
    map slot | slot in positions && Below(slot, instrument, outcomes) :: Notional(perShare, positions[slot].quantity)
  }

  lemma NothingDue(perShare: int)
    ensures Notional(perShare, 0) == 0
  {
  }

  lemma {:induction false} DividendIsTheDues(positions: map<Slot, Holding>, instrument: nat, outcomes: nat, perShare: int)
    ensures DividendDue(positions, instrument, outcomes, perShare) == MapSum(DividendDues(positions, instrument, outcomes, perShare))
    decreases outcomes
  {
    hide Notional;
    if outcomes == 0 {
      assert DividendDues(positions, instrument, 0, perShare) == map[];
    } else {
      DividendIsTheDues(positions, instrument, outcomes - 1, perShare);
      var slot := Slot(instrument, outcomes - 1);
      var below := DividendDues(positions, instrument, outcomes - 1, perShare);
      var all := DividendDues(positions, instrument, outcomes, perShare);
      if slot in positions {
        assert all == below[slot := all[slot]];
        MapSumUpdate(below, slot, all[slot]);
      } else {
        assert all == below;
        NothingDue(perShare);
      }
    }
  }

  /**
   A dividend pays every holder of the instrument the amount per share on what is held, and charges
   a short as much; a negative amount is refused.  It moves cash and the dividends received alone.
   */
  lemma DividendPaysEachPosition(c: Config, s: State, instrument: nat, perShare: int)
    requires s.fault.None?
    ensures var due := MapSum(DividendDues(s.account.positions, instrument, c.outcomes(instrument), perShare));
            Step(c, s, Dividend(instrument, perShare))
              == if perShare < 0 then s.(fault := Some(BadRequest))
                 else s.(account := s.account.(cash := s.account.cash + due, dividends := s.account.dividends + due))
  {
    hide DividendDue, DividendDues;
    DividendIsTheDues(s.account.positions, instrument, c.outcomes(instrument), perShare);
  }

  lemma {:induction false} DividendMirrors(s: State, s': State, instrument: nat, outcomes: nat, perShare: int)
    requires Mirrors(s, s')
    ensures DividendDue(s'.account.positions, instrument, outcomes, perShare)
         == -DividendDue(s.account.positions, instrument, outcomes, perShare)
    decreases outcomes
  {
    hide Notional;
    if outcomes > 0 {
      DividendMirrors(s, s', instrument, outcomes - 1, perShare);
      NotionalOdd(perShare, At(s.account.positions, Slot(instrument, outcomes - 1)).quantity);
    }
  }

  /** What one account pays in funding or is due in dividends, its mirror receives or owes. */
  lemma PaymentsAreZeroSum(c: Config, s: State, s': State, op: Op)
    requires Mirrors(s, s') && s.fault.None? && s'.fault.None? && (op.Funding? || (op.Dividend? && op.perShare >= 0))
    ensures var t, t' := Step(c, s, op), Step(c, s', op);
            && t.account.cash + t'.account.cash == s.account.cash + s'.account.cash
            && Mirrors(t, t')
  {
    hide FundingTotal, DividendDue;
    match op
    case Funding(i, rate) => FundingMirrors(s, s', i, c.outcomes(i), rate);
    case Dividend(i, perShare) => DividendMirrors(s, s', i, c.outcomes(i), perShare);
  }

  // ----- Delisting -----

  /** Outcomes with an open position, in order. */
  function OpenOutcomes(a: Account, instrument: nat, outcomes: nat): seq<nat> {
    if outcomes == 0 then []
    else
      OpenOutcomes(a, instrument, outcomes - 1)
        + if Held(a, Slot(instrument, outcomes - 1)) != 0 then [outcomes - 1] else []
  }

  /** The fill that closes a position at a price. */
  predicate Closes(f: Fill, a: Account, slot: Slot, price: int) {
    && f.slot == slot && f.price == price && !f.isTaker
    && f.quantity > 0 && f.Signed() == -Held(a, slot)
  }

  predicate CashOuts(a: Account, instrument: nat, open: seq<nat>, price: int, fills: seq<Fill>) {
    && |fills| == |open|
    && forall k :: 0 <= k < |open| ==> Closes(fills[k], a, Slot(instrument, open[k]), price)
  }

  /** Cashed out so far: these fills booked, the outcomes done flat, the others as they were. */
  ghost predicate CashedOut(c: Config, a: Account, a': Account, instrument: nat, outcomes: nat, price: int) {
    && (exists fills :: CashOuts(a, instrument, OpenOutcomes(a, instrument, outcomes), price, fills) && a' == FilledAll(c, a, fills))
    && (forall slot :: Held(a', slot) == if Below(slot, instrument, outcomes) then 0 else Held(a, slot))
  }

  lemma CashOutOneBooks(c: Config, s: State, slot: Slot, price: int) returns (f: Fill)
    requires Held(s.account, slot) != 0
    ensures Closes(f, s.account, slot, price)
    ensures var q := At(s.account.positions, slot).quantity;
            var s2 := WithEngineOrder(s, slot, if q > 0 then Sell else Buy, Abs(q), false);
            Execute(c, s2, s2.desk.nextId, price, Abs(q), false).account == AfterFill(c, s.account, f)
  {
    hide AfterFill, RemoveResting;
    var q := At(s.account.positions, slot).quantity;
    var side := if q > 0 then Sell else Buy;
    var s2 := WithEngineOrder(s, slot, side, Abs(q), false);
    var id := s2.desk.nextId;
    f := Fill(id, slot, side, price, Abs(q), c.fee(s.account.fills, s2.desk.orders[id].(id := id), price, Abs(q), false), false);
  }

  lemma CashOutsMore(c: Config, a: Account, a1: Account, instrument: nat, outcomes: nat, price: int, f: Fill)
    requires CashedOut(c, a, a1, instrument, outcomes, price)
    requires Closes(f, a1, Slot(instrument, outcomes), price) && Held(a1, Slot(instrument, outcomes)) != 0
    ensures CashedOut(c, a, AfterFill(c, a1, f), instrument, outcomes + 1, price)
  {
    hide AfterFill;
    var open := OpenOutcomes(a, instrument, outcomes);
    var fills :| CashOuts(a, instrument, open, price, fills) && a1 == FilledAll(c, a, fills);
    var slot := Slot(instrument, outcomes);
    assert Held(a1, slot) == Held(a, slot);
    assert (fills + [f])[..|fills|] == fills;
    assert CashOuts(a, instrument, open + [outcomes], price, fills + [f]);
    forall x ensures Held(AfterFill(c, a1, f), x) == Held(a1, x) + if x == f.slot then f.Signed() else 0 {
      HeldAfterFill(c, a1, f, x);
    }
  }

  lemma CashOutsSame(c: Config, a: Account, a1: Account, instrument: nat, outcomes: nat, price: int)
    requires CashedOut(c, a, a1, instrument, outcomes, price) && Held(a1, Slot(instrument, outcomes)) == 0
    ensures CashedOut(c, a, a1, instrument, outcomes + 1, price)
  {
    hide AfterFill, FilledAll;
    var open := OpenOutcomes(a, instrument, outcomes);
    assert Held(a, Slot(instrument, outcomes)) == 0;
    assert OpenOutcomes(a, instrument, outcomes + 1) == open + [] == open;
  }

  lemma {:induction false} CashOutCloses(c: Config, s: State, instrument: nat, outcomes: nat, price: int)
    requires Coherent(s.desk) && s.fault.None?
    ensures CashedOut(c, s.account, CashOut(c, s, instrument, outcomes, price).account, instrument, outcomes, price)
    decreases outcomes
  {
    hide Coherent, CashedOut, Execute, WithEngineOrder, Closes;
    if outcomes == 0 {
      NothingCashedOut(c, s.account, instrument, price);
    } else {
      CashOutCloses(c, s, instrument, outcomes - 1, price);
      CashOutCoherent(c, s, instrument, outcomes - 1, price);
      var s1 := CashOut(c, s, instrument, outcomes - 1, price);
      var slot := Slot(instrument, outcomes - 1);
      if Held(s1.account, slot) != 0 {
        var f := CashOutOneBooks(c, s1, slot, price);
        CashOutsMore(c, s.account, s1.account, instrument, outcomes - 1, price, f);
      } else {
        CashOutsSame(c, s.account, s1.account, instrument, outcomes - 1, price);
      }
    }
  }

  lemma NothingCashedOut(c: Config, a: Account, instrument: nat, price: int)
    ensures CashedOut(c, a, a, instrument, 0, price)
  {
    assert CashOuts(a, instrument, [], price, []) && a == FilledAll(c, a, []);
  }

  /**
   In every reachable state a delisting books one fill for each open outcome of the instrument, at
   the stated price and for all that is held, and no other; leaves every outcome of it flat and every
   other position alone; and the instrument is off the board.  A negative price is refused.
   */
  lemma DelistingCashesOut(c: Config, ops: seq<Op>, instrument: nat, price: int)
    requires Run(c, ops).fault.None?
    ensures var s := Run(c, ops);
            var s' := Step(c, s, Delist(instrument, price));
            if price < 0 then s' == s.(fault := Some(BadRequest))
            else
              && s'.fault.None? && CashedOut(c, s.account, s'.account, instrument, c.outcomes(instrument), price)
              && s'.market == s.market.(delisted := s.market.delisted + {instrument})
  {
    hide Run, Coherent, CashOut, CashedOut;
    var s := Run(c, ops);
    RunIsSane(c, ops);
    CashOutCoherent(c, s, instrument, c.outcomes(instrument), price);
    CashOutCloses(c, s, instrument, c.outcomes(instrument), price);
    CashOutBooks(c, s, instrument, c.outcomes(instrument), price);
  }
}
