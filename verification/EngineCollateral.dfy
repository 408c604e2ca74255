/**
 What an isolated instrument has posted: the margin on each of its open positions, long or short,
 at the position's own size and average price, from one fill to the next.
 */
module EngineCollateral {
  import opened FixedPoint
  import opened Sums
  import opened Orders
  import opened Positions
  import opened Engine
  import opened EngineAccount

  /** The margin on every open position of an instrument's first outcomes. */
  function MarginsBelow(c: Config, positions: map<Slot, Holding>, instrument: nat, outcomes: nat): map<Slot, int>
    requires c.margin.Some?
  {
    map slot | slot in positions && slot.instrument == instrument && slot.outcome < outcomes && positions[slot].quantity != 0
      :: c.margin.value(instrument, positions[slot].quantity, positions[slot].averagePrice)
  }

  function Margins(c: Config, positions: map<Slot, Holding>, instrument: nat): map<Slot, int>
    requires c.margin.Some?
  {
    MarginsBelow(c, positions, instrument, c.outcomes(instrument))
  }

  lemma {:induction false} RequiredIsTheMargins(c: Config, positions: map<Slot, Holding>, instrument: nat, outcomes: nat)
    requires c.margin.Some?
    ensures Required(c, positions, instrument, outcomes) == MapSum(MarginsBelow(c, positions, instrument, outcomes))
    decreases outcomes
  {
    if outcomes == 0 {
      assert MarginsBelow(c, positions, instrument, 0) == map[];
    } else {
      RequiredIsTheMargins(c, positions, instrument, outcomes - 1);
      var slot := Slot(instrument, outcomes - 1);
      var below := MarginsBelow(c, positions, instrument, outcomes - 1);
      var all := MarginsBelow(c, positions, instrument, outcomes);
      if slot in positions && positions[slot].quantity != 0 {
        var h := positions[slot];
        assert all == below[slot := c.margin.value(instrument, h.quantity, h.averagePrice)];
        MapSumUpdate(below, slot, c.margin.value(instrument, h.quantity, h.averagePrice));
      } else {
        assert all == below;
      }
    }
  }

  predicate Isolates(c: Config, instrument: nat) {
    instrument in c.isolated && c.margin.Some?
  }

  /** Collateral is posted only for isolated instruments, and never as an empty entry. */
  predicate OnlyRealBuckets(c: Config, a: Account) {
    forall i :: i in a.buckets ==> Isolates(c, i) && a.buckets[i] != 0
  }

  /** The bucket is the margin on the open positions, and there is none when that is nothing. */
  ghost predicate Backed(c: Config, a: Account, instrument: nat) {
    if Isolates(c, instrument) then
      var sum := MapSum(Margins(c, a.positions, instrument));
      (instrument in a.buckets <==> sum != 0) && (instrument in a.buckets ==> a.buckets[instrument] == sum)
    else instrument !in a.buckets
  }

  lemma RebalancedIsBacked(c: Config, a: Account, instrument: nat)
    requires OnlyRealBuckets(c, a)
    ensures var a' := Rebalanced(c, a, instrument);
            && OnlyRealBuckets(c, a') && Backed(c, a', instrument) && a'.positions == a.positions
            && (forall j :: j != instrument ==> (j in a'.buckets <==> j in a.buckets) && (j in a.buckets ==> a'.buckets[j] == a.buckets[j]))
  {
    hide Required, Margins;
    if Isolates(c, instrument) {
      RequiredIsAll(c, a.positions, instrument);
    }
  }

  lemma RequiredIsAll(c: Config, positions: map<Slot, Holding>, instrument: nat)
    requires c.margin.Some?
    ensures Required(c, positions, instrument, c.outcomes(instrument)) == MapSum(Margins(c, positions, instrument))
  {
    RequiredIsTheMargins(c, positions, instrument, c.outcomes(instrument));
  }

  lemma OthersStayBacked(c: Config, a: Account, a': Account, instrument: nat)
    requires forall slot: Slot :: slot.instrument == instrument ==>
               (slot in a'.positions <==> slot in a.positions) && (slot in a.positions ==> a'.positions[slot] == a.positions[slot])
    requires instrument in a'.buckets <==> instrument in a.buckets
    requires instrument in a.buckets ==> a'.buckets[instrument] == a.buckets[instrument]
    ensures Backed(c, a, instrument) ==> Backed(c, a', instrument)
  {
    if Isolates(c, instrument) {
      assert Margins(c, a'.positions, instrument) == Margins(c, a.positions, instrument);
    }
  }

  /**
   After a fill the instrument's bucket is the margin on its open positions, and every other
   instrument's bucket is as it was.
   */
  lemma FillIsBacked(c: Config, a: Account, f: Fill, instrument: nat)
    requires OnlyRealBuckets(c, a)
    ensures var a' := AfterFill(c, a, f);
            && OnlyRealBuckets(c, a')
            && (f.slot.instrument == instrument || Backed(c, a, instrument) ==> Backed(c, a', instrument))
  {
    hide Rebalanced, Applied, CashAfterFill, Backed;
    var a1 := a.(positions := PortfolioApplied(a.positions, f), cash := CashAfterFill(c, a, f), fills := a.fills + [f]);
    RebalancedIsBacked(c, a1, f.slot.instrument);
    if f.slot.instrument != instrument {
      OthersStayBacked(c, a, AfterFill(c, a, f), instrument);
    }
  }

  // ----- Over runs -----

  predicate TradesOn(fills: seq<Fill>, instrument: nat) {
    exists k :: 0 <= k < |fills| && fills[k].slot.instrument == instrument
  }

  lemma {:induction false} FillsAreBacked(c: Config, a: Account, fills: seq<Fill>, instrument: nat)
    requires OnlyRealBuckets(c, a)
    ensures var a' := FilledAll(c, a, fills);
            && OnlyRealBuckets(c, a')
            && (TradesOn(fills, instrument) || Backed(c, a, instrument) ==> Backed(c, a', instrument))
    decreases |fills|
  {
    hide AfterFill, Backed, OnlyRealBuckets;
    if fills != [] {
      var n := |fills| - 1;
      FillsAreBacked(c, a, fills[..n], instrument);
      FillIsBacked(c, FilledAll(c, a, fills[..n]), fills[n], instrument);
      if TradesOn(fills, instrument) && fills[n].slot.instrument != instrument {
        var k :| 0 <= k < |fills| && fills[k].slot.instrument == instrument;
        assert fills[..n][k] == fills[k];
      }
    }
  }

  /** The instrument was split, and has not traded since. */
  predicate SplitSinceTrade(c: Config, ops: seq<Op>, instrument: nat) {
    ops != [] &&
      var n := |ops| - 1;
      var s, s' := Run(c, ops[..n]), Run(c, ops);
      if ops[n].SplitAction? then ops[n].instrument == instrument || SplitSinceTrade(c, ops[..n], instrument)
      else
        && SplitSinceTrade(c, ops[..n], instrument)
        && !(|s.account.fills| <= |s'.account.fills| && TradesOn(s'.account.fills[|s.account.fills|..], instrument))
  }

  lemma BookedStepIsBacked(c: Config, s: State, op: Op, instrument: nat)
    requires OnlyRealBuckets(c, s.account) && !MovesAccountDirectly(op)
    ensures var a, a' := s.account, Step(c, s, op).account;
            && OnlyRealBuckets(c, a')
            && (Backed(c, a, instrument) ==> Backed(c, a', instrument))
            && (|a.fills| <= |a'.fills| && TradesOn(a'.fills[|a.fills|..], instrument) ==> Backed(c, a', instrument))
  {
    hide Step, AfterFill, FilledAll, Backed, OnlyRealBuckets, TradesOn;
    StepBooks(c, s, op);
    var fills :| Step(c, s, op).account == FilledAll(c, s.account, fills);
    FilledAllFills(c, s.account, fills);
    FillsAreBacked(c, s.account, fills, instrument);
    assert (s.account.fills + fills)[|s.account.fills|..] == fills;
  }

  lemma PaymentIsBacked(c: Config, s: State, op: Op, instrument: nat)
    requires MovesAccountDirectly(op) && (op.SplitAction? ==> op.instrument != instrument)
    ensures var a, a' := s.account, Step(c, s, op).account;
            && (Backed(c, a, instrument) ==> Backed(c, a', instrument))
            && a'.fills == a.fills
  {
    hide SplitOrdersOf, SplitMarket, SplitHolding, FundingTotal, DividendDue, Backed;
    OthersStayBacked(c, s.account, Step(c, s, op).account, instrument);
  }

  lemma PaymentKeepsBuckets(c: Config, s: State, op: Op)
    requires MovesAccountDirectly(op)
    ensures Step(c, s, op).account.buckets == s.account.buckets
  {
    hide SplitOrdersOf, SplitMarket, SplitPositions, FundingTotal, DividendDue;
  }

  lemma NothingBacked(c: Config, instrument: nat)
    ensures Backed(c, Init(c).account, instrument) && OnlyRealBuckets(c, Init(c).account)
  {
    if c.margin.Some? {
      assert Margins(c, map[], instrument) == map[];
    }
  }

  /**
   After every run, collateral is posted for isolated instruments only; and each of them has posted
   exactly the margin on its open positions, nothing when there is none, unless it was split and
   has not traded since.
   */
  lemma {:induction false} CollateralIsTheMargins(c: Config, ops: seq<Op>, instrument: nat)
    ensures OnlyRealBuckets(c, Run(c, ops).account)
    ensures !SplitSinceTrade(c, ops, instrument) ==> Backed(c, Run(c, ops).account, instrument)
    decreases |ops|
  {
    hide Step, Backed, OnlyRealBuckets, TradesOn;
    if ops == [] {
      NothingBacked(c, instrument);
    } else {
      var n := |ops| - 1;
      var s, op := Run(c, ops[..n]), ops[n];
      CollateralIsTheMargins(c, ops[..n], instrument);
      if MovesAccountDirectly(op) {
        PaymentKeepsBuckets(c, s, op);
        SameBuckets(c, s.account, Step(c, s, op).account);
        if !(op.SplitAction? && op.instrument == instrument) {
          PaymentIsBacked(c, s, op, instrument);
          NothingTraded(s.account.fills, instrument);
        }
      } else {
        BookedStepIsBacked(c, s, op, instrument);
      }
    }
  }

  lemma SameBuckets(c: Config, a: Account, a': Account)
    requires OnlyRealBuckets(c, a) && a'.buckets == a.buckets
    ensures OnlyRealBuckets(c, a')
  {
  }

  lemma NothingTraded(fills: seq<Fill>, instrument: nat)
    ensures !TradesOn(fills[|fills|..], instrument)
  {
  }

  // ----- A short -----

  const TEN: int := 10 * SCALE
  const HUNDRED: int := 100 * SCALE

  /** One isolated perpetual under a margin of a tenth of the notional. */
  ghost predicate TenPercent(c: Config) {
    && c.isolated == {0} && c.outcomes(0) == 1 && c.margin.Some?
    && forall q, p :: c.margin.value(0, q, p) == Abs(Notional(p, q)) / 10
  }

  /** Selling ten at a hundred posts a hundred, out of cash. */
  lemma ShortPostsItsMargin(c: Config, commission: int)
    requires TenPercent(c) && !c.funded(0)
    ensures var a := AfterFill(c, Init(c).account, Fill(1, Slot(0, 0), Sell, HUNDRED, TEN, commission, true));
            && a.buckets == map[0 := HUNDRED]
            && a.cash == c.startingCash - commission - HUNDRED
  {
    hide Notional;
    var a0 := Init(c).account;
    var f := Fill(1, Slot(0, 0), Sell, HUNDRED, TEN, commission, true);
    var h := Applied(FLAT, f);
    ShortOfTen(f);
    NotionalOfWhole(HUNDRED, -10);
    assert -10 * SCALE == -TEN;
    var positions := PortfolioApplied(a0.positions, f);
    assert positions == map[Slot(0, 0) := h];
    assert Required(c, positions, 0, 0) == 0;
    assert Required(c, positions, 0, 1) == c.margin.value(0, -TEN, HUNDRED) == HUNDRED;
  }

  lemma ShortOfTen(f: Fill)
    requires f.side.Sell? && f.price == HUNDRED && f.quantity == TEN
    ensures Applied(FLAT, f) == Holding(-TEN, HUNDRED, -f.commission, f.commission, 1)
  {
  }
}
