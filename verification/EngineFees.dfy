/**
 The Kalshi fee schedule inside the engine: over whole runs, cash moves by whole cents.
 */
module EngineFees {
  import opened FixedPoint
  import opened Sums
  import opened Orders
  import opened Fees
  import opened Engine
  import opened EngineAccount

  function ContextOf(f: Fill): FeeContext {
    FeeContext(f.orderId, f.side, f.price, f.quantity, f.isTaker)
  }

  /** What each order's accumulator holds after these fills. */
  function Accumulated(rates: Rates, fills: seq<Fill>): map<OrderId, int> {
    if fills == [] then map[]
    else
      var n := |fills| - 1;
      Charge(rates, Accumulated(rates, fills[..n]), ContextOf(fills[n])).accumulators
  }

  lemma {:induction false} AccumulatedUnderOneCent(rates: Rates, fills: seq<Fill>)
    ensures UnderOneCent(Accumulated(rates, fills))
    decreases |fills|
  {
    hide Charge;
    if fills != [] {
      var n := |fills| - 1;
      AccumulatedUnderOneCent(rates, fills[..n]);
      ChargeMovesWholeCents(rates, Accumulated(rates, fills[..n]), ContextOf(fills[n]));
    }
  }

  /** The venue charges this schedule. */
  ghost predicate ChargesKalshi(c: Config, rates: Rates) {
    forall fills: seq<Fill>, o: Order, price: int, q: int, taker: bool ::
      c.fee(fills, o, price, q, taker) == Charge(rates, Accumulated(rates, fills), FeeContext(o.id, o.side, price, q, taker)).commission
  }

  lemma PricedIsCharged(c: Config, rates: Rates, before: seq<Fill>, f: Fill)
    requires ChargesKalshi(c, rates) && Priced(c, before, f)
    ensures f.commission == Charge(rates, Accumulated(rates, before), ContextOf(f)).commission
  {
    hide Charge, Accumulated;
  }

  lemma FlowIsWholeCents(c: Config, rates: Rates, before: seq<Fill>, f: Fill)
    requires ChargesKalshi(c, rates) && Priced(c, before, f)
    ensures WholeCents(FundedFlow(c, f))
  {
    hide Charge, Accumulated, Notional, ChargesKalshi, Priced;
    PricedIsCharged(c, rates, before, f);
    AccumulatedUnderOneCent(rates, before);
    ChargeMovesWholeCents(rates, Accumulated(rates, before), ContextOf(f));
  }

  lemma PricedFront(c: Config, before: seq<Fill>, added: seq<Fill>)
    requires added != [] && PricedFrom(c, before, added)
    ensures var n := |added| - 1;
            PricedFrom(c, before, added[..n]) && Priced(c, before + added[..n], added[n])
  {
    hide Priced;
    var n := |added| - 1;
    forall i | 0 <= i < n ensures Priced(c, before + added[..n][..i], added[..n][i]) {
      assert added[..n][..i] == added[..i] && added[..n][i] == added[i];
    }
  }

  lemma FlowsAppend(c: Config, fills: seq<Fill>, f: Fill)
    ensures FundedFlows(c, fills + [f]) == FundedFlows(c, fills) + FundedFlow(c, f)
  {
    hide FundedFlow;
    assert (fills + [f])[..|fills|] == fills;
  }

  lemma {:induction false} FlowsMoveWholeCents(c: Config, rates: Rates, before: seq<Fill>, added: seq<Fill>)
    requires ChargesKalshi(c, rates) && PricedFrom(c, before, added)
    ensures WholeCents(FundedFlows(c, before + added) - FundedFlows(c, before))
    decreases |added|
  {
    hide ChargesKalshi, FundedFlow, FundedFlows, Priced, PricedFrom, WholeCents;
    if added == [] {
      assert before + added == before;
      NoCents();
    } else {
      var n := |added| - 1;
      assert before + added == (before + added[..n]) + [added[n]];
      PricedFront(c, before, added);
      FlowsMoveWholeCents(c, rates, before, added[..n]);
      FlowIsWholeCents(c, rates, before + added[..n], added[n]);
      FlowsAppend(c, before + added[..n], added[n]);
      SumOfCents(FundedFlows(c, before + added[..n]) - FundedFlows(c, before), FundedFlow(c, added[n]));
    }
  }

  lemma NoCents()
    ensures WholeCents(0)
  {
  }

  lemma ExecutedMovesWholeCents(c: Config, rates: Rates, a: Account, a': Account)
    requires ChargesKalshi(c, rates) && Executed(c, a, a')
    ensures WholeCents(FundedFlows(c, a'.fills) - FundedFlows(c, a.fills))
  {
    hide ChargesKalshi, AfterFill, PricedFrom, FilledAll, FundedFlows;
    var added :| a' == FilledAll(c, a, added) && PricedFrom(c, a.fills, added);
    FilledAllFills(c, a, added);
    FlowsMoveWholeCents(c, rates, a.fills, added);
  }

  /** Every step but a set operation books only fills the schedule charged. */
  lemma StepMovesWholeCents(c: Config, rates: Rates, s: State, op: Op)
    requires ChargesKalshi(c, rates) && !op.SetOp?
    ensures WholeCents(FundedFlows(c, Step(c, s, op).account.fills) - FundedFlows(c, s.account.fills))
  {
    hide ChargesKalshi, Step, Executed, FundedFlows;
    if MovesAccountDirectly(op) {
      PaymentBooksNothing(c, s, op);
    } else {
      StepExecutes(c, s, op);
      ExecutedMovesWholeCents(c, rates, s.account, Step(c, s, op).account);
    }
  }

  lemma PaymentBooksNothing(c: Config, s: State, op: Op)
    requires MovesAccountDirectly(op)
    ensures Step(c, s, op).account.fills == s.account.fills
  {
    hide SplitOrdersOf, SplitMarket, SplitPositions, FundingTotal, DividendDue;
  }

  /** What a run's set operations moved: the legs and the flat costs, which no schedule prices. */
  function SetFlows(c: Config, ops: seq<Op>): int {
    if ops == [] then 0
    else
      var n := |ops| - 1;
      SetFlows(c, ops[..n])
        + if ops[n].SetOp? then FundedFlows(c, Run(c, ops).account.fills) - FundedFlows(c, Run(c, ops[..n]).account.fills) else 0
  }

  lemma {:induction false} RunMovesWholeCents(c: Config, rates: Rates, ops: seq<Op>)
    requires ChargesKalshi(c, rates)
    ensures WholeCents(FundedFlows(c, Run(c, ops).account.fills) - SetFlows(c, ops))
    decreases |ops|
  {
    hide ChargesKalshi, Step, FundedFlow;
    if ops != [] {
      var n := |ops| - 1;
      var s, s' := Run(c, ops[..n]), Run(c, ops);
      RunMovesWholeCents(c, rates, ops[..n]);
      if !ops[n].SetOp? {
        StepMovesWholeCents(c, rates, s, ops[n]);
        SumOfCents(FundedFlows(c, s.account.fills) - SetFlows(c, ops[..n]),
                   FundedFlows(c, s'.account.fills) - FundedFlows(c, s.account.fills));
      }
    }
  }

  /**
   Under this schedule, whatever a run does, everything it moves in or out of cash and collateral is
   a whole number of cents, once funding, dividends, set operations and the profit of instruments
   that settle without notional, which are not charged by it, are set aside.
   */
  lemma KalshiCashMovesByWholeCents(c: Config, rates: Rates, ops: seq<Op>)
    requires ChargesKalshi(c, rates)
    ensures var a := Run(c, ops).account;
            var uncharged := a.dividends - a.fundingPaid + SetFlows(c, ops) + MapSum(UnfundedProfits(c, a.positions));
            WholeCents(a.cash + MapSum(a.buckets) - c.startingCash - uncharged)
  {
    hide Run, ChargesKalshi, FundedFlows, UnfundedProfits, SetFlows;
    RunMovesWholeCents(c, rates, ops);
    CashIsConserved(c, ops);
  }
}
