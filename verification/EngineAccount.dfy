/**
 Cash over whole runs.

 Every kernel step changes the account by booking fills one after another, by paying funding
 or a dividend, or by a split that moves no money.  So cash and posted collateral together are
 always what the run started with, plus what the fills and payments since then explain.
 */
module EngineAccount {
  import opened FixedPoint
  import opened Sums
  import opened Orders
  import opened Positions
  import opened Engine
  import L2 = Book

  // ----- What an account should hold -----

  /** The signed position in one book. */
  function Held(a: Account, slot: Slot): int {
    At(a.positions, slot).quantity
  }

  /** Cash a fill of a funded instrument moves; derivatives settle through realised profit. */
  function FundedFlow(c: Config, f: Fill): int {
    if !c.funded(f.slot.instrument) then 0
    else (if f.side.Buy? then -Notional(f.price, f.quantity) else Notional(f.price, f.quantity)) - f.commission
  }

  function FundedFlows(c: Config, fills: seq<Fill>): int {
    if fills == [] then 0 else FundedFlows(c, fills[..|fills| - 1]) + FundedFlow(c, fills[|fills| - 1])
  }

  /** Profit realised on each unfunded position. */
  function UnfundedProfits(c: Config, positions: map<Slot, Holding>): map<Slot, int> {
    map slot | slot in positions && !c.funded(slot.instrument) :: positions[slot].realizedPnl
  }

  /** Free cash and posted collateral, against everything that ever moved money. */
  ghost predicate Conserved(c: Config, a: Account) {
    a.cash + MapSum(a.buckets)
      == c.startingCash - a.fundingPaid + a.dividends
         + FundedFlows(c, a.fills) + MapSum(UnfundedProfits(c, a.positions))
  }

  // ----- One fill -----

  lemma RebalancingMovesNothing(c: Config, a: Account, instrument: nat)
    ensures var a' := Rebalanced(c, a, instrument);
            && a'.cash + MapSum(a'.buckets) == a.cash + MapSum(a.buckets)
            && a'.positions == a.positions && a'.fills == a.fills
            && a'.fundingPaid == a.fundingPaid && a'.dividends == a.dividends
  {
    if instrument in c.isolated && c.margin.Some? {
      var required := Required(c, a.positions, instrument, c.outcomes(instrument));
      MapSumUpdate(a.buckets, instrument, required);
      if instrument in a.buckets {
        MapSumRemove(a.buckets, instrument);
      }
    }
  }

  lemma ProfitsAfterFill(c: Config, positions: map<Slot, Holding>, f: Fill)
    ensures MapSum(UnfundedProfits(c, PortfolioApplied(positions, f)))
         == MapSum(UnfundedProfits(c, positions))
            + if c.funded(f.slot.instrument) then 0
              else Applied(At(positions, f.slot), f).realizedPnl - At(positions, f.slot).realizedPnl
  {
    var before, after := UnfundedProfits(c, positions), UnfundedProfits(c, PortfolioApplied(positions, f));
    if c.funded(f.slot.instrument) {
      assert after == before;
    } else {
      var h := Applied(At(positions, f.slot), f);
      assert after == before[f.slot := h.realizedPnl];
      MapSumUpdate(before, f.slot, h.realizedPnl);
    }
  }

  lemma FillConserves(c: Config, a: Account, f: Fill)
    requires Conserved(c, a)
    ensures Conserved(c, AfterFill(c, a, f))
  {
    hide Applied, Notional;
    var a1 := a.(positions := PortfolioApplied(a.positions, f), cash := CashAfterFill(c, a, f), fills := a.fills + [f]);
    ProfitsAfterFill(c, a.positions, f);
    assert a1.fills[..|a1.fills| - 1] == a.fills;
    RebalancingMovesNothing(c, a1, f.slot.instrument);
  }

  // ----- A step books fills -----

  function FilledAll(c: Config, a: Account, fills: seq<Fill>): Account {
    if fills == [] then a else AfterFill(c, FilledAll(c, a, fills[..|fills| - 1]), fills[|fills| - 1])
  }

  /** The second account is the first with some fills booked. */
  ghost predicate Booked(c: Config, a: Account, a': Account) {
    exists fills :: a' == FilledAll(c, a, fills)
  }

  lemma BookedNone(c: Config, a: Account)
    ensures Booked(c, a, a)
  {
    assert a == FilledAll(c, a, []);
  }

  lemma {:induction false} FilledAllAppend(c: Config, a: Account, first: seq<Fill>, second: seq<Fill>)
    ensures FilledAll(c, FilledAll(c, a, first), second) == FilledAll(c, a, first + second)
    decreases |second|
  {
    hide AfterFill;
    if second == [] {
      assert first + second == first;
    } else {
      var n := |second| - 1;
      var all := first + second;
      assert all[..|all| - 1] == first + second[..n] && all[|all| - 1] == second[n];
      FilledAllAppend(c, a, first, second[..n]);
    }
  }

  lemma BookedTrans(c: Config, a: Account, a1: Account, a2: Account)
    requires Booked(c, a, a1) && Booked(c, a1, a2)
    ensures Booked(c, a, a2)
  {
    hide AfterFill;
    var first :| a1 == FilledAll(c, a, first);
    var second :| a2 == FilledAll(c, a1, second);
    FilledAllAppend(c, a, first, second);
  }

  lemma {:induction false} FillsConserve(c: Config, a: Account, fills: seq<Fill>)
    requires Conserved(c, a)
    ensures Conserved(c, FilledAll(c, a, fills))
    decreases |fills|
  {
    hide Conserved, AfterFill;
    if fills != [] {
      FillsConserve(c, a, fills[..|fills| - 1]);
      FillConserves(c, FilledAll(c, a, fills[..|fills| - 1]), fills[|fills| - 1]);
    }
  }

  lemma BookedConserves(c: Config, a: Account, a': Account)
    requires Conserved(c, a) && Booked(c, a, a')
    ensures Conserved(c, a')
  {
    hide Conserved;
    var fills :| a' == FilledAll(c, a, fills);
    FillsConserve(c, a, fills);
  }

  // ----- Fills priced by the fee model -----

  /** The fill was charged what the fee model asks of that order after those fills. */
  ghost predicate Priced(c: Config, before: seq<Fill>, f: Fill) {
    exists o: Order :: o.id == f.orderId && o.side == f.side && f.commission == c.fee(before, o, f.price, f.quantity, f.isTaker)
  }

  ghost predicate PricedFrom(c: Config, before: seq<Fill>, fills: seq<Fill>) {
    forall i :: 0 <= i < |fills| ==> Priced(c, before + fills[..i], fills[i])
  }

  /** Some fills were booked, each at the fee model's price. */
  ghost predicate Executed(c: Config, a: Account, a': Account) {
    exists fills :: a' == FilledAll(c, a, fills) && PricedFrom(c, a.fills, fills)
  }

  lemma ExecutedNone(c: Config, a: Account)
    ensures Executed(c, a, a)
  {
    assert a == FilledAll(c, a, []) && PricedFrom(c, a.fills, []);
  }

  lemma ExecutedIsBooked(c: Config, a: Account, a': Account)
    requires Executed(c, a, a')
    ensures Booked(c, a, a')
  {
    hide AfterFill, PricedFrom;
    var fills :| a' == FilledAll(c, a, fills) && PricedFrom(c, a.fills, fills);
  }

  lemma {:induction false} FilledAllFills(c: Config, a: Account, fills: seq<Fill>)
    ensures FilledAll(c, a, fills).fills == a.fills + fills
    decreases |fills|
  {
    hide PortfolioApplied, CashAfterFill;
    if fills != [] {
      var n := |fills| - 1;
      FilledAllFills(c, a, fills[..n]);
      var a1 := FilledAll(c, a, fills[..n]);
      var a2 := a1.(positions := PortfolioApplied(a1.positions, fills[n]), cash := CashAfterFill(c, a1, fills[n]),
                    fills := a1.fills + [fills[n]]);
      RebalancingMovesNothing(c, a2, fills[n].slot.instrument);
      assert a.fills + fills == (a.fills + fills[..n]) + [fills[n]];
    }
  }

  lemma ExecutedTrans(c: Config, a: Account, a1: Account, a2: Account)
    requires Executed(c, a, a1) && Executed(c, a1, a2)
    ensures Executed(c, a, a2)
  {
    hide AfterFill, Priced, FilledAll;
    var first :| a1 == FilledAll(c, a, first) && PricedFrom(c, a.fills, first);
    var second :| a2 == FilledAll(c, a1, second) && PricedFrom(c, a1.fills, second);
    FilledAllAppend(c, a, first, second);
    FilledAllFills(c, a, first);
    var all := first + second;
    forall i | 0 <= i < |all| ensures Priced(c, a.fills + all[..i], all[i]) {
      if i < |first| {
        assert all[..i] == first[..i];
      } else {
        var j := i - |first|;
        assert Priced(c, a1.fills + second[..j], second[j]);
        assert a.fills + all[..i] == (a.fills + first) + second[..j];
      }
    }
  }

  // ----- What each step books -----

  lemma BookFillBooks(c: Config, s: State, id: OrderId, price: int, q: int, commission: int, taker: bool)
    requires id in s.desk.orders
    ensures Booked(c, s.account, BookFill(c, s, id, price, q, commission, taker).account)
    ensures BookFill(c, s, id, price, q, commission, taker).market == s.market
  {
    hide AfterFill;
    BookedNone(c, s.account);
    var f := Fill(id, s.desk.orders[id].slot, s.desk.orders[id].side, price, q, commission, taker);
    assert [f][..0] == [];
    assert FilledAll(c, s.account, []) == s.account;
    assert AfterFill(c, s.account, f) == FilledAll(c, s.account, [f]);
  }

  lemma ExecuteBooks(c: Config, s: State, id: OrderId, price: int, q: int, taker: bool)
    requires id in s.desk.orders
    ensures Executed(c, s.account, Execute(c, s, id, price, q, taker).account)
    ensures Execute(c, s, id, price, q, taker).market == s.market
  {
    hide AfterFill;
    ExecutedNone(c, s.account);
    var o := s.desk.orders[id].(id := id);
    var f := Fill(id, o.slot, o.side, price, q, c.fee(s.account.fills, o, price, q, taker), taker);
    assert [f][..0] == [] && s.account.fills + [] == s.account.fills;
    assert FilledAll(c, s.account, []) == s.account;
    assert AfterFill(c, s.account, f) == FilledAll(c, s.account, [f]);
    assert PricedFrom(c, s.account.fills, [f]) by {
      assert Priced(c, s.account.fills, f);
    }
  }

  lemma {:induction false} ExecuteAllBooks(c: Config, s: State, id: OrderId, fills: seq<(int, int)>, taker: bool)
    ensures Executed(c, s.account, ExecuteAll(c, s, id, fills, taker).account)
    ensures ExecuteAll(c, s, id, fills, taker).market == s.market
    decreases |fills|
  {
    hide Executed, Execute;
    ExecutedNone(c, s.account);
    if !(fills == [] || s.fault.Some? || id !in s.desk.orders) {
      var s1 := Execute(c, s, id, fills[0].0, fills[0].1, taker);
      ExecuteBooks(c, s, id, fills[0].0, fills[0].1, taker);
      ExecuteAllBooks(c, s1, id, fills[1..], taker);
      ExecutedTrans(c, s.account, s1.account, ExecuteAll(c, s, id, fills, taker).account);
    }
  }

  lemma TryFillBooks(c: Config, s: State, id: OrderId)
    ensures Executed(c, s.account, TryFill(c, s, id).account)
    ensures TryFill(c, s, id).market == s.market
  {
    hide Executed, ExecuteAll, RestOrCancel, Close;
    ExecutedNone(c, s.account);
    if id in s.desk.orders && s.desk.orders[id].slot in s.market.books {
      var o := s.desk.orders[id];
      var w := L2.Walk(EffectiveBook(c, s.market, o), o.side, Wanted(s.account, o), o.LimitPrice());
      ExecuteAllBooks(c, s, id, w.fills, !o.postOnly);
    }
  }

  lemma {:induction false} OfferBooks(c: Config, s: State, ids: seq<OrderId>)
    ensures Executed(c, s.account, Offer(c, s, ids).account)
    ensures Offer(c, s, ids).market == s.market
    decreases |ids|
  {
    hide Executed, TryFill;
    ExecutedNone(c, s.account);
    if ids != [] && s.fault.None? {
      var s1 := TryFill(c, s, ids[0]);
      TryFillBooks(c, s, ids[0]);
      OfferBooks(c, s1, ids[1..]);
      ExecutedTrans(c, s.account, s1.account, Offer(c, s, ids).account);
    }
  }

  lemma MatchBooks(c: Config, s: State, slot: Slot, corporate: bool)
    ensures Executed(c, s.account, MatchResting(c, s, slot, corporate).account)
    ensures MatchResting(c, s, slot, corporate).market == s.market
  {
    hide Executed, Candidates;
    ExecutedNone(c, s.account);
    if slot in s.market.books {
      OfferBooks(c, s, Candidates(c, s, slot, corporate));
    }
  }

  lemma ConsumeOneBooks(c: Config, s: State, limit: int, id: OrderId, remaining: int)
    ensures Executed(c, s.account, ConsumeOne(c, s, limit, id, remaining).state.account)
    ensures ConsumeOne(c, s, limit, id, remaining).state.market == s.market
  {
    hide Executed, Execute;
    ExecutedNone(c, s.account);
    var eaten := Eaten(s, id, remaining);
    var s1 := SetAhead(s, id, ValueOr(s.desk.queueAhead, id, 0) - eaten);
    var fill := Min(remaining - eaten, WantedBy(s1.desk, id));
    if fill > 0 {
      ExecuteBooks(c, s1, id, limit, fill, false);
    }
  }

  lemma {:induction false} ConsumeBooks(c: Config, s: State, eligible: seq<(int, OrderId)>, remaining: int)
    ensures Executed(c, s.account, Consume(c, s, eligible, remaining).state.account)
    ensures Consume(c, s, eligible, remaining).state.market == s.market
    decreases |eligible|
  {
    hide Executed, ConsumeOne;
    ExecutedNone(c, s.account);
    if eligible != [] && remaining > 0 && s.fault.None? {
      var one := ConsumeOne(c, s, eligible[0].0, eligible[0].1, remaining);
      ConsumeOneBooks(c, s, eligible[0].0, eligible[0].1, remaining);
      ConsumeBooks(c, one.state, eligible[1..], one.left);
      ExecutedTrans(c, s.account, one.state.account, Consume(c, s, eligible, remaining).state.account);
    }
  }

  lemma ConsumeSideBooks(c: Config, s: State, slot: Slot, price: int, size: int, passive: Side)
    ensures Executed(c, s.account, ConsumeSide(c, s, slot, price, size, passive).account)
    ensures ConsumeSide(c, s, slot, price, size, passive).market == s.market
  {
    hide Executed, Consume, RestingIndex.ReachedByTrade;
    ConsumeBooks(c, s, RestingIndex.ReachedByTrade(s.desk.index, slot, passive, price), size);
  }

  lemma PrintedBooks(c: Config, s: State, slot: Slot, price: int, size: int, aggressor: Option<Side>)
    ensures Executed(c, s.account, Printed(c, s, slot, price, size, aggressor).account)
    ensures Printed(c, s, slot, price, size, aggressor).market == s.market
  {
    hide Executed, ConsumeSide;
    ExecutedNone(c, s.account);
    ConsumeSideBooks(c, s, slot, price, size, Buy);
    ConsumeSideBooks(c, s, slot, price, size, Sell);
    var s1 := ConsumeSide(c, s, slot, price, size, Buy);
    ConsumeSideBooks(c, s1, slot, price, size, Sell);
    ExecutedTrans(c, s.account, s1.account, ConsumeSide(c, s1, slot, price, size, Sell).account);
  }

  lemma ReleasedBooks(c: Config, s: State, id: OrderId, funded: bool)
    ensures Executed(c, s.account, Released(c, s, id, funded).account)
    ensures Released(c, s, id, funded).market == s.market
  {
    hide Executed, TryFill, SelfTrades, WouldCross;
    ExecutedNone(c, s.account);
    var d := s.desk.(inflight := Sorting.Without(s.desk.inflight, id));
    if id in d.orders {
      var o := d.orders[id].(id := id, trigger := None, status := Accepted);
      TryFillBooks(c, s.(desk := SetOrder(d, o)), id);
    }
  }

  lemma {:induction false} ArmBooks(c: Config, s: State, ids: seq<OrderId>)
    ensures Executed(c, s.account, Arm(c, s, ids).account)
    ensures Arm(c, s, ids).market == s.market
    decreases |ids|
  {
    hide Executed, TryFill;
    ExecutedNone(c, s.account);
    if !(ids == [] || s.fault.Some? || ids[0] !in s.desk.orders) {
      var o := s.desk.orders[ids[0]].(id := ids[0], trigger := None, status := Accepted);
      var s1 := TryFill(c, s.(desk := SetOrder(s.desk, o)), ids[0]);
      TryFillBooks(c, s.(desk := SetOrder(s.desk, o)), ids[0]);
      ArmBooks(c, s1, ids[1..]);
      ExecutedTrans(c, s.account, s1.account, Arm(c, s, ids).account);
    }
  }

  lemma EngineOrderBooks(c: Config, s: State, slot: Slot, side: Side, quantity: int, reduceOnly: bool)
    ensures Executed(c, s.account, EngineOrder(c, s, slot, side, quantity, reduceOnly).account)
    ensures EngineOrder(c, s, slot, side, quantity, reduceOnly).market == s.market
  {
    hide Executed, TryFill;
    ExecutedNone(c, s.account);
    var s1 := WithEngineOrder(s, slot, side, quantity, reduceOnly);
    TryFillBooks(c, s1, s1.desk.nextId);
  }

  lemma {:induction false} CashOutBooks(c: Config, s: State, instrument: nat, outcomes: nat, price: int)
    ensures Executed(c, s.account, CashOut(c, s, instrument, outcomes, price).account)
    ensures CashOut(c, s, instrument, outcomes, price).market == s.market
    decreases outcomes
  {
    hide Executed, Execute;
    ExecutedNone(c, s.account);
    if outcomes > 0 {
      CashOutBooks(c, s, instrument, outcomes - 1, price);
      var s1 := CashOut(c, s, instrument, outcomes - 1, price);
      var slot := Slot(instrument, outcomes - 1);
      var q := At(s1.account.positions, slot).quantity;
      var s2 := WithEngineOrder(s1, slot, if q > 0 then Sell else Buy, Abs(q), false);
      ExecuteBooks(c, s2, s2.desk.nextId, price, Abs(q), false);
      ExecutedTrans(c, s.account, s1.account, Execute(c, s2, s2.desk.nextId, price, Abs(q), false).account);
    }
  }

  lemma {:induction false} BookLegsBooks(c: Config, s: State, instrument: nat, side: Side, sets: int, basis: seq<int>, k: nat, cost: int)
    requires k <= |basis|
    ensures Booked(c, s.account, BookLegs(c, s, instrument, side, sets, basis, k, cost).account)
    ensures BookLegs(c, s, instrument, side, sets, basis, k, cost).market == s.market
    decreases |basis| - k
  {
    hide Booked, BookFill;
    BookedNone(c, s.account);
    if k < |basis| && s.fault.None? {
      var slot, fee := Slot(instrument, k), if k == 0 then cost else 0;
      var s1 := WithEngineOrder(s, slot, side, sets, false);
      BookFillBooks(c, s1, s1.desk.nextId, basis[k], sets, fee, false);
      var s2 := BookLeg(c, s, slot, side, sets, basis[k], fee);
      BookLegsBooks(c, s2, instrument, side, sets, basis, k + 1, cost);
      BookedTrans(c, s.account, s2.account, BookLegs(c, s, instrument, side, sets, basis, k, cost).account);
    }
  }

  lemma SetOperationBooks(c: Config, s: State, instrument: nat, kind: SetKind, quantity: int)
    ensures Booked(c, s.account, SetOperation(c, s, instrument, kind, quantity).account)
    ensures SetOperation(c, s, instrument, kind, quantity).market == s.market
  {
    hide Booked, BookLegs, SetBasis, SetRefused, SetCount;
    BookedNone(c, s.account);
    match SetCount(c, instrument, kind, quantity)
    case None =>
    case Some((sets, side)) =>
      match SetBasis(c, s.market, instrument)
      case None =>
      case Some(basis) => BookLegsBooks(c, s, instrument, side, sets, basis, 0, SetCost(c, kind));
  }

  // ----- Every step, every run -----

  /** The steps that change the account without a fill. */
  predicate MovesAccountDirectly(op: Op) {
    op.Funding? || op.Dividend? || op.SplitAction?
  }

  /** Every step but a set operation books fills at the fee model's price. */
  lemma StepExecutes(c: Config, s: State, op: Op)
    requires !MovesAccountDirectly(op) && !op.SetOp?
    ensures Executed(c, s.account, Step(c, s, op).account)
    ensures !op.Feed? ==> Step(c, s, op).market.books == s.market.books
  {
    hide Executed, Submitted, Amended, Released, TriggersArmed, Printed, MatchResting, EngineOrder, CashOut;
    ExecutedNone(c, s.account);
    match op
    case Submit(r) => SubmittedAccount(c, s, r);
    case Amend(id, q, l) => AmendedAccount(c, s, id, q, l);
    case Release(id, funded) => ReleasedBooks(c, s, id, funded);
    case ArmTriggers => TriggersArmedBooks(c, s);
    case Print(slot, price, size, aggressor) => PrintedBooks(c, s, slot, price, size, aggressor);
    case Match(slot, corporate) => MatchBooks(c, s, slot, corporate);
    case Delist(i, price) => CashOutBooks(c, s, i, c.outcomes(i), price);
    case PlaceEngineOrder(slot, side, q, reduceOnly) => EngineOrderBooks(c, s, slot, side, q, reduceOnly);
    case _ =>
  }

  lemma StepBooks(c: Config, s: State, op: Op)
    requires !MovesAccountDirectly(op)
    ensures Booked(c, s.account, Step(c, s, op).account)
    ensures !op.Feed? ==> Step(c, s, op).market.books == s.market.books
  {
    hide Booked, Executed, SetOperation, Step;
    if op.SetOp? {
      SetStepBooks(c, s, op);
    } else {
      StepExecutes(c, s, op);
      ExecutedIsBooked(c, s.account, Step(c, s, op).account);
    }
  }

  lemma StepSameBooks(c: Config, s: State, op: Op)
    requires !op.Feed? && !MovesAccountDirectly(op)
    ensures Step(c, s, op).market.books == s.market.books
  {
    hide Step, Booked;
    StepBooks(c, s, op);
  }

  lemma SetStepBooks(c: Config, s: State, op: Op)
    requires op.SetOp?
    ensures Booked(c, s.account, Step(c, s, op).account) && Step(c, s, op).market == s.market
  {
    hide Booked, SetOperation;
    BookedNone(c, s.account);
    SetOperationBooks(c, s, op.instrument, op.kind, op.quantity);
  }

  lemma SubmittedAccount(c: Config, s: State, r: Request)
    ensures Submitted(c, s, r).account == s.account && Submitted(c, s, r).market == s.market
  {
    hide NakedShort, RiskRejected, LiveOnly;
  }

  lemma AmendedAccount(c: Config, s: State, id: OrderId, quantity: Option<int>, limit: Option<int>)
    ensures Amended(c, s, id, quantity, limit).account == s.account
    ensures Amended(c, s, id, quantity, limit).market == s.market
  {
  }

  lemma TriggersArmedBooks(c: Config, s: State)
    ensures Executed(c, s.account, TriggersArmed(c, s).account)
    ensures TriggersArmed(c, s).market == s.market
  {
    hide Executed, Arm, StillParked;
    var parked := s.desk.untriggered;
    ArmBooks(c, s.(desk := s.desk.(untriggered := StillParked(s, parked, false))), StillParked(s, parked, true));
  }

  lemma SplitMovesNoMoney(c: Config, s: State, instrument: nat, ratio: int)
    requires Conserved(c, s.account)
    ensures Conserved(c, SplitShares(s, instrument, ratio).account)
  {
    hide SplitResting, SplitHeld, BookFeed.SplitBook, SplitPrices;
    var a' := SplitShares(s, instrument, ratio).account;
    assert UnfundedProfits(c, a'.positions) == UnfundedProfits(c, s.account.positions);
  }

  lemma StepConserves(c: Config, s: State, op: Op)
    requires Conserved(c, s.account)
    ensures Conserved(c, Step(c, s, op).account)
  {
    hide Conserved, Step;
    if !MovesAccountDirectly(op) {
      StepIsBooked(c, s, op);
    } else if op.SplitAction? {
      SplitConserves(c, s, op);
    } else {
      PaymentConserves(c, s, op);
    }
  }

  lemma SplitConserves(c: Config, s: State, op: Op)
    requires Conserved(c, s.account) && op.SplitAction?
    ensures Conserved(c, Step(c, s, op).account)
  {
    hide Conserved, SplitShares;
    SplitMovesNoMoney(c, s, op.instrument, op.ratio);
  }

  /** What a payment adds to cash it adds to the account of payments. */
  lemma PaymentConserves(c: Config, s: State, op: Op)
    requires Conserved(c, s.account) && (op.Funding? || op.Dividend?)
    ensures Conserved(c, Step(c, s, op).account)
  {
    hide FundingTotal, DividendDue, FundedFlows, UnfundedProfits;
  }

  lemma StepIsBooked(c: Config, s: State, op: Op)
    requires Conserved(c, s.account) && !MovesAccountDirectly(op)
    ensures Conserved(c, Step(c, s, op).account)
  {
    hide Conserved, Step, Booked;
    StepBooks(c, s, op);
    BookedConserves(c, s.account, Step(c, s, op).account);
  }

  lemma {:induction false} RunConserves(c: Config, ops: seq<Op>)
    ensures Conserved(c, Run(c, ops).account)
    decreases |ops|
  {
    hide Step;
    if ops != [] {
      RunConserves(c, ops[..|ops| - 1]);
      StepConserves(c, Run(c, ops[..|ops| - 1]), ops[|ops| - 1]);
    } else {
      assert UnfundedProfits(c, map[]) == map[];
    }
  }

  /**
   Cash conservation over any run: free cash plus all posted collateral is the starting cash,
   less funding paid, plus dividends, plus what the fills of funded instruments moved, plus the
   profit realised on everything else.
   */
  lemma CashIsConserved(c: Config, ops: seq<Op>)
    ensures var a := Run(c, ops).account;
            a.cash + MapSum(a.buckets)
              == c.startingCash - a.fundingPaid + a.dividends
                 + FundedFlows(c, a.fills) + MapSum(UnfundedProfits(c, a.positions))
  {
    hide Run;
    RunConserves(c, ops);
  }

  // ----- Positions are the fold of fills and splits -----

  /** What moves a position. */
  datatype Event = Traded(fill: Fill) | Rescaled(instrument: nat, ratio: int)

  function AfterEvent(positions: map<Slot, Holding>, e: Event): map<Slot, Holding> {
    match e
    case Traded(f) => PortfolioApplied(positions, f)
    case Rescaled(instrument, ratio) => if ratio > 0 then SplitPositions(positions, instrument, ratio) else positions
  }

  function Folded(positions: map<Slot, Holding>, events: seq<Event>): map<Slot, Holding> {
    if events == [] then positions else AfterEvent(Folded(positions, events[..|events| - 1]), events[|events| - 1])
  }

  function Trades(fills: seq<Fill>): seq<Event> {
    seq(|fills|, i requires 0 <= i < |fills| => Traded(fills[i]))
  }

  /** What a run did to positions, in order: the fills it recorded and the splits between them. */
  function History(c: Config, ops: seq<Op>): seq<Event> {
    if ops == [] then []
    else
      var n := |ops| - 1;
      var s, s' := Run(c, ops[..n]), Run(c, ops);
      History(c, ops[..n])
        + if ops[n].SplitAction? && s.fault.None? then [Rescaled(ops[n].instrument, ops[n].ratio)]
          else if |s.account.fills| <= |s'.account.fills| then Trades(s'.account.fills[|s.account.fills|..]) else []
  }

  lemma {:induction false} FoldedAppend(positions: map<Slot, Holding>, first: seq<Event>, second: seq<Event>)
    ensures Folded(Folded(positions, first), second) == Folded(positions, first + second)
    decreases |second|
  {
    hide AfterEvent;
    if second == [] {
      assert first + second == first;
    } else {
      var n := |second| - 1;
      var all := first + second;
      assert all[..|all| - 1] == first + second[..n] && all[|all| - 1] == second[n];
      FoldedAppend(positions, first, second[..n]);
    }
  }

  lemma {:induction false} FilledAllFolds(c: Config, a: Account, fills: seq<Fill>)
    ensures FilledAll(c, a, fills).positions == Folded(a.positions, Trades(fills))
    decreases |fills|
  {
    hide PortfolioApplied, CashAfterFill;
    if fills != [] {
      var n := |fills| - 1;
      FilledAllFolds(c, a, fills[..n]);
      var a1 := FilledAll(c, a, fills[..n]);
      var a2 := a1.(positions := PortfolioApplied(a1.positions, fills[n]), cash := CashAfterFill(c, a1, fills[n]),
                    fills := a1.fills + [fills[n]]);
      RebalancingMovesNothing(c, a2, fills[n].slot.instrument);
      var events := Trades(fills);
      assert events[..|events| - 1] == Trades(fills[..n]) && events[|events| - 1] == Traded(fills[n]);
    }
  }

  lemma StepFolds(c: Config, s: State, op: Op)
    requires !op.SplitAction? || s.fault.Some?
    ensures var a, a' := s.account, Step(c, s, op).account;
            && |a.fills| <= |a'.fills| && a'.fills[..|a.fills|] == a.fills
            && a'.positions == Folded(a.positions, Trades(a'.fills[|a.fills|..]))
  {
    hide Folded, Trades, Executed, Booked;
    NothingFolds(s.account.positions);
    if s.fault.None? && !MovesAccountDirectly(op) {
      StepBookedFolds(c, s, op);
    } else {
      assert s.account.fills[|s.account.fills|..] == [];
    }
  }

  lemma NothingFolds(positions: map<Slot, Holding>)
    ensures Folded(positions, Trades([])) == positions
  {
  }

  lemma StepBookedFolds(c: Config, s: State, op: Op)
    requires !MovesAccountDirectly(op)
    ensures var a, a' := s.account, Step(c, s, op).account;
            && |a.fills| <= |a'.fills| && a'.fills[..|a.fills|] == a.fills
            && a'.positions == Folded(a.positions, Trades(a'.fills[|a.fills|..]))
  {
    hide Step, AfterFill, Folded, FilledAll, Trades;
    StepBooks(c, s, op);
    var fills :| Step(c, s, op).account == FilledAll(c, s.account, fills);
    FilledAllFills(c, s.account, fills);
    FilledAllFolds(c, s.account, fills);
    assert (s.account.fills + fills)[|s.account.fills|..] == fills;
  }

  /** The fills in a history, in order. */
  function FillsIn(events: seq<Event>): seq<Fill> {
    if events == [] then []
    else
      var front, last := FillsIn(events[..|events| - 1]), events[|events| - 1];
      if last.Traded? then front + [last.fill] else front
  }

  lemma {:induction false} FillsInAppend(events: seq<Event>, fills: seq<Fill>)
    ensures FillsIn(events + Trades(fills)) == FillsIn(events) + fills
    decreases |fills|
  {
    if fills == [] {
      assert events + Trades(fills) == events;
      assert FillsIn(events) + fills == FillsIn(events);
    } else {
      var n := |fills| - 1;
      var all := events + Trades(fills);
      assert all[..|all| - 1] == events + Trades(fills[..n]) && all[|all| - 1] == Traded(fills[n]);
      FillsInAppend(events, fills[..n]);
      assert FillsIn(events) + fills == (FillsIn(events) + fills[..n]) + [fills[n]];
    }
  }

  lemma SplitFolds(c: Config, s: State, op: Op)
    requires op.SplitAction? && s.fault.None?
    ensures Step(c, s, op).account.positions == AfterEvent(s.account.positions, Rescaled(op.instrument, op.ratio))
    ensures Step(c, s, op).account.fills == s.account.fills
  {
    hide SplitOrdersOf, SplitMarket, SplitPositions;
  }

  /**
   Over every run, splits and all: positions are the fold, from nothing, of the fills on record and
   the splits between them, and of nothing else.
   */
  lemma {:induction false} PositionsFoldTheHistory(c: Config, ops: seq<Op>)
    ensures Run(c, ops).account.positions == Folded(map[], History(c, ops))
    ensures FillsIn(History(c, ops)) == Run(c, ops).account.fills
    decreases |ops|
  {
    hide Step, AfterEvent, Trades;
    if ops != [] {
      var n := |ops| - 1;
      var s, s' := Run(c, ops[..n]), Run(c, ops);
      var before := History(c, ops[..n]);
      PositionsFoldTheHistory(c, ops[..n]);
      if ops[n].SplitAction? && s.fault.None? {
        SplitFolds(c, s, ops[n]);
        var last := [Rescaled(ops[n].instrument, ops[n].ratio)];
        assert (before + last)[..|before + last| - 1] == before;
      } else {
        StepFolds(c, s, ops[n]);
        var added := s'.account.fills[|s.account.fills|..];
        FoldedAppend(map[], before, Trades(added));
        FillsInAppend(before, added);
        assert s'.account.fills == s.account.fills + added;
      }
    }
  }
}
