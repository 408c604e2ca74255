/**
 The books a run matches against are the feed's: each is what its own messages, and the splits of
 its instrument, made of it, and nothing the engine does to orders or the account moves it.
 */
module EngineBooks {
  import opened FixedPoint
  import opened Orders
  import opened Book
  import opened BookFeed
  import opened Engine
  import opened EngineAccount
  import opened EngineAmends
  import EngineRuns

  /** What a step says to one book. */
  function MessageOf(s: State, s': State, op: Op, slot: Slot): seq<FeedOp> {
    if s.fault.Some? || s'.fault.Some? then []
    else match op
      case Feed(x, feed) => if x == slot then [feed] else []
      case SplitAction(i, ratio) => if i == slot.instrument then [Split(ratio)] else []
      case _ => []
  }

  /** Everything a run said to one book, in order. */
  function FeedOf(c: Config, ops: seq<Op>, slot: Slot): seq<FeedOp> {
    if ops == [] then []
    else
      var n := |ops| - 1;
      FeedOf(c, ops[..n], slot) + MessageOf(Run(c, ops[..n]), Run(c, ops), ops[n], slot)
  }

  lemma SplitOfEmpty(ratio: int)
    ensures Fed(EMPTY, Split(ratio)) == EMPTY
  {
    if ratio > 0 {
      SplitOfNothing(ratio);
    }
  }

  lemma SplitBooks(s: State, instrument: nat, ratio: int, slot: Slot)
    ensures var s' := SplitShares(s, instrument, ratio);
            BookAt(s'.market, slot) == if slot.instrument == instrument && ratio > 0 then Fed(BookAt(s.market, slot), Split(ratio)) else BookAt(s.market, slot)
    ensures s.fault.None? ==> (SplitShares(s, instrument, ratio).fault.Some? <==> ratio <= 0)
  {
    hide SplitSide, SplitOrdersOf, SplitPositions, SplitPrices;
    SplitOfEmpty(ratio);
  }

  lemma FedBookIsFed(s: State, x: Slot, feed: FeedOp, slot: Slot)
    requires s.fault.None?
    ensures var s' := FedBook(s, x, feed);
            BookAt(s'.market, slot) == if x == slot && s'.fault.None? then Fed(BookAt(s.market, slot), feed) else BookAt(s.market, slot)
  {
    hide Fed, DeltaApplied;
  }

  lemma StepFeeds(c: Config, s: State, op: Op, slot: Slot)
    ensures var s' := Step(c, s, op);
            BookAt(s'.market, slot) == FedAll(BookAt(s.market, slot), MessageOf(s, s', op, slot))
  {
    hide Fed, DeltaApplied, SplitShares, FedBook;
    var b := BookAt(s.market, slot);
    assert FedAll(b, []) == b;
    if s.fault.None? {
      if op.Feed? {
        FedBookIsFed(s, op.slot, op.feed, slot);
        FedOne(b, op.feed);
      } else if op.SplitAction? {
        SplitBooks(s, op.instrument, op.ratio, slot);
        FedOne(b, Split(op.ratio));
      } else if !MovesAccountDirectly(op) {
        StepSameBooks(c, s, op);
      } else {
        MarketStays(c, s, op);
      }
    }
  }

  lemma FedOne(b: BookState, op: FeedOp)
    ensures FedAll(b, [op]) == Fed(b, op)
  {
    hide Fed;
    assert [op][..0] == [];
    assert FedAll(b, []) == b;
  }

  lemma {:induction false} FedAllAppend(b: BookState, first: seq<FeedOp>, second: seq<FeedOp>)
    ensures FedAll(FedAll(b, first), second) == FedAll(b, first + second)
    decreases |second|
  {
    hide Fed;
    if second == [] {
      assert first + second == first;
    } else {
      var n := |second| - 1;
      var all := first + second;
      assert all[..|all| - 1] == first + second[..n] && all[|all| - 1] == second[n];
      FedAllAppend(b, first, second[..n]);
    }
  }

  /** After any run, every book is what its own feed made of it. */
  lemma {:induction false} BooksAreTheFeed(c: Config, ops: seq<Op>, slot: Slot)
    ensures BookAt(Run(c, ops).market, slot) == FedAll(EMPTY, FeedOf(c, ops, slot))
    decreases |ops|
  {
    hide Step, MessageOf, Fed;
    if ops != [] {
      var n := |ops| - 1;
      var s := Run(c, ops[..n]);
      BooksAreTheFeed(c, ops[..n], slot);
      StepFeeds(c, s, ops[n], slot);
      FedAllAppend(EMPTY, FeedOf(c, ops[..n], slot), MessageOf(s, Run(c, ops), ops[n], slot));
    }
  }

  /**
   A message ends the run exactly when it is an increment and no snapshot has come since the last
   gap in that book's feed, or a split that did not come as a corporate action.
   */
  lemma FeedEndsExactlyWhen(c: Config, ops: seq<Op>, slot: Slot, feed: FeedOp)
    requires Run(c, ops).fault.None?
    ensures var s' := Step(c, Run(c, ops), Feed(slot, feed));
            if feed.Split? || (feed.Increment? && !SnapshotSinceGap(FeedOf(c, ops, slot)))
            then s' == Run(c, ops).(fault := Some(BookGap)) else s'.fault.None?
  {
    hide Run, FeedOf, FedAll, Fed, SnapshotSinceGap;
    BooksAreTheFeed(c, ops, slot);
    FeedKeepsBook(FeedOf(c, ops, slot));
  }

  /**
   So what an order joins behind is what the last message about its level said: the size ahead of
   an order that comes to rest is told by the feed alone.
   */
  lemma QueueIsToldByTheFeed(c: Config, ops: seq<Op>, slot: Slot, side: Side, price: int)
    ensures ShownAt(Run(c, ops).market, slot, side, price) == Shown(FedAll(EMPTY, FeedOf(c, ops, slot)), side, price)
  {
    hide Run, FeedOf, FedAll;
    BooksAreTheFeed(c, ops, slot);
    if slot !in Run(c, ops).market.books {
      NothingShown(side, price);
    }
  }

  // ----- Marks and oracles -----

  /** Steps that say something about the market. */
  predicate MovesMarket(op: Op) {
    op.Feed? || op.SetMark? || op.SetOracle? || op.SplitAction? || op.AdvanceTo? || op.Delist?
  }

  /** Nothing an order or a payment does moves the market. */
  lemma MarketStays(c: Config, s: State, op: Op)
    requires !MovesMarket(op)
    ensures Step(c, s, op).market == s.market
  {
    hide Submitted, Amended, Released, TriggersArmed, Printed, MatchResting, EngineOrder, SetOperation, FundingTotal, DividendDue,
         Executed, Booked;
    match op
    case Submit(r) => SubmittedAccount(c, s, r);
    case Amend(id, q, l) => AmendedAccount(c, s, id, q, l);
    case Release(id, funded) => ReleasedBooks(c, s, id, funded);
    case ArmTriggers => TriggersArmedBooks(c, s);
    case Print(slot, price, size, aggressor) => PrintedBooks(c, s, slot, price, size, aggressor);
    case Match(slot, corporate) => MatchBooks(c, s, slot, corporate);
    case PlaceEngineOrder(slot, side, q, reduceOnly) => EngineOrderBooks(c, s, slot, side, q, reduceOnly);
    case SetOp(i, kind, q) => SetOperationBooks(c, s, i, kind, q);
    case _ =>
  }

  /** The last price set for a slot, restated by the splits since; nothing before one is set. */
  function LastSet(c: Config, ops: seq<Op>, slot: Slot, oracle: bool): Option<int> {
    if ops == [] then None
    else
      var n := |ops| - 1;
      var before := LastSet(c, ops[..n], slot, oracle);
      if Run(c, ops[..n]).fault.Some? then before else SetTo(ops[n], slot, oracle, before)
  }

  function Lookup(prices: map<Slot, int>, slot: Slot): Option<int> {
    if slot in prices then Some(prices[slot]) else None
  }

  lemma OtherMarketSteps(c: Config, s: State, op: Op)
    requires op.Feed? || op.AdvanceTo? || op.Delist?
    ensures var m := Step(c, s, op).market;
            m.marks == s.market.marks && m.oracles == s.market.oracles
  {
    hide Fed, DeltaApplied, CancelAll, Doomed, CashOut, Executed;
    if op.Delist? {
      CashOutBooks(c, s, op.instrument, c.outcomes(op.instrument), op.price);
    }
  }

  lemma SplitPricesAre(s: State, instrument: nat, ratio: int, slot: Slot)
    ensures var m, m' := s.market, SplitShares(s, instrument, ratio).market;
            && Lookup(m'.marks, slot)
                 == (if slot in m.marks && slot.instrument == instrument && ratio > 0 then Some(TruncDiv(m.marks[slot] * SCALE, ratio))
                     else Lookup(m.marks, slot))
            && Lookup(m'.oracles, slot)
                 == (if slot in m.oracles && slot.instrument == instrument && ratio > 0 then Some(TruncDiv(m.oracles[slot] * SCALE, ratio))
                     else Lookup(m.oracles, slot))
  {
    hide SplitOrdersOf, SplitPositions, SplitBook, TruncDiv;
  }

  /** What a step that does not fault the run sets a slot's price to. */
  function SetTo(op: Op, slot: Slot, oracle: bool, before: Option<int>): Option<int> {
    match op
    case SetMark(x, price) => if x == slot && !oracle then Some(price) else before
    case SetOracle(x, price) => if x == slot && oracle then Some(price) else before
    case SplitAction(i, ratio) =>
      if before.Some? && i == slot.instrument && ratio > 0 then Some(TruncDiv(before.value * SCALE, ratio)) else before
    case _ => before
  }

  lemma StepSets(c: Config, s: State, op: Op, slot: Slot)
    requires s.fault.None?
    ensures var m, m' := s.market, Step(c, s, op).market;
            && Lookup(m'.marks, slot) == SetTo(op, slot, false, Lookup(m.marks, slot))
            && Lookup(m'.oracles, slot) == SetTo(op, slot, true, Lookup(m.oracles, slot))
  {
    hide TruncDiv, SplitShares;
    if !MovesMarket(op) {
      MarketStays(c, s, op);
    } else if op.SplitAction? {
      SplitPricesAre(s, op.instrument, op.ratio, slot);
    } else if !op.SetMark? && !op.SetOracle? {
      OtherMarketSteps(c, s, op);
    }
  }

  /** After any run a slot's mark and its oracle price are the last ones set, in today's terms. */
  lemma {:induction false} MarksAreTheLastSet(c: Config, ops: seq<Op>, slot: Slot)
    ensures Lookup(Run(c, ops).market.marks, slot) == LastSet(c, ops, slot, false)
    ensures Lookup(Run(c, ops).market.oracles, slot) == LastSet(c, ops, slot, true)
    decreases |ops|
  {
    hide TruncDiv, Step, SetTo;
    if ops != [] {
      var n := |ops| - 1;
      var s := Run(c, ops[..n]);
      MarksAreTheLastSet(c, ops[..n], slot);
      EngineRuns.FaultStops(c, s, ops[n]);
      if s.fault.None? {
        StepSets(c, s, ops[n], slot);
      }
    }
  }
}
