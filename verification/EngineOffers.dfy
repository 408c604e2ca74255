/**
 What one offer to the market does, from the order's side.

 The order trades the smaller of what it wants and what the book shows within its limit, best
 price first; fill-or-kill is all or nothing; and only a good-til-cancelled limit order is left
 resting.
 */
module EngineOffers {
  import opened FixedPoint
  import opened Sorting
  import opened Orders
  import opened Book
  import opened Engine
  import opened EngineCoherence
  import opened EngineMatching
  import EngineLifecycle
  import P = Positions
  import EngineAccount
  import EngineRuns
  import RestingIndex
  import F = BookFeed

  // ----- The fills a walk books -----

  /** The fills on record grew by exactly these trades of this order. */
  predicate Recorded(a: Account, a': Account, o: Order, trades: seq<(int, int)>, taker: bool) {
    && |a'.fills| == |a.fills| + |trades|
    && (forall i :: 0 <= i < |a.fills| ==> a'.fills[i] == a.fills[i])
    && (forall i :: 0 <= i < |trades| ==> IsTradeOf(a'.fills[|a.fills| + i], o, trades[i], taker))
  }

  /** The fill is this trade of this order. */
  predicate IsTradeOf(f: Fill, o: Order, trade: (int, int), taker: bool) {
    && f.orderId == o.id && f.slot == o.slot && f.side == o.side && f.isTaker == taker
    && (f.price, f.quantity) == trade
  }

  lemma OneFillRecorded(c: Config, a: Account, f: Fill)
    ensures AfterFill(c, a, f).fills == a.fills + [f]
  {
    hide Required;
    var a1 := a.(positions := P.PortfolioApplied(a.positions, f), cash := CashAfterFill(c, a, f), fills := a.fills + [f]);
    EngineAccount.RebalancingMovesNothing(c, a1, f.slot.instrument);
  }

  lemma ExecuteRecords(c: Config, s: State, id: OrderId, price: int, q: int, taker: bool)
    requires id in s.desk.orders && 0 < q <= s.desk.orders[id].Remaining()
    ensures var s' := Execute(c, s, id, price, q, taker);
            var o := s.desk.orders[id];
            && s'.fault == s.fault && s'.market == s.market
            && s'.desk.orders == s.desk.orders[id := o.RecordFill(q)]
            && exists fee :: s'.account.fills == s.account.fills + [Fill(id, o.slot, o.side, price, q, fee, taker)]
  {
    hide AfterFill, Sorting.Without, RestingIndex.Remove;
    var o := s.desk.orders[id];
    var fee := c.fee(s.account.fills, o.(id := id), price, q, taker);
    OneFillRecorded(c, s.account, Fill(id, o.slot, o.side, price, q, fee, taker));
  }

  lemma RecordedStep(a: Account, a1: Account, a2: Account, o: Order, o1: Order, trades: seq<(int, int)>, taker: bool, fee: int)
    requires trades != [] && o1.id == o.id && o1.slot == o.slot && o1.side == o.side
    requires a1.fills == a.fills + [Fill(o.id, o.slot, o.side, trades[0].0, trades[0].1, fee, taker)]
    requires Recorded(a1, a2, o1, trades[1..], taker)
    ensures Recorded(a, a2, o, trades, taker)
  {
    forall i | 0 <= i < |a.fills| ensures a2.fills[i] == a.fills[i] {
      assert a2.fills[i] == a1.fills[i];
    }
    forall i | 0 <= i < |trades|
      ensures IsTradeOf(a2.fills[|a.fills| + i], o, trades[i], taker)
    {
      if i > 0 {
        var j := i - 1;
        assert trades[1..][j] == trades[i];
        assert IsTradeOf(a2.fills[|a1.fills| + j], o1, trades[1..][j], taker);
      } else {
        assert a2.fills[|a.fills|] == a1.fills[|a.fills|];
      }
    }
  }

  /** Executing trades that fit books each of them, and moves the order by their total. */
  lemma {:induction false} TradesAreRecorded(c: Config, s: State, id: OrderId, trades: seq<(int, int)>, taker: bool)
    requires s.fault.None? && id in s.desk.orders && s.desk.orders[id].id == id
    requires FitsIn(trades, s.desk.orders[id].Remaining())
    ensures var s' := ExecuteAll(c, s, id, trades, taker);
            var o := s.desk.orders[id];
            && s'.fault.None? && id in s'.desk.orders
            && Recorded(s.account, s'.account, o, trades, taker)
            && s'.desk.orders[id].filled == o.filled + Total(trades)
            && (trades == [] ==> s' == s)
            && (trades != [] ==>
                  s'.desk.orders[id] == o.(filled := o.filled + Total(trades),
                                           status := if Total(trades) == o.Remaining() then Filled else PartiallyFilled))
    decreases |trades|
  {
    hide Execute;
    if trades != [] {
      var o := s.desk.orders[id];
      var s1 := Execute(c, s, id, trades[0].0, trades[0].1, taker);
      ExecuteRecords(c, s, id, trades[0].0, trades[0].1, taker);
      var fee :| s1.account.fills == s.account.fills + [Fill(id, o.slot, o.side, trades[0].0, trades[0].1, fee, taker)];
      TradesAreRecorded(c, s1, id, trades[1..], taker);
      RecordedStep(s.account, s1.account, ExecuteAll(c, s, id, trades, taker).account, o, s1.desk.orders[id], trades, taker, fee);
    }
  }

  // ----- One offer -----

  /** The depth an order could take within its limit. */
  function DepthFor(c: Config, s: State, o: Order): int
    requires o.slot in s.market.books
  {
    var levels := Facing(EffectiveBook(c, s.market, o), o.side);
    DepthWithin(Reach(levels, o.side), levels, o.side, o.LimitPrice())
  }

  /** What an order takes: the smaller of what it wants and that depth, and nothing if it wants nothing. */
  function Takes(c: Config, s: State, o: Order): int
    requires o.slot in s.market.books
  {
    Max(0, Min(Wanted(s.account, o), DepthFor(c, s, o)))
  }

  /** An open order offered to a market that trades. */
  ghost predicate Offered(c: Config, s: State, id: OrderId) {
    && Coherent(s.desk) && s.fault.None? && KeepsPrices(c) && BooksValid(s.market)
    && id in s.desk.orders && AtVenue(s.desk.orders[id]) && id !in s.desk.untriggered
    && s.desk.orders[id].slot in s.market.books
    && !Stopped(c, s.market, s.desk.orders[id].slot.instrument)
  }

  lemma EffectiveIsValid(c: Config, m: MarketData, o: Order)
    requires KeepsPrices(c) && BooksValid(m) && o.slot in m.books
    ensures ValidBook(EffectiveBook(c, m, o))
  {
  }

  /** The trades of an offer: what it takes is settled by the book alone. */
  lemma WalkForOffer(c: Config, s: State, id: OrderId)
    requires Offered(c, s, id)
    ensures var o := s.desk.orders[id];
            var wanted := Wanted(s.account, o);
            var b := EffectiveBook(c, s.market, o);
            var w := Walk(b, o.side, wanted, o.LimitPrice());
            && SoundFills(w.fills, Facing(b, o.side), o.side, o.LimitPrice())
            && Total(w.fills) == Takes(c, s, o)
            && FitsIn(w.fills, o.Remaining())
  {
    hide Coherent, KeepsPrices, BooksValid, EffectiveBook, Wanted, Walk, SoundFills, FitsIn, DepthWithin;
    var o := s.desk.orders[id];
    EffectiveIsValid(c, s.market, o);
    var wanted := Wanted(s.account, o);
    WantedFits(c, s, o);
    DepthIsThere(EffectiveBook(c, s.market, o), o.side, o.LimitPrice());
    if wanted >= 0 {
      WalkIsConservative(EffectiveBook(c, s.market, o), o.side, wanted, o.LimitPrice());
    } else {
      WalkForNothing(EffectiveBook(c, s.market, o), o.side, wanted, o.LimitPrice());
    }
  }

  lemma DepthIsThere(b: BookState, taker: Side, limit: Option<int>)
    requires ValidBook(b)
    ensures DepthWithin(Reach(Facing(b, taker), taker), Facing(b, taker), taker, limit) >= 0
  {
    hide DepthWithin;
    WalkIsConservative(b, taker, 0, limit);
    DepthIsNonNegative(Reach(Facing(b, taker), taker), Facing(b, taker), taker, limit);
  }

  lemma WalkForNothing(b: BookState, taker: Side, q: int, limit: Option<int>)
    requires q < 0
    ensures Walk(b, taker, q, limit).fills == [] && SoundFills([], Facing(b, taker), taker, limit) && Total([]) == 0
  {
  }

  /** What becomes of an order after its trades. */
  predicate Outcome(d: Desk, id: OrderId, o: Order, take: int) {
    && id in d.orders
    && d.orders[id].filled == o.filled + take
    && (if take == o.Remaining() && take > 0 then d.orders[id].status.Filled? && id !in d.resting
        else if o.tif.GoodTilCancel? then d.orders[id].IsOpen() && (o.kind.Limit? ==> id in d.resting)
        else d.orders[id].status.Cancelled? && id !in d.resting)
  }

  lemma AddRestingRests(c: Config, m: MarketData, d: Desk, o: Order)
    ensures var d' := AddResting(c, m, d, o);
            d'.orders == d.orders && o.id in d'.resting
  {
    hide RestingIndex.Insert, DisplayedAt;
  }

  lemma CloseEnds(d: Desk, id: OrderId)
    requires StillOpen(d, id) && d.orders[id].id == id
    ensures var d' := Close(d, id, Cancelled);
            d'.orders == d.orders[id := d.orders[id].(status := Cancelled)] && id !in d'.resting
  {
    hide RestingIndex.Remove;
    WithoutProperties(d.resting, id);
  }

  lemma SettledOutcome(c: Config, s: State, id: OrderId, o: Order, take: int)
    requires Coherent(s.desk) && s.fault.None? && id in s.desk.orders
    requires s.desk.orders[id] == o.(filled := o.filled + take,
                                     status := if take == 0 then o.status else if take == o.Remaining() then Filled else PartiallyFilled)
    requires AtVenue(o) && o.id == id && 0 <= take
    ensures Outcome(Settled(c, s, id).desk, id, o, take)
  {
    hide Structure, Close, AddResting;
    if StillOpen(s.desk, id) {
      CloseEnds(s.desk, id);
      AddRestingRests(c, s.market, s.desk, s.desk.orders[id]);
    }
  }

  /** Killed outright: a fill-or-kill order the book cannot fill whole, or a reduction of nothing. */
  predicate Killed(c: Config, s: State, o: Order)
    requires o.slot in s.market.books
  {
    var wanted := Wanted(s.account, o);
    (o.reduceOnly && wanted <= 0) || (o.tif.FillOrKill? && Takes(c, s, o) != wanted)
  }

  /**
   Offering an order to the book: it trades exactly the smaller of what it wants and the depth
   within its limit, each trade a piece of a displayed level at an acceptable price, best first;
   or it is killed and trades nothing.  Afterwards it is filled, resting, or gone.
   */
  lemma OfferTradesTheBook(c: Config, s: State, id: OrderId)
    requires Offered(c, s, id)
    ensures var s' := TryFill(c, s, id);
            var o := s.desk.orders[id];
            var b := EffectiveBook(c, s.market, o);
            if Killed(c, s, o) then
              && s'.account == s.account && id in s'.desk.orders
              && s'.desk.orders[id] == o.(status := Cancelled) && id !in s'.desk.resting
            else
              var take := Takes(c, s, o);
              && Outcome(s'.desk, id, o, take)
              && exists trades ::
                   && Recorded(s.account, s'.account, o, trades, !o.postOnly)
                   && SoundFills(trades, Facing(b, o.side), o.side, o.LimitPrice())
                   && Total(trades) == take
  {
    hide KeepsPrices, BooksValid, EffectiveBook, Walk, Wanted, DepthFor, Takes, SoundFills, FitsIn, Recorded, Outcome, ExecuteAll, Settled, Close, Stopped, Structure, OnlyOrder;
    var o := s.desk.orders[id];
    var wanted := Wanted(s.account, o);
    OfferedIsKeyed(c, s, id);
    WalkForOffer(c, s, id);
    var w := Walk(EffectiveBook(c, s.market, o), o.side, wanted, o.LimitPrice());
    if Killed(c, s, o) {
      CloseEnds(s.desk, id);
    } else {
      var s1 := ExecuteAll(c, s, id, w.fills, !o.postOnly);
      TradesAreRecorded(c, s, id, w.fills, !o.postOnly);
      ExecuteAllCoherent(c, s, id, w.fills, !o.postOnly);
      TotalOfNone(w.fills, o.Remaining());
      SettledOutcome(c, s1, id, o, Total(w.fills));
      SettledAccount(c, s1, id);
    }
  }

  lemma OfferedIsKeyed(c: Config, s: State, id: OrderId)
    requires Offered(c, s, id)
    ensures s.desk.orders[id].id == id && StillOpen(s.desk, id) && !s.desk.orders[id].status.InFlight?
  {
    hide KeepsPrices, BooksValid;
  }

  lemma SettledAccount(c: Config, s: State, id: OrderId)
    ensures Settled(c, s, id).account == s.account
  {
  }

  lemma {:induction false} TotalOfNone(trades: seq<(int, int)>, room: int)
    requires FitsIn(trades, room)
    ensures Total(trades) >= 0 && (Total(trades) == 0 <==> trades == [])
    decreases |trades|
  {
    if trades != [] {
      TotalOfNone(trades[1..], room - trades[0].1);
    }
  }

  // ----- Post-only -----

  /** A plain resting-style order that wants something, at a venue that quotes its own book. */
  predicate PlainLimit(c: Config, s: State, id: OrderId) {
    && id in s.desk.orders && s.desk.orders[id].slot in s.market.books
    && s.desk.orders[id].kind.Limit? && !s.desk.orders[id].reduceOnly && !s.desk.orders[id].tif.FillOrKill?
    && s.desk.orders[id].Remaining() > 0
    && c.synthetic(s.market.books[s.desk.orders[id].slot], s.desk.orders[id]).None?
  }

  /** Such an order trades on being offered exactly when the top of the book is within its limit. */
  lemma OfferTradesExactlyWhenCrossing(c: Config, s: State, id: OrderId)
    requires Offered(c, s, id) && PlainLimit(c, s, id)
    ensures |TryFill(c, s, id).account.fills| > |s.account.fills| <==> WouldCross(s.market, s.desk.orders[id])
  {
    hide KeepsPrices, Structure, SoundFills, DepthFor, Outcome, ExecuteAll, Settled, Close, Stopped, OnlyOrder, Walk, FitsIn;
    var o := s.desk.orders[id];
    OfferedIsKeyed(c, s, id);
    WalkForOffer(c, s, id);
    var b := s.market.books[o.slot];
    var w := Walk(b, o.side, o.Remaining(), o.LimitPrice());
    assert ValidBook(b);
    WalkIsEmptyUnlessCrossing(b, o.side, o.Remaining(), o.kind.limit);
    TradesAreRecorded(c, s, id, w.fills, !o.postOnly);
    SettledAccount(c, ExecuteAll(c, s, id, w.fills, !o.postOnly), id);
  }

  /** A fill model shows this order a book of its own that reaches its limit. */
  predicate ModelReaches(c: Config, m: MarketData, o: Order) {
    && o.slot in m.books && c.synthetic(m.books[o.slot], o).Some?
    && var facing := Facing(c.synthetic(m.books[o.slot], o).value, o.side);
       exists p :: p in facing && Acceptable(o.side, p, o.LimitPrice())
  }

  /**
   A post-only order never trades on arrival, whatever the book it meets, unless the fill model puts
   a price in front of it that the venue does not quote; a model that keeps prices never does.
   */
  lemma PostOnlyArrivalNeverTrades(c: Config, ops: seq<Op>, id: OrderId, funded: bool)
    requires var d := Run(c, ops).desk; id in d.orders && d.orders[id].postOnly && d.orders[id].kind.Limit?
    ensures var s := Run(c, ops);
            var o := s.desk.orders[id].(id := id, trigger := None, status := Accepted);
            && (Released(c, s, id, funded).account == s.account || ModelReaches(c, s.market, o))
            && (KeepsPrices(c) ==> Released(c, s, id, funded).account == s.account)
  {
    hide Run, KeepsPrices, BooksValid, TryFill, SelfTrades, WouldCross, Fires, Stopped, Without, ModelReaches;
    var s := Run(c, ops);
    RunKeepsBooks(c, ops);
    var d := s.desk.(inflight := Without(s.desk.inflight, id));
    var o := d.orders[id].(id := id, trigger := None, status := Accepted);
    if !WouldCross(s.market, o) {
      QuietOfferTradesNothing(c, s.(desk := SetOrder(d, o)), id);
    }
    CrossingReadsPrice(s.market, d.orders[id].(id := id), o);
  }

  lemma CrossingReadsPrice(m: MarketData, o: Order, o': Order)
    requires o'.slot == o.slot && o'.side == o.side && o'.kind == o.kind
    ensures WouldCross(m, o) <==> WouldCross(m, o')
  {
  }

  lemma OutOfReachWalk(b: BookState, o: Order, q: int)
    requires forall p :: p in Facing(b, o.side) ==> !Acceptable(o.side, p, o.LimitPrice())
    ensures Walk(b, o.side, q, o.LimitPrice()).fills == []
  {
  }

  /** An order the venue's own book does not reach meets an empty walk, unless its fill model reaches it. */
  lemma QuietWalkIsEmpty(c: Config, m: MarketData, o: Order, q: int)
    requires BooksValid(m) && o.slot in m.books && o.kind.Limit? && !WouldCross(m, o)
    requires KeepsPrices(c) || !ModelReaches(c, m, o)
    ensures Walk(EffectiveBook(c, m, o), o.side, q, o.LimitPrice()).fills == []
  {
    hide KeepsPrices, Walk, BestAsk, BestBid;
    if KeepsPrices(c) {
      SkippedWalkIsEmpty(c, m, o, q);
    } else if c.synthetic(m.books[o.slot], o).Some? {
      OutOfReachWalk(EffectiveBook(c, m, o), o, q);
    } else {
      NothingToTake(m.books[o.slot], o.side, q, o.kind.limit);
    }
  }

  lemma QuietOfferTradesNothing(c: Config, s: State, id: OrderId)
    requires BooksValid(s.market)
    requires id in s.desk.orders && s.desk.orders[id].kind.Limit? && !WouldCross(s.market, s.desk.orders[id])
    ensures KeepsPrices(c) || !ModelReaches(c, s.market, s.desk.orders[id]) ==> TryFill(c, s, id).account == s.account
  {
    hide KeepsPrices, ModelReaches, BooksValid, WouldCross, Walk, EffectiveBook, Wanted, RestOrCancel, Close, RemoveResting, Stopped;
    var o := s.desk.orders[id];
    if o.slot in s.market.books && (KeepsPrices(c) || !ModelReaches(c, s.market, o)) {
      QuietWalkIsEmpty(c, s.market, o, Wanted(s.account, o));
    }
  }

  /** A post-only bid parked on a trigger before the market quotes. */
  function ParkedRequest(): Request {
    Request(CORNER, Buy, Limit(10), 1, GoodTilCancel, false, true, Some(Above(5)))
  }

  function ParkedRun(): seq<Op> {
    [Submit(ParkedRequest()), Release(1, true), Feed(CORNER, F.Snapshot([], [(10, 1)])), SetMark(CORNER, 5)]
  }

  lemma ParkedSubmitted(c: Config)
    requires Unlimited(c)
    ensures var s := Submitted(c, Init(c), ParkedRequest());
            && s.fault.None? && s.account == Init(c).account && s.market == Init(c).market
            && s.desk == Desk(map[1 := NewOrder(1, ParkedRequest(), InFlight)], [], map[], map[], [1], [], [1], 1)
  {
  }

  lemma ParkedReleased(c: Config, s: State)
    requires Unlimited(c) && s == Submitted(c, Init(c), ParkedRequest())
    ensures var s' := Released(c, s, 1, true);
            && s'.fault.None? && s'.account == s.account && s'.market == s.market
            && s'.desk.resting == [] && s'.desk.untriggered == [1]
            && s'.desk.orders == map[1 := NewOrder(1, ParkedRequest(), Untriggered)]
  {
    hide Submitted, TryFill, SelfTrades;
    ParkedSubmitted(c);
  }

  lemma RunOfFour(c: Config, ops: seq<Op>)
    requires |ops| == 4
    ensures Run(c, ops) == Step(c, Step(c, Step(c, Step(c, Init(c), ops[0]), ops[1]), ops[2]), ops[3])
  {
    hide Step;
    RunOfThree(c, ops[..3]);
  }

  lemma ParkedWaits(c: Config)
    requires Unlimited(c)
    ensures var s := Run(c, ParkedRun());
            && s.fault.None? && s.desk.untriggered == [1] && s.desk.orders == map[1 := NewOrder(1, ParkedRequest(), Untriggered)]
            && s.market.books == map[CORNER := BookState(map[], map[10 := 1], Fresh)]
            && s.market.marks == map[CORNER := 5] && s.market.delisted == {}
            && s.account.fills == []
  {
    hide Run, Submitted, Released;
    RunOfFour(c, ParkedRun());
    ParkedSubmitted(c);
    ParkedReleased(c, Submitted(c, Init(c), ParkedRequest()));
    SnapshotOfOne(10, 1);
  }

  /** The order the trigger lets loose. */
  function Loosed(s: State): State
    requires 1 in s.desk.orders
  {
    s.(desk := SetOrder(s.desk.(untriggered := []), s.desk.orders[1].(id := 1, trigger := None, status := Accepted)))
  }

  lemma TriggerLooses(c: Config, s: State)
    requires s.fault.None? && s.desk.untriggered == [1]
    requires 1 in s.desk.orders && s.desk.orders[1] == NewOrder(1, ParkedRequest(), Untriggered)
    requires s.market.marks == map[CORNER := 5]
    ensures TriggersArmed(c, s) == TryFill(c, Loosed(s), 1)
  {
    hide TryFill;
    var parked := s.desk.untriggered;
    assert parked[1..] == [] && [1][1..] == [];
    assert StillParked(s, [], true) == [] && StillParked(s, [], false) == [];
    assert Fires(s.market, s.desk.orders[1]);
    assert StillParked(s, parked, true) == [1] && StillParked(s, parked, false) == [];
    var s1 := s.(desk := s.desk.(untriggered := []));
    assert Loosed(s) == s1.(desk := SetOrder(s1.desk, s1.desk.orders[1].(id := 1, trigger := None, status := Accepted)));
    assert Arm(c, s1, [1]) == Arm(c, TryFill(c, Loosed(s), 1), []);
  }

  /**
   The exception: a post-only order released by its trigger is not checked again, and takes the
   offer it meets.
   */
  lemma TriggeredPostOnlyTakes(c: Config)
    requires Unlimited(c) && KeepsPrices(c) && forall b: BookState, o: Order :: c.synthetic(b, o).None?
    ensures var s := Run(c, ParkedRun());
            |TriggersArmed(c, s).account.fills| > |s.account.fills|
  {
    hide Run, TryFill, KeepsPrices, Structure, ParkedRun, TriggersArmed;
    var s := Run(c, ParkedRun());
    ParkedWaits(c);
    RunKeepsBooks(c, ParkedRun());
    EngineRuns.RunIsSane(c, ParkedRun());
    TriggerLooses(c, s);
    LoosedIsCoherent(s);
    OfferTradesExactlyWhenCrossing(c, Loosed(s), 1);
    MeetsTheOffer(s.market, Loosed(s).desk.orders[1]);
  }

  lemma MeetsTheOffer(m: MarketData, o: Order)
    requires m.books == map[CORNER := BookState(map[], map[10 := 1], Fresh)]
    requires o.slot == CORNER && o.side.Buy? && o.kind == Limit(10)
    ensures WouldCross(m, o)
  {
    var b := m.books[CORNER];
    assert 10 in b.asks;
    assert BestAsk(b).Some? && BestAsk(b).value in b.asks;
  }

  lemma LoosedIsCoherent(s: State)
    requires Coherent(s.desk) && s.desk.untriggered == [1]
    requires 1 in s.desk.orders && s.desk.orders[1].status.Untriggered?
    ensures Coherent(Loosed(s).desk)
  {
    hide Keyed, NothingElseIndexed, EveryRestingIndexed, LevelsAscend, RestingIndex.Tidy;
    var d := s.desk.(untriggered := []);
    EngineLifecycle.StructureIgnoresParked(s.desk, []);
    assert 1 in s.desk.untriggered;
    SetOrderCoherent(d, s.desk.orders[1].(id := 1, trigger := None, status := Accepted));
  }
}
