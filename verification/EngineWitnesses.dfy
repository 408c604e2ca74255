/**
 Short runs from an empty account in which the engine does what its documentation says it cannot:
 a post-only order takes after its limit is amended, a split makes a resting order trade, and a
 covered sell goes short.
 */
module EngineWitnesses {
  import opened FixedPoint
  import opened Sorting
  import opened Sums
  import opened Orders
  import opened Corporate
  import opened Book
  import opened Engine
  import opened EngineCoherence
  import opened EngineRuns
  import opened EngineAccount
  import opened EngineMatching
  import opened EngineOffers
  import opened EnginePostOnly
  import opened EngineQueueRuns
  import opened EngineRisk
  import opened EngineSplit
  import opened EngineShortRuns
  import opened EngineProfit
  import opened Positions
  import EngineLifecycle
  import RestingIndex
  import F = BookFeed

  // ----- Sending one order -----

  /** On its way, with nothing else changed. */
  predicate OnTheWire(s: State, s': State, r: Request) {
    var id := s.desk.nextId + 1;
    && s'.fault.None? && s'.account == s.account && s'.market == s.market
    && s'.desk == s.desk.(orders := s.desk.orders[id := NewOrder(id, r, InFlight)], nextId := id,
                          live := LiveOnly(s.desk, s.desk.live) + [id], inflight := s.desk.inflight + [id])
  }

  /** A request no gate refuses at an unlimited venue. */
  predicate Sendable(c: Config, s: State, r: Request) {
    && Unlimited(c) && s.fault.None? && r.quantity > 0 && r.slot == CORNER
    && (r.kind.Limit? ==> c.validPrice(0, r.kind.limit)) && !(r.postOnly && r.kind.Market?)
    && s.market.delisted == {}
    && (r.side.Sell? && !r.reduceOnly && !c.allowNakedShorts && c.prediction(0) ==>
          Held(s.account, CORNER) - Open(s.desk, CORNER, Sell) >= r.quantity)
  }

  lemma Sent(c: Config, s: State, r: Request)
    requires Sendable(c, s, r) && SizesAreSane(s.desk)
    ensures OnTheWire(s, Step(c, s, Submit(r)), r)
  {
    hide Pending, LiveOnly, Held;
    var d := s.desk.(nextId := s.desk.nextId + 1, live := LiveOnly(s.desk, s.desk.live));
    CheckedOpen(s.desk, d, CORNER, Sell);
    SkippingCountsLess(d, d.live, CORNER);
    HeldIsQuantity(s.account, CORNER);
  }

  lemma {:induction false} SkippingCountsLess(d: Desk, ids: seq<OrderId>, slot: Slot)
    requires SizesAreSane(d)
    ensures Pending(d, ids, slot, Sell, true) <= Pending(d, ids, slot, Sell, false)
    decreases |ids|
  {
    if ids != [] {
      SkippingCountsLess(d, ids[1..], slot);
    }
  }

  /** Accepted, and offered to the market. */
  function AcceptedState(s: State, id: OrderId): State
    requires id in s.desk.orders
  {
    var o := s.desk.orders[id].(id := id, trigger := None, status := Accepted);
    s.(desk := SetOrder(s.desk.(inflight := Without(s.desk.inflight, id)), o))
  }

  lemma Arrives(c: Config, s: State, id: OrderId)
    requires s.fault.None? && id in s.desk.inflight && id in s.desk.orders
    requires s.desk.orders[id].status.InFlight? && s.desk.orders[id].trigger.None? && s.desk.orders[id].id == id
    requires !Stopped(c, s.market, s.desk.orders[id].slot.instrument)
    requires !(s.desk.orders[id].postOnly && WouldCross(s.market, s.desk.orders[id]))
    requires !SelfTrades(s.market, s.desk, s.desk.orders[id])
    ensures Step(c, s, Release(id, true)) == TryFill(c, AcceptedState(s, id), id)
  {
    hide TryFill, WouldCross, Stopped, Without;
    assert s.desk.orders[id].(id := id) == s.desk.orders[id];
    assert s.desk.orders[id].(trigger := None) == s.desk.orders[id];
  }

  /** An order the market cannot fill joins the book as it is. */
  lemma QuietOfferRests(c: Config, s: State, id: OrderId)
    requires KeepsPrices(c) && BooksValid(s.market) && s.fault.None? && id in s.desk.orders && id !in s.desk.resting
    requires s.desk.orders[id].status.Accepted? && s.desk.orders[id].kind.Limit? && s.desk.orders[id].tif.GoodTilCancel?
    requires !s.desk.orders[id].reduceOnly && s.desk.orders[id].slot in s.market.books
    requires !Stopped(c, s.market, s.desk.orders[id].slot.instrument) && !WouldCross(s.market, s.desk.orders[id])
    ensures TryFill(c, s, id) == s.(desk := AddResting(c, s.market, s.desk, s.desk.orders[id]))
  {
    hide KeepsPrices, BooksValid, WouldCross, Walk, EffectiveBook, Stopped, AddResting;
    var o := s.desk.orders[id];
    SkippedWalkIsEmpty(c, s.market, o, Wanted(s.account, o));
  }

  lemma JoinsTheBook(c: Config, m: MarketData, d: Desk, o: Order)
    requires o.id !in d.resting
    ensures var d' := AddResting(c, m, d, o);
            && d'.resting == d.resting + [o.id] && d'.orders == d.orders && d'.live == d.live
            && d'.inflight == d.inflight && d'.nextId == d.nextId && d'.untriggered == d.untriggered
            && d'.queueAhead == JoinQueue(c, m, d, o).queueAhead
  {
    hide RestingIndex.Insert, DisplayedAt;
  }

  lemma OnlyOne(ids: seq<OrderId>, x: OrderId)
    requires NoDuplicates(ids) && x in ids && forall i :: 0 <= i < |ids| ==> ids[i] == x
    ensures ids == [x]
  {
    var last := |ids| - 1;
    assert ids[0] == ids[last];
  }

  /** With one order resting, matching its market is offering it. */
  lemma MatchOfOne(c: Config, s: State, id: OrderId)
    requires Coherent(s.desk) && s.fault.None? && s.desk.resting == [id] && id in s.desk.orders
    requires s.desk.orders[id].slot in s.market.books && WouldCross(s.market, s.desk.orders[id])
    ensures MatchResting(c, s, s.desk.orders[id].slot, false) == TryFill(c, s, id)
  {
    hide Structure, RestingIsOpen, MatchResting, WouldCross, Candidates, TryFill;
    var slot := s.desk.orders[id].slot;
    var ids := Candidates(c, s, slot, false);
    CandidatesOf(c, s, slot, id);
    CandidatesAreResting(c, s, slot, false);
    forall i | 0 <= i < |ids| ensures ids[i] == id {
      assert ids[i] in s.desk.resting;
    }
    OnlyOne(ids, id);
    MatchIsOffer(c, s, slot);
    assert [id][1..] == [];
    assert Offer(c, TryFill(c, s, id), []) == TryFill(c, s, id);
  }

  // ----- One resting order -----

  /** A quoted market, and the first order of an empty account. */
  function QuotedRun(bids: seq<(int, int)>, asks: seq<(int, int)>, r: Request): seq<Op> {
    [Feed(CORNER, F.Snapshot(bids, asks)), Submit(r), Release(1, true)]
  }

  function QuotedMarket(bids: seq<(int, int)>, asks: seq<(int, int)>): MarketData {
    MarketData(map[CORNER := BookState(F.SnapshotSide(bids), F.SnapshotSide(asks), Fresh)], map[], map[], 0, {})
  }

  predicate Rests(r: Request, m: MarketData) {
    && r.kind.Limit? && r.tif.GoodTilCancel? && !r.reduceOnly && r.trigger.None?
    && !WouldCross(m, NewOrder(1, r, InFlight))
  }

  /** It rests: nothing else has happened. */
  lemma FirstOrderRests(c: Config, bids: seq<(int, int)>, asks: seq<(int, int)>, r: Request)
    requires KeepsPrices(c) && Sendable(c, Init(c), r) && Rests(r, QuotedMarket(bids, asks))
    ensures var s := Run(c, QuotedRun(bids, asks, r));
            && s.fault.None? && s.market == QuotedMarket(bids, asks) && s.account == Init(c).account
            && s.desk.resting == [1] && s.desk.orders == map[1 := NewOrder(1, r, Accepted)] && s.desk.live == [1]
            && (c.usesQueue ==> s.desk.queueAhead == map[1 := DisplayedAt(s.market, CORNER, r.side, r.kind.limit)])
            && !Stopped(c, s.market, 0)
  {
    hide DisplayedAt, Run, KeepsPrices, WouldCross, TryFill, AddResting, LiveOnly, Without, OnTheWire;
    var ops := QuotedRun(bids, asks, r);
    RunOfThree(c, ops);
    var s1 := Step(c, Init(c), ops[0]);
    FedFirst(c, bids, asks);
    NothingYet(c, bids, asks, r);
    var s2 := Step(c, s1, ops[1]);
    FirstSent(c, s1, r);
    FirstArrives(c, s2, r);
  }

  lemma FedFirst(c: Config, bids: seq<(int, int)>, asks: seq<(int, int)>)
    ensures Step(c, Init(c), Feed(CORNER, F.Snapshot(bids, asks))) == Init(c).(market := QuotedMarket(bids, asks))
  {
    hide F.SnapshotSide;
  }

  lemma NothingYet(c: Config, bids: seq<(int, int)>, asks: seq<(int, int)>, r: Request)
    requires Sendable(c, Init(c), r)
    ensures Sendable(c, Init(c).(market := QuotedMarket(bids, asks)), r)
  {
  }

  lemma FirstSent(c: Config, s: State, r: Request)
    requires Sendable(c, s, r) && s.desk == Init(c).desk
    ensures var s' := Step(c, s, Submit(r));
            && s'.fault.None? && s'.account == s.account && s'.market == s.market
            && s'.desk == Desk(map[1 := NewOrder(1, r, InFlight)], [], map[], map[], [1], [], [1], 1)
  {
    hide Step;
    Sent(c, s, r);
  }

  lemma FirstArrives(c: Config, s: State, r: Request)
    requires KeepsPrices(c) && Unlimited(c) && BooksValid(s.market) && s.fault.None? && s.market.delisted == {}
    requires r.slot == CORNER && CORNER in s.market.books && Rests(r, s.market)
    requires s.desk == Desk(map[1 := NewOrder(1, r, InFlight)], [], map[], map[], [1], [], [1], 1)
    ensures var s' := Step(c, s, Release(1, true));
            && s'.fault.None? && s'.account == s.account && s'.market == s.market
            && s'.desk.resting == [1] && s'.desk.orders == map[1 := NewOrder(1, r, Accepted)] && s'.desk.live == [1]
            && (c.usesQueue ==> s'.desk.queueAhead == map[1 := DisplayedAt(s.market, CORNER, r.side, r.kind.limit)])
  {
    hide KeepsPrices, BooksValid, WouldCross, TryFill, AddResting, Step, DisplayedAt;
    Arrives(c, s, 1);
    var s1 := AcceptedState(s, 1);
    var o := s1.desk.orders[1];
    assert o == NewOrder(1, r, Accepted);
    CrossingReadsPrice(s.market, NewOrder(1, r, InFlight), o);
    QuietOfferRests(c, s1, 1);
    JoinsTheBook(c, s1.market, s1.desk, o);
  }

  // ----- A post-only order that takes after an amendment -----

  /** A post-only bid of ten below the offer. */
  function MakerRequest(): Request {
    Request(CORNER, Buy, Limit(55), 10, GoodTilCancel, false, true, None)
  }

  function MakerRun(): seq<Op> {
    QuotedRun([(50, 10)], [(60, 10)], MakerRequest())
  }

  ghost predicate MakerVenue(c: Config) {
    Unlimited(c) && c.validPrice(0, 55) && c.validPrice(0, 60) && KeepsPrices(c) && forall b: BookState, o: Order :: c.synthetic(b, o).None?
  }

  lemma TopOf(bids: seq<(int, int)>, asks: seq<(int, int)>, b: BookState)
    requires b == BookState(F.SnapshotSide(bids), F.SnapshotSide(asks), Fresh)
    ensures |bids| == 1 && bids[0].1 > 0 ==> b.bids == map[bids[0].0 := bids[0].1] && BestBid(b) == Some(bids[0].0)
    ensures bids == [] ==> b.bids == map[] && BestBid(b).None?
    ensures |asks| == 1 && asks[0].1 > 0 ==> b.asks == map[asks[0].0 := asks[0].1] && BestAsk(b) == Some(asks[0].0)
    ensures asks == [] ==> b.asks == map[] && BestAsk(b).None?
  {
    if |bids| == 1 && bids[0].1 > 0 {
      assert bids == [(bids[0].0, bids[0].1)];
      SnapshotOfOne(bids[0].0, bids[0].1);
      assert bids[0].0 in b.bids;
    }
    if |asks| == 1 && asks[0].1 > 0 {
      assert asks == [(asks[0].0, asks[0].1)];
      SnapshotOfOne(asks[0].0, asks[0].1);
      assert asks[0].0 in b.asks;
    }
  }

  lemma MakerRests(c: Config)
    requires MakerVenue(c)
    ensures Sendable(c, Init(c), MakerRequest())
    ensures Rests(MakerRequest(), QuotedMarket([(50, 10)], [(60, 10)]))
  {
    hide F.SnapshotSide, BestAsk, BestBid;
    var m := QuotedMarket([(50, 10)], [(60, 10)]);
    TopOf([(50, 10)], [(60, 10)], m.books[CORNER]);
  }

  /** The order as amended to the offer's own price. */
  function AtTheOffer(c: Config): State {
    Step(c, Run(c, MakerRun()), Amend(1, None, Some(60)))
  }

  lemma MakerAmended(c: Config)
    requires MakerVenue(c)
    ensures var s := AtTheOffer(c);
            && Offered(c, s, 1) && PlainLimit(c, s, 1) && s.desk.resting == [1] && s.account.fills == []
            && s.desk.orders[1] == NewOrder(1, MakerRequest(), Accepted).(kind := Limit(60))
            && s.market == QuotedMarket([(50, 10)], [(60, 10)]) && WouldCross(s.market, s.desk.orders[1])
  {
    hide Run, Structure, KeepsPrices, BooksValid, Requeued, WouldCross, Sendable, Rests, QuotedMarket;
    MakerRests(c);
    FirstOrderRests(c, [(50, 10)], [(60, 10)], MakerRequest());
    RunIsSane(c, MakerRun());
    RunKeepsBooks(c, MakerRun());
    var s := Run(c, MakerRun());
    QuotedHasBook([(50, 10)], [(60, 10)]);
    AmendedLimit(c, s, 1, None, 60);
    AmendedIsOffered(c, s, 1, None, 60);
    MakerCrosses(AtTheOffer(c).desk.orders[1]);
  }

  lemma QuotedHasBook(bids: seq<(int, int)>, asks: seq<(int, int)>)
    ensures CORNER in QuotedMarket(bids, asks).books
  {
  }

  lemma MakerCrosses(o: Order)
    requires o.slot == CORNER && o.side.Buy? && o.kind == Limit(60)
    ensures WouldCross(QuotedMarket([(50, 10)], [(60, 10)]), o)
  {
    hide F.SnapshotSide, BestAsk, BestBid;
    TopOf([(50, 10)], [(60, 10)], QuotedMarket([(50, 10)], [(60, 10)]).books[CORNER]);
  }

  /**
   Quote 50 to 60; rest a post-only bid at 55; amend it to 60; match.  The order takes the offer at
   60, and the fill is on record as a maker's.
   */
  lemma AmendedPostOnlyTakes(c: Config)
    requires MakerVenue(c)
    ensures var ops := MakerRun() + [Amend(1, None, Some(60))] + [Match(CORNER, false)];
            var fills := Run(c, ops).account.fills;
            && FilledOf(Run(c, ops).desk, 1) > 0
            && fills != [] && fills[0].orderId == 1 && fills[0].price == 60 && !fills[0].isTaker
  {
    hide Run, Step, TryFill, KeepsPrices, BooksValid, Coherent, WouldCross, PlainLimit, MatchResting, Recorded, SoundFills, Outcome, DepthFor, Stopped, QuotedMarket;
    var s := AtTheOffer(c);
    MakerAmended(c);
    RunSnoc(c, MakerRun(), Amend(1, None, Some(60)));
    RunSnoc(c, MakerRun() + [Amend(1, None, Some(60))], Match(CORNER, false));
    StepMatches(c, s, CORNER);
    MatchOfOne(c, s, 1);
    OfferFillsExactlyWhenCrossing(c, s, 1);
    OfferTradesExactlyWhenCrossing(c, s, 1);
    MakerFill(c, s);
  }

  lemma MakerFill(c: Config, s: State)
    requires MakerVenue(c) && Offered(c, s, 1) && PlainLimit(c, s, 1) && s.account.fills == []
    requires s.desk.orders[1] == NewOrder(1, MakerRequest(), Accepted).(kind := Limit(60))
    requires s.market == QuotedMarket([(50, 10)], [(60, 10)])
    requires |TryFill(c, s, 1).account.fills| > 0
    ensures var f := TryFill(c, s, 1).account.fills[0];
            f.orderId == 1 && f.price == 60 && !f.isTaker
  {
    hide TryFill, KeepsPrices, BooksValid, Coherent, Outcome, DepthFor, Stopped, F.SnapshotSide, Walk, BestAsk, BestBid;
    OfferTradesTheBook(c, s, 1);
    var o := s.desk.orders[1];
    var b := EffectiveBook(c, s.market, o);
    TopOf([(50, 10)], [(60, 10)], s.market.books[CORNER]);
    var trades :| Recorded(s.account, TryFill(c, s, 1).account, o, trades, !o.postOnly)
                  && SoundFills(trades, Facing(b, o.side), o.side, o.LimitPrice());
    assert IsTradeOf(TryFill(c, s, 1).account.fills[0], o, trades[0], false);
  }

  // ----- A split that makes a resting order trade -----

  /** A post-only bid one raw unit below the offer. */
  function BidderRequest(): Request {
    Request(CORNER, Buy, Limit(10), 1, GoodTilCancel, false, true, None)
  }

  function BidderRun(): seq<Op> {
    QuotedRun([], [(11, 1)], BidderRequest())
  }

  lemma BidderRests(c: Config)
    requires Unlimited(c)
    ensures Sendable(c, Init(c), BidderRequest())
    ensures Rests(BidderRequest(), QuotedMarket([], [(11, 1)]))
  {
    hide F.SnapshotSide, BestAsk, BestBid;
    TopOf([], [(11, 1)], QuotedMarket([], [(11, 1)]).books[CORNER]);
  }

  lemma {:induction false} SplitRestingList(d: Desk, ids: seq<OrderId>, instrument: nat, ratio: int)
    requires ratio > 0
    ensures SplitResting(d, ids, instrument, ratio).resting == d.resting
    ensures SplitResting(d, ids, instrument, ratio).untriggered == d.untriggered
    decreases |ids|
  {
    hide RestingIndex.Insert, RestingIndex.Remove, SplitOrder;
    if ids != [] {
      SplitRestingList(SplitRestingOne(d, ids[0], instrument, ratio), ids[1..], instrument, ratio);
    }
  }

  lemma {:induction false} SplitHeldList(d: Desk, ids: seq<OrderId>, instrument: nat, ratio: int, inflightOnly: bool)
    requires ratio > 0
    ensures SplitHeld(d, ids, instrument, ratio, inflightOnly).resting == d.resting
    ensures SplitHeld(d, ids, instrument, ratio, inflightOnly).untriggered == d.untriggered
    decreases |ids|
  {
    hide SplitOrder;
    if ids != [] {
      var id := ids[0];
      var hit := id in d.orders && d.orders[id].slot.instrument == instrument
                 && (!inflightOnly || d.orders[id].status.InFlight?);
      SplitHeldList(if hit then SetOrder(d, SplitOrder(ratio, d.orders[id]).(id := id)) else d,
                    ids[1..], instrument, ratio, inflightOnly);
    }
  }

  lemma SplitKeepsLists(d: Desk, instrument: nat, ratio: int)
    requires ratio > 0
    ensures SplitOrdersOf(d, instrument, ratio).resting == d.resting
    ensures SplitOrdersOf(d, instrument, ratio).untriggered == d.untriggered
  {
    hide SplitResting, SplitHeld;
    var d1 := SplitResting(d, d.resting, instrument, ratio);
    var d2 := SplitHeld(d1, d1.untriggered, instrument, ratio, false);
    SplitRestingList(d, d.resting, instrument, ratio);
    SplitHeldList(d1, d1.untriggered, instrument, ratio, false);
    SplitHeldList(d2, d2.live, instrument, ratio, true);
  }

  const THREE_FOR_ONE: int := 3 * SCALE

  /** The market cannot fill it, before the split. */
  lemma BidderIsOutOfReach(c: Config)
    requires Unlimited(c) && KeepsPrices(c)
    ensures var s := Run(c, BidderRun());
            && s.fault.None? && s.market == QuotedMarket([], [(11, 1)]) && s.desk.resting == [1] && s.account == Init(c).account
            && s.desk.orders == map[1 := NewOrder(1, BidderRequest(), Accepted)] && !Stopped(c, s.market, 0)
            && !WouldCross(s.market, s.desk.orders[1]) && 1 !in s.desk.untriggered
  {
    hide Run, KeepsPrices, Sendable, QuotedMarket, WouldCross, Coherent;
    BidderRests(c);
    FirstOrderRests(c, [], [(11, 1)], BidderRequest());
    CrossingReadsPrice(QuotedMarket([], [(11, 1)]), NewOrder(1, BidderRequest(), InFlight), NewOrder(1, BidderRequest(), Accepted));
    RunIsSane(c, BidderRun());
    RestingIsNotParked(Run(c, BidderRun()).desk, 1);
  }

  lemma RestingIsNotParked(d: Desk, id: OrderId)
    requires Coherent(d) && id in d.resting
    ensures id !in d.untriggered
  {
  }

  /** After it, limit and offer have rounded onto one price. */
  lemma BidderAfterSplit(c: Config)
    requires Unlimited(c) && KeepsPrices(c) && forall b: BookState, o: Order :: c.synthetic(b, o).None?
    ensures var s := SplitShares(Run(c, BidderRun()), 0, THREE_FOR_ONE);
            && Offered(c, s, 1) && PlainLimit(c, s, 1) && s.desk.resting == [1] && s.desk.orders[1].filled == 0
            && s.desk.orders[1].slot == CORNER && s.account.fills == [] && WouldCross(s.market, s.desk.orders[1])
  {
    hide Run, KeepsPrices, Structure, SplitOrdersOf, SplitPositions, WouldCross, BestAsk, BestBid, F.SplitBook, F.SnapshotSide, SplitPrice, SplitQuantity;
    var s := Run(c, BidderRun());
    BidderIsOutOfReach(c);
    RunIsSane(c, BidderRun());
    RunKeepsBooks(c, BidderRun());
    SplitBooksValid(s, 0, THREE_FOR_ONE);
    SplitSharesCoherent(s, 0, THREE_FOR_ONE);
    SplitScalesEachOrderOnce(c, BidderRun(), 0, THREE_FOR_ONE, 1);
    SplitKeepsLists(s.desk, 0, THREE_FOR_ONE);
    var s' := SplitShares(s, 0, THREE_FOR_ONE);
    var o := s.desk.orders[1];
    TopOf([], [(11, 1)], s.market.books[CORNER]);
    ThreeForOne();
    assert 1 in s.desk.resting;
    SplitKeepsOutOfReach(s.market, s'.market, o, THREE_FOR_ONE);
  }

  lemma ThreeForOne()
    ensures SplitQuantity(THREE_FOR_ONE, 1) == 3 && !StaysApart(THREE_FOR_ONE, 10, 11)
  {
  }

  /**
   Offer at 11, post-only bid resting at 10, three-for-one split: both are now at 3, and the match on the
   split's own record fills the order, which nothing but rounding made marketable.
   */
  lemma SplitMakesRestingOrderTrade(c: Config)
    requires Unlimited(c) && KeepsPrices(c) && forall b: BookState, o: Order :: c.synthetic(b, o).None?
    ensures var s := Run(c, BidderRun());
            && 1 in s.desk.resting && 1 in s.desk.orders && !WouldCross(s.market, s.desk.orders[1]) && s.desk.orders[1].filled == 0
    ensures FilledOf(Run(c, BidderRun() + [SplitAction(0, THREE_FOR_ONE)] + [Match(CORNER, true)]).desk, 1) > 0
  {
    hide Run, Step, TryFill, KeepsPrices, BooksValid, Coherent, WouldCross, PlainLimit, SplitShares, Stopped, QuotedMarket;
    BidderIsOutOfReach(c);
    BidderAfterSplit(c);
    var s := SplitShares(Run(c, BidderRun()), 0, THREE_FOR_ONE);
    RunSnoc(c, BidderRun(), SplitAction(0, THREE_FOR_ONE));
    RunSnoc(c, BidderRun() + [SplitAction(0, THREE_FOR_ONE)], Match(CORNER, true));
    StepSplits(c, Run(c, BidderRun()));
    CorporateMatchOfOne(c, s);
    OfferFillsExactlyWhenCrossing(c, s, 1);
  }

  lemma StepSplits(c: Config, s: State)
    requires s.fault.None?
    ensures Step(c, s, SplitAction(0, THREE_FOR_ONE)) == SplitShares(s, 0, THREE_FOR_ONE)
  {
    hide SplitShares;
  }

  lemma CorporateMatchOfOne(c: Config, s: State)
    requires Offered(c, s, 1) && s.desk.resting == [1] && s.desk.orders[1].slot == CORNER
    ensures Step(c, s, Match(CORNER, true)) == TryFill(c, s, 1)
  {
    hide Coherent, KeepsPrices, BooksValid, TryFill, Stopped, Prune;
    assert [1][1..] == [];
    assert OfInstrument(s.desk, [], 0) == [];
    assert OfInstrument(s.desk, s.desk.resting, 0) == [1];
    assert Offer(c, TryFill(c, s, 1), []) == TryFill(c, s, 1);
    OfferedIsKeyed(c, s, 1);
    TryFillCoherent(c, s, 1);
    PrunedIsIdle(TryFill(c, s, 1));
    StepMatchesAnywhere(c, s);
  }

  lemma StepMatchesAnywhere(c: Config, s: State)
    requires s.fault.None?
    ensures Step(c, s, Match(CORNER, true)) == MatchResting(c, s, CORNER, true)
  {
    hide MatchResting;
  }

  // ----- A covered sell that goes short -----

  /** Orders one to three: buy ten, offer them at a hundred, and sell them reduce-only at the market. */
  function BuyTen(): Request {
    Request(CORNER, Buy, Market, 10, ImmediateOrCancel, false, false, None)
  }

  function OfferTen(): Request {
    Request(CORNER, Sell, Limit(100), 10, GoodTilCancel, false, false, None)
  }

  function ReduceTen(): Request {
    Request(CORNER, Sell, Market, 10, ImmediateOrCancel, true, false, None)
  }

  function FeedAsk(price: int, size: int): Op {
    Feed(CORNER, F.Snapshot([], [(price, size)]))
  }

  /** The holding bought. */
  function BoughtRun(): seq<Op> {
    [FeedAsk(10, 10), Submit(BuyTen()), Release(1, true)]
  }

  function OfferedRun(): seq<Op> {
    BoughtRun() + [Submit(OfferTen())] + [Release(2, true)]
  }

  /** The holding sold, under the offer that was admitted against it. */
  function ReducedRun(): seq<Op> {
    OfferedRun() + [FeedBid(CORNER, 50, 10)] + [Submit(ReduceTen())] + [Release(3, true)]
  }

  function ShortRun(): seq<Op> {
    ReducedRun() + [FeedBid(CORNER, 100, 10)] + [Match(CORNER, false)]
  }

  /** A venue that refuses naked shorts, and matches against its own book. */
  ghost predicate Refusing(c: Config) {
    Unlimited(c) && !c.usesQueue && OwnBook(c) && c.validPrice(0, 100) && !c.allowNakedShorts && c.prediction(0)
  }

  /** A market order meeting enough size is filled whole. */
  lemma MarketOrderFills(c: Config, s: State, id: OrderId)
    requires Offered(c, s, id) && s.desk.orders[id].kind.Market? && s.desk.orders[id].tif.ImmediateOrCancel?
    requires s.desk.orders[id].filled == 0 && s.desk.orders[id].quantity == 10
    requires Wanted(s.account, s.desk.orders[id]) == 10 && DepthFor(c, s, s.desk.orders[id]) >= 10
    ensures var s' := TryFill(c, s, id);
            var o := s.desk.orders[id];
            && s'.fault.None? && Coherent(s'.desk) && s'.market == s.market && OnlyOrder(s.desk, s'.desk, id)
            && s'.desk.orders[id].status.Filled?
            && Held(s'.account, o.slot) == Held(s.account, o.slot) + 10 * o.side.Signum()
            && (forall j :: j in s.desk.resting && j != id ==> j in s'.desk.resting)
            && (forall j :: j !in s.desk.resting && j != id ==> j !in s'.desk.resting)
            && id !in s'.desk.resting
  {
    hide KeepsPrices, BooksValid, Structure, SoundFills, DepthFor, Recorded, Held, Walk, EffectiveBook, Stopped;
    OfferedIsKeyed(c, s, id);
    OfferTradesTheBook(c, s, id);
    TryFillCoherent(c, s, id);
    TryFillLeavesOthers(c, s, id) by {
      KeyedDesk(s.desk);
    }
    forall j | j !in s.desk.resting && j != id ensures j !in TryFill(c, s, id).desk.resting {
      TryFillRestsOnlyItsOwn(c, s, id, j);
    }
    OfferMovesHeld(c, s, id);
  }

  /** What is known of the account along the way: orders one to `n`, and what is held. */
  predicate Stage(s: State, n: OrderId, held: int) {
    && s.fault.None? && s.market.delisted == {} && CORNER in s.market.books
    && s.desk.nextId == n && s.desk.inflight == []
    && (forall id :: id in s.desk.orders ==> 1 <= id <= n)
    && Held(s.account, CORNER) == held
  }

  /** The same, with order `n` on the wire. */
  predicate Wired(s: State, n: OrderId, held: int, r: Request) {
    && s.fault.None? && s.market.delisted == {} && CORNER in s.market.books
    && s.desk.nextId == n && s.desk.inflight == [n]
    && (forall id :: id in s.desk.orders ==> 1 <= id <= n)
    && n in s.desk.orders && s.desk.orders[n] == NewOrder(n, r, InFlight)
    && Held(s.account, CORNER) == held
  }

  /** Everything but the newest order is as it was. */
  ghost predicate Others(s: State, s': State, n: OrderId) {
    && (forall id :: id in s.desk.orders && id != n ==> id in s'.desk.orders && s'.desk.orders[id] == s.desk.orders[id])
    && (forall id :: id != n ==> (id in s'.desk.resting <==> id in s.desk.resting))
    && s'.market == s.market
  }

  lemma StageSent(c: Config, s: State, n: OrderId, held: int, r: Request)
    requires Stage(s, n, held) && Sendable(c, s, r) && SizesAreSane(s.desk) && n >= 0
    ensures var s' := Step(c, s, Submit(r));
            Wired(s', n + 1, held, r) && Others(s, s', n + 1)
  {
    hide Step, Held, LiveOnly, SizesAreSane, Sendable;
    Sent(c, s, r);
  }

  /** No resting order of the account stands across from this side. */
  predicate NoneAcross(d: Desk, side: Side) {
    forall id :: id in d.resting && id in d.orders ==> d.orders[id].side == side
  }

  lemma NoneAcrossNoSelfTrade(m: MarketData, d: Desk, o: Order)
    requires NoneAcross(d, o.side)
    ensures !SelfTrades(m, d, o)
  {
    hide RestsAtFront;
    forall i | 0 <= i < |d.resting| ensures d.resting[i] in d.resting {
    }
  }

  lemma AcceptedCoherent(s: State, n: OrderId)
    requires Coherent(s.desk) && n in s.desk.orders && s.desk.orders[n].status.InFlight?
    ensures Coherent(AcceptedState(s, n).desk) && Offerable(AcceptedState(s, n).desk, n) && n !in s.desk.resting
  {
    hide Structure, Without;
    var d := s.desk.(inflight := Without(s.desk.inflight, n));
    InflightIsFree(s.desk, d.inflight);
    EngineLifecycle.AcceptedIsOfferable(d, n);
  }

  lemma WithoutItself(n: OrderId)
    ensures Without([n], n) == []
  {
    assert [n][1..] == [];
  }

  lemma MarketArrives(c: Config, s: State, n: OrderId, held: int, r: Request)
    requires Unlimited(c) && KeepsPrices(c) && Coherent(s.desk) && BooksValid(s.market)
    requires Wired(s, n, held, r) && NoneAcross(s.desk, r.side)
    requires r.slot == CORNER && r.kind.Market? && r.quantity == 10 && r.tif.ImmediateOrCancel? && r.trigger.None? && !r.postOnly
    requires r.reduceOnly ==> r.side.Sell? && held == 10
    requires DepthFor(c, s, NewOrder(n, r, Accepted)) >= 10
    ensures var s' := Step(c, s, Release(n, true));
            Stage(s', n, held + 10 * r.side.Signum()) && Others(s, s', n) && n !in s'.desk.resting && n in s'.desk.orders
  {
    hide Step, KeepsPrices, BooksValid, Structure, TryFill, WouldCross, Stopped, SelfTrades, DepthFor, Held, Without, NoneAcross;
    NotStopped(c, s);
    NoneAcrossNoSelfTrade(s.market, s.desk, s.desk.orders[n]);
    Arrives(c, s, n);
    AcceptedCoherent(s, n);
    var s1 := AcceptedState(s, n);
    var o := s1.desk.orders[n];
    assert o == NewOrder(n, r, Accepted);
    WithoutItself(n);
    DepthReadsMarket(c, s, s1, o);
    HeldIsQuantity(s.account, CORNER);
    MarketOrderFills(c, s1, n);
  }

  lemma OneAskDepth(c: Config, s: State, o: Order, price: int, size: int)
    requires o.slot in s.market.books && s.market.books[o.slot].asks == map[price := size]
    requires c.synthetic(s.market.books[o.slot], o).None? && o.side.Buy? && o.kind.Market?
    ensures DepthFor(c, s, o) == size
  {
    hide DepthWithin, Reach;
    ReachOfOneAsk(price, size);
    DepthOfOneAsk(price, size);
  }

  lemma ReachOfOneAsk(price: int, size: int)
    ensures Reach(map[price := size], Buy) == [price]
  {
    var levels := map[price := size];
    assert levels.Keys == {price};
    OneLevel(price);
  }

  lemma DepthOfOneAsk(price: int, size: int)
    ensures DepthWithin([price], map[price := size], Buy, None) == size
  {
    assert [price][1..] == [];
    assert DepthWithin([], map[price := size], Buy, None) == 0;
  }

  // The run, stage by stage.

  /** Orders sent, arrivals, quotes and matches: ordinary whatever the state. */
  predicate Everyday(op: Op) {
    op.Submit? || op.Release? || op.Feed? || op.Match?
  }

  lemma {:induction false} EverydayIsOrdinary(c: Config, ops: seq<Op>)
    requires forall i :: 0 <= i < |ops| ==> Everyday(ops[i])
    ensures OrdinaryRun(c, ops)
    decreases |ops|
  {
    hide Run;
    if ops != [] {
      EverydayIsOrdinary(c, ops[..|ops| - 1]);
      assert Everyday(ops[|ops| - 1]);
    }
  }

  /** What every state of such a run satisfies. */
  lemma EverydayState(c: Config, ops: seq<Op>)
    requires forall i :: 0 <= i < |ops| ==> Everyday(ops[i])
    ensures var s := Run(c, ops);
            Coherent(s.desk) && Ledger(Unbounded(), s.desk) && SizesAreSane(s.desk) && BooksValid(s.market)
  {
    hide Run, Coherent, BooksValid, OrdinaryRun, Within;
    EverydayIsOrdinary(c, ops);
    OrdinaryRunIsPlayable(c, ops);
    LedgerIsSane(Run(c, ops).desk);
    RunKeepsBooks(c, ops);
  }

  lemma Bought(c: Config)
    requires Refusing(c)
    ensures var s := Run(c, BoughtRun());
            && Stage(s, 1, 10) && (forall id :: id !in s.desk.resting)
            && s.market == QuotedMarket([], [(10, 10)])
  {
    hide Run, Step, Coherent, BooksValid, KeepsPrices, DepthFor, Sendable, Stage, Wired, QuotedMarket, Unlimited;
    var ops := BoughtRun();
    RunOfThree(c, ops);
    FedFirst(c, [], [(10, 10)]);
    var s1 := Step(c, Init(c), ops[0]);
    StartsEmpty(c, s1);
    StageSent(c, s1, 0, 0, BuyTen());
    var s2 := Step(c, s1, ops[1]);
    RunOfTwo(c, ops);
    EverydayState(c, ops[..2]);
    FirstAskIsDeep(c, s2);
    WiredIsOffBook(s2, 1, 0, BuyTen());
    MarketArrives(c, s2, 1, 0, BuyTen());
  }

  lemma WiredIsOffBook(s: State, n: OrderId, held: int, r: Request)
    requires Coherent(s.desk) && Wired(s, n, held, r)
    ensures n !in s.desk.resting && s.fault.None?
  {
    hide Structure, Held;
  }

  lemma StartsEmpty(c: Config, s: State)
    requires Refusing(c) && s == Init(c).(market := QuotedMarket([], [(10, 10)]))
    ensures Stage(s, 0, 0) && Sendable(c, s, BuyTen()) && SizesAreSane(s.desk) && (forall id :: id !in s.desk.resting)
  {
  }

  lemma RunOfTwo(c: Config, ops: seq<Op>)
    requires |ops| == 3
    ensures Run(c, ops[..2]) == Step(c, Step(c, Init(c), ops[0]), ops[1])
  {
    hide Step;
    assert ops[..2][..1] == ops[..1] && ops[..1][..0] == [] && ops[..2][1] == ops[1];
    assert Run(c, ops[..1]) == Step(c, Init(c), ops[0]);
  }

  lemma FirstAskIsDeep(c: Config, s: State)
    requires Refusing(c) && s.market == QuotedMarket([], [(10, 10)])
    ensures CORNER in s.market.books && DepthFor(c, s, NewOrder(1, BuyTen(), Accepted)) >= 10
  {
    hide DepthFor, F.SnapshotSide, KeepsPrices, BestAsk, BestBid;
    TopOf([], [(10, 10)], s.market.books[CORNER]);
    OneAskDepth(c, s, NewOrder(1, BuyTen(), Accepted), 10, 10);
  }

  lemma NotStopped(c: Config, s: State)
    requires Unlimited(c) && s.market.delisted == {}
    ensures !Stopped(c, s.market, 0)
  {
  }

  /** Nothing is open to sell while no sell order exists that is still open. */
  lemma {:induction false} NothingToSell(d: Desk, ids: seq<OrderId>, slot: Slot)
    requires forall id :: id in d.orders && d.orders[id].side.Sell? ==> !d.orders[id].IsOpen()
    ensures Pending(d, ids, slot, Sell, false) == 0
    decreases |ids|
  {
    if ids != [] {
      NothingToSell(d, ids[1..], slot);
    }
  }

  lemma OfferIsSendable(c: Config, s: State)
    requires Refusing(c) && Stage(s, 1, 10) && (1 in s.desk.orders ==> s.desk.orders[1].side.Buy?)
    ensures Sendable(c, s, OfferTen())
  {
    hide Held;
    NothingToSell(s.desk, s.desk.live, CORNER);
  }

  /** The offer, accepted against the ten held, resting above a market with no bid. */
  lemma OfferRests(c: Config, s: State)
    requires Refusing(c) && Wired(s, 2, 10, OfferTen()) && Coherent(s.desk) && BooksValid(s.market)
    requires s.market == QuotedMarket([], [(10, 10)]) && (forall id :: id != 2 ==> id !in s.desk.resting)
    ensures var s' := Step(c, s, Release(2, true));
            && Stage(s', 2, 10) && s'.desk.resting == [2] && 2 in s'.desk.orders
            && s'.desk.orders[2] == NewOrder(2, OfferTen(), Accepted)
            && (forall id :: id in s.desk.orders && id != 2 ==> id in s'.desk.orders && s'.desk.orders[id] == s.desk.orders[id])
  {
    hide Step, KeepsPrices, BooksValid, Structure, TryFill, WouldCross, Stopped, SelfTrades, Held, Without, QuotedMarket, AddResting;
    NotStopped(c, s);
    WiredIsOffBook(s, 2, 10, OfferTen());
    NoneAcrossNoSelfTrade(s.market, s.desk, s.desk.orders[2]);
    Arrives(c, s, 2);
    var s1 := AcceptedState(s, 2);
    WithoutItself(2);
    assert s1.desk.orders[2] == NewOrder(2, OfferTen(), Accepted);
    NoBidNoCross(s1.desk.orders[2]);
    QuietOfferRests(c, s1, 2);
    JoinsTheBook(c, s1.market, s1.desk, s1.desk.orders[2]);
    NobodyElse(s.desk.resting, 2);
  }

  lemma NobodyElse(ids: seq<OrderId>, n: OrderId)
    requires forall id :: id != n ==> id !in ids
    requires n !in ids
    ensures ids == []
  {
    var first := if ids == [] then n else ids[0];
    assert ids == [] || first in ids;
  }

  lemma NoBidNoCross(o: Order)
    requires o.slot == CORNER && o.side.Sell?
    ensures !WouldCross(QuotedMarket([], [(10, 10)]), o)
  {
    hide F.SnapshotSide, BestAsk, BestBid;
    TopOf([], [(10, 10)], QuotedMarket([], [(10, 10)]).books[CORNER]);
  }

  lemma RunSnoc2(c: Config, ops: seq<Op>, a: Op, b: Op)
    ensures Run(c, ops + [a]) == Step(c, Run(c, ops), a)
    ensures Run(c, ops + [a] + [b]) == Step(c, Step(c, Run(c, ops), a), b)
  {
    hide Run, Step;
    RunSnoc(c, ops, a);
    RunSnoc(c, ops + [a], b);
  }

  lemma BuyerIsFirst(c: Config)
    requires Refusing(c)
    ensures var d := Run(c, BoughtRun()).desk;
            1 in d.orders ==> d.orders[1].side.Buy?
  {
    hide Run, Step, Coherent, BooksValid, KeepsPrices, Sendable, Stage, QuotedMarket, Unlimited, Without, TryFill;
    var ops := BoughtRun();
    RunOfThree(c, ops);
    RunOfTwo(c, ops);
    FedFirst(c, [], [(10, 10)]);
    var s1 := Step(c, Init(c), ops[0]);
    StartsEmpty(c, s1);
    StageSent(c, s1, 0, 0, BuyTen());
    var s2 := Step(c, s1, ops[1]);
    EverydayState(c, ops[..2]);
    EngineLifecycle.StepKept(c, s2, ops[2], 1);
  }

  lemma OfferStands(c: Config)
    requires Refusing(c)
    ensures var s := Run(c, OfferedRun());
            && Stage(s, 2, 10) && s.desk.resting == [2] && 2 in s.desk.orders
            && s.desk.orders[2] == NewOrder(2, OfferTen(), Accepted)
  {
    hide Run, Step, Coherent, BooksValid, KeepsPrices, Sendable, Stage, Wired, QuotedMarket, Ledger, SizesAreSane;
    var s1 := Run(c, BoughtRun());
    Bought(c);
    BuyerIsFirst(c);
    EverydayState(c, BoughtRun());
    OfferIsSendable(c, s1);
    StageSent(c, s1, 1, 10, OfferTen());
    RunSnoc2(c, BoughtRun(), Submit(OfferTen()), Release(2, true));
    EverydayState(c, BoughtRun() + [Submit(OfferTen())]);
    OfferRests(c, Step(c, s1, Submit(OfferTen())));
  }

  lemma BidFed(c: Config, s: State, n: OrderId, held: int, price: int)
    requires Stage(s, n, held)
    ensures var s' := Step(c, s, FeedBid(CORNER, price, 10));
            Stage(s', n, held) && s'.desk == s.desk && s'.account == s.account && OneBid(s'.market, CORNER, price, 10)
  {
    hide Held;
    SnapshotOfOne(price, 10);
  }

  lemma ReduceIsSendable(c: Config, s: State)
    requires Refusing(c) && Stage(s, 2, 10)
    ensures Sendable(c, s, ReduceTen())
  {
    hide Held, Open;
  }

  lemma BidIsDeep(c: Config, s: State, r: Request, n: OrderId, price: int)
    requires OwnBook(c) && OneBid(s.market, CORNER, price, 10) && r.slot == CORNER && r.side.Sell? && r.kind.Market?
    ensures CORNER in s.market.books && DepthFor(c, s, NewOrder(n, r, Accepted)) >= 10
  {
    hide DepthFor, KeepsPrices;
    OneBidDepth(c, s, NewOrder(n, r, Accepted), price, 10);
  }

  /** The reduce-only sale is let through beside the offer, and uses up the holding. */
  lemma HoldingSold(c: Config)
    requires Refusing(c)
    ensures var s := Run(c, ReducedRun());
            && Stage(s, 3, 0) && 2 in s.desk.resting && 2 in s.desk.orders
            && s.desk.orders[2] == NewOrder(2, OfferTen(), Accepted)
            && (forall id :: id in s.desk.resting ==> id == 2)
  {
    hide Run, Step, Coherent, BooksValid, KeepsPrices, Sendable, Stage, Wired, Ledger, SizesAreSane, OneBid, DepthFor, Unlimited;
    var ops := OfferedRun();
    OfferStands(c);
    var s := Run(c, ops);
    BidFed(c, s, 2, 10, 50);
    RunSnoc2(c, ops, FeedBid(CORNER, 50, 10), Submit(ReduceTen()));
    var ops1 := ops + [FeedBid(CORNER, 50, 10)];
    var s1 := Run(c, ops1);
    EverydayState(c, ops1);
    ReduceIsSendable(c, s1);
    StageSent(c, s1, 2, 10, ReduceTen());
    var ops2 := ops1 + [Submit(ReduceTen())];
    var s2 := Run(c, ops2);
    EverydayState(c, ops2);
    WiredIsOffBook(s2, 3, 10, ReduceTen());
    OnlyTwoRests(s1.desk, s2.desk);
    BidIsDeep(c, s2, ReduceTen(), 3, 50);
    RunSnoc(c, ops2, Release(3, true));
    MarketArrives(c, s2, 3, 10, ReduceTen());
  }

  lemma OnlyTwoRests(d: Desk, d': Desk)
    requires d.resting == [2] && 3 !in d'.resting && 2 in d'.orders && d'.orders[2].side.Sell?
    requires forall id :: id != 3 ==> (id in d'.resting <==> id in d.resting)
    ensures NoneAcross(d', Sell) && 2 in d'.resting && (forall id :: id in d'.resting ==> id == 2)
  {
    assert 2 in d.resting && (forall id :: id in d.resting ==> id == 2);
    assert 2 in d'.resting;
    assert forall id :: id in d'.resting ==> id == 2;
  }

  /** The bid reaches the offer, with nothing left behind it. */
  lemma OfferReached(c: Config, s: State)
    requires Refusing(c) && Stage(s, 3, 0) && Coherent(s.desk) && Ledger(Unbounded(), s.desk) && BooksValid(s.market)
    requires 2 in s.desk.resting && 2 in s.desk.orders && s.desk.orders[2] == NewOrder(2, OfferTen(), Accepted)
    requires forall id :: id in s.desk.resting ==> id == 2
    requires OneBid(s.market, CORNER, 100, 10)
    ensures Held(MatchResting(c, s, CORNER, false).account, CORNER) <= -10
  {
    hide Structure, BooksValid, OwnBook, KeepsPrices, OneBid, MatchResting, Held, Scan, Pending, Stopped;
    NotStopped(c, s);
    PlainMatched(c, s, CORNER, 100, 10);
    ScanHolds(s.desk, CORNER);
    LedgerIsSane(s.desk);
    PendingHas(s.desk, Scan(s.desk, CORNER), 2, CORNER, true);
  }

  /**
   Buy ten; offer them at a hundred, which the gate admits against the ten; sell ten reduce-only,
   which it does not count; then a bid of a hundred.  No print fills anything, every step is
   ordinary, and the account ends ten short in a market nobody can borrow.
   */
  lemma CoveredSellGoesShort(c: Config)
    requires Refusing(c)
    ensures OrdinaryRun(c, ShortRun()) && !c.usesQueue
    ensures Held(Run(c, ShortRun()).account, CORNER) <= -10
  {
    hide Run, Step, Coherent, BooksValid, KeepsPrices, Stage, Ledger, OneBid, MatchResting, OrdinaryRun, OwnBook, SizesAreSane;
    var ops := ReducedRun();
    HoldingSold(c);
    var s := Run(c, ops);
    BidFed(c, s, 3, 0, 100);
    RunSnoc2(c, ops, FeedBid(CORNER, 100, 10), Match(CORNER, false));
    var s1 := Step(c, s, FeedBid(CORNER, 100, 10));
    EverydayState(c, ops + [FeedBid(CORNER, 100, 10)]);
    EverydayIsOrdinary(c, ShortRun());
    StageHasNoFault(s1, 3, 0);
    StepMatches(c, s1, CORNER);
    OfferReached(c, s1);
  }

  lemma StageHasNoFault(s: State, n: OrderId, held: int)
    requires Stage(s, n, held)
    ensures s.fault.None?
  {
  }

  // ----- A split that leaves the queue behind -----

  /** A bid behind six already there. */
  function JoinerRequest(): Request {
    Request(CORNER, Buy, Limit(10), 1, GoodTilCancel, false, false, None)
  }

  function JoinerRun(): seq<Op> {
    QuotedRun([(10, 6)], [], JoinerRequest())
  }

  const TWO_FOR_ONE: int := 2 * SCALE

  lemma JoinerRests(c: Config)
    requires Unlimited(c)
    ensures Sendable(c, Init(c), JoinerRequest())
    ensures Rests(JoinerRequest(), QuotedMarket([(10, 6)], []))
    ensures DisplayedAt(QuotedMarket([(10, 6)], []), CORNER, Buy, 10) == 6
  {
    hide F.SnapshotSide, BestAsk, BestBid;
    TopOf([(10, 6)], [], QuotedMarket([(10, 6)], []).books[CORNER]);
  }

  lemma TwoForOne()
    ensures SplitPrice(TWO_FOR_ONE, 10) == 5 && SplitQuantity(TWO_FOR_ONE, 6) == 12
  {
  }

  /** Six at ten become twelve at five. */
  lemma JoinerBookSplits()
    ensures ValueOr(F.SplitSide(map[10 := 6], TWO_FOR_ONE), 5, 0) == 12
  {
    hide SplitPrice, SplitQuantity, F.SplitSide;
    var levels := map[10 := 6];
    assert levels.Keys == {10};
    OneLevel(10);
    TwoForOne();
    F.SplitSideShowsEachLevel(levels, TWO_FOR_ONE, 5);
    assert [10][1..] == [];
    assert F.SplitTotalAt([], levels, TWO_FOR_ONE, 5) == 0;
  }

  /**
   A bid joins six at ten.  A two-for-one split makes that twelve at five, and moves the order to
   five with it, but the order is still counted as behind six.
   */
  lemma SplitLeavesQueueBehind(c: Config)
    requires Unlimited(c) && c.usesQueue && KeepsPrices(c)
    ensures var s := Run(c, JoinerRun());
            ValueOr(s.desk.queueAhead, 1, 0) == 6 && DisplayedAt(s.market, CORNER, Buy, 10) == 6
    ensures var s := Run(c, JoinerRun() + [SplitAction(0, TWO_FOR_ONE)]);
            && 1 in s.desk.orders && s.desk.orders[1].kind == Limit(5) && 1 in s.desk.resting
            && DisplayedAt(s.market, CORNER, Buy, 5) == 12
            && ValueOr(s.desk.queueAhead, 1, 0) == 6
  {
    hide Run, Structure, KeepsPrices, SplitOrdersOf, SplitPositions, F.SplitSide, F.SnapshotSide, SplitPrice, SplitQuantity, Rests, Sendable, BestAsk, BestBid;
    var s := Run(c, JoinerRun());
    JoinerRests(c);
    FirstOrderRests(c, [(10, 6)], [], JoinerRequest());
    RunIsSane(c, JoinerRun());
    RunSnoc(c, JoinerRun(), SplitAction(0, TWO_FOR_ONE));
    TopOf([(10, 6)], [], s.market.books[CORNER]);
    assert 1 in s.desk.resting;
    SplitScalesEachOrderOnce(c, JoinerRun(), 0, TWO_FOR_ONE, 1);
    EngineLifecycle.SplitSharesCarried(s, 0, TWO_FOR_ONE, 1);
    SplitKeepsLists(s.desk, 0, TWO_FOR_ONE);
    JoinerBookSplits();
    TwoForOne();
  }

  // ----- A split the record of fills does not show -----

  lemma TenDoubles()
    ensures SplitQuantity(TWO_FOR_ONE, 10) == 20
  {
  }

  /** Buy ten, then split two for one.  Twenty are held; replaying the fills on record gives ten. */
  lemma SplitLeavesReplayBehind(c: Config)
    requires Refusing(c)
    ensures var a := Run(c, BoughtRun() + [SplitAction(0, TWO_FOR_ONE)]).account;
            && At(a.positions, CORNER).quantity == 20
            && Replayed(FLAT, FillsOf(a.fills, CORNER)).quantity == 10
  {
    hide Run, Step, SplitQuantity, SplitPrice, FillsOf, Replayed, Unsplit, History, QuotedMarket;
    var s := Run(c, BoughtRun());
    Bought(c);
    HeldIsQuantity(s.account, CORNER);
    NeverSplit(c, BoughtRun(), CORNER);
    PositionIsReplayed(c, BoughtRun(), CORNER);
    RunSnoc(c, BoughtRun(), SplitAction(0, TWO_FOR_ONE));
    SplitFolds(c, s, SplitAction(0, TWO_FOR_ONE));
    TenDoubles();
  }
}
