/**
 The other half: where open sells do not fit, the market can take the position short.

 The continuation reprices the plain sells out of the way, lets the reduce-only ones use up the
 holding, and then meets the plain ones.
 */
module EngineShortRuns {
  import opened FixedPoint
  import opened Sorting
  import opened Sums
  import opened Orders
  import opened Book
  import opened Engine
  import opened EngineCoherence
  import opened EngineRuns
  import opened EngineAccount
  import opened EngineMatching
  import opened EngineOffers
  import opened EnginePostOnly
  import opened EngineQueue
  import opened EngineQueueRuns
  import opened EngineRisk
  import EngineLifecycle
  import opened RestingIndex
  import F = BookFeed

  // ----- What one offer does to a holding -----

  lemma {:induction false} HeldAfterTrades(c: Config, s: State, id: OrderId, trades: seq<(int, int)>, taker: bool, slot: Slot)
    requires s.fault.None? && id in s.desk.orders && FitsIn(trades, s.desk.orders[id].Remaining())
    ensures var o := s.desk.orders[id];
            Held(ExecuteAll(c, s, id, trades, taker).account, slot)
              == Held(s.account, slot) + if slot == o.slot then Total(trades) * o.side.Signum() else 0
    decreases |trades|
  {
    hide BookFill, AfterFill, Held;
    if trades != [] {
      var o, q := s.desk.orders[id], trades[0].1;
      var s1 := Execute(c, s, id, trades[0].0, q, taker);
      var fee := c.fee(s.account.fills, o.(id := id), trades[0].0, q, taker);
      BookFillDesk(c, s, id, trades[0].0, q, fee, taker);
      HeldAfterFill(c, s.account, Fill(id, o.slot, o.side, trades[0].0, q, fee, taker), slot);
      ExecuteKeepsGoing(c, s, id, trades[0].0, q, taker);
      HeldAfterTrades(c, s1, id, trades[1..], taker, slot);
      assert (q + Total(trades[1..])) * o.side.Signum() == q * o.side.Signum() + Total(trades[1..]) * o.side.Signum();
    }
  }

  lemma ExecuteKeepsGoing(c: Config, s: State, id: OrderId, price: int, q: int, taker: bool)
    requires id in s.desk.orders && 0 < q <= s.desk.orders[id].Remaining()
    ensures Execute(c, s, id, price, q, taker).fault == s.fault
  {
  }

  /** An offer moves the holding by what it fills. */
  lemma OfferMovesHeld(c: Config, s: State, id: OrderId)
    requires Offered(c, s, id) && !Killed(c, s, s.desk.orders[id])
    ensures var o := s.desk.orders[id];
            Held(TryFill(c, s, id).account, o.slot) == Held(s.account, o.slot) + Takes(c, s, o) * o.side.Signum()
  {
    hide Coherent, KeepsPrices, BooksValid, SoundFills, DepthFor, ExecuteAll, Settled, Close, Stopped, Walk, FitsIn, EffectiveBook, Held, Wanted, Takes;
    var o := s.desk.orders[id];
    OfferedIsKeyed(c, s, id);
    WalkForOffer(c, s, id);
    var w := Walk(EffectiveBook(c, s.market, o), o.side, Wanted(s.account, o), o.LimitPrice());
    HeldAfterTrades(c, s, id, w.fills, !o.postOnly, o.slot);
    SettledAccount(c, ExecuteAll(c, s, id, w.fills, !o.postOnly), id);
  }

  /** A deep book within the limit: an order takes all it wants. */
  predicate Deep(c: Config, s: State, o: Order) {
    o.slot in s.market.books && Wanted(s.account, o) <= DepthFor(c, s, o)
  }

  /**
   Offering a resting sell to a deep book takes its whole remainder if it is plain, and what is
   held of it, down to flat, if it is reduce-only.
   */
  lemma DeepSellTakes(c: Config, s: State, id: OrderId)
    requires Offered(c, s, id) && s.desk.orders[id].side.Sell? && s.desk.orders[id].tif.GoodTilCancel?
    requires s.desk.orders[id].Remaining() >= 0 && Deep(c, s, s.desk.orders[id])
    ensures var o := s.desk.orders[id];
            var held := Held(s.account, o.slot);
            Held(TryFill(c, s, id).account, o.slot)
              == held - if o.reduceOnly then Min(o.Remaining(), Max(held, 0)) else o.Remaining()
  {
    hide Coherent, KeepsPrices, BooksValid, SoundFills, DepthFor, ExecuteAll, Settled, Close, Stopped, Walk, FitsIn, EffectiveBook;
    var o := s.desk.orders[id];
    OfferedIsKeyed(c, s, id);
    HeldIsQuantity(s.account, o.slot);
    WalkForOffer(c, s, id);
    var w := Walk(EffectiveBook(c, s.market, o), o.side, Wanted(s.account, o), o.LimitPrice());
    HeldAfterTrades(c, s, id, w.fills, !o.postOnly, o.slot);
    SettledAccount(c, ExecuteAll(c, s, id, w.fills, !o.postOnly), id);
  }

  // ----- Offering many -----

  /** A resting sell of the slot that the book would fill whole. */
  ghost predicate FacesDeep(c: Config, s: State, slot: Slot, id: OrderId) {
    && Waiting(c, s, id) && s.desk.orders[id].slot == slot && s.desk.orders[id].side.Sell?
    && s.desk.orders[id].Remaining() >= 0
    && s.desk.orders[id].Remaining() <= DepthFor(c, s, s.desk.orders[id])
  }

  ghost predicate AllFacing(c: Config, s: State, slot: Slot, ids: seq<OrderId>) {
    && Coherent(s.desk) && s.fault.None? && KeepsPrices(c) && BooksValid(s.market)
    && NoDuplicates(ids) && (forall i :: 0 <= i < |ids| ==> FacesDeep(c, s, slot, ids[i]))
  }

  lemma FacingIsOffered(c: Config, s: State, slot: Slot, id: OrderId)
    requires Coherent(s.desk) && s.fault.None? && KeepsPrices(c) && BooksValid(s.market) && FacesDeep(c, s, slot, id)
    ensures Offered(c, s, id) && s.desk.orders[id].tif.GoodTilCancel? && Deep(c, s, s.desk.orders[id])
    ensures Offerable(s.desk, id)
  {
    hide Structure, KeepsPrices, BooksValid, DepthFor, Stopped;
    WaitingIsOfferable(c, s, id);
  }

  /** One offer leaves the rest facing the same book. */
  lemma FacingTail(c: Config, s: State, slot: Slot, ids: seq<OrderId>)
    requires AllFacing(c, s, slot, ids) && ids != []
    ensures var s1 := TryFill(c, s, ids[0]);
            && AllFacing(c, s1, slot, ids[1..])
            && (forall i :: 0 <= i < |ids[1..]| ==>
                  ids[1..][i] in s1.desk.orders && ids[1..][i] in s.desk.orders
                  && s1.desk.orders[ids[1..][i]] == s.desk.orders[ids[1..][i]])
            && s1.market == s.market
  {
    hide Structure, KeepsPrices, BooksValid, TryFill, DepthFor, Stopped;
    var x, s1 := ids[0], TryFill(c, s, ids[0]);
    assert FacesDeep(c, s, slot, x);
    FacingIsOffered(c, s, slot, x);
    TryFillCoherent(c, s, x);
    TryFillLeavesOthers(c, s, x) by {
      KeyedDesk(s.desk);
    }
    forall i | 0 <= i < |ids[1..]|
      ensures ids[1..][i] in s.desk.orders && ids[1..][i] in s1.desk.orders
      ensures s1.desk.orders[ids[1..][i]] == s.desk.orders[ids[1..][i]]
      ensures FacesDeep(c, s1, slot, ids[1..][i])
    {
      var j := ids[i + 1];
      assert ids[1..][i] == j && j != x && FacesDeep(c, s, slot, j);
      StillWaiting(c, s, s1, x, j);
      DepthReadsMarket(c, s, s1, s.desk.orders[j]);
    }
  }

  lemma DepthReadsMarket(c: Config, s: State, s': State, o: Order)
    requires s'.market == s.market && o.slot in s.market.books
    ensures DepthFor(c, s', o) == DepthFor(c, s, o)
  {
  }

  lemma {:induction false} PendingSame(d: Desk, d': Desk, ids: seq<OrderId>, slot: Slot, side: Side, skip: bool)
    requires forall i :: 0 <= i < |ids| ==> SameSize(d, d', ids[i])
    ensures Pending(d', ids, slot, side, skip) == Pending(d, ids, slot, side, skip)
    decreases |ids|
  {
    if ids != [] {
      assert SameSize(d, d', ids[0]);
      PendingSame(d, d', ids[1..], slot, side, skip);
    }
  }

  /** As far as what is open goes, the order is the same. */
  predicate SameSize(d: Desk, d': Desk, id: OrderId) {
    && (id in d.orders <==> id in d'.orders)
    && (id in d.orders ==>
          var o, o' := d.orders[id], d'.orders[id];
          o'.IsOpen() == o.IsOpen() && o'.slot == o.slot && o'.side == o.side && o'.reduceOnly == o.reduceOnly
          && o'.Remaining() == o.Remaining())
  }

  lemma PendingOfFacing(c: Config, s: State, slot: Slot, id: OrderId, skip: bool)
    requires FacesDeep(c, s, slot, id)
    ensures PendingOf(s.desk, id, slot, Sell, skip)
         == if skip && s.desk.orders[id].reduceOnly then 0 else s.desk.orders[id].Remaining()
  {
    hide DepthFor, Stopped;
  }

  /** Offering sells to a deep book takes at least the whole of every plain one. */
  lemma {:induction false} OfferTakesPlain(c: Config, s: State, slot: Slot, ids: seq<OrderId>)
    requires AllFacing(c, s, slot, ids)
    ensures Held(Offer(c, s, ids).account, slot) <= Held(s.account, slot) - Pending(s.desk, ids, slot, Sell, true)
    decreases |ids|
  {
    hide Coherent, KeepsPrices, BooksValid, TryFill, FacesDeep, Held, SameSize, PendingOf;
    if ids != [] {
      var x, s1 := ids[0], TryFill(c, s, ids[0]);
      assert FacesDeep(c, s, slot, x);
      FacingIsOffered(c, s, slot, x);
      OneFacing(c, s, slot, x);
      FacingTail(c, s, slot, ids);
      OfferTakesPlain(c, s1, slot, ids[1..]);
      PendingTail(s.desk, s1.desk, ids, slot, true);
    }
  }

  lemma SameOrdersSameSize(d: Desk, d': Desk, ids: seq<OrderId>)
    requires forall i :: 0 <= i < |ids| ==> ids[i] in d.orders && ids[i] in d'.orders && d'.orders[ids[i]] == d.orders[ids[i]]
    ensures forall i :: 0 <= i < |ids| ==> SameSize(d, d', ids[i])
  {
  }

  lemma PendingTail(d: Desk, d': Desk, ids: seq<OrderId>, slot: Slot, skip: bool)
    requires ids != []
    requires forall i :: 0 <= i < |ids[1..]| ==>
               ids[1..][i] in d'.orders && ids[1..][i] in d.orders && d'.orders[ids[1..][i]] == d.orders[ids[1..][i]]
    ensures Pending(d, ids, slot, Sell, skip)
         == Pending(d', ids[1..], slot, Sell, skip) + PendingOf(d, ids[0], slot, Sell, skip)
  {
    hide PendingOf, SameSize;
    SameOrdersSameSize(d, d', ids[1..]);
    PendingSame(d, d', ids[1..], slot, Sell, skip);
  }

  /** One deep sell, in terms of what was pending. */
  lemma OneFacing(c: Config, s: State, slot: Slot, id: OrderId)
    requires Coherent(s.desk) && s.fault.None? && KeepsPrices(c) && BooksValid(s.market) && FacesDeep(c, s, slot, id)
    ensures id in s.desk.orders
    ensures var held, held' := Held(s.account, slot), Held(TryFill(c, s, id).account, slot);
            && held' <= held - PendingOf(s.desk, id, slot, Sell, true)
            && (s.desk.orders[id].reduceOnly && held >= 0 ==>
                  held' == Max(0, held - PendingOf(s.desk, id, slot, Sell, false)))
  {
    hide Coherent, KeepsPrices, BooksValid, TryFill, DepthFor, Held, PendingOf;
    FacingIsOffered(c, s, slot, id);
    PendingOfFacing(c, s, slot, id, true);
    PendingOfFacing(c, s, slot, id, false);
    DeepSellTakes(c, s, id);
  }

  predicate AllReduceOnly(d: Desk, ids: seq<OrderId>) {
    forall i :: 0 <= i < |ids| ==> ids[i] in d.orders && d.orders[ids[i]].reduceOnly
  }

  lemma ReduceOnlyTail(d: Desk, d': Desk, ids: seq<OrderId>)
    requires AllReduceOnly(d, ids) && ids != []
    requires forall i :: 0 <= i < |ids[1..]| ==>
               ids[1..][i] in d'.orders && ids[1..][i] in d.orders && d'.orders[ids[1..][i]] == d.orders[ids[1..][i]]
    ensures d.orders[ids[0]].reduceOnly && AllReduceOnly(d', ids[1..])
  {
  }

  /** The first of them, and what it leaves to the rest. */
  lemma FirstReducer(c: Config, s: State, slot: Slot, ids: seq<OrderId>)
    requires AllFacing(c, s, slot, ids) && Held(s.account, slot) >= 0 && AllReduceOnly(s.desk, ids) && ids != []
    ensures var s1 := TryFill(c, s, ids[0]);
            var first := PendingOf(s.desk, ids[0], slot, Sell, false);
            && AllFacing(c, s1, slot, ids[1..]) && AllReduceOnly(s1.desk, ids[1..])
            && Held(s1.account, slot) == Max(0, Held(s.account, slot) - first)
            && Pending(s.desk, ids, slot, Sell, false) == Pending(s1.desk, ids[1..], slot, Sell, false) + first
            && first >= 0 && Pending(s1.desk, ids[1..], slot, Sell, false) >= 0
  {
    hide Coherent, KeepsPrices, BooksValid, TryFill, FacesDeep, Held, PendingOf, AllReduceOnly, Pending;
    var x, s1 := ids[0], TryFill(c, s, ids[0]);
    assert FacesDeep(c, s, slot, x);
    OneFacing(c, s, slot, x);
    FacingTail(c, s, slot, ids);
    ReduceOnlyTail(s.desk, s1.desk, ids);
    PendingTail(s.desk, s1.desk, ids, slot, false);
    PendingIsNotNegative(c, s, slot, ids);
    PendingIsNotNegative(c, s1, slot, ids[1..]);
  }

  lemma DownToFlat(held: int, first: int, rest: int)
    requires held >= 0 && first >= 0 && rest >= 0
    ensures Max(0, Max(0, held - first) - rest) == Max(0, held - (rest + first))
  {
  }

  lemma OfferTail(c: Config, s: State, ids: seq<OrderId>)
    requires s.fault.None?
    ensures Offer(c, s, ids) == if ids == [] then s else Offer(c, TryFill(c, s, ids[0]), ids[1..])
  {
  }

  /** Offering reduce-only sells to a deep book uses up the holding, down to flat. */
  lemma {:induction false} OfferTakesReducers(c: Config, s: State, slot: Slot, ids: seq<OrderId>)
    requires AllFacing(c, s, slot, ids) && Held(s.account, slot) >= 0
    requires AllReduceOnly(s.desk, ids)
    ensures Held(Offer(c, s, ids).account, slot) == Max(0, Held(s.account, slot) - Pending(s.desk, ids, slot, Sell, false))
    decreases |ids|
  {
    hide Coherent, KeepsPrices, BooksValid, TryFill, FacesDeep, Held, PendingOf, AllReduceOnly, Offer, NoDuplicates;
    OfferTail(c, s, ids);
    if ids != [] {
      var s1 := TryFill(c, s, ids[0]);
      FirstReducer(c, s, slot, ids);
      OfferTakesReducers(c, s1, slot, ids[1..]);
      DownToFlat(Held(s.account, slot), PendingOf(s.desk, ids[0], slot, Sell, false), Pending(s1.desk, ids[1..], slot, Sell, false));
    }
  }

  lemma {:induction false} PendingIsNotNegative(c: Config, s: State, slot: Slot, ids: seq<OrderId>)
    requires forall i :: 0 <= i < |ids| ==> FacesDeep(c, s, slot, ids[i])
    ensures Pending(s.desk, ids, slot, Sell, false) >= 0
    ensures ids != [] ==> PendingOf(s.desk, ids[0], slot, Sell, false) >= 0 && Pending(s.desk, ids[1..], slot, Sell, false) >= 0
    decreases |ids|
  {
    hide DepthFor, Stopped, Waiting;
    if ids != [] {
      assert FacesDeep(c, s, slot, ids[0]);
      PendingIsNotNegative(c, s, slot, ids[1..]);
    }
  }

  // ----- One bid -----

  /** The market shows one bid and nothing else. */
  predicate OneBid(m: MarketData, slot: Slot, price: int, size: int) {
    slot in m.books && size > 0 && m.books[slot] == BookState(map[price := size], map[], Fresh)
  }

  lemma OneLevel(price: int)
    ensures Ascending({price}) == [price] && Reversed([price]) == [price]
  {
    SameMembersSameSequence(Ascending({price}), [price]);
  }

  lemma ReachOfOne(price: int, size: int)
    ensures Reach(map[price := size], Sell) == [price]
  {
    var levels := map[price := size];
    assert levels.Keys == {price};
    OneLevel(price);
  }

  lemma DepthOfOne(price: int, size: int, limit: Option<int>)
    requires Acceptable(Sell, price, limit)
    ensures DepthWithin([price], map[price := size], Sell, limit) == size
  {
    assert [price][1..] == [];
    assert DepthWithin([], map[price := size], Sell, limit) == 0;
  }

  lemma OneBidDepth(c: Config, s: State, o: Order, price: int, size: int)
    requires OneBid(s.market, o.slot, price, size) && c.synthetic(s.market.books[o.slot], o).None?
    requires o.side.Sell? && Acceptable(Sell, price, o.LimitPrice())
    ensures DepthFor(c, s, o) == size
  {
    hide DepthWithin, Reach;
    ReachOfOne(price, size);
    DepthOfOne(price, size, o.LimitPrice());
  }

  lemma OneBidCrosses(m: MarketData, o: Order, price: int, size: int)
    requires OneBid(m, o.slot, price, size) && o.kind.Limit?
    ensures WouldCross(m, o) <==> o.side.Sell? && o.kind.limit <= price
  {
    var b := m.books[o.slot];
    assert price in b.bids;
    assert BestBid(b).Some? && BestBid(b).value in b.bids;
    assert BestAsk(b).None?;
  }

  /** A venue whose fill model matches against its own book. */
  ghost predicate OwnBook(c: Config) {
    c.preservesPrices && KeepsPrices(c) && forall b: BookState, o: Order :: c.synthetic(b, o).None?
  }

  /** What the continuation starts from and keeps. */
  ghost predicate Playable(c: Config, s: State, slot: Slot) {
    && OwnBook(c) && Coherent(s.desk) && s.fault.None? && BooksValid(s.market)
    && !Stopped(c, s.market, slot.instrument) && Ledger(Unbounded(), s.desk)
  }

  function Unbounded(): Bounds {
    Bounds(_ => None, _ => None, false, false)
  }

  /** Every resting sell of the slot is no larger than this. */
  predicate SellsFit(d: Desk, slot: Slot, size: int) {
    forall id :: id in d.resting && id in d.orders && d.orders[id].slot == slot && d.orders[id].side.Sell? ==>
      d.orders[id].Remaining() <= size
  }

  /** Against one large bid, the candidates are the sells within it, and each would be filled whole. */
  lemma OneBidCandidates(c: Config, s: State, slot: Slot, price: int, size: int)
    requires Playable(c, s, slot) && OneBid(s.market, slot, price, size) && SellsFit(s.desk, slot, size)
    ensures var ids := CrossingOf(s, Scan(s.desk, slot));
            && AllFacing(c, s, slot, ids)
            && MatchResting(c, s, slot, false) == Offer(c, s, ids)
  {
    hide Structure, Scan, CrossingOf, MatchResting, Offer, Candidates, BooksValid, DepthFor, Stopped, WouldCross, KeepsPrices, OneBid;
    var scan := Scan(s.desk, slot);
    var ids := CrossingOf(s, scan);
    BidIsThere(s.market, slot, price, size);
    ScanHolds(s.desk, slot);
    CrossingOfMembers(s, scan);
    AscendingHasNoDuplicates(ids);
    MatchIsOffer(c, s, slot);
    CandidatesAreTheCrossing(c, s, slot);
    forall i | 0 <= i < |ids| ensures FacesDeep(c, s, slot, ids[i]) {
      var id := ids[i];
      assert id in ids;
      RestingIsLimit(s.desk, id);
      OneBidCrosses(s.market, s.desk.orders[id], price, size);
      OneBidDepth(c, s, s.desk.orders[id], price, size);
    }
  }

  lemma BidIsThere(m: MarketData, slot: Slot, price: int, size: int)
    requires OneBid(m, slot, price, size)
    ensures slot in m.books && size > 0
  {
  }

  // ----- Sums over one list and another -----

  predicate SizesAreSane(d: Desk) {
    forall id :: id in d.orders ==> d.orders[id].filled <= d.orders[id].quantity
  }

  lemma {:induction false} PendingHas(d: Desk, ids: seq<OrderId>, id: OrderId, slot: Slot, skip: bool)
    requires SizesAreSane(d)
    ensures Pending(d, ids, slot, Sell, skip) >= 0
    ensures id in ids ==> Pending(d, ids, slot, Sell, skip) >= PendingOf(d, id, slot, Sell, skip)
    decreases |ids|
  {
    if ids != [] {
      assert ids == [ids[0]] + ids[1..];
      PendingHas(d, ids[1..], id, slot, skip);
    }
  }

  lemma {:induction false} PendingWithout(d: Desk, ids: seq<OrderId>, id: OrderId, slot: Slot, skip: bool)
    requires SizesAreSane(d) && id in ids
    ensures Pending(d, ids, slot, Sell, skip)
         >= PendingOf(d, id, slot, Sell, skip) + Pending(d, Without(ids, id), slot, Sell, skip)
    decreases |ids|
  {
    assert ids == [ids[0]] + ids[1..];
    if id in ids[1..] {
      PendingWithout(d, ids[1..], id, slot, skip);
    } else {
      NotThere(ids[1..], id);
    }
    if ids[0] != id {
      assert Without(ids, id)[1..] == Without(ids[1..], id);
    }
  }

  lemma {:induction false} NotThere(ids: seq<OrderId>, id: OrderId)
    requires id !in ids
    ensures Without(ids, id) == ids
    decreases |ids|
  {
    if ids != [] {
      assert ids == [ids[0]] + ids[1..];
      NotThere(ids[1..], id);
    }
  }

  /** A list that holds everything pending sums to at least as much. */
  lemma {:induction false} PendingWithin(d: Desk, a: seq<OrderId>, b: seq<OrderId>, slot: Slot, skip: bool)
    requires SizesAreSane(d) && NoDuplicates(a)
    requires forall i :: 0 <= i < |a| && PendingOf(d, a[i], slot, Sell, skip) != 0 ==> a[i] in b
    ensures Pending(d, a, slot, Sell, skip) <= Pending(d, b, slot, Sell, skip)
    decreases |a|
  {
    hide PendingOf, SizesAreSane;
    if a == [] {
      PendingHas(d, b, 0, slot, skip);
    } else {
      var x, rest := a[0], a[1..];
      var b' := if PendingOf(d, x, slot, Sell, skip) != 0 then Without(b, x) else b;
      if PendingOf(d, x, slot, Sell, skip) != 0 {
        PendingWithout(d, b, x, slot, skip);
      }
      WithoutProperties(b, x);
      forall i | 0 <= i < |rest| && PendingOf(d, rest[i], slot, Sell, skip) != 0 ensures rest[i] in b' {
        assert rest[i] == a[i + 1] && a[i + 1] != x;
      }
      assert NoDuplicates(rest) by {
        assert forall i :: 0 <= i < |rest| ==> rest[i] == a[i + 1];
      }
      PendingWithin(d, rest, b', slot, skip);
    }
  }

  /** Dropping orders out of reach loses nothing that is pending within reach. */
  lemma {:induction false} CrossingHoldsPending(s: State, ids: seq<OrderId>, slot: Slot, skip: bool)
    requires forall i :: 0 <= i < |ids| && PendingOf(s.desk, ids[i], slot, Sell, skip) != 0 ==>
               ids[i] in s.desk.orders && WouldCross(s.market, s.desk.orders[ids[i]])
    ensures Pending(s.desk, CrossingOf(s, ids), slot, Sell, skip) == Pending(s.desk, ids, slot, Sell, skip)
    decreases |ids|
  {
    hide WouldCross;
    if ids != [] {
      CrossingHoldsPending(s, ids[1..], slot, skip);
      if ids[0] in s.desk.orders && WouldCross(s.market, s.desk.orders[ids[0]]) {
        assert CrossingOf(s, ids)[1..] == CrossingOf(s, ids[1..]);
      }
    }
  }

  /** The orders within reach are exactly the reduce-only sells. */
  predicate OnlyReducersCross(s: State, ids: seq<OrderId>, slot: Slot) {
    forall i :: 0 <= i < |ids| ==>
      ids[i] in s.desk.orders &&
      var o := s.desk.orders[ids[i]];
      o.slot == slot && (WouldCross(s.market, o) <==> o.side.Sell? && o.reduceOnly)
  }

  lemma {:induction false} ReducersArePending(s: State, ids: seq<OrderId>, slot: Slot)
    requires OnlyReducersCross(s, ids, slot)
    ensures Pending(s.desk, CrossingOf(s, ids), slot, Sell, false)
         == Pending(s.desk, ids, slot, Sell, false) - Pending(s.desk, ids, slot, Sell, true)
    ensures AllReduceOnly(s.desk, CrossingOf(s, ids))
    decreases |ids|
  {
    hide WouldCross;
    if ids != [] {
      ReducersArePending(s, ids[1..], slot);
      if WouldCross(s.market, s.desk.orders[ids[0]]) {
        assert CrossingOf(s, ids)[1..] == CrossingOf(s, ids[1..]);
      }
    }
  }

  // ----- Two bids, two matches -----

  /** Sells rest, the plain ones at `top` and the reduce-only ones below it. */
  predicate Tiered(d: Desk, slot: Slot, top: int) {
    forall id :: id in d.resting && id in d.orders && d.orders[id].slot == slot && d.orders[id].side.Sell? ==>
      d.orders[id].kind.Limit?
      && (if d.orders[id].reduceOnly then d.orders[id].kind.limit < top else d.orders[id].kind.limit == top)
  }

  function FeedBid(slot: Slot, price: int, size: int): Op {
    Feed(slot, F.Snapshot([(price, size)], []))
  }

  lemma FedOneBid(c: Config, s: State, slot: Slot, price: int, size: int)
    requires Playable(c, s, slot) && size > 0
    ensures var s' := Step(c, s, FeedBid(slot, price, size));
            && Playable(c, s', slot) && OneBid(s'.market, slot, price, size)
            && s'.desk == s.desk && s'.account == s.account
  {
    hide Coherent, OwnBook, Ledger;
    SnapshotOfOne(price, size);
  }

  /** A size no resting sell of the slot exceeds. */
  lemma SizeThatFits(s: State, slot: Slot) returns (size: int)
    requires Coherent(s.desk) && Ledger(Unbounded(), s.desk)
    ensures size > 0 && SellsFit(s.desk, slot, size)
  {
    hide Structure, Scan, Pending;
    var ids := Scan(s.desk, slot);
    size := Pending(s.desk, ids, slot, Sell, false) + 1;
    LedgerIsSane(s.desk);
    ScanHolds(s.desk, slot);
    PendingHas(s.desk, ids, 0, slot, false);
    forall id | id in s.desk.resting && id in s.desk.orders && s.desk.orders[id].slot == slot && s.desk.orders[id].side.Sell?
      ensures s.desk.orders[id].Remaining() <= size
    {
      PendingHas(s.desk, ids, id, slot, false);
    }
  }

  lemma LedgerIsSane(d: Desk)
    requires Ledger(Unbounded(), d)
    ensures SizesAreSane(d)
  {
  }

  lemma GuardedUnbounded(s: State)
    requires Coherent(s.desk) && Ledger(Unbounded(), s.desk)
    ensures Guarded(Unbounded(), s)
  {
    hide Coherent, Ledger;
  }

  lemma MatchPlayable(c: Config, s: State, slot: Slot)
    requires Playable(c, s, slot) && slot in s.market.books
    ensures var s' := MatchResting(c, s, slot, false);
            && Playable(c, s', slot) && s'.market == s.market
  {
    hide Coherent, Ledger, OwnBook, BooksValid, Stopped, MatchResting;
    GuardedUnbounded(s);
    MatchGuarded(Unbounded(), c, s, slot, false);
    GuardedIsCoherent(Unbounded(), MatchResting(c, s, slot, false));
    MatchCoherent(c, s, slot, false);
    MatchBooks(c, s, slot, false);
  }

  /** The first bid: reduce-only sells use up the holding, down to flat. */
  lemma ReducersMatched(c: Config, s: State, slot: Slot, top: int, size: int)
    requires Playable(c, s, slot) && OneBid(s.market, slot, top - 1, size)
    requires SellsFit(s.desk, slot, size) && Tiered(s.desk, slot, top) && Held(s.account, slot) >= 0
    ensures var scan := Scan(s.desk, slot);
            Held(MatchResting(c, s, slot, false).account, slot)
              == Max(0, Held(s.account, slot)
                        - (Pending(s.desk, scan, slot, Sell, false) - Pending(s.desk, scan, slot, Sell, true)))
  {
    hide Structure, Scan, MatchResting, BooksValid, OwnBook, Stopped, WouldCross, AllFacing, Held, Pending, OneBid, Ledger;
    var scan := Scan(s.desk, slot);
    OneBidCandidates(c, s, slot, top - 1, size);
    ScanHolds(s.desk, slot);
    forall i | 0 <= i < |scan|
      ensures scan[i] in s.desk.orders
      ensures s.desk.orders[scan[i]].slot == slot
      ensures WouldCross(s.market, s.desk.orders[scan[i]]) <==> s.desk.orders[scan[i]].side.Sell? && s.desk.orders[scan[i]].reduceOnly
    {
      var id := scan[i];
      assert id in scan;
      RestingIsLimit(s.desk, id);
      OneBidCrosses(s.market, s.desk.orders[id], top - 1, size);
    }
    ReducersArePending(s, scan, slot);
    OfferTakesReducers(c, s, slot, CrossingOf(s, scan));
  }

  /** Nothing plain is filled by it, and nothing plain leaves the book. */
  lemma PlainWaits(c: Config, s: State, slot: Slot, top: int, size: int, id: OrderId)
    requires Playable(c, s, slot) && OneBid(s.market, slot, top - 1, size)
    requires SellsFit(s.desk, slot, size) && Tiered(s.desk, slot, top)
    requires id in s.desk.resting && id in s.desk.orders && s.desk.orders[id].slot == slot
    requires s.desk.orders[id].side.Sell? && !s.desk.orders[id].reduceOnly
    ensures var d' := MatchResting(c, s, slot, false).desk;
            id in d'.orders && d'.orders[id] == s.desk.orders[id] && id in d'.resting
  {
    hide Structure, Scan, MatchResting, Offer, BooksValid, OwnBook, Stopped, WouldCross, Ledger, OneBid, KeepsPrices, FacesDeep;
    var ids := CrossingOf(s, Scan(s.desk, slot));
    OneBidCandidates(c, s, slot, top - 1, size);
    ScanHolds(s.desk, slot);
    CrossingOfMembers(s, Scan(s.desk, slot));
    OneBidCrosses(s.market, s.desk.orders[id], top - 1, size);
    FacingAreOfferable(c, s, slot, ids);
    OfferLeavesOthers(c, s, ids, id);
    EngineLifecycle.MatchKept(c, s, slot, false, id);
  }

  lemma FacingAreOfferable(c: Config, s: State, slot: Slot, ids: seq<OrderId>)
    requires AllFacing(c, s, slot, ids)
    ensures AllOfferable(s.desk, ids)
  {
    hide Coherent, KeepsPrices, BooksValid, FacesDeep, Offerable;
    forall i | 0 <= i < |ids| ensures Offerable(s.desk, ids[i]) {
      FacingIsOffered(c, s, slot, ids[i]);
    }
  }

  /** After it, what is pending in plain sells is what was. */
  lemma PlainStaysPending(c: Config, s: State, slot: Slot, top: int, size: int)
    requires Playable(c, s, slot) && OneBid(s.market, slot, top - 1, size)
    requires SellsFit(s.desk, slot, size) && Tiered(s.desk, slot, top)
    ensures var d' := MatchResting(c, s, slot, false).desk;
            && Tiered(d', slot, top)
            && Pending(s.desk, Scan(s.desk, slot), slot, Sell, true) <= Pending(d', Scan(d', slot), slot, Sell, true)
  {
    hide Structure, Scan, MatchResting, BooksValid, OwnBook, Stopped, WouldCross, OneBid, Pending, PendingOf;
    var s' := MatchResting(c, s, slot, false);
    var scan, scan' := Scan(s.desk, slot), Scan(s'.desk, slot);
    BidIsThere(s.market, slot, top - 1, size);
    MatchPlayable(c, s, slot);
    ScanHolds(s.desk, slot);
    ScanHolds(s'.desk, slot);
    AscendingHasNoDuplicates(scan);
    forall i | 0 <= i < |scan|
      ensures PendingOf(s'.desk, scan[i], slot, Sell, true) == PendingOf(s.desk, scan[i], slot, Sell, true)
      ensures PendingOf(s'.desk, scan[i], slot, Sell, true) != 0 ==> scan[i] in scan'
    {
      var id := scan[i];
      assert id in scan;
      EngineLifecycle.MatchKept(c, s, slot, false, id);
      if s.desk.orders[id].side.Sell? && !s.desk.orders[id].reduceOnly {
        PlainWaits(c, s, slot, top, size, id);
        SameOrderSamePending(s.desk, s'.desk, id, slot);
      } else {
        NotPlainNotPending(s.desk, id, slot);
        NotPlainNotPending(s'.desk, id, slot);
      }
    }
    SamePendingEach(s.desk, s'.desk, scan, slot);
    LedgerIsSane(s'.desk);
    PendingWithin(s'.desk, scan, scan', slot, true);
    StillTiered(c, s, slot, top);
  }

  lemma SameOrderSamePending(d: Desk, d': Desk, id: OrderId, slot: Slot)
    requires id in d.orders && id in d'.orders && d'.orders[id] == d.orders[id]
    ensures PendingOf(d', id, slot, Sell, true) == PendingOf(d, id, slot, Sell, true)
  {
  }

  lemma NotPlainNotPending(d: Desk, id: OrderId, slot: Slot)
    requires id in d.orders && (d.orders[id].side.Buy? || d.orders[id].reduceOnly)
    ensures PendingOf(d, id, slot, Sell, true) == 0
  {
  }

  lemma {:induction false} SamePendingEach(d: Desk, d': Desk, ids: seq<OrderId>, slot: Slot)
    requires forall i :: 0 <= i < |ids| ==> PendingOf(d', ids[i], slot, Sell, true) == PendingOf(d, ids[i], slot, Sell, true)
    ensures Pending(d', ids, slot, Sell, true) == Pending(d, ids, slot, Sell, true)
    decreases |ids|
  {
    hide PendingOf;
    if ids != [] {
      SamePendingEach(d, d', ids[1..], slot);
    }
  }

  /** Whatever rests after a match rested before it, at the same price. */
  lemma StillTiered(c: Config, s: State, slot: Slot, top: int)
    requires Playable(c, s, slot) && Tiered(s.desk, slot, top)
    ensures Tiered(MatchResting(c, s, slot, false).desk, slot, top)
  {
    hide Structure, BooksValid, OwnBook, Stopped, MatchResting, Ledger;
    var d' := MatchResting(c, s, slot, false).desk;
    forall id | id in d'.resting && id in d'.orders && d'.orders[id].slot == slot && d'.orders[id].side.Sell?
      ensures d'.orders[id].kind.Limit?
      ensures if d'.orders[id].reduceOnly then d'.orders[id].kind.limit < top else d'.orders[id].kind.limit == top
    {
      MatchRestsNothingNew(c, s, slot, id);
      EngineLifecycle.MatchKept(c, s, slot, false, id);
    }
  }

  lemma MatchRestsNothingNew(c: Config, s: State, slot: Slot, id: OrderId)
    requires Coherent(s.desk) && s.fault.None? && id in MatchResting(c, s, slot, false).desk.resting
    ensures id in s.desk.resting && id in s.desk.orders
  {
    hide Coherent, Candidates, Offer, Pruned, AllResting, AllOfferable;
    if slot in s.market.books {
      var ids := Candidates(c, s, slot, false);
      CandidatesAreResting(c, s, slot, false);
      RestingIsOfferable(s.desk, ids);
      MatchIsOffer(c, s, slot);
      OfferRestsNothingNew(c, s, ids, id);
    }
    RestingIsKnown(s.desk, id);
  }

  lemma RestingIsKnown(d: Desk, id: OrderId)
    requires Coherent(d)
    ensures id in d.resting ==> id in d.orders
  {
  }

  lemma {:induction false} OfferRestsNothingNew(c: Config, s: State, ids: seq<OrderId>, id: OrderId)
    requires AllResting(s.desk, ids) && Coherent(s.desk) && s.fault.None? && AllOfferable(s.desk, ids)
    requires id in Offer(c, s, ids).desk.resting
    ensures id in s.desk.resting
    decreases |ids|
  {
    hide Structure, TryFill;
    if ids != [] {
      if id in ids {
        var k :| 0 <= k < |ids| && ids[k] == id;
      } else if id !in s.desk.resting {
        OfferGrowsOnlyByItsOwn(c, s, ids, id);
      }
    }
  }

  /** An order that does not rest and is not offered does not come to rest. */
  lemma {:induction false} OfferGrowsOnlyByItsOwn(c: Config, s: State, ids: seq<OrderId>, id: OrderId)
    requires Coherent(s.desk) && s.fault.None? && AllOfferable(s.desk, ids) && id !in s.desk.resting && id !in ids
    ensures id !in Offer(c, s, ids).desk.resting
    decreases |ids|
  {
    hide Structure, TryFill;
    if ids != [] {
      var s1 := TryFill(c, s, ids[0]);
      assert Offerable(s.desk, ids[0]) && ids[0] in ids;
      TryFillCoherent(c, s, ids[0]);
      TryFillRestsOnlyItsOwn(c, s, ids[0], id);
      forall i | 0 <= i < |ids[1..]| ensures Offerable(s1.desk, ids[1..][i]) {
        assert Offerable(s.desk, ids[i + 1]);
      }
      OfferGrowsOnlyByItsOwn(c, s1, ids[1..], id);
    }
  }

  lemma TryFillRestsOnlyItsOwn(c: Config, s: State, x: OrderId, id: OrderId)
    requires Coherent(s.desk) && s.fault.None? && id !in s.desk.resting && id != x
    ensures id !in TryFill(c, s, x).desk.resting
  {
    hide ExecuteAll, Walk, Wanted, EffectiveBook, Stopped, RestingIndex.Insert, RestingIndex.Remove, DisplayedAt, Coherent;
    EngineLifecycle.OffBookUnlessOpen(s.desk, x);
    WithoutProperties(s.desk.resting, x);
    if x in s.desk.orders && s.desk.orders[x].slot in s.market.books {
      var o := s.desk.orders[x];
      var w := Walk(EffectiveBook(c, s.market, o), o.side, Wanted(s.account, o), o.LimitPrice());
      ExecuteAllRests(c, s, x, w.fills, !o.postOnly, id);
      var s1 := ExecuteAll(c, s, x, w.fills, !o.postOnly);
      WithoutProperties(s1.desk.resting, x);
    }
  }

  lemma {:induction false} ExecuteAllRests(c: Config, s: State, x: OrderId, fills: seq<(int, int)>, taker: bool, id: OrderId)
    requires id !in s.desk.resting && (x in s.desk.orders ==> s.desk.orders[x].id == x)
    ensures var s' := ExecuteAll(c, s, x, fills, taker);
            id !in s'.desk.resting && (x in s'.desk.orders ==> s'.desk.orders[x].id == x)
    decreases |fills|
  {
    hide AfterFill, RestingIndex.Remove;
    if !(fills == [] || s.fault.Some? || x !in s.desk.orders) {
      WithoutProperties(s.desk.resting, x);
      ExecuteAllRests(c, Execute(c, s, x, fills[0].0, fills[0].1, taker), x, fills[1..], taker, id);
    }
  }

  /** The second bid: at least every plain sell is filled whole. */
  lemma PlainMatched(c: Config, s: State, slot: Slot, top: int, size: int)
    requires Playable(c, s, slot) && OneBid(s.market, slot, top, size)
    requires SellsFit(s.desk, slot, size) && Tiered(s.desk, slot, top)
    ensures Held(MatchResting(c, s, slot, false).account, slot)
         <= Held(s.account, slot) - Pending(s.desk, Scan(s.desk, slot), slot, Sell, true)
  {
    hide Structure, Scan, MatchResting, BooksValid, OwnBook, Stopped, WouldCross, AllFacing, Held, Pending, OneBid, Ledger;
    var scan := Scan(s.desk, slot);
    OneBidCandidates(c, s, slot, top, size);
    ScanHolds(s.desk, slot);
    forall i | 0 <= i < |scan| && PendingOf(s.desk, scan[i], slot, Sell, true) != 0
      ensures scan[i] in s.desk.orders && WouldCross(s.market, s.desk.orders[scan[i]])
    {
      var id := scan[i];
      assert id in scan;
      RestingIsLimit(s.desk, id);
      OneBidCrosses(s.market, s.desk.orders[id], top, size);
    }
    CrossingHoldsPending(s, scan, slot, true);
    OfferTakesPlain(c, s, slot, CrossingOf(s, scan));
  }

  // ----- Continuations -----

  lemma {:induction false} RunFromAppend(c: Config, s: State, a: seq<Op>, b: seq<Op>)
    ensures RunFrom(c, RunFrom(c, s, a), b) == RunFrom(c, s, a + b)
    decreases |b|
  {
    hide Step;
    if b == [] {
      assert a + b == a;
    } else {
      var n := |b| - 1;
      assert (a + b)[..|a + b| - 1] == a + b[..n] && (a + b)[|a + b| - 1] == b[n];
      RunFromAppend(c, s, a, b[..n]);
    }
  }

  lemma RunFromOne(c: Config, s: State, op: Op)
    ensures RunFrom(c, s, [op]) == Step(c, s, op)
  {
    hide Step;
    assert [op][..0] == [];
    assert RunFrom(c, s, []) == s;
  }

  lemma RunFromTwo(c: Config, s: State, a: Op, b: Op)
    ensures RunFrom(c, s, [a, b]) == Step(c, Step(c, s, a), b)
  {
    hide Step, RunFrom;
    RunFromOne(c, s, a);
    RunFromOne(c, Step(c, s, a), b);
    RunFromAppend(c, s, [a], [b]);
    assert [a] + [b] == [a, b];
  }

  /** Steps that are ordinary whatever the state: the feed, matching, and repricing. */
  predicate AlwaysOrdinary(op: Op) {
    op.Feed? || op.Match? || (op.Amend? && op.newQuantity.None?)
  }

  predicate AllAlwaysOrdinary(ops: seq<Op>) {
    forall i :: 0 <= i < |ops| ==> AlwaysOrdinary(ops[i])
  }

  /** One bid below the plain sells, then one that reaches them. */
  function TwoBids(slot: Slot, top: int, first: int, second: int): seq<Op> {
    [FeedBid(slot, top - 1, first), Match(slot, false)] + [FeedBid(slot, top, second), Match(slot, false)]
  }

  lemma StepMatches(c: Config, s: State, slot: Slot)
    requires s.fault.None?
    ensures Step(c, s, Match(slot, false)) == MatchResting(c, s, slot, false)
  {
    hide MatchResting;
  }

  lemma BidThenMatch(c: Config, s: State, slot: Slot, price: int, size: int)
    requires Playable(c, s, slot) && size > 0
    ensures var s1 := Step(c, s, FeedBid(slot, price, size));
            && RunFrom(c, s, [FeedBid(slot, price, size), Match(slot, false)]) == MatchResting(c, s1, slot, false)
            && Playable(c, s1, slot) && OneBid(s1.market, slot, price, size)
            && s1.desk == s.desk && s1.account == s.account
  {
    hide Step, RunFrom, Coherent, OwnBook, BooksValid, Stopped, Ledger, OneBid, MatchResting, FeedBid;
    FedOneBid(c, s, slot, price, size);
    RunFromTwo(c, s, FeedBid(slot, price, size), Match(slot, false));
    StepMatches(c, Step(c, s, FeedBid(slot, price, size)), slot);
  }

  /** More is open to sell than is held, and some of it is plain. */
  predicate Oversold(s: State, slot: Slot) {
    Open(s.desk, slot, Sell) > Held(s.account, slot) && PlainSellOpen(s.desk, slot)
  }

  /** Every open sell of the slot rests on the book. */
  predicate SellsRest(d: Desk, slot: Slot) {
    forall id :: id in d.orders && d.orders[id].IsOpen() && d.orders[id].slot == slot && d.orders[id].side.Sell? ==> id in d.resting
  }

  /** The pending total over the live list is found on the book. */
  lemma OpenIsOnTheBook(s: State, slot: Slot)
    requires Coherent(s.desk) && Ledger(Unbounded(), s.desk) && SellsRest(s.desk, slot)
    ensures Open(s.desk, slot, Sell) <= Pending(s.desk, Scan(s.desk, slot), slot, Sell, false)
    ensures PlainSellOpen(s.desk, slot) ==> Pending(s.desk, Scan(s.desk, slot), slot, Sell, true) > 0
  {
    hide Structure, Scan, Pending;
    var scan := Scan(s.desk, slot);
    ScanHolds(s.desk, slot);
    LedgerIsSane(s.desk);
    forall i | 0 <= i < |s.desk.live| && PendingOf(s.desk, s.desk.live[i], slot, Sell, false) != 0
      ensures s.desk.live[i] in scan
    {
    }
    PendingWithin(s.desk, s.desk.live, scan, slot, false);
    if PlainSellOpen(s.desk, slot) {
      var id :| id in s.desk.orders && IsPlainSell(s.desk.orders[id], slot);
      PendingHas(s.desk, scan, id, slot, true);
    }
  }

  /** With the plain sells out of the way, two bids take the position short. */
  lemma TwoBidsGoShort(c: Config, s: State, slot: Slot, top: int) returns (first: int, second: int)
    requires Playable(c, s, slot) && Tiered(s.desk, slot, top) && SellsRest(s.desk, slot)
    requires Held(s.account, slot) >= 0 && Oversold(s, slot)
    ensures Held(RunFrom(c, s, TwoBids(slot, top, first, second)).account, slot) < 0
  {
    hide Coherent, OwnBook, BooksValid, Stopped, Ledger, OneBid, MatchResting, Step, RunFrom, Scan, Pending, Held, Open, PlainSellOpen,
         Tiered, SellsFit, SellsRest, FeedBid;
    OpenIsOnTheBook(s, slot);
    first := SizeThatFits(s, slot);
    var s1 := Step(c, s, FeedBid(slot, top - 1, first));
    BidThenMatch(c, s, slot, top - 1, first);
    ReducersMatched(c, s1, slot, top, first);
    PlainStaysPending(c, s1, slot, top, first);
    var s2 := MatchResting(c, s1, slot, false);
    BidIsThere(s1.market, slot, top - 1, first);
    MatchPlayable(c, s1, slot);
    second := SizeThatFits(s2, slot);
    var s3 := Step(c, s2, FeedBid(slot, top, second));
    BidThenMatch(c, s2, slot, top, second);
    PlainMatched(c, s3, slot, top, second);
    RunFromAppend(c, s, [FeedBid(slot, top - 1, first), Match(slot, false)], [FeedBid(slot, top, second), Match(slot, false)]);
  }

  // ----- Moving the plain sells up -----

  function Reprices(ids: seq<OrderId>, top: int): seq<Op> {
    seq(|ids|, i requires 0 <= i < |ids| => Amend(ids[i], None, Some(top)))
  }

  /** What repricing leaves alone. */
  ghost predicate RepricedOnly(s: State, s': State) {
    && s'.market == s.market && s'.account == s.account && s'.fault.None?
    && s'.desk.resting == s.desk.resting && s'.desk.live == s.desk.live
    && s'.desk.orders.Keys == s.desk.orders.Keys
    && (forall id :: id in s.desk.orders ==> s'.desk.orders[id] == s.desk.orders[id].(kind := s'.desk.orders[id].kind))
  }

  lemma RepriceOne(c: Config, s: State, id: OrderId, top: int)
    requires Coherent(s.desk) && s.fault.None? && id in s.desk.resting && id in s.desk.orders
    requires c.validPrice(s.desk.orders[id].slot.instrument, top)
    ensures var s' := Step(c, s, Amend(id, None, Some(top)));
            && Coherent(s'.desk) && RepricedOnly(s, s')
            && s'.desk.orders[id].kind == Limit(top)
            && (forall j :: j in s.desk.orders && j != id ==> s'.desk.orders[j] == s.desk.orders[j])
  {
    hide Structure, Requeued;
    assert StillOpen(s.desk, id);
    EngineLifecycle.OffBookUnlessOpen(s.desk, id);
    AmendedLimit(c, s, id, None, top);
    AmendedCoherent(c, s, id, None, Some(top));
    RepriceLive(c, s.market, s.desk, id, AmendedOrder(s.desk.orders[id], None, Some(top)).(id := id));
  }

  lemma RepriceLive(c: Config, m: MarketData, d: Desk, id: OrderId, o': Order)
    requires id in d.orders && o'.id == id
    ensures Requeued(c, m, d, id, o').live == d.live
  {
    hide RestingIndex.Insert, RestingIndex.Remove, DisplayedAt;
  }

  lemma {:induction false} RepriceAll(c: Config, s: State, ids: seq<OrderId>, slot: Slot, top: int)
    requires Coherent(s.desk) && s.fault.None? && c.validPrice(slot.instrument, top)
    requires forall i :: 0 <= i < |ids| ==> ids[i] in s.desk.resting && ids[i] in s.desk.orders && s.desk.orders[ids[i]].slot == slot
    ensures var s' := RunFrom(c, s, Reprices(ids, top));
            && Coherent(s'.desk) && RepricedOnly(s, s')
            && (forall id :: id in s.desk.orders ==>
                  s'.desk.orders[id].kind == if id in ids then Limit(top) else s.desk.orders[id].kind)
    decreases |ids|
  {
    hide Step, Coherent;
    var ops := Reprices(ids, top);
    if ids == [] {
      assert RunFrom(c, s, []) == s;
    } else {
      var n := |ids| - 1;
      var front := ids[..n];
      assert ops[..n] == Reprices(front, top) && ops[n] == Amend(ids[n], None, Some(top));
      assert ids == front + [ids[n]];
      RepriceAll(c, s, front, slot, top);
      var s1 := RunFrom(c, s, Reprices(front, top));
      assert s1.desk.orders[ids[n]].slot == slot;
      RepriceOne(c, s1, ids[n], top);
    }
  }

  /** The sells of a list that are not reduce-only. */
  function PlainOf(d: Desk, ids: seq<OrderId>): seq<OrderId> {
    if ids == [] then []
    else
      var rest := PlainOf(d, ids[1..]);
      if ids[0] in d.orders && d.orders[ids[0]].side.Sell? && !d.orders[ids[0]].reduceOnly then [ids[0]] + rest else rest
  }

  lemma {:induction false} PlainOfMembers(d: Desk, ids: seq<OrderId>)
    ensures forall x :: x in PlainOf(d, ids) <==> x in ids && x in d.orders && d.orders[x].side.Sell? && !d.orders[x].reduceOnly
    ensures forall i :: 0 <= i < |PlainOf(d, ids)| ==> PlainOf(d, ids)[i] in ids
    decreases |ids|
  {
    if ids != [] {
      PlainOfMembers(d, ids[1..]);
      assert ids == [ids[0]] + ids[1..];
    }
  }

  /** Every resting sell of the slot asks less than this. */
  predicate AsksBelow(d: Desk, slot: Slot, top: int) {
    forall id :: id in d.resting && id in d.orders && d.orders[id].slot == slot && d.orders[id].side.Sell? ==>
      d.orders[id].kind.Limit? && d.orders[id].kind.limit < top
  }

  lemma RepricedIsTiered(c: Config, s: State, slot: Slot, top: int)
    requires Playable(c, s, slot) && c.validPrice(slot.instrument, top) && AsksBelow(s.desk, slot, top)
    requires SellsRest(s.desk, slot) && Oversold(s, slot)
    ensures var ops := Reprices(PlainOf(s.desk, Scan(s.desk, slot)), top);
            var s' := RunFrom(c, s, ops);
            && Playable(c, s', slot) && Tiered(s'.desk, slot, top) && SellsRest(s'.desk, slot)
            && s'.account == s.account && Oversold(s', slot)
  {
    hide Coherent, Scan, OwnBook, BooksValid, Stopped, RunFrom, Pending, PlainOf, Reprices, Held;
    var scan := Scan(s.desk, slot);
    var ids := PlainOf(s.desk, scan);
    CoherentStructure(s.desk);
    ScanHolds(s.desk, slot);
    PlainOfMembers(s.desk, scan);
    forall i | 0 <= i < |ids| ensures ids[i] in s.desk.resting && ids[i] in s.desk.orders && s.desk.orders[ids[i]].slot == slot {
      assert ids[i] in scan;
    }
    RepriceAll(c, s, ids, slot, top);
    var s' := RunFrom(c, s, Reprices(ids, top));
    RepricedLedger(s, s');
    RepricedOpen(s, s', slot);
  }

  lemma CoherentStructure(d: Desk)
    requires Coherent(d)
    ensures Structure(d)
  {
  }

  lemma RepricedLedger(s: State, s': State)
    requires Ledger(Unbounded(), s.desk) && RepricedOnly(s, s')
    ensures Ledger(Unbounded(), s'.desk)
  {
  }

  lemma RepricedOpen(s: State, s': State, slot: Slot)
    requires RepricedOnly(s, s')
    ensures Open(s'.desk, slot, Sell) == Open(s.desk, slot, Sell)
    ensures PlainSellOpen(s.desk, slot) ==> PlainSellOpen(s'.desk, slot)
    ensures SellsRest(s.desk, slot) ==> SellsRest(s'.desk, slot)
  {
    forall i | 0 <= i < |s.desk.live| ensures SameSize(s.desk, s'.desk, s.desk.live[i]) {
    }
    PendingSame(s.desk, s'.desk, s.desk.live, slot, Sell, false);
    if PlainSellOpen(s.desk, slot) {
      var id :| id in s.desk.orders && IsPlainSell(s.desk.orders[id], slot);
      assert IsPlainSell(s'.desk.orders[id], slot);
    }
  }

  // ----- The exact condition -----

  /** Every step is an ordinary one, and none sends an order. */
  predicate QuietFrom(c: Config, s: State, ops: seq<Op>) {
    ops == [] ||
    (QuietFrom(c, s, ops[..|ops| - 1])
     && !ops[|ops| - 1].Submit? && Ordinary(RunFrom(c, s, ops[..|ops| - 1]), ops[|ops| - 1]))
  }

  ghost predicate CanGoShort(c: Config, s: State, slot: Slot) {
    exists ops :: QuietFrom(c, s, ops) && Held(RunFrom(c, s, ops).account, slot) < 0
  }

  lemma {:induction false} AlwaysOrdinaryIsQuiet(c: Config, s: State, ops: seq<Op>)
    requires AllAlwaysOrdinary(ops)
    ensures QuietFrom(c, s, ops)
    decreases |ops|
  {
    hide RunFrom;
    if ops != [] {
      AlwaysOrdinaryIsQuiet(c, s, ops[..|ops| - 1]);
      assert AlwaysOrdinary(ops[|ops| - 1]);
    }
  }

  lemma OversoldGoesShort(c: Config, s: State, slot: Slot, top: int)
    requires Playable(c, s, slot) && c.validPrice(slot.instrument, top) && AsksBelow(s.desk, slot, top)
    requires SellsRest(s.desk, slot) && Oversold(s, slot) && Held(s.account, slot) >= 0
    ensures CanGoShort(c, s, slot)
  {
    hide Playable, AsksBelow, SellsRest, Oversold, Tiered, RunFrom, Held, Scan, PlainOf, QuietFrom;
    var reprices := Reprices(PlainOf(s.desk, Scan(s.desk, slot)), top);
    RepricedIsTiered(c, s, slot, top);
    var s1 := RunFrom(c, s, reprices);
    var first, second := TwoBidsGoShort(c, s1, slot, top);
    RunFromAppend(c, s, reprices, TwoBids(slot, top, first, second));
    AlwaysOrdinaryIsQuiet(c, s, reprices + TwoBids(slot, top, first, second));
  }

  /** Only this slot, and only below flat. */
  function OnlyFlat(slot: Slot, clamped: bool): Bounds {
    Bounds(_ => None, x => if x == slot then Some(0) else None, clamped, false)
  }

  lemma {:induction false} QuietKeepsGuard(c: Config, s: State, slot: Slot, ops: seq<Op>)
    requires Guarded(OnlyFlat(slot, !c.usesQueue), s) && QuietFrom(c, s, ops)
    ensures Guarded(OnlyFlat(slot, !c.usesQueue), RunFrom(c, s, ops))
    decreases |ops|
  {
    hide Guarded, Step, Ordinary;
    if ops != [] {
      var n := |ops| - 1;
      var s1 := RunFrom(c, s, ops[..n]);
      QuietKeepsGuard(c, s, slot, ops[..n]);
      FaultStops(c, s1, ops[n]);
      if s1.fault.None? {
        StepGuarded(OnlyFlat(slot, !c.usesQueue), c, s1, ops[n]);
      }
    }
  }

  lemma FlatIsNotShort(s: State, slot: Slot, clamped: bool)
    requires Guarded(OnlyFlat(slot, clamped), s)
    ensures Held(s.account, slot) >= 0
  {
    hide Coherent, PlainSellOpen, Pending;
    assert WithinAt(OnlyFlat(slot, clamped), s, slot);
    OpenIsNotNegative(OnlyFlat(slot, clamped), s.desk, s.desk.live, slot, Sell);
  }

  lemma CoveredIsGuarded(s: State, slot: Slot, clamped: bool)
    requires Coherent(s.desk) && Ledger(Unbounded(), s.desk) && Held(s.account, slot) >= 0
    requires if clamped then !Oversold(s, slot) else Open(s.desk, slot, Sell) <= Held(s.account, slot)
    ensures Guarded(OnlyFlat(slot, clamped), s)
  {
    hide Coherent, PlainSellOpen, Pending;
    forall x ensures WithinAt(OnlyFlat(slot, clamped), s, x) {
    }
  }

  lemma {:induction false} OrdinaryRunIsPlayable(c: Config, ops: seq<Op>)
    requires OrdinaryRun(c, ops)
    ensures Guarded(Unbounded(), Run(c, ops))
    decreases |ops|
  {
    hide Run, OrdinaryRun;
    StartsWithin(Unbounded(), c);
    UnboundedAdmits(c, ops);
    RunGuarded(Unbounded(), c, ops);
  }

  lemma {:induction false} UnboundedAdmits(c: Config, ops: seq<Op>)
    ensures AdmittedRun(Unbounded(), c, ops)
    decreases |ops|
  {
    hide Run, Guarded;
    if ops != [] {
      UnboundedAdmits(c, ops[..|ops| - 1]);
    }
  }

  /**
   Exactly when a position can be taken short without another order being sent.  After any run of
   ordinary steps, with all the slot's open sells resting, no print filling orders, and a price
   left above them to quote: some continuation of ordinary steps goes short if and only if the
   position is short already, or more is open to sell, reduce-only included, than is held and some
   of it is plain.
   */
  lemma GoesShortExactlyWhenOversold(c: Config, before: seq<Op>, slot: Slot, top: int)
    requires OwnBook(c) && !c.usesQueue && OrdinaryRun(c, before)
    requires var s := Run(c, before);
             && s.fault.None? && !Stopped(c, s.market, slot.instrument)
             && SellsRest(s.desk, slot) && AsksBelow(s.desk, slot, top) && c.validPrice(slot.instrument, top)
    ensures var s := Run(c, before);
            CanGoShort(c, s, slot) <==> Held(s.account, slot) < 0 || Oversold(s, slot)
  {
    hide Run, OrdinaryRun, Coherent, Ledger, OwnBook, BooksValid, Stopped, SellsRest, AsksBelow, Held, Oversold, QuietFrom, Within;
    var s := Run(c, before);
    OrdinaryRunIsPlayable(c, before);
    RunKeepsBooks(c, before);
    if Held(s.account, slot) < 0 {
      NothingMore(c, s, slot);
    } else if Oversold(s, slot) {
      OversoldGoesShort(c, s, slot, top);
    } else {
      CoveredIsGuarded(s, slot, true);
      GuardedNeverGoesShort(c, s, slot);
    }
  }

  lemma GuardedNeverGoesShort(c: Config, s: State, slot: Slot)
    requires Guarded(OnlyFlat(slot, !c.usesQueue), s)
    ensures !CanGoShort(c, s, slot)
  {
    hide Guarded, QuietFrom, RunFrom, Held;
    forall ops | QuietFrom(c, s, ops) ensures Held(RunFrom(c, s, ops).account, slot) >= 0 {
      QuietKeepsGuard(c, s, slot, ops);
      FlatIsNotShort(RunFrom(c, s, ops), slot, !c.usesQueue);
    }
  }

  lemma NothingMore(c: Config, s: State, slot: Slot)
    requires Held(s.account, slot) < 0
    ensures CanGoShort(c, s, slot)
  {
    hide Held;
    assert QuietFrom(c, s, []) && RunFrom(c, s, []) == s;
  }

  // ----- With prints -----

  function Ids(eligible: seq<(int, OrderId)>): seq<OrderId> {
    seq(|eligible|, i requires 0 <= i < |eligible| => eligible[i].1)
  }

  /** Every reached order sells in this slot. */
  predicate AllSell(d: Desk, eligible: seq<(int, OrderId)>, slot: Slot) {
    forall i :: 0 <= i < |eligible| ==>
      eligible[i].1 in d.orders && d.orders[eligible[i].1].slot == slot && d.orders[eligible[i].1].side.Sell?
  }

  lemma RoomIsPending(s: State, id: OrderId, slot: Slot)
    requires SizesAreSane(s.desk) && Reachable(s.desk, id)
    requires s.desk.orders[id].slot == slot && s.desk.orders[id].side.Sell?
    ensures PendingOf(s.desk, id, slot, Sell, false) == Room(s, id)
  {
  }

  /** Enough volume to clear the queue and the order fills the order whole, clamped or not. */
  lemma PrintTakesRoom(c: Config, s: State, limit: int, id: OrderId, volume: int, slot: Slot)
    requires Reachable(s.desk, id) && s.fault.None? && volume >= Ahead(s, id) + Room(s, id)
    requires s.desk.orders[id].slot == slot && s.desk.orders[id].side.Sell?
    ensures Held(ConsumeOne(c, s, limit, id, volume).state.account, slot) == Held(s.account, slot) - Room(s, id)
  {
    hide BookFill, Held;
    var eaten := Eaten(s, id, volume);
    var s1 := SetAhead(s, id, ValueOr(s.desk.queueAhead, id, 0) - eaten);
    var fill := Min(volume - eaten, WantedBy(s1.desk, id));
    if fill > 0 {
      var o := s1.desk.orders[id];
      var fee := c.fee(s1.account.fills, o.(id := id), limit, fill, false);
      BookFillDesk(c, s1, id, limit, fill, fee, false);
      HeldAfterFill(c, s1.account, Fill(id, o.slot, o.side, limit, fill, fee, false), slot);
    }
  }

  /** One reached sell, and what it leaves to the rest. */
  lemma FirstReached(c: Config, s: State, slot: Slot, eligible: seq<(int, OrderId)>, volume: int)
    requires Printable(s, eligible) && AllSell(s.desk, eligible, slot) && SizesAreSane(s.desk) && eligible != []
    requires volume > DepthBefore(s, eligible, |eligible|)
    ensures var one := ConsumeOne(c, s, eligible[0].0, eligible[0].1, volume);
            && Printable(one.state, eligible[1..]) && AllSell(one.state.desk, eligible[1..], slot)
            && one.left > DepthBefore(one.state, eligible[1..], |eligible| - 1)
            && Held(one.state.account, slot) == Held(s.account, slot) - PendingOf(s.desk, eligible[0].1, slot, Sell, false)
            && Pending(s.desk, Ids(eligible), slot, Sell, false)
                 == Pending(one.state.desk, Ids(eligible[1..]), slot, Sell, false) + PendingOf(s.desk, eligible[0].1, slot, Sell, false)
  {
    hide Coherent, ConsumeOne, Ahead, Room, Held, Pending, PendingOf, SizesAreSane;
    var first := eligible[0].1;
    assert Reachable(s.desk, first);
    var one := ConsumeOne(c, s, eligible[0].0, first, volume);
    PrintableTail(c, s, eligible, volume);
    ConsumeOneShares(c, s, eligible[0].0, first, volume);
    SameDepth(s, one.state, eligible[1..], |eligible| - 1);
    DepthSplits(s, eligible);
    PrintTakesRoom(c, s, eligible[0].0, first, volume, slot);
    RoomIsPending(s, first, slot);
    assert Ids(eligible)[1..] == Ids(eligible[1..]) && Ids(eligible)[0] == first;
    SellTail(s.desk, one.state.desk, eligible, slot);
    PendingTail(s.desk, one.state.desk, Ids(eligible), slot, false);
  }

  lemma DepthSplits(s: State, eligible: seq<(int, OrderId)>)
    requires eligible != []
    ensures DepthBefore(s, eligible, |eligible|)
         == Ahead(s, eligible[0].1) + Room(s, eligible[0].1) + DepthBefore(s, eligible[1..], |eligible| - 1)
  {
    hide Ahead, Room;
  }

  lemma SellTail(d: Desk, d': Desk, eligible: seq<(int, OrderId)>, slot: Slot)
    requires eligible != [] && AllSell(d, eligible, slot)
    requires forall k :: 0 <= k < |eligible| - 1 ==> SamePlace(d, d', eligible[1..][k].1)
    ensures AllSell(d', eligible[1..], slot)
    ensures forall i :: 0 <= i < |Ids(eligible)[1..]| ==>
              var id := Ids(eligible)[1..][i];
              id in d'.orders && id in d.orders && d'.orders[id] == d.orders[id]
  {
    forall i | 0 <= i < |eligible| - 1
      ensures eligible[1..][i].1 in d.orders && eligible[1..][i].1 in d'.orders
      ensures d'.orders[eligible[1..][i].1] == d.orders[eligible[1..][i].1]
    {
      assert eligible[1..][i] == eligible[i + 1];
    }
  }

  lemma {:induction false} PrintTakesAll(c: Config, s: State, slot: Slot, eligible: seq<(int, OrderId)>, volume: int)
    requires Printable(s, eligible) && AllSell(s.desk, eligible, slot) && Ledger(Unbounded(), s.desk)
    requires volume > DepthBefore(s, eligible, |eligible|)
    ensures Held(Consume(c, s, eligible, volume).state.account, slot)
         == Held(s.account, slot) - Pending(s.desk, Ids(eligible), slot, Sell, false)
    decreases |eligible|
  {
    hide Coherent, ConsumeOne, Held, PendingOf, AllSell, DistinctIds, AllReachable, Ledger, SizesAreSane;
    LedgerIsSane(s.desk);
    if eligible == [] {
      NothingPending(s.desk, slot);
    } else {
      var one := ConsumeOne(c, s, eligible[0].0, eligible[0].1, volume);
      FirstReached(c, s, slot, eligible, volume);
      PrintKeepsLedger(c, s, eligible, volume);
      PrintTakesAll(c, one.state, slot, eligible[1..], one.left);
    }
  }

  lemma NothingPending(d: Desk, slot: Slot)
    ensures Pending(d, Ids([]), slot, Sell, false) == 0
  {
  }

  lemma PrintKeepsLedger(c: Config, s: State, eligible: seq<(int, OrderId)>, volume: int)
    requires Printable(s, eligible) && eligible != [] && Ledger(Unbounded(), s.desk)
    ensures Ledger(Unbounded(), ConsumeOne(c, s, eligible[0].0, eligible[0].1, volume).state.desk)
  {
    hide Coherent, ConsumeOne, Ledger, Guarded;
    GuardedUnbounded(s);
    assert Reachable(s.desk, eligible[0].1);
    ConsumeOneGuarded(Unbounded(), c, s, eligible[0].0, eligible[0].1, volume);
    GuardedIsCoherent(Unbounded(), ConsumeOne(c, s, eligible[0].0, eligible[0].1, volume).state);
  }

  /** The reached list holds every open sell of the slot. */
  lemma ReachedHoldsOpen(s: State, slot: Slot, top: int)
    requires Coherent(s.desk) && Ledger(Unbounded(), s.desk) && SellsRest(s.desk, slot) && AsksBelow(s.desk, slot, top)
    ensures var eligible := ReachedByTrade(s.desk.index, slot, Sell, top);
            && AllSell(s.desk, eligible, slot)
            && Open(s.desk, slot, Sell) <= Pending(s.desk, Ids(eligible), slot, Sell, false)
  {
    hide Structure, ReachedByTrade, Pending;
    var eligible := ReachedByTrade(s.desk.index, slot, Sell, top);
    ReachedByTradeIsExact(s.desk, slot, Sell, top);
    LedgerIsSane(s.desk);
    forall i | 0 <= i < |s.desk.live| && PendingOf(s.desk, s.desk.live[i], slot, Sell, false) != 0
      ensures s.desk.live[i] in Ids(eligible)
    {
      var id := s.desk.live[i];
      assert Hit(s.desk, slot, Sell, top, id);
      var k :| 0 <= k < |eligible| && eligible[k].1 == id;
      assert Ids(eligible)[k] == id;
    }
    PendingWithin(s.desk, s.desk.live, Ids(eligible), slot, false);
  }

  /** One print, large enough, takes everything open. */
  lemma PrintGoesShort(c: Config, s: State, slot: Slot, top: int)
    requires c.usesQueue && Coherent(s.desk) && s.fault.None? && Ledger(Unbounded(), s.desk)
    requires SellsRest(s.desk, slot) && AsksBelow(s.desk, slot, top) && Open(s.desk, slot, Sell) > Held(s.account, slot)
    ensures CanGoShort(c, s, slot)
  {
    hide Coherent, Ledger, SellsRest, AsksBelow, Open, Held, ReachedByTrade, Consume, Pending, AllSell, RunFrom, Step;
    var eligible := ReachedByTrade(s.desk.index, slot, Sell, top);
    CoherentStructure(s.desk);
    ReachedByTradeIsExact(s.desk, slot, Sell, top);
    ReachedIsReachable(s.desk, slot, Sell, top);
    ReachedHoldsOpen(s, slot, top);
    var volume := DepthBefore(s, eligible, |eligible|) + 1;
    PrintTakesAll(c, s, slot, eligible, volume);
    ConsumeCoherent(c, s, eligible, volume);
    PrunedIsIdle(Consume(c, s, eligible, volume).state);
    var op := Print(slot, top, volume, Some(Buy));
    StepPrints(c, s, slot, top, volume);
    RunFromOne(c, s, op);
    PrintIsQuiet(c, s, op);
    assert QuietFrom(c, s, [op]) && Held(RunFrom(c, s, [op]).account, slot) < 0;
  }

  lemma StepPrints(c: Config, s: State, slot: Slot, price: int, size: int)
    requires c.usesQueue && s.fault.None?
    ensures Step(c, s, Print(slot, price, size, Some(Buy))) == ConsumeSide(c, s, slot, price, size, Sell)
  {
    hide ConsumeSide;
  }

  lemma PrintIsQuiet(c: Config, s: State, op: Op)
    requires op.Print?
    ensures QuietFrom(c, s, [op])
  {
    hide RunFrom;
    assert [op][..0] == [];
    assert QuietFrom(c, s, []);
  }

  /** A price above every limit in a list of orders. */
  lemma {:induction false} PriceAbove(d: Desk, ids: seq<OrderId>) returns (top: int)
    ensures forall i :: 0 <= i < |ids| && IsLimit(d, ids[i]) ==> d.orders[ids[i]].kind.limit < top
    decreases |ids|
  {
    top := 0;
    if ids != [] {
      top := PriceAbove(d, ids[1..]);
      if IsLimit(d, ids[0]) {
        top := Max(top, d.orders[ids[0]].kind.limit + 1);
      }
      forall i | 0 <= i < |ids| && IsLimit(d, ids[i]) ensures d.orders[ids[i]].kind.limit < top {
        assert i > 0 ==> ids[1..][i - 1] == ids[i];
      }
    }
  }

  lemma RestingBelow(d: Desk, slot: Slot, top: int)
    requires Coherent(d) && forall i :: 0 <= i < |d.resting| && IsLimit(d, d.resting[i]) ==> d.orders[d.resting[i]].kind.limit < top
    ensures AsksBelow(d, slot, top)
  {
  }

  /**
   With prints nothing clamps a reduce-only order, and the law is simpler: after any run of ordinary
   steps with the slot's open sells resting, some continuation goes short if and only if the position
   is short already or more is open to sell than is held.
   */
  lemma GoesShortExactlyWhenOverOffered(c: Config, before: seq<Op>, slot: Slot)
    requires c.usesQueue && OrdinaryRun(c, before)
    requires Run(c, before).fault.None? && SellsRest(Run(c, before).desk, slot)
    ensures var s := Run(c, before);
            CanGoShort(c, s, slot) <==> Held(s.account, slot) < 0 || Open(s.desk, slot, Sell) > Held(s.account, slot)
  {
    hide Run, OrdinaryRun, Coherent, Ledger, SellsRest, AsksBelow, Held, Open, Within;
    var s := Run(c, before);
    OrdinaryRunIsPlayable(c, before);
    if Held(s.account, slot) < 0 {
      NothingMore(c, s, slot);
    } else if Open(s.desk, slot, Sell) > Held(s.account, slot) {
      var top := PriceAbove(s.desk, s.desk.resting);
      RestingBelow(s.desk, slot, top);
      PrintGoesShort(c, s, slot, top);
    } else {
      CoveredIsGuarded(s, slot, false);
      GuardedNeverGoesShort(c, s, slot);
    }
  }
}
