/**
 What single steps come to, told from the state before: how much an offered order takes, what a
 cancellation and the passing of time do to orders, and what a split does to every number.
 */
module EngineOutcomes {
  import opened FixedPoint
  import opened Sorting
  import opened Sums
  import opened Orders
  import opened Book
  import opened Engine
  import opened EngineCoherence
  import opened EngineRuns
  import opened EngineAccount
  import opened EngineMatching
  import opened EngineOffers
  import opened EngineQueue
  import opened EngineShortRuns
  import opened EngineClosed
  import opened EngineAmends
  import EngineLifecycle
  import EngineRisk
  import RestingIndex
  import BookFeed

  // ----- How much an offered order takes -----

  /** What an order of this side would close. */
  function Closable(held: int, side: Side): nat {
    if side == Buy && held < 0 then -held
    else if side == Sell && held > 0 then held
    else 0
  }

  /** What an order is after: all it has left, or as much of it as closes a position. */
  function After(held: int, o: Order): int {
    if o.reduceOnly then Min(o.quantity - o.filled, Closable(held, o.side)) else o.quantity - o.filled
  }

  lemma WantedIsAfter(a: Account, o: Order)
    ensures Max(0, Wanted(a, o)) == Max(0, After(Held(a, o.slot), o))
    ensures Wanted(a, o) == After(Held(a, o.slot), o)
  {
  }

  /**
   An offered order takes the smaller of what it is after and the depth within its limit, all or
   nothing when it is fill-or-kill, and its position moves by exactly that; a reduce-only order
   never takes a position through zero or away from it, and is cancelled when it closes nothing.
   */
  lemma OfferTakesExactly(c: Config, s: State, id: OrderId)
    requires Offered(c, s, id)
    ensures var s' := TryFill(c, s, id);
            var o := s.desk.orders[id];
            var held := Held(s.account, o.slot);
            var after, depth := After(held, o), DepthFor(c, s, o);
            && id in s'.desk.orders
            && var taken := s'.desk.orders[id].filled - o.filled;
            && taken == (if o.tif.FillOrKill? && depth < after then 0 else Max(0, Min(after, depth)))
            && Held(s'.account, o.slot) == held + (if o.side == Buy then taken else -taken)
            && (o.reduceOnly ==> 0 <= taken && (taken > 0 ==> taken <= Closable(held, o.side)))
            && (o.reduceOnly && Closable(held, o.side) == 0 ==> s'.desk.orders[id].status == Cancelled)
  {
    hide TryFill, KeepsPrices, BooksValid, Structure, EffectiveBook, Recorded, SoundFills, Held, Wanted, DepthFor, Stopped;
    var o := s.desk.orders[id];
    WantedIsAfter(s.account, o);
    DepthIsNotNegative(c, s, o);
    OfferTradesTheBook(c, s, id);
    if !Killed(c, s, o) {
      OfferMovesHeld(c, s, id);
    }
  }

  lemma DepthIsNotNegative(c: Config, s: State, o: Order)
    requires KeepsPrices(c) && BooksValid(s.market) && o.slot in s.market.books
    ensures DepthFor(c, s, o) >= 0
  {
    hide KeepsPrices, EffectiveBook, Reach;
    EffectiveIsValid(c, s.market, o);
    var levels := Facing(EffectiveBook(c, s.market, o), o.side);
    DepthOfLevels(Reach(levels, o.side), levels, o.side, o.LimitPrice());
  }

  lemma {:induction false} DepthOfLevels(prices: seq<int>, levels: Levels, taker: Side, limit: Option<int>)
    requires Among(prices, levels) && Positive(levels)
    ensures DepthWithin(prices, levels, taker, limit) >= 0
    decreases |prices|
  {
    if prices != [] {
      DepthOfLevels(prices[1..], levels, taker, limit);
    }
  }

  /** On a market that stopped, an offered order is rejected, off the book, and trades nothing. */
  lemma StoppedOfferIsRejected(c: Config, s: State, id: OrderId)
    requires Coherent(s.desk) && id in s.desk.orders && AtVenue(s.desk.orders[id])
    requires Stopped(c, s.market, s.desk.orders[id].slot.instrument)
    ensures var s' := TryFill(c, s, id);
            && s'.desk.orders == s.desk.orders[id := s.desk.orders[id].(status := Rejected)]
            && id !in s'.desk.resting && s'.account == s.account
  {
    hide Structure, Stopped, RestingIndex.Remove;
    CoherentIsKeyed(s.desk);
    WithoutProperties(s.desk.resting, id);
  }

  // ----- Cancelling -----

  /** The order ended as cancelled and off the book; everything else is as it was. */
  ghost predicate OnlyCancelled(d: Desk, d': Desk, id: OrderId)
    requires id in d.orders
  {
    && d'.orders == d.orders[id := d.orders[id].(status := Cancelled)]
    && id !in d'.resting && id !in d'.queueAhead
    && d'.live == d.live && d'.inflight == d.inflight && d'.untriggered == d.untriggered && d'.nextId == d.nextId
    && (forall j :: j != id ==> SamePlace(d, d', j))
  }

  lemma ClosedOnly(d: Desk, id: OrderId)
    requires StillOpen(d, id) && d.orders[id].id == id
    ensures OnlyCancelled(d, Close(d, id, Cancelled), id)
  {
    hide RestingIndex.Remove;
    WithoutProperties(d.resting, id);
  }

  /** In every reachable state a cancellation ends exactly the open order it names, and does nothing to any other. */
  lemma CancellationIsExact(c: Config, ops: seq<Op>, id: OrderId)
    requires Run(c, ops).fault.None?
    ensures var s := Run(c, ops);
            var s' := Step(c, s, CancelOrder(id));
            if id in s.desk.orders && !Ended(s.desk.orders[id].status) then
              s' == s.(desk := s'.desk) && OnlyCancelled(s.desk, s'.desk, id)
            else s' == s
  {
    hide Run, Coherent, Close, OnlyCancelled;
    var s := Run(c, ops);
    RunIsSane(c, ops);
    if StillOpen(s.desk, id) {
      CoherentIsKeyed(s.desk);
      ClosedOnly(s.desk, id);
    }
  }

  // ----- Time -----

  lemma {:induction false} DoomedAre(c: Config, d: Desk, ids: seq<OrderId>, now: int, id: OrderId)
    ensures id in Doomed(c, d, ids, now) <==> id in ids && id in d.orders && PastExpiry(c, d.orders[id].slot.instrument, now)
    decreases |ids|
  {
    if ids != [] {
      DoomedAre(c, d, ids[1..], now, id);
      assert ids == [ids[0]] + ids[1..];
    }
  }

  /** After some cancellations, one order: cancelled if it was open and named, else untouched. */
  predicate CancelledIf(d: Desk, d': Desk, id: OrderId, named: bool) {
    && (id in d.orders ==>
          id in d'.orders && d'.orders[id] == if named && d.orders[id].IsOpen() then d.orders[id].(status := Cancelled) else d.orders[id])
    && (id in d'.resting <==> id in d.resting && !named)
    && (!named ==> ValueOr(d'.queueAhead, id, 0) == ValueOr(d.queueAhead, id, 0))
  }

  lemma {:induction false} CancelAllIsExact(d: Desk, ids: seq<OrderId>, id: OrderId)
    requires Keyed(d)
    ensures CancelledIf(d, CancelAll(d, ids), id, id in ids)
    decreases |ids|
  {
    hide Close;
    if ids != [] {
      var d1 := Close(d, ids[0], Cancelled);
      CloseOne(d, ids[0], id);
      CancelAllIsExact(d1, ids[1..], id);
      assert ids == [ids[0]] + ids[1..];
    }
  }

  lemma CloseOne(d: Desk, x: OrderId, id: OrderId)
    requires Keyed(d)
    ensures Keyed(Close(d, x, Cancelled)) && CancelledIf(d, Close(d, x, Cancelled), id, id == x)
  {
    hide RestingIndex.Remove;
    WithoutProperties(d.resting, x);
  }

  /**
   In every reachable state, moving time forward cancels exactly the resting orders of instruments
   whose expiry has come by then, and moves nothing else; time never goes back.
   */
  lemma AdvanceIsExact(c: Config, ops: seq<Op>, now: int, id: OrderId)
    requires Run(c, ops).fault.None?
    ensures var s := Run(c, ops);
            var s' := Step(c, s, AdvanceTo(now));
            if now < s.market.now then s' == s.(fault := Some(BadRequest))
            else
              && s'.account == s.account && s'.market == s.market.(now := now) && s'.fault.None?
              && CancelledIf(s.desk, s'.desk, id,
                             id in s.desk.resting && id in s.desk.orders && PastExpiry(c, s.desk.orders[id].slot.instrument, now))
  {
    hide Run, CancelAll, Doomed, PastExpiry, CancelledIf;
    var s := Run(c, ops);
    RunIsSane(c, ops);
    DoomedAre(c, s.desk, s.desk.resting, now, id);
    CancelAllIsExact(s.desk, Doomed(c, s.desk, s.desk.resting, now), id);
  }

  // ----- The engine's own orders -----

  lemma CloseEndsTerminal(d: Desk, id: OrderId)
    requires Keyed(d) && id in d.orders
    ensures var d' := Close(d, id, Cancelled);
            && id in d'.orders && d'.orders[id].status.IsTerminal() && id !in d'.resting
            && (d.orders[id].IsOpen() ==> d'.orders[id].status == Cancelled)
            && EngineLifecycle.SameTerms(d.orders[id], d'.orders[id]) && d'.orders[id].quantity == d.orders[id].quantity
  {
    hide RestingIndex.Remove;
    WithoutProperties(d.resting, id);
  }

  /** Terms and size are the order's own, however much of it was filled. */
  predicate SameOrder(o: Order, o': Order) {
    EngineLifecycle.SameTerms(o, o') && o'.quantity == o.quantity
  }

  lemma {:induction false} ExecuteAllSameOrder(c: Config, s: State, id: OrderId, fills: seq<(int, int)>, taker: bool)
    requires id in s.desk.orders && id !in s.desk.resting
    ensures var s' := ExecuteAll(c, s, id, fills, taker);
            id in s'.desk.orders && SameOrder(s.desk.orders[id], s'.desk.orders[id]) && id !in s'.desk.resting
    decreases |fills|
  {
    hide AfterFill, RestingIndex.Remove;
    WithoutProperties(s.desk.resting, id);
    if fills != [] && s.fault.None? {
      ExecuteAllSameOrder(c, Execute(c, s, id, fills[0].0, fills[0].1, taker), id, fills[1..], taker);
    }
  }

  lemma ImmediateOrderEnds(c: Config, s: State, id: OrderId)
    requires Coherent(s.desk) && s.fault.None? && Offerable(s.desk, id) && id !in s.desk.resting
    requires id in s.desk.orders && s.desk.orders[id].status.Accepted? && s.desk.orders[id].tif.ImmediateOrCancel?
    ensures var s' := TryFill(c, s, id);
            && id in s'.desk.orders && id !in s'.desk.resting && SameOrder(s.desk.orders[id], s'.desk.orders[id])
            && s'.desk.orders[id].status.IsTerminal()
            && (s'.desk.orders[id].status.Rejected? <==> Stopped(c, s.market, s.desk.orders[id].slot.instrument))
  {
    hide Coherent, ExecuteAll, Close, Walk, EffectiveBook, Wanted, Stopped;
    var o := s.desk.orders[id];
    CoherentIsKeyed(s.desk);
    CloseEndsTerminal(s.desk, id);
    RejectedIsOff(s.desk, o.(id := id, status := Rejected));
    if o.slot in s.market.books {
      var w := Walk(EffectiveBook(c, s.market, o), o.side, Wanted(s.account, o), o.LimitPrice());
      var s1 := ExecuteAll(c, s, id, w.fills, !o.postOnly);
      WantedFits(c, s, o);
      ExecuteAllCoherent(c, s, id, w.fills, !o.postOnly);
      ExecuteAllSameOrder(c, s, id, w.fills, !o.postOnly);
      ExecuteAllNeverRejects(c, s, id, w.fills, !o.postOnly);
      CoherentIsKeyed(s1.desk);
      CloseEndsTerminal(s1.desk, id);
    }
  }

  lemma {:induction false} ExecuteAllNeverRejects(c: Config, s: State, id: OrderId, fills: seq<(int, int)>, taker: bool)
    requires id in s.desk.orders && !s.desk.orders[id].status.Rejected?
    ensures var s' := ExecuteAll(c, s, id, fills, taker);
            id in s'.desk.orders && !s'.desk.orders[id].status.Rejected?
    decreases |fills|
  {
    hide AfterFill, RestingIndex.Remove;
    if fills != [] && s.fault.None? {
      ExecuteAllNeverRejects(c, Execute(c, s, id, fills[0].0, fills[0].1, taker), id, fills[1..], taker);
    }
  }

  lemma RejectedIsOff(d: Desk, o': Order)
    ensures var d' := RemoveResting(SetOrder(d, o'), o'.id);
            o'.id !in d'.resting && d'.orders == d.orders[o'.id := o']
  {
    hide RestingIndex.Remove;
    WithoutProperties(d.resting, o'.id);
  }

  /**
   In every reachable state an order of the engine's own, a schedule's child or a liquidation, is a
   market order of the size and side asked for; it is matched at once, has ended when the step has,
   and never rests; it is rejected exactly when its market has stopped.
   */
  lemma EngineOrderIsExact(c: Config, ops: seq<Op>, slot: Slot, side: Side, quantity: int, reduceOnly: bool)
    requires Run(c, ops).fault.None?
    ensures var s := Run(c, ops);
            var s' := Step(c, s, PlaceEngineOrder(slot, side, quantity, reduceOnly));
            var id := s.desk.nextId + 1;
            if quantity < 1 then s' == s.(fault := Some(BadRequest))
            else
              && id !in s.desk.orders && id in s'.desk.orders && id !in s'.desk.resting
              && (var o := s'.desk.orders[id];
                  && o.slot == slot && o.side == side && o.kind == Market && o.quantity == quantity && o.reduceOnly == reduceOnly
                  && !o.postOnly && Ended(o.status) && (o.status.Rejected? <==> Stopped(c, s.market, slot.instrument)))
              && (forall j :: j in s.desk.orders ==> j in s'.desk.orders && s'.desk.orders[j] == s.desk.orders[j])
              && s'.market == s.market && s'.fault.None?
  {
    hide Run, Coherent, TryFill, Stopped;
    var s := Run(c, ops);
    RunIsSane(c, ops);
    if quantity >= 1 {
      var s1 := WithEngineOrder(s, slot, side, quantity, reduceOnly);
      var id := s1.desk.nextId;
      EngineRisk.FreshId(s.desk);
      EngineOrderIsNew(s, slot, side, quantity, reduceOnly);
      NotYetResting(s1.desk, id);
      ImmediateOrderEnds(c, s1, id);
      TryFillCoherent(c, s1, id);
    }
  }

  lemma NotYetResting(d: Desk, id: OrderId)
    requires Coherent(d) && id in d.orders && d.orders[id].tif.ImmediateOrCancel?
    ensures id !in d.resting
  {
  }
}
