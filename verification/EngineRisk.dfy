/**
 Pre-trade limits as invariants of a run.

 The venue checks a limit once, when an order is sent, against the position and everything
 still open.  What makes that enough is that every later step only trades open size for
 position, or gives open size up.
 */
module EngineRisk {
  import opened FixedPoint
  import opened Sorting
  import opened Sums
  import opened Orders
  import opened Book
  import opened RestingIndex
  import opened Engine
  import opened EngineCoherence
  import opened EngineRuns
  import opened EngineLifecycle
  import opened EngineAccount
  import P = Positions

  /**
   Bounds on what a position could become if every open order on one side filled.  Where no print
   fills orders, a reduce-only order is clamped on every fill; `clamped` bounds rely on that.
   */
  datatype Bounds = Bounds(high: Slot -> Option<int>, low: Slot -> Option<int>, clamped: bool, plain: bool)

  function Open(d: Desk, slot: Slot, side: Side): int {
    Pending(d, d.live, slot, side, false)
  }

  predicate WithinAt(b: Bounds, s: State, slot: Slot) {
    && (b.high(slot).Some? ==> Held(s.account, slot) + Open(s.desk, slot, Buy) <= b.high(slot).value)
    && (b.low(slot).Some? ==> LowHolds(b, s, slot, b.low(slot).value))
  }

  /** An open sell, with size left, that may take the position anywhere. */
  predicate IsPlainSell(o: Order, slot: Slot) {
    o.IsOpen() && o.slot == slot && o.side.Sell? && !o.reduceOnly && o.Remaining() > 0
  }

  predicate PlainSellOpen(d: Desk, slot: Slot) {
    exists id :: id in d.orders && IsPlainSell(d.orders[id], slot)
  }

  /** Every open sell could fill; or only clamped ones are open, and those stop at flat. */
  predicate LowHolds(b: Bounds, s: State, slot: Slot, low: int) {
    || Held(s.account, slot) - Open(s.desk, slot, Sell) >= low
    || (b.clamped && low <= 0 <= Held(s.account, slot) && !PlainSellOpen(s.desk, slot))
  }

  ghost predicate Within(b: Bounds, s: State) {
    forall slot :: WithinAt(b, s, slot)
  }

  /** Every open order is listed as live, once; none is overfilled. */
  predicate Ledger(b: Bounds, d: Desk) {
    && NoDuplicates(d.live)
    && (forall i :: 0 <= i < |d.live| ==> d.live[i] in d.orders)
    && (forall id :: id in d.orders ==>
          && d.orders[id].filled <= d.orders[id].quantity
          && (d.orders[id].IsOpen() ==> id in d.live)
          && (b.plain ==> !d.orders[id].reduceOnly))
  }

  ghost predicate Guarded(b: Bounds, s: State) {
    Coherent(s.desk) && Ledger(b, s.desk) && Within(b, s)
  }

  // ----- Giving open size up -----

  /** The same order, with no more left to do. */
  predicate Lighter(o: Order, o': Order) {
    && o'.slot == o.slot && o'.side == o.side && o'.reduceOnly == o.reduceOnly
    && o.filled <= o.quantity && o'.filled <= o'.quantity
    && (o'.IsOpen() ==> o.IsOpen() && o'.Remaining() <= o.Remaining())
  }

  predicate Shrinks(d: Desk, d': Desk) {
    && d'.live == d.live && d'.orders.Keys == d.orders.Keys
    && (forall id :: id in d.orders ==> Lighter(d.orders[id], d'.orders[id]))
  }

  lemma {:induction false} PendingShrinks(d: Desk, d': Desk, ids: seq<OrderId>, slot: Slot, side: Side)
    requires Shrinks(d, d')
    ensures 0 <= Pending(d', ids, slot, side, false) <= Pending(d, ids, slot, side, false)
    decreases |ids|
  {
    if ids != [] {
      PendingShrinks(d, d', ids[1..], slot, side);
    }
  }

  lemma ShrinkGuarded(b: Bounds, s: State, d': Desk)
    requires Guarded(b, s) && Shrinks(s.desk, d') && Coherent(d')
    ensures Guarded(b, s.(desk := d'))
  {
    hide Coherent, Pending, Lighter, PlainSellOpen;
    var s' := s.(desk := d');
    ShrinkLedger(b, s.desk, d');
    forall slot ensures WithinAt(b, s', slot) {
      assert WithinAt(b, s, slot);
      PlainSellsShrink(s.desk, d', slot);
      PendingShrinks(s.desk, d', d'.live, slot, Buy);
      PendingShrinks(s.desk, d', d'.live, slot, Sell);
    }
  }

  lemma PlainSellsShrink(d: Desk, d': Desk, slot: Slot)
    requires Shrinks(d, d')
    ensures PlainSellOpen(d', slot) ==> PlainSellOpen(d, slot)
  {
    if PlainSellOpen(d', slot) {
      var id :| id in d'.orders && IsPlainSell(d'.orders[id], slot);
      assert Lighter(d.orders[id], d'.orders[id]);
      assert IsPlainSell(d.orders[id], slot);
    }
  }

  lemma ShrinkLedger(b: Bounds, d: Desk, d': Desk)
    requires Ledger(b, d) && Shrinks(d, d')
    ensures Ledger(b, d')
  {
    forall id | id in d'.orders
      ensures d'.orders[id].filled <= d'.orders[id].quantity
      ensures d'.orders[id].IsOpen() ==> id in d'.live
      ensures b.plain ==> !d'.orders[id].reduceOnly
    {
      assert Lighter(d.orders[id], d'.orders[id]);
    }
  }

  lemma ShrinksNone(b: Bounds, d: Desk)
    requires Ledger(b, d)
    ensures Shrinks(d, d)
  {
  }

  /** Changing one order to a lighter one. */
  lemma SetOrderShrinks(b: Bounds, d: Desk, o': Order)
    requires Ledger(b, d) && o'.id in d.orders && Lighter(d.orders[o'.id], o')
    ensures Shrinks(d, SetOrder(d, o'))
  {
  }

  lemma CloseShrinks(b: Bounds, d: Desk, x: OrderId)
    requires Ledger(b, d) && Coherent(d)
    ensures Shrinks(d, Close(d, x, Cancelled))
  {
    hide Coherent, Remove, Without;
    OffBookUnlessOpen(d, x);
  }

  lemma RestOrCancelShrinks(b: Bounds, c: Config, m: MarketData, d: Desk, x: OrderId)
    requires Ledger(b, d) && Coherent(d) && x in d.orders
    ensures Shrinks(d, RestOrCancel(c, m, d, x))
  {
    hide Coherent, Close, Insert, DisplayedAt;
    CloseShrinks(b, d, x);
  }

  // ----- Trading open size for position -----

  lemma {:induction false} PendingAfterFill(d: Desk, x: OrderId, q: int, ids: seq<OrderId>, slot: Slot, side: Side)
    requires x in d.orders && d.orders[x].IsOpen() && 0 < q <= d.orders[x].Remaining() && NoDuplicates(ids)
    ensures var o := d.orders[x];
            var d' := d.(orders := d.orders[x := o.RecordFill(q)]);
            Pending(d', ids, slot, side, false)
              == Pending(d, ids, slot, side, false) - (if x in ids && o.slot == slot && o.side == side then q else 0)
    decreases |ids|
  {
    if ids != [] {
      assert ids == [ids[0]] + ids[1..];
      assert forall i :: 0 <= i < |ids[1..]| ==> ids[1..][i] == ids[i + 1];
      PendingAfterFill(d, x, q, ids[1..], slot, side);
    }
  }

  lemma {:induction false} PendingReadsOrders(d: Desk, d': Desk, ids: seq<OrderId>, slot: Slot, side: Side, skip: bool)
    requires d'.orders == d.orders
    ensures Pending(d', ids, slot, side, skip) == Pending(d, ids, slot, side, skip)
    decreases |ids|
  {
    if ids != [] {
      PendingReadsOrders(d, d', ids[1..], slot, side, skip);
    }
  }

  lemma HeldAfterFill(c: Config, a: Account, f: Fill, slot: Slot)
    ensures Held(AfterFill(c, a, f), slot) == Held(a, slot) + if slot == f.slot then f.Signed() else 0
  {
    hide Rebalanced, CashAfterFill;
    var a1 := a.(positions := P.PortfolioApplied(a.positions, f), cash := CashAfterFill(c, a, f), fills := a.fills + [f]);
    RebalancingMovesNothing(c, a1, f.slot.instrument);
  }

  lemma BookFillDesk(c: Config, s: State, x: OrderId, price: int, q: int, commission: int, taker: bool)
    requires x in s.desk.orders && 0 < q <= s.desk.orders[x].Remaining()
    ensures var s' := BookFill(c, s, x, price, q, commission, taker);
            var o := s.desk.orders[x];
            && s'.desk.orders == s.desk.orders[x := o.RecordFill(q)] && s'.desk.live == s.desk.live
            && s'.account == AfterFill(c, s.account, Fill(x, o.slot, o.side, price, q, commission, taker))
  {
    hide AfterFill, Remove, Without;
  }

  lemma BookFillGuarded(b: Bounds, c: Config, s: State, x: OrderId, price: int, q: int, commission: int, taker: bool)
    requires Guarded(b, s) && s.fault.None? && x in s.desk.orders
    requires AtVenue(s.desk.orders[x]) && 0 < q <= s.desk.orders[x].Remaining()
    requires b.clamped ==> Clamped(s, x, q)
    ensures Guarded(b, BookFill(c, s, x, price, q, commission, taker))
  {
    hide Coherent, BookFill, AfterFill, Pending, OnlyOrder, Held, PlainSellOpen;
    var s' := BookFill(c, s, x, price, q, commission, taker);
    var o := s.desk.orders[x];
    BookFillDesk(c, s, x, price, q, commission, taker);
    BookFillCoherent(c, s, x, price, q, commission, taker);
    FillLedger(b, s.desk, s'.desk, x, q);
    forall slot ensures WithinAt(b, s', slot) {
      assert WithinAt(b, s, slot);
      HeldAfterFill(c, s.account, Fill(x, o.slot, o.side, price, q, commission, taker), slot);
      OpenAfterFill(b, s.desk, s'.desk, x, q, slot, Buy);
      OpenAfterFill(b, s.desk, s'.desk, x, q, slot, Sell);
      PlainSellsAfterFill(s.desk, s'.desk, x, q, slot);
    }
  }

  /** A reduce-only sell takes no more than is held. */
  predicate Clamped(s: State, x: OrderId, q: int)
    requires x in s.desk.orders
  {
    var o := s.desk.orders[x];
    o.reduceOnly && o.side.Sell? ==> q <= Held(s.account, o.slot)
  }

  lemma PlainSellsAfterFill(d: Desk, d': Desk, x: OrderId, q: int, slot: Slot)
    requires x in d.orders && d.orders[x].IsOpen() && 0 < q
    requires d'.orders == d.orders[x := d.orders[x].RecordFill(q)]
    ensures PlainSellOpen(d', slot) ==> PlainSellOpen(d, slot)
    ensures IsPlainSell(d.orders[x], slot) ==> PlainSellOpen(d, slot)
  {
    if PlainSellOpen(d', slot) {
      var id :| id in d'.orders && IsPlainSell(d'.orders[id], slot);
      assert IsPlainSell(d.orders[id], slot);
    }
  }

  lemma FillLedger(b: Bounds, d: Desk, d': Desk, x: OrderId, q: int)
    requires Ledger(b, d) && x in d.orders && d.orders[x].IsOpen() && 0 < q <= d.orders[x].Remaining()
    requires d'.live == d.live && d'.orders == d.orders[x := d.orders[x].RecordFill(q)]
    ensures Ledger(b, d')
  {
  }

  lemma OpenAfterFill(b: Bounds, d: Desk, d': Desk, x: OrderId, q: int, slot: Slot, side: Side)
    requires Ledger(b, d) && x in d.orders && d.orders[x].IsOpen() && 0 < q <= d.orders[x].Remaining()
    requires d'.live == d.live && d'.orders == d.orders[x := d.orders[x].RecordFill(q)]
    ensures Open(d', slot, side)
         == Open(d, slot, side) - if d.orders[x].slot == slot && d.orders[x].side == side then q else 0
  {
    hide Pending;
    var mid := d.(orders := d.orders[x := d.orders[x].RecordFill(q)]);
    PendingAfterFill(d, x, q, d.live, slot, side);
    PendingReadsOrders(mid, d', d.live, slot, side, false);
  }

  // ----- Matching and printing -----

  lemma {:induction false} ExecuteAllGuarded(b: Bounds, c: Config, s: State, x: OrderId, fills: seq<(int, int)>, taker: bool)
    requires Guarded(b, s) && s.fault.None? && x in s.desk.orders
    requires fills != [] ==> AtVenue(s.desk.orders[x])
    requires FitsIn(fills, s.desk.orders[x].Remaining())
    requires b.clamped ==> ClampedAll(s, x, fills)
    ensures Guarded(b, ExecuteAll(c, s, x, fills, taker))
    decreases |fills|
  {
    hide Guarded, BookFill, AfterFill, Coherent, Held;
    GuardedIsCoherent(b, s);
    if fills != [] {
      var q := fills[0].1;
      var s1 := Execute(c, s, x, fills[0].0, q, taker);
      var fee := c.fee(s.account.fills, s.desk.orders[x].(id := x), fills[0].0, q, taker);
      BookFillCoherent(c, s, x, fills[0].0, q, fee, taker);
      BookFillGuarded(b, c, s, x, fills[0].0, q, fee, taker);
      BookFillDesk(c, s, x, fills[0].0, q, fee, taker);
      var o := s.desk.orders[x];
      HeldAfterFill(c, s.account, Fill(x, o.slot, o.side, fills[0].0, q, fee, taker), o.slot);
      assert fills[1..] != [] ==> fills[1..][0].1 > 0 && AtVenue(s1.desk.orders[x]);
      ExecuteAllGuarded(b, c, s1, x, fills[1..], taker);
    }
  }

  /** The pieces of a reduce-only sell together are no more than is held. */
  predicate ClampedAll(s: State, x: OrderId, fills: seq<(int, int)>)
    requires x in s.desk.orders
  {
    var o := s.desk.orders[x];
    o.reduceOnly && o.side.Sell? ==> FitsIn(fills, Held(s.account, o.slot))
  }

  lemma WantedIsClamped(c: Config, s: State, x: OrderId)
    requires x in s.desk.orders && s.desk.orders[x].slot in s.market.books
    ensures var o := s.desk.orders[x];
            ClampedAll(s, x, Walk(EffectiveBook(c, s.market, o), o.side, Wanted(s.account, o), o.LimitPrice()).fills)
  {
    hide EffectiveBook;
    var o := s.desk.orders[x];
    var levels := Facing(EffectiveBook(c, s.market, o), o.side);
    var wanted := Wanted(s.account, o);
    var fills := Walk(EffectiveBook(c, s.market, o), o.side, wanted, o.LimitPrice()).fills;
    VisitFits(Reach(levels, o.side), levels, o.side, wanted, o.LimitPrice());
    if o.reduceOnly && o.side.Sell? {
      if wanted > 0 {
        FitsWidens(fills, wanted, Held(s.account, o.slot));
      }
    }
  }

  lemma GuardedIsCoherent(b: Bounds, s: State)
    requires Guarded(b, s)
    ensures Coherent(s.desk) && Ledger(b, s.desk)
  {
    hide Coherent, Ledger;
  }

  lemma SettledGuarded(b: Bounds, c: Config, s: State, x: OrderId)
    requires Guarded(b, s) && s.fault.None? && x !in s.desk.untriggered
    requires StillOpen(s.desk, x) ==> AtVenue(s.desk.orders[x])
    ensures Guarded(b, Settled(c, s, x))
  {
    hide Guarded, RestOrCancel, Ledger, Coherent, Shrinks, OnlyOrder;
    GuardedIsCoherent(b, s);
    if StillOpen(s.desk, x) {
      RestOrCancelShrinks(b, c, s.market, s.desk, x);
      RestOrCancelCoherent(c, s.market, s.desk, x);
      ShrinkGuarded(b, s, RestOrCancel(c, s.market, s.desk, x));
    }
  }

  lemma ExecuteAllLeavesParked(c: Config, s: State, x: OrderId, fills: seq<(int, int)>, taker: bool)
    requires Coherent(s.desk) && s.fault.None? && x in s.desk.orders
    requires AtVenue(s.desk.orders[x])
    requires FitsIn(fills, s.desk.orders[x].Remaining())
    ensures var s' := ExecuteAll(c, s, x, fills, taker);
            && s'.fault.None? && s'.desk.untriggered == s.desk.untriggered
            && (StillOpen(s'.desk, x) ==> AtVenue(s'.desk.orders[x]))
  {
    hide Coherent, ExecuteAll;
    ExecuteAllCoherent(c, s, x, fills, taker);
  }

  lemma TryFillOnBookGuarded(b: Bounds, c: Config, s: State, x: OrderId)
    requires Guarded(b, s) && s.fault.None? && x !in s.desk.untriggered
    requires x in s.desk.orders && AtVenue(s.desk.orders[x]) && s.desk.orders[x].slot in s.market.books
    ensures var o := s.desk.orders[x];
            var w := Walk(EffectiveBook(c, s.market, o), o.side, Wanted(s.account, o), o.LimitPrice());
            Guarded(b, Settled(c, ExecuteAll(c, s, x, w.fills, !o.postOnly), x))
  {
    hide Guarded, Settled, ExecuteAll, OnlyOrder, Walk, Wanted, EffectiveBook, Ledger, Coherent, ClampedAll;
    GuardedIsCoherent(b, s);
    var o := s.desk.orders[x];
    var w := Walk(EffectiveBook(c, s.market, o), o.side, Wanted(s.account, o), o.LimitPrice());
    WantedFits(c, s, o);
    WantedIsClamped(c, s, x);
    ExecuteAllLeavesParked(c, s, x, w.fills, !o.postOnly);
    ExecuteAllGuarded(b, c, s, x, w.fills, !o.postOnly);
    SettledGuarded(b, c, ExecuteAll(c, s, x, w.fills, !o.postOnly), x);
  }

  lemma EndGuarded(b: Bounds, s: State, x: OrderId)
    requires Guarded(b, s) && x in s.desk.orders
    ensures Guarded(b, s.(desk := RemoveResting(SetOrder(s.desk, s.desk.orders[x].(id := x, status := Rejected)), x)))
  {
    hide Guarded, Coherent, Remove, Without, OnlyOrder;
    GuardedIsCoherent(b, s);
    OffBookUnlessOpen(s.desk, x);
    var o' := s.desk.orders[x].(id := x, status := Rejected);
    EndOrderCoherent(s.desk, x, o');
    SetOrderShrinks(b, s.desk, o');
    ShrinkGuarded(b, s, RemoveResting(SetOrder(s.desk, o'), x));
  }

  lemma CloseGuarded(b: Bounds, s: State, x: OrderId)
    requires Guarded(b, s)
    ensures Guarded(b, s.(desk := Close(s.desk, x, Cancelled)))
  {
    hide Guarded, Coherent, Close, Ledger, OnlyOrder, Shrinks;
    GuardedIsCoherent(b, s);
    CloseCoherent(s.desk, x);
    CloseShrinks(b, s.desk, x);
    ShrinkGuarded(b, s, Close(s.desk, x, Cancelled));
  }

  lemma TryFillGuarded(b: Bounds, c: Config, s: State, x: OrderId)
    requires Guarded(b, s) && s.fault.None? && Offerable(s.desk, x)
    ensures Guarded(b, TryFill(c, s, x))
  {
    hide Guarded, ExecuteAll, Walk, Wanted, EffectiveBook, RestOrCancel, Close, RemoveResting, Stopped, Coherent, Ledger;
    if StillOpen(s.desk, x) && !s.desk.orders[x].status.InFlight? {
      EndGuarded(b, s, x);
      CloseGuarded(b, s, x);
      SettledGuarded(b, c, s, x);
      if s.desk.orders[x].slot in s.market.books {
        TryFillOnBookGuarded(b, c, s, x);
      }
    }
  }

  lemma {:induction false} OfferGuarded(b: Bounds, c: Config, s: State, ids: seq<OrderId>)
    requires Guarded(b, s) && s.fault.None? && AllOfferable(s.desk, ids)
    ensures Guarded(b, Offer(c, s, ids))
    decreases |ids|
  {
    hide Guarded, TryFill, Structure, Ledger;
    if ids != [] {
      var s1 := TryFill(c, s, ids[0]);
      GuardedIsCoherent(b, s);
      assert Offerable(s.desk, ids[0]);
      TryFillCoherent(c, s, ids[0]);
      TryFillGuarded(b, c, s, ids[0]);
      forall i | 0 <= i < |ids[1..]| ensures Offerable(s1.desk, ids[1..][i]) {
        assert Offerable(s.desk, ids[i + 1]);
      }
      OfferGuarded(b, c, s1, ids[1..]);
    }
  }

  lemma MatchGuarded(b: Bounds, c: Config, s: State, slot: Slot, corporate: bool)
    requires Guarded(b, s) && s.fault.None?
    ensures Guarded(b, MatchResting(c, s, slot, corporate))
  {
    hide Guarded, Coherent, Candidates, Offer, Pruned, AllResting, AllOfferable, Ledger;
    if slot in s.market.books {
      var ids := Candidates(c, s, slot, corporate);
      GuardedIsCoherent(b, s);
      CandidatesAreResting(c, s, slot, corporate);
      RestingIsOfferable(s.desk, ids);
      OfferCoherent(c, s, ids);
      OfferGuarded(b, c, s, ids);
      PrunedIsIdle(Offer(c, s, ids));
    }
  }

  lemma AheadGuarded(b: Bounds, s: State, ahead: map<OrderId, int>)
    requires Guarded(b, s)
    ensures Guarded(b, s.(desk := s.desk.(queueAhead := ahead)))
  {
    hide Coherent;
    QueueAheadIsFree(s.desk, ahead);
    ShrinksNone(b, s.desk);
    ShrinkGuarded(b, s, s.desk.(queueAhead := ahead));
  }

  lemma FillReachedGuarded(b: Bounds, c: Config, s: State, limit: int, x: OrderId, left: int)
    requires !b.clamped
    requires Guarded(b, s) && s.fault.None? && Reachable(s.desk, x)
    ensures Guarded(b, FillReached(c, s, limit, x, left).state)
  {
    hide Guarded, BookFill;
    var fill := Min(left, WantedBy(s.desk, x));
    if fill > 0 {
      BookFillGuarded(b, c, s, x, limit, fill, c.fee(s.account.fills, s.desk.orders[x].(id := x), limit, fill, false), false);
    }
    var s1 := if fill > 0 then Execute(c, s, x, limit, fill, false) else s;
    AheadGuarded(b, s1, s1.desk.queueAhead - {x});
  }

  lemma ConsumeOneGuarded(b: Bounds, c: Config, s: State, limit: int, x: OrderId, remaining: int)
    requires !b.clamped
    requires Guarded(b, s) && s.fault.None? && Reachable(s.desk, x)
    ensures Guarded(b, ConsumeOne(c, s, limit, x, remaining).state)
  {
    hide Guarded, FillReached;
    var eaten := Eaten(s, x, remaining);
    var ahead := ValueOr(s.desk.queueAhead, x, 0) - eaten;
    AheadGuarded(b, s, s.desk.queueAhead[x := ahead]);
    FillReachedGuarded(b, c, SetAhead(s, x, ahead), limit, x, remaining - eaten);
  }

  lemma {:induction false} ConsumeGuarded(b: Bounds, c: Config, s: State, eligible: seq<(int, OrderId)>, remaining: int)
    requires !b.clamped
    requires Guarded(b, s) && s.fault.None? && AllReachable(s.desk, eligible)
    ensures Guarded(b, Consume(c, s, eligible, remaining).state)
    decreases |eligible|
  {
    hide Guarded, ConsumeOne, Coherent, Ledger;
    if eligible != [] && remaining > 0 {
      var one := ConsumeOne(c, s, eligible[0].0, eligible[0].1, remaining);
      GuardedIsCoherent(b, s);
      assert Reachable(s.desk, eligible[0].1);
      ConsumeOneCoherent(c, s, eligible[0].0, eligible[0].1, remaining);
      ConsumeOneGuarded(b, c, s, eligible[0].0, eligible[0].1, remaining);
      forall i | 0 <= i < |eligible[1..]| ensures Reachable(one.state.desk, eligible[1..][i].1) {
        assert Reachable(s.desk, eligible[i + 1].1);
      }
      ConsumeGuarded(b, c, one.state, eligible[1..], one.left);
    }
  }

  lemma ConsumeSideGuarded(b: Bounds, c: Config, s: State, slot: Slot, price: int, size: int, passive: Side)
    requires !b.clamped
    requires Guarded(b, s) && s.fault.None?
    ensures var s' := ConsumeSide(c, s, slot, price, size, passive);
            Guarded(b, s') && s'.fault.None?
  {
    hide Guarded, Consume, ReachedByTrade, Coherent, Ledger;
    var eligible := ReachedByTrade(s.desk.index, slot, passive, price);
    GuardedIsCoherent(b, s);
    ReachedIsReachable(s.desk, slot, passive, price);
    ConsumeCoherent(c, s, eligible, size);
    ConsumeGuarded(b, c, s, eligible, size);
    PrunedIsIdle(Consume(c, s, eligible, size).state);
  }

  lemma PrintedGuarded(b: Bounds, c: Config, s: State, slot: Slot, price: int, size: int, aggressor: Option<Side>)
    requires b.clamped ==> !c.usesQueue
    requires Guarded(b, s) && s.fault.None?
    ensures Guarded(b, Printed(c, s, slot, price, size, aggressor))
  {
    hide Guarded, ConsumeSide;
    if c.usesQueue {
      ConsumeSideGuarded(b, c, s, slot, price, size, Buy);
      ConsumeSideGuarded(b, c, s, slot, price, size, Sell);
      ConsumeSideGuarded(b, c, ConsumeSide(c, s, slot, price, size, Buy), slot, price, size, Sell);
    }
  }

  // ----- Sending orders -----

  lemma {:induction false} LiveOnlyPending(d: Desk, ids: seq<OrderId>, slot: Slot, side: Side)
    ensures Pending(d, LiveOnly(d, ids), slot, side, false) == Pending(d, ids, slot, side, false)
    decreases |ids|
  {
    if ids != [] {
      LiveOnlyPending(d, ids[1..], slot, side);
      if StillOpen(d, ids[0]) {
        assert LiveOnly(d, ids)[1..] == LiveOnly(d, ids[1..]);
      }
    }
  }

  lemma {:induction false} PendingOfOthers(d: Desk, d': Desk, ids: seq<OrderId>, slot: Slot, side: Side)
    requires forall i :: 0 <= i < |ids| ==>
               ids[i] in d.orders && ids[i] in d'.orders && d'.orders[ids[i]] == d.orders[ids[i]]
    ensures Pending(d', ids, slot, side, false) == Pending(d, ids, slot, side, false)
    decreases |ids|
  {
    if ids != [] {
      PendingOfOthers(d, d', ids[1..], slot, side);
    }
  }

  lemma {:induction false} PendingAppend(d: Desk, ids: seq<OrderId>, id: OrderId, slot: Slot, side: Side)
    ensures Pending(d, ids + [id], slot, side, false)
         == Pending(d, ids, slot, side, false) + PendingOf(d, id, slot, side, false)
    decreases |ids|
  {
    if ids == [] {
      assert (ids + [id])[1..] == [];
      assert Pending(d, [], slot, side, false) == 0;
    } else {
      assert (ids + [id])[1..] == ids[1..] + [id];
      PendingAppend(d, ids[1..], id, slot, side);
    }
  }

  /** Open size once a new order is added: what was open, and the order itself if it was taken. */
  lemma OpenAfterSubmit(b: Bounds, d: Desk, o: Order, d': Desk, slot: Slot, side: Side)
    requires Ledger(b, d) && Coherent(d) && o.id == d.nextId + 1 && o.filled == 0
    requires d'.orders == d.orders[o.id := o]
    requires d'.live == LiveOnly(d, d.live) + (if o.IsOpen() then [o.id] else [])
    ensures Open(d', slot, side)
         == Open(d, slot, side) + if o.IsOpen() && o.slot == slot && o.side == side then o.quantity else 0
  {
    hide Structure, RestingIsOpen, ParkedApart, Pending, LiveOnly;
    var kept := LiveOnly(d, d.live);
    FreshId(d);
    LiveOnlyMembers(d, d.live);
    LiveOnlyPending(d, d.live, slot, side);
    forall i | 0 <= i < |kept| ensures kept[i] in d.orders && kept[i] in d'.orders && d'.orders[kept[i]] == d.orders[kept[i]] {
      var x := kept[i];
      assert x in kept;
    }
    PendingOfOthers(d, d', kept, slot, side);
    if o.IsOpen() {
      PendingAppend(d', kept, o.id, slot, side);
    } else {
      assert kept + [] == kept;
    }
  }

  lemma FreshId(d: Desk)
    requires Coherent(d)
    ensures d.nextId + 1 !in d.orders
  {
  }

  lemma SubmitLedger(b: Bounds, d: Desk, o: Order, d': Desk)
    requires Ledger(b, d) && Coherent(d) && o.id == d.nextId + 1 && o.filled == 0 && o.quantity > 0
    requires b.plain ==> !o.reduceOnly
    requires d'.orders == d.orders[o.id := o]
    requires d'.live == LiveOnly(d, d.live) + (if o.IsOpen() then [o.id] else [])
    ensures Ledger(b, d')
  {
    hide Structure, RestingIsOpen, ParkedApart, LiveOnly;
    var kept := LiveOnly(d, d.live);
    FreshId(d);
    LiveOnlyMembers(d, d.live);
    assert o.id !in kept;
    forall i | 0 <= i < |d'.live| ensures d'.live[i] in d'.orders {
      var x := d'.live[i];
      assert i < |kept| ==> x in kept;
    }
    forall x | x in d'.orders && d'.orders[x].IsOpen() ensures x in d'.live {
      if x != o.id {
        assert x in kept;
      }
    }
  }

  /** The bounds a request must respect to be taken. */
  ghost predicate Admits(b: Bounds, c: Config, s: State, r: Request) {
    var d := s.desk.(nextId := s.desk.nextId + 1, live := LiveOnly(s.desk, s.desk.live));
    !(NakedShort(c, s.(desk := d), r) || RiskRejected(c, s.(desk := d), r)) && Guarded(b, s) ==>
      && (r.side.Buy? && b.high(r.slot).Some? ==>
            Held(s.account, r.slot) + Open(s.desk, r.slot, Buy) + r.quantity <= b.high(r.slot).value)
      && (r.side.Sell? && b.low(r.slot).Some? ==>
            || Held(s.account, r.slot) - Open(s.desk, r.slot, Sell) - r.quantity >= b.low(r.slot).value
            || (b.clamped && r.reduceOnly && b.low(r.slot).value <= 0 <= Held(s.account, r.slot)
                && !PlainSellOpen(s.desk, r.slot)))
  }

  lemma SubmittedGuarded(b: Bounds, c: Config, s: State, r: Request)
    requires Guarded(b, s) && s.fault.None? && Admits(b, c, s, r)
    requires b.plain ==> !r.reduceOnly
    ensures Guarded(b, Submitted(c, s, r))
  {
    hide Coherent, Ledger, NakedShort, RiskRejected, LiveOnly, Pending, Refused, Stopped, WithinAt;
    var s' := Submitted(c, s, r);
    SubmittedCoherent(c, s, r);
    if r.quantity > 0 {
      var o := s'.desk.orders[s.desk.nextId + 1];
      SubmittedDesk(c, s, r);
      SubmitLedger(b, s.desk, o, s'.desk);
      forall slot ensures WithinAt(b, s', slot) {
        OpenAfterSubmit(b, s.desk, o, s'.desk, slot, Buy);
        OpenAfterSubmit(b, s.desk, o, s'.desk, slot, Sell);
        PlainSellsAfterSubmit(s.desk, s'.desk, o, slot);
        SubmittedWithin(b, c, s, r, slot);
      }
    } else {
      WithinReadsDeskAndAccount(b, s, s');
    }
  }

  lemma WithinReadsDeskAndAccount(b: Bounds, s: State, s': State)
    requires Within(b, s) && s'.desk == s.desk && s'.account == s.account
    ensures Within(b, s')
  {
    forall slot ensures WithinAt(b, s', slot) {
      assert WithinAt(b, s, slot);
    }
  }

  predicate Taken(c: Config, s: State, r: Request) {
    var d := s.desk.(nextId := s.desk.nextId + 1, live := LiveOnly(s.desk, s.desk.live));
    var s1 := s.(desk := d);
    !(Refused(c, r) || Stopped(c, s.market, r.slot.instrument) || NakedShort(c, s1, r) || RiskRejected(c, s1, r))
  }

  lemma SubmittedDesk(c: Config, s: State, r: Request)
    requires r.quantity > 0
    ensures var s' := Submitted(c, s, r);
            var o := NewOrder(s.desk.nextId + 1, r, if Taken(c, s, r) then InFlight else Rejected);
            && s'.desk.orders == s.desk.orders[o.id := o]
            && s'.desk.live == LiveOnly(s.desk, s.desk.live) + (if o.IsOpen() then [o.id] else [])
            && s'.account == s.account
  {
    hide NakedShort, RiskRejected, LiveOnly, Refused, Stopped;
  }

  lemma PlainSellsAfterSubmit(d: Desk, d': Desk, o: Order, slot: Slot)
    requires Coherent(d) && o.id == d.nextId + 1 && d'.orders == d.orders[o.id := o]
    ensures PlainSellOpen(d', slot) ==> PlainSellOpen(d, slot) || IsPlainSell(o, slot)
  {
    hide Coherent;
    FreshId(d);
    if PlainSellOpen(d', slot) {
      var id :| id in d'.orders && IsPlainSell(d'.orders[id], slot);
      assert id != o.id ==> IsPlainSell(d.orders[id], slot);
    }
  }

  lemma SubmittedWithin(b: Bounds, c: Config, s: State, r: Request, slot: Slot)
    requires Guarded(b, s) && s.fault.None? && Admits(b, c, s, r) && r.quantity > 0
    requires var s' := Submitted(c, s, r);
             var taken := Taken(c, s, r);
             && Open(s'.desk, slot, Buy)
                  == Open(s.desk, slot, Buy) + (if taken && r.slot == slot && r.side.Buy? then r.quantity else 0)
             && Open(s'.desk, slot, Sell)
                  == Open(s.desk, slot, Sell) + (if taken && r.slot == slot && r.side.Sell? then r.quantity else 0)
             && (PlainSellOpen(s'.desk, slot) ==>
                   PlainSellOpen(s.desk, slot) || (taken && r.slot == slot && r.side.Sell? && !r.reduceOnly))
    ensures WithinAt(b, Submitted(c, s, r), slot)
  {
    hide Coherent, Ledger, NakedShort, RiskRejected, LiveOnly, Open, Refused, Stopped, Submitted, PlainSellOpen;
    SubmittedDesk(c, s, r);
    assert WithinAt(b, s, slot);
  }

  // ----- Arrivals, triggers, cancellations, amendments -----

  /** Coming off the wire an order stands for the same size, or for none. */
  lemma ArriveGuarded(b: Bounds, s: State, x: OrderId, o': Order)
    requires Guarded(b, s) && x in s.desk.orders && s.desk.orders[x].status.InFlight?
    requires o'.id == x && Lighter(s.desk.orders[x], o') && !o'.status.InFlight?
    ensures Guarded(b, s.(desk := SetOrder(s.desk, o')))
  {
    hide Structure, Ledger;
    GuardedIsCoherent(b, s);
    OffBookUnlessOpen(s.desk, x);
    assert x !in s.desk.resting && x !in s.desk.untriggered;
    SetOrderCoherent(s.desk, o');
    SetOrderShrinks(b, s.desk, o');
    ShrinkGuarded(b, s, SetOrder(s.desk, o'));
  }

  lemma ListsGuarded(b: Bounds, s: State, d': Desk)
    requires Guarded(b, s) && d'.orders == s.desk.orders && d'.live == s.desk.live && Coherent(d')
    ensures Guarded(b, s.(desk := d'))
  {
    hide Coherent;
    ShrinksNone(b, s.desk);
    ShrinkGuarded(b, s, d');
  }

  lemma ReleasedGuarded(b: Bounds, c: Config, s: State, x: OrderId, funded: bool)
    requires Guarded(b, s) && s.fault.None?
    ensures Guarded(b, Released(c, s, x, funded))
  {
    hide Guarded, TryFill, SelfTrades, WouldCross, Fires, Stopped, Without, Coherent, Ledger;
    GuardedIsCoherent(b, s);
    var d := s.desk.(inflight := Without(s.desk.inflight, x));
    InflightIsFree(s.desk, d.inflight);
    ListsGuarded(b, s, d);
    if x in d.orders && d.orders[x].status.InFlight? {
      ReleasedInFlightGuarded(b, c, s.(desk := d), x);
    }
  }

  lemma ReleasedInFlightGuarded(b: Bounds, c: Config, s: State, x: OrderId)
    requires Guarded(b, s) && s.fault.None? && x in s.desk.orders && s.desk.orders[x].status.InFlight?
    ensures var o := s.desk.orders[x].(id := x);
            && Guarded(b, s.(desk := SetOrder(s.desk, o.(status := Rejected))))
            && Guarded(b, s.(desk := SetOrder(s.desk, o.(trigger := None, status := Rejected))))
            && Guarded(b, s.(desk := SetOrder(s.desk, o.(status := Untriggered)).(untriggered := s.desk.untriggered + [x])))
            && Guarded(b, TryFill(c, s.(desk := SetOrder(s.desk, o.(trigger := None, status := Accepted))), x))
  {
    hide Guarded, TryFill, Coherent;
    var o := s.desk.orders[x].(id := x);
    GuardedIsCoherent(b, s);
    ArriveGuarded(b, s, x, o.(status := Rejected));
    ArriveGuarded(b, s, x, o.(trigger := None, status := Rejected));
    ArriveGuarded(b, s, x, o.(status := Untriggered));
    ParkGuarded(b, s, x);
    ArriveGuarded(b, s, x, o.(trigger := None, status := Accepted));
    AcceptedIsOfferable(s.desk, x);
    TryFillGuarded(b, c, s.(desk := SetOrder(s.desk, o.(trigger := None, status := Accepted))), x);
  }

  lemma ParkGuarded(b: Bounds, s: State, x: OrderId)
    requires Guarded(b, s) && s.fault.None? && x in s.desk.orders && s.desk.orders[x].status.InFlight?
    requires var parked := SetOrder(s.desk, s.desk.orders[x].(id := x, status := Untriggered));
             Guarded(b, s.(desk := parked))
    ensures var parked := SetOrder(s.desk, s.desk.orders[x].(id := x, status := Untriggered));
            Guarded(b, s.(desk := parked.(untriggered := s.desk.untriggered + [x])))
  {
    hide Guarded, Structure, Ledger;
    var parked := SetOrder(s.desk, s.desk.orders[x].(id := x, status := Untriggered));
    GuardedIsCoherent(b, s);
    GuardedIsCoherent(b, s.(desk := parked));
    assert x !in s.desk.resting && x !in s.desk.untriggered;
    ParkCoherent(parked, x);
    ListsGuarded(b, s.(desk := parked), parked.(untriggered := s.desk.untriggered + [x]));
  }

  lemma {:induction false} ArmGuarded(b: Bounds, c: Config, s: State, ids: seq<OrderId>)
    requires Guarded(b, s) && s.fault.None? && Armable(s.desk, ids)
    ensures Guarded(b, Arm(c, s, ids))
    decreases |ids|
  {
    hide Guarded, TryFill, Coherent, Ledger, Kept;
    if ids != [] {
      var x := ids[0];
      var o := s.desk.orders[x].(id := x, trigger := None, status := Accepted);
      var s1 := s.(desk := SetOrder(s.desk, o));
      GuardedIsCoherent(b, s);
      ArmOneKept(c, s, ids, 0);
      TriggeredGuarded(b, s, x);
      TryFillGuarded(b, c, s1, x);
      ArmGuarded(b, c, TryFill(c, s1, x), ids[1..]);
    }
  }

  lemma TriggeredGuarded(b: Bounds, s: State, x: OrderId)
    requires Guarded(b, s) && x in s.desk.orders && s.desk.orders[x].status.Untriggered? && x !in s.desk.untriggered
    ensures var d' := SetOrder(s.desk, s.desk.orders[x].(id := x, trigger := None, status := Accepted));
            Guarded(b, s.(desk := d')) && Offerable(d', x)
  {
    hide Structure;
    OffBookUnlessOpen(s.desk, x);
    assert x !in s.desk.resting;
    var o := s.desk.orders[x].(id := x, trigger := None, status := Accepted);
    SetOrderCoherent(s.desk, o);
    SetOrderShrinks(b, s.desk, o);
    ShrinkGuarded(b, s, SetOrder(s.desk, o));
  }

  lemma TriggersArmedGuarded(b: Bounds, c: Config, s: State)
    requires Guarded(b, s) && s.fault.None?
    ensures Guarded(b, TriggersArmed(c, s))
  {
    hide Guarded, Coherent, Arm, StillParked, Armable, Ledger;
    var waiting := StillParked(s, s.desk.untriggered, false);
    GuardedIsCoherent(b, s);
    WaitingCoherent(s);
    ListsGuarded(b, s, s.desk.(untriggered := waiting));
    ArmGuarded(b, c, s.(desk := s.desk.(untriggered := waiting)), StillParked(s, s.desk.untriggered, true));
  }

  lemma {:induction false} CancelAllGuarded(b: Bounds, s: State, ids: seq<OrderId>)
    requires Guarded(b, s)
    ensures Guarded(b, s.(desk := CancelAll(s.desk, ids)))
    decreases |ids|
  {
    hide Guarded, Close;
    if ids != [] {
      CloseGuarded(b, s, ids[0]);
      CancelAllGuarded(b, s.(desk := Close(s.desk, ids[0], Cancelled)), ids[1..]);
    }
  }

  /** An amendment that does not ask for more. */
  predicate AsksNoMore(d: Desk, id: OrderId, quantity: Option<int>) {
    id in d.orders && quantity.Some? ==> quantity.value <= d.orders[id].quantity
  }

  lemma RequeuedDesk(c: Config, m: MarketData, d: Desk, x: OrderId, o': Order)
    requires x in d.orders && o'.id == x
    ensures Requeued(c, m, d, x, o').orders == d.orders[x := o'] && Requeued(c, m, d, x, o').live == d.live
  {
    hide Insert, Remove, DisplayedAt;
  }

  lemma AmendedDesk(c: Config, s: State, x: OrderId, quantity: Option<int>, limit: Option<int>)
    requires Coherent(s.desk) && AsksNoMore(s.desk, x, quantity)
    requires x in s.desk.orders ==> s.desk.orders[x].filled <= s.desk.orders[x].quantity
    ensures var s' := Amended(c, s, x, quantity, limit);
            && s'.account == s.account && s'.desk.live == s.desk.live
            && (s'.desk.orders == s.desk.orders
                || (x in s.desk.orders
                    && var o' := AmendedOrder(s.desk.orders[x], quantity, limit).(id := x);
                    s'.desk.orders == s.desk.orders[x := o'] && Lighter(s.desk.orders[x], o')))
  {
    hide Coherent, Requeued, LosesPriority;
    OffBookUnlessOpen(s.desk, x);
    if StillOpen(s.desk, x) {
      RequeuedDesk(c, s.market, s.desk, x, AmendedOrder(s.desk.orders[x], quantity, limit).(id := x));
    }
  }

  lemma AmendedGuarded(b: Bounds, c: Config, s: State, x: OrderId, quantity: Option<int>, limit: Option<int>)
    requires Guarded(b, s) && s.fault.None? && AsksNoMore(s.desk, x, quantity)
    ensures Guarded(b, Amended(c, s, x, quantity, limit))
  {
    hide Coherent, Amended, Within;
    AmendedDesk(c, s, x, quantity, limit);
    AmendedCoherent(c, s, x, quantity, limit);
    var s' := Amended(c, s, x, quantity, limit);
    ShrinksNone(b, s.desk);
    ShrinkGuarded(b, s, s'.desk);
    WithinReadsDeskAndAccount(b, s.(desk := s'.desk), s');
  }

  // ----- Runs of the steps a strategy and the market make -----

  /** What a strategy and the market do; not the engine's own orders, cash-outs or splits. */
  predicate Ordinary(s: State, op: Op) {
    match op
    case Submit(_) => true
    case Amend(id, quantity, _) => AsksNoMore(s.desk, id, quantity)
    case CancelOrder(_) => true
    case Release(_, _) => true
    case ArmTriggers => true
    case AdvanceTo(_) => true
    case Feed(_, _) => true
    case Print(_, _, _, _) => true
    case Match(_, _) => true
    case SetMark(_, _) => true
    case SetOracle(_, _) => true
    case Funding(_, _) => true
    case Dividend(_, _) => true
    case _ => false
  }

  lemma StepGuarded(b: Bounds, c: Config, s: State, op: Op)
    requires Guarded(b, s) && s.fault.None? && Ordinary(s, op)
    requires op.Submit? ==> Admits(b, c, s, op.request) && (b.plain ==> !op.request.reduceOnly)
    requires b.clamped ==> !c.usesQueue
    ensures Guarded(b, Step(c, s, op))
  {
    hide Guarded, Submitted, Amended, Released, TriggersArmed, Printed, MatchResting, CancelAll, Close, Admits;
    match op
    case Submit(r) => SubmittedGuarded(b, c, s, r);
    case Amend(id, q, l) => AmendedGuarded(b, c, s, id, q, l);
    case CancelOrder(id) => CloseGuarded(b, s, id);
    case Release(id, funded) => ReleasedGuarded(b, c, s, id, funded);
    case ArmTriggers => TriggersArmedGuarded(b, c, s);
    case AdvanceTo(now) =>
      CancelAllGuarded(b, s, Doomed(c, s.desk, s.desk.resting, now));
      OnlyDeskAndHoldingsMatter(b, s.(desk := CancelAll(s.desk, Doomed(c, s.desk, s.desk.resting, now))), Advanced(c, s, now));
      OnlyDeskAndHoldingsMatter(b, s, s.(fault := Some(BadRequest)));
    case Print(slot, price, size, aggressor) => PrintedGuarded(b, c, s, slot, price, size, aggressor);
    case Match(slot, corporate) => MatchGuarded(b, c, s, slot, corporate);
    case _ =>
      OnlyDeskAndHoldingsMatter(b, s, Step(c, s, op));
  }

  lemma OnlyDeskAndHoldingsMatter(b: Bounds, s: State, s': State)
    requires Guarded(b, s)
    ensures s'.desk == s.desk && s'.account.positions == s.account.positions ==> Guarded(b, s')
  {
    hide Coherent, Ledger;
    if s'.desk == s.desk && s'.account.positions == s.account.positions {
      forall slot ensures WithinAt(b, s', slot) {
        assert WithinAt(b, s, slot);
      }
    }
  }

  /** Every step of a run is an ordinary one. */
  predicate OrdinaryRun(c: Config, ops: seq<Op>) {
    ops == [] || (OrdinaryRun(c, ops[..|ops| - 1]) && Ordinary(Run(c, ops[..|ops| - 1]), ops[|ops| - 1]))
  }

  /** Every order a run sends respects the bounds if it is taken. */
  ghost predicate AdmittedRun(b: Bounds, c: Config, ops: seq<Op>) {
    ops == [] ||
    (AdmittedRun(b, c, ops[..|ops| - 1])
     && var op := ops[|ops| - 1];
        (op.Submit? ==> Admits(b, c, Run(c, ops[..|ops| - 1]), op.request) && (b.plain ==> !op.request.reduceOnly)))
  }

  lemma {:induction false} RunGuarded(b: Bounds, c: Config, ops: seq<Op>)
    requires OrdinaryRun(c, ops) && AdmittedRun(b, c, ops) && Within(b, Init(c)) && (b.clamped ==> !c.usesQueue)
    ensures Guarded(b, Run(c, ops))
    decreases |ops|
  {
    hide Step, Admits, Ordinary, WithinAt;
    if ops != [] {
      var n := |ops| - 1;
      var s := Run(c, ops[..n]);
      RunGuarded(b, c, ops[..n]);
      FaultStops(c, s, ops[n]);
      if s.fault.None? {
        StepGuarded(b, c, s, ops[n]);
      }
    }
  }

  lemma {:induction false} OpenIsNotNegative(b: Bounds, d: Desk, ids: seq<OrderId>, slot: Slot, side: Side)
    requires Ledger(b, d)
    ensures Pending(d, ids, slot, side, false) >= 0
    decreases |ids|
  {
    if ids != [] {
      OpenIsNotNegative(b, d, ids[1..], slot, side);
    }
  }

  // ----- The position limit -----

  /** A limit is positive wherever one is set. */
  function PositionLimit(maximum: int): Bounds {
    Bounds(_ => Some(maximum), _ => Some(-maximum), false, false)
  }

  lemma LimitAdmits(c: Config, s: State, r: Request)
    requires c.maxAbsPosition.Some? && c.maxAbsPosition.value > 0
    ensures Admits(PositionLimit(c.maxAbsPosition.value), c, s, r)
  {
    hide NakedShort, Coherent, Ledger, Within, LiveOnly, Pending, OpenCount, Held, PlainSellOpen;
    var d := s.desk.(nextId := s.desk.nextId + 1, live := LiveOnly(s.desk, s.desk.live));
    CheckedOpen(s.desk, d, r.slot, Buy);
    CheckedOpen(s.desk, d, r.slot, Sell);
    HeldIsQuantity(s.account, r.slot);
  }

  lemma HeldIsQuantity(a: Account, slot: Slot)
    ensures Held(a, slot) == P.At(a.positions, slot).quantity
  {
  }

  /** The check sums the pruned list; nothing open is missed by that. */
  lemma CheckedOpen(d: Desk, d1: Desk, slot: Slot, side: Side)
    requires d1.orders == d.orders && d1.live == LiveOnly(d, d.live)
    ensures Pending(d1, d1.live, slot, side, false) == Open(d, slot, side)
  {
    hide Pending, LiveOnly;
    LiveOnlyPending(d, d.live, slot, side);
    PendingReadsOrders(d, d1, d1.live, slot, side, false);
  }

  lemma {:induction false} LimitAdmitsRun(c: Config, ops: seq<Op>)
    requires c.maxAbsPosition.Some? && c.maxAbsPosition.value > 0
    ensures AdmittedRun(PositionLimit(c.maxAbsPosition.value), c, ops)
    decreases |ops|
  {
    hide Admits, Run;
    if ops != [] {
      LimitAdmitsRun(c, ops[..|ops| - 1]);
      if ops[|ops| - 1].Submit? {
        LimitAdmits(c, Run(c, ops[..|ops| - 1]), ops[|ops| - 1].request);
      }
    }
  }

  /**
   The position limit, over every run of submits, cancels, shrinking or repricing amends, arrivals,
   triggers, prints, matches and expiries: neither filling everything open on the buy side nor
   everything open on the sell side could break it, so no position ever has.
   */
  lemma PositionLimitHolds(c: Config, ops: seq<Op>, slot: Slot)
    requires c.maxAbsPosition.Some? && c.maxAbsPosition.value > 0
    requires OrdinaryRun(c, ops)
    ensures var s, limit := Run(c, ops), c.maxAbsPosition.value;
            && Held(s.account, slot) + Open(s.desk, slot, Buy) <= limit
            && Held(s.account, slot) - Open(s.desk, slot, Sell) >= -limit
            && Abs(Held(s.account, slot)) <= limit
  {
    hide Run, AdmittedRun, Coherent, Ledger, OrdinaryRun, Pending;
    var b := PositionLimit(c.maxAbsPosition.value);
    LimitAdmitsRun(c, ops);
    StartsWithin(b, c);
    RunGuarded(b, c, ops);
    assert WithinAt(b, Run(c, ops), slot);
    OpenIsNotNegative(b, Run(c, ops).desk, Run(c, ops).desk.live, slot, Buy);
    OpenIsNotNegative(b, Run(c, ops).desk, Run(c, ops).desk.live, slot, Sell);
  }

  /** Nothing is held or open at the start. */
  lemma StartsWithin(b: Bounds, c: Config)
    requires forall slot :: (b.high(slot).Some? ==> b.high(slot).value >= 0) && (b.low(slot).Some? ==> b.low(slot).value <= 0)
    ensures Within(b, Init(c))
  {
    forall slot ensures WithinAt(b, Init(c), slot) {
    }
  }
}
