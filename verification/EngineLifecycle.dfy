/**
 The life of one order, over whole runs.

 An order that ended stays as it ended, and no step ever takes a fill back.  While an order
 rests, nothing but a print, its own amendment or its own end touches its place in the queue.
 */
module EngineLifecycle {
  import opened FixedPoint
  import opened Sorting
  import opened Sums
  import opened Orders
  import opened Book
  import opened RestingIndex
  import opened Engine
  import opened EngineCoherence
  import opened EngineRuns
  import P = Positions

  predicate Done(d: Desk, id: OrderId) {
    id in d.orders && d.orders[id].status.IsTerminal()
  }

  /** On the book, and open. */
  predicate Queued(d: Desk, id: OrderId) {
    id in d.resting && StillOpen(d, id)
  }

  /** The order is not forgotten, not revived, and not unfilled. */
  predicate Forward(d: Desk, d': Desk, id: OrderId) {
    id in d.orders ==>
      && id in d'.orders
      && d'.orders[id].filled >= d.orders[id].filled
      && (Done(d, id) ==> d'.orders[id].status == d.orders[id].status && d'.orders[id].filled == d.orders[id].filled)
  }

  /** Where the order rested it rests still, with the same size ahead of it, unless it ended. */
  predicate KeepsPlace(d: Desk, d': Desk, id: OrderId) {
    Queued(d, id) ==>
      || Done(d', id)
      || (Queued(d', id) && d'.orders[id].side == d.orders[id].side
          && ValueOr(d'.queueAhead, id, 0) == ValueOr(d.queueAhead, id, 0))
  }

  /** What the order is for has not changed. */
  predicate SameTerms(o: Order, o': Order) {
    && o'.slot == o.slot && o'.side == o.side && o'.kind == o.kind && o'.tif == o.tif
    && o'.reduceOnly == o.reduceOnly && o'.postOnly == o.postOnly
  }

  predicate KeepsTerms(d: Desk, d': Desk, id: OrderId) {
    id in d.orders ==> id in d'.orders && SameTerms(d.orders[id], d'.orders[id])
  }

  /** Kept but for a rescaling of size and prices. */
  predicate Carried(d: Desk, d': Desk, id: OrderId) {
    Forward(d, d', id) && KeepsPlace(d, d', id)
  }

  predicate Kept(d: Desk, d': Desk, id: OrderId) {
    Carried(d, d', id) && KeepsTerms(d, d', id)
  }

  lemma KeptNone(d: Desk, id: OrderId)
    ensures Kept(d, d, id)
  {
  }

  lemma CarriedTrans(d: Desk, d1: Desk, d2: Desk, id: OrderId)
    requires Carried(d, d1, id) && Carried(d1, d2, id)
    ensures Carried(d, d2, id)
  {
  }

  lemma KeptTrans(d: Desk, d1: Desk, d2: Desk, id: OrderId)
    requires Kept(d, d1, id) && Kept(d1, d2, id)
    ensures Kept(d, d2, id)
  {
    hide Carried;
    CarriedTrans(d, d1, d2, id);
  }

  // ----- Building blocks -----

  lemma RemoveOtherKept(d: Desk, x: OrderId, id: OrderId)
    requires x == id ==> Done(d, id) || id !in d.resting
    ensures Kept(d, RemoveResting(d, x), id)
  {
    hide Remove;
    WithoutProperties(d.resting, x);
  }

  /** An order is ended and taken off the book in one move. */
  lemma EndKept(d: Desk, x: OrderId, o': Order, id: OrderId)
    requires StillOpen(d, x) && o'.id == x && o'.status.IsTerminal() && o'.filled >= d.orders[x].filled
    requires SameTerms(d.orders[x], o')
    ensures Kept(d, RemoveResting(SetOrder(d, o'), x), id)
  {
    hide Remove;
    WithoutProperties(d.resting, x);
  }

  lemma CloseKept(d: Desk, x: OrderId, id: OrderId)
    requires Coherent(d)
    ensures Kept(d, Close(d, x, Cancelled), id)
  {
    hide RemoveResting;
    OffBookUnlessOpen(d, x);
    if StillOpen(d, x) {
      EndKept(d, x, d.orders[x].(status := Cancelled), id);
    } else {
      RemoveOtherKept(d, x, id);
    }
  }

  lemma OffBookUnlessOpen(d: Desk, x: OrderId)
    requires Coherent(d)
    ensures !StillOpen(d, x) ==> x !in d.resting
    ensures x in d.orders ==> d.orders[x].id == x
  {
  }

  /** Changing an order that ends up no less filled, and open if it was resting. */
  lemma SetOrderKept(d: Desk, o': Order, id: OrderId)
    requires o'.id in d.orders ==> o'.filled >= d.orders[o'.id].filled && SameTerms(d.orders[o'.id], o')
    requires Done(d, o'.id) ==> o'.status == d.orders[o'.id].status && o'.filled == d.orders[o'.id].filled
    requires Queued(d, o'.id) ==> o'.IsOpen()
    ensures Kept(d, SetOrder(d, o'), id)
  {
  }

  /** The same, for an order whose size and prices are rescaled. */
  lemma SetOrderCarried(d: Desk, o': Order, id: OrderId)
    requires o'.id in d.orders ==>
               && o'.filled == d.orders[o'.id].filled && o'.side == d.orders[o'.id].side
               && o'.status == d.orders[o'.id].status
    ensures Carried(d, SetOrder(d, o'), id)
  {
  }

  lemma RestOrCancelKept(c: Config, m: MarketData, d: Desk, x: OrderId, id: OrderId)
    requires Coherent(d) && x in d.orders
    ensures Kept(d, RestOrCancel(c, m, d, x), id)
  {
    hide Close, Insert, Coherent;
    OffBookUnlessOpen(d, x);
    CloseKept(d, x, id);
  }

  lemma ExecuteKept(c: Config, s: State, x: OrderId, price: int, q: int, taker: bool, id: OrderId)
    requires Coherent(s.desk) && x in s.desk.orders && AtVenue(s.desk.orders[x]) && 0 < q <= s.desk.orders[x].Remaining()
    ensures Kept(s.desk, Execute(c, s, x, price, q, taker).desk, id)
  {
    hide RemoveResting, AfterFill, Coherent;
    OffBookUnlessOpen(s.desk, x);
    var o' := s.desk.orders[x].RecordFill(q);
    if o'.IsOpen() {
      SetOrderKept(s.desk, o', id);
    } else {
      EndKept(s.desk, x, o', id);
    }
  }

  lemma {:induction false} ExecuteAllKept(c: Config, s: State, x: OrderId, fills: seq<(int, int)>, taker: bool, id: OrderId)
    requires Coherent(s.desk) && s.fault.None? && x in s.desk.orders
    requires fills != [] ==> AtVenue(s.desk.orders[x])
    requires FitsIn(fills, s.desk.orders[x].Remaining())
    ensures Kept(s.desk, ExecuteAll(c, s, x, fills, taker).desk, id)
    decreases |fills|
  {
    hide Coherent, BookFill, Kept, AfterFill;
    KeptNone(s.desk, id);
    if fills != [] {
      var q := fills[0].1;
      var s1 := Execute(c, s, x, fills[0].0, q, taker);
      ExecuteKept(c, s, x, fills[0].0, q, taker, id);
      BookFillCoherent(c, s, x, fills[0].0, q, c.fee(s.account.fills, s.desk.orders[x].(id := x), fills[0].0, q, taker), taker);
      assert fills[1..] != [] ==> fills[1..][0].1 > 0 && AtVenue(s1.desk.orders[x]);
      ExecuteAllKept(c, s1, x, fills[1..], taker, id);
      KeptTrans(s.desk, s1.desk, ExecuteAll(c, s, x, fills, taker).desk, id);
    }
  }

  lemma SettledKept(c: Config, s: State, x: OrderId, id: OrderId)
    requires Coherent(s.desk)
    ensures Kept(s.desk, Settled(c, s, x).desk, id)
  {
    hide Coherent, RestOrCancel, Kept;
    KeptNone(s.desk, id);
    if StillOpen(s.desk, x) {
      RestOrCancelKept(c, s.market, s.desk, x, id);
    }
  }

  lemma TryFillOnBookKept(c: Config, s: State, x: OrderId, id: OrderId)
    requires Coherent(s.desk) && s.fault.None? && x in s.desk.orders && AtVenue(s.desk.orders[x])
    requires s.desk.orders[x].slot in s.market.books
    ensures var o := s.desk.orders[x];
            var w := Walk(EffectiveBook(c, s.market, o), o.side, Wanted(s.account, o), o.LimitPrice());
            Kept(s.desk, Settled(c, ExecuteAll(c, s, x, w.fills, !o.postOnly), x).desk, id)
  {
    hide Coherent, Settled, ExecuteAll, Kept, OnlyOrder, Walk, Wanted, EffectiveBook;
    var o := s.desk.orders[x];
    var w := Walk(EffectiveBook(c, s.market, o), o.side, Wanted(s.account, o), o.LimitPrice());
    WantedFits(c, s, o);
    var s1 := ExecuteAll(c, s, x, w.fills, !o.postOnly);
    ExecuteAllCoherent(c, s, x, w.fills, !o.postOnly);
    ExecuteAllKept(c, s, x, w.fills, !o.postOnly, id);
    SettledKept(c, s1, x, id);
    KeptTrans(s.desk, s1.desk, Settled(c, s1, x).desk, id);
  }

  lemma TryFillKept(c: Config, s: State, x: OrderId, id: OrderId)
    requires Coherent(s.desk) && s.fault.None? && Offerable(s.desk, x)
    ensures Kept(s.desk, TryFill(c, s, x).desk, id)
  {
    hide Coherent, Settled, ExecuteAll, Kept, Walk, Wanted, EffectiveBook, RestOrCancel, Close, RemoveResting, Stopped;
    KeptNone(s.desk, id);
    if StillOpen(s.desk, x) && !s.desk.orders[x].status.InFlight? {
      OffBookUnlessOpen(s.desk, x);
      EndKept(s.desk, x, s.desk.orders[x].(id := x, status := Rejected), id);
      RestOrCancelKept(c, s.market, s.desk, x, id);
      CloseKept(s.desk, x, id);
      if s.desk.orders[x].slot in s.market.books {
        TryFillOnBookKept(c, s, x, id);
      }
    }
  }

  // ----- Steps -----

  lemma {:induction false} OfferKept(c: Config, s: State, ids: seq<OrderId>, id: OrderId)
    requires Coherent(s.desk) && s.fault.None? && AllOfferable(s.desk, ids)
    ensures Kept(s.desk, Offer(c, s, ids).desk, id)
    decreases |ids|
  {
    hide Structure, TryFill, Kept;
    KeptNone(s.desk, id);
    if ids != [] {
      var s1 := TryFill(c, s, ids[0]);
      assert Offerable(s.desk, ids[0]);
      TryFillCoherent(c, s, ids[0]);
      TryFillKept(c, s, ids[0], id);
      forall i | 0 <= i < |ids[1..]| ensures Offerable(s1.desk, ids[1..][i]) {
        assert Offerable(s.desk, ids[i + 1]);
      }
      OfferKept(c, s1, ids[1..], id);
      KeptTrans(s.desk, s1.desk, Offer(c, s, ids).desk, id);
    }
  }

  lemma MatchKept(c: Config, s: State, slot: Slot, corporate: bool, id: OrderId)
    requires Coherent(s.desk) && s.fault.None?
    ensures Kept(s.desk, MatchResting(c, s, slot, corporate).desk, id)
  {
    hide Coherent, Candidates, Offer, Pruned, Kept, AllResting, AllOfferable;
    KeptNone(s.desk, id);
    if slot in s.market.books {
      var ids := Candidates(c, s, slot, corporate);
      CandidatesAreResting(c, s, slot, corporate);
      RestingIsOfferable(s.desk, ids);
      OfferCoherent(c, s, ids);
      OfferKept(c, s, ids, id);
      PrunedIsIdle(Offer(c, s, ids));
    }
  }

  lemma NewOrderKept(d: Desk, o: Order, live: seq<OrderId>, inflight: seq<OrderId>, id: OrderId)
    requires Coherent(d) && o.id == d.nextId + 1
    ensures Kept(d, d.(orders := d.orders[o.id := o], nextId := o.id, live := live, inflight := inflight), id)
  {
    assert o.id !in d.orders;
  }

  lemma SubmittedKept(c: Config, s: State, r: Request, id: OrderId)
    requires Coherent(s.desk)
    ensures Kept(s.desk, Submitted(c, s, r).desk, id)
  {
    hide Coherent, Kept, NakedShort, RiskRejected, LiveOnly, Refused, Stopped;
    KeptNone(s.desk, id);
    var s' := Submitted(c, s, r);
    if r.quantity > 0 {
      var o := s'.desk.orders[s.desk.nextId + 1];
      NewOrderKept(s.desk, o, s'.desk.live, s'.desk.inflight, id);
      assert s'.desk == s.desk.(orders := s.desk.orders[o.id := o], nextId := o.id,
                                live := s'.desk.live, inflight := s'.desk.inflight);
    }
  }

  lemma EngineOrderKept(s: State, slot: Slot, side: Side, quantity: int, reduceOnly: bool, id: OrderId)
    requires Coherent(s.desk)
    ensures Kept(s.desk, WithEngineOrder(s, slot, side, quantity, reduceOnly).desk, id)
  {
    hide Coherent, Kept;
    var x := s.desk.nextId + 1;
    var o := Order(x, slot, side, Market, quantity, 0, ImmediateOrCancel, Accepted, reduceOnly, false, None);
    NewOrderKept(s.desk, o, s.desk.live, s.desk.inflight, id);
  }

  lemma PlacedKept(c: Config, s: State, slot: Slot, side: Side, quantity: int, reduceOnly: bool, id: OrderId)
    requires Coherent(s.desk) && s.fault.None?
    ensures Kept(s.desk, EngineOrder(c, s, slot, side, quantity, reduceOnly).desk, id)
  {
    hide Coherent, Kept, TryFill, WithEngineOrder;
    KeptNone(s.desk, id);
    if quantity > 0 {
      var s1 := WithEngineOrder(s, slot, side, quantity, reduceOnly);
      EngineOrderKept(s, slot, side, quantity, reduceOnly, id);
      EngineOrderIsNew(s, slot, side, quantity, reduceOnly);
      TryFillKept(c, s1, s1.desk.nextId, id);
      KeptTrans(s.desk, s1.desk, TryFill(c, s1, s1.desk.nextId).desk, id);
    }
  }

  /** A fresh engine order, filled at once at a given price. */
  lemma FreshFillKept(c: Config, s: State, slot: Slot, side: Side, q: int, price: int, commission: int, id: OrderId)
    requires Coherent(s.desk) && s.fault.None? && q > 0
    ensures var s1 := WithEngineOrder(s, slot, side, q, false);
            && s1.desk.nextId in s1.desk.orders
            && Kept(s.desk, BookFill(c, s1, s1.desk.nextId, price, q, commission, false).desk, id)
  {
    hide Coherent, Kept, BookFill, WithEngineOrder;
    var s1 := WithEngineOrder(s, slot, side, q, false);
    EngineOrderKept(s, slot, side, q, false, id);
    EngineOrderIsNew(s, slot, side, q, false);
    BookFillKept(c, s1, s1.desk.nextId, price, q, commission, false, id);
    KeptTrans(s.desk, s1.desk, BookFill(c, s1, s1.desk.nextId, price, q, commission, false).desk, id);
  }

  lemma BookFillKept(c: Config, s: State, x: OrderId, price: int, q: int, commission: int, taker: bool, id: OrderId)
    requires Coherent(s.desk) && x in s.desk.orders && AtVenue(s.desk.orders[x]) && 0 < q <= s.desk.orders[x].Remaining()
    ensures Kept(s.desk, BookFill(c, s, x, price, q, commission, taker).desk, id)
  {
    hide Coherent, Kept, AfterFill, RemoveResting;
    ExecuteKept(c, s, x, price, q, taker, id);
  }

  lemma {:induction false} CashOutKept(c: Config, s: State, instrument: nat, outcomes: nat, price: int, id: OrderId)
    requires Coherent(s.desk) && s.fault.None?
    ensures Kept(s.desk, CashOut(c, s, instrument, outcomes, price).desk, id)
    decreases outcomes
  {
    hide Coherent, Kept, BookFill, WithEngineOrder;
    KeptNone(s.desk, id);
    if outcomes > 0 {
      CashOutKept(c, s, instrument, outcomes - 1, price, id);
      CashOutCoherent(c, s, instrument, outcomes - 1, price);
      var s1 := CashOut(c, s, instrument, outcomes - 1, price);
      var slot := Slot(instrument, outcomes - 1);
      var q := P.At(s1.account.positions, slot).quantity;
      if q != 0 {
        var side := if q > 0 then Sell else Buy;
        var s2 := WithEngineOrder(s1, slot, side, Abs(q), false);
        FreshFillKept(c, s1, slot, side, Abs(q), price, 0, id);
        var fee := c.fee(s2.account.fills, s2.desk.orders[s2.desk.nextId].(id := s2.desk.nextId), price, Abs(q), false);
        FreshFillKept(c, s1, slot, side, Abs(q), price, fee, id);
        KeptTrans(s.desk, s1.desk, CashOut(c, s, instrument, outcomes, price).desk, id);
      }
    }
  }

  lemma {:induction false} BookLegsKept(c: Config, s: State, instrument: nat, side: Side, sets: int, basis: seq<int>, k: nat, cost: int, id: OrderId)
    requires Coherent(s.desk) && s.fault.None? && k <= |basis| && sets > 0
    ensures Kept(s.desk, BookLegs(c, s, instrument, side, sets, basis, k, cost).desk, id)
    decreases |basis| - k
  {
    hide Coherent, Kept, BookFill;
    KeptNone(s.desk, id);
    if k < |basis| {
      var slot, fee := Slot(instrument, k), if k == 0 then cost else 0;
      var s1 := BookLeg(c, s, slot, side, sets, basis[k], fee);
      FreshFillKept(c, s, slot, side, sets, basis[k], fee, id);
      BookLegCoherent(c, s, slot, side, sets, basis[k], fee);
      BookLegsKept(c, s1, instrument, side, sets, basis, k + 1, cost, id);
      KeptTrans(s.desk, s1.desk, BookLegs(c, s, instrument, side, sets, basis, k, cost).desk, id);
    }
  }

  lemma SetOperationKept(c: Config, s: State, instrument: nat, kind: SetKind, quantity: int, id: OrderId)
    requires Coherent(s.desk) && s.fault.None?
    ensures Kept(s.desk, SetOperation(c, s, instrument, kind, quantity).desk, id)
  {
    hide Coherent, Kept, BookLegs, SetBasis, SetRefused, SetCount;
    KeptNone(s.desk, id);
    match SetCount(c, instrument, kind, quantity)
    case None =>
    case Some((sets, side)) =>
      if quantity > 0 {
        SetCountIsPositive(c, instrument, kind, quantity);
        match SetBasis(c, s.market, instrument)
        case None =>
        case Some(basis) => BookLegsKept(c, s, instrument, side, sets, basis, 0, SetCost(c, kind), id);
      }
  }

  lemma {:induction false} CancelAllKept(d: Desk, ids: seq<OrderId>, id: OrderId)
    requires Coherent(d)
    ensures Kept(d, CancelAll(d, ids), id)
    decreases |ids|
  {
    hide Coherent, Kept, Close, OnlyOrder;
    KeptNone(d, id);
    if ids != [] {
      CloseKept(d, ids[0], id);
      CloseCoherent(d, ids[0]);
      CancelAllKept(Close(d, ids[0], Cancelled), ids[1..], id);
      KeptTrans(d, Close(d, ids[0], Cancelled), CancelAll(d, ids), id);
    }
  }

  // ----- Release and triggers -----

  lemma InflightKept(d: Desk, inflight: seq<OrderId>, id: OrderId)
    ensures Kept(d, d.(inflight := inflight), id)
  {
  }

  lemma UntriggeredKept(d: Desk, untriggered: seq<OrderId>, id: OrderId)
    ensures Kept(d, d.(untriggered := untriggered), id)
  {
  }

  /** Accepting, parking or refusing an order that was on its way. */
  lemma ArriveKept(d: Desk, x: OrderId, o': Order, id: OrderId)
    requires Coherent(d) && x in d.orders && d.orders[x].status.InFlight?
    requires o'.id == x && o'.filled == d.orders[x].filled && SameTerms(d.orders[x], o')
    ensures Kept(d, SetOrder(d, o'), id)
  {
    assert x !in d.resting;
  }

  lemma ReleasedKept(c: Config, s: State, x: OrderId, funded: bool, id: OrderId)
    requires Coherent(s.desk) && s.fault.None?
    ensures Kept(s.desk, Released(c, s, x, funded).desk, id)
  {
    hide Structure, Kept, TryFill, SelfTrades, WouldCross, Fires, Stopped, Without;
    var d := s.desk.(inflight := Without(s.desk.inflight, x));
    KeptNone(s.desk, id);
    InflightKept(s.desk, d.inflight, id);
    InflightIsFree(s.desk, d.inflight);
    if x in s.desk.inflight && x in d.orders && d.orders[x].status.InFlight? {
      ReleasedInFlightKept(c, s.(desk := d), x, funded, id);
      KeptTrans(s.desk, d, Released(c, s, x, funded).desk, id);
    }
  }

  /** Every outcome of an arrival, from the order taken off the wire. */
  lemma ReleasedInFlightKept(c: Config, s: State, x: OrderId, funded: bool, id: OrderId)
    requires Coherent(s.desk) && s.fault.None? && x in s.desk.orders && s.desk.orders[x].status.InFlight?
    ensures var o := s.desk.orders[x].(id := x);
            && Kept(s.desk, SetOrder(s.desk, o.(status := Rejected)), id)
            && Kept(s.desk, SetOrder(s.desk, o.(trigger := None, status := Rejected)), id)
            && Kept(s.desk, SetOrder(s.desk, o.(status := Untriggered)).(untriggered := s.desk.untriggered + [x]), id)
            && Kept(s.desk, TryFill(c, s.(desk := SetOrder(s.desk, o.(trigger := None, status := Accepted))), x).desk, id)
  {
    hide Coherent, Kept, TryFill;
    var o := s.desk.orders[x].(id := x);
    ArriveKept(s.desk, x, o.(status := Rejected), id);
    ArriveKept(s.desk, x, o.(trigger := None, status := Rejected), id);
    ArriveKept(s.desk, x, o.(status := Untriggered), id);
    var parked := SetOrder(s.desk, o.(status := Untriggered));
    UntriggeredKept(parked, s.desk.untriggered + [x], id);
    KeptTrans(s.desk, parked, parked.(untriggered := s.desk.untriggered + [x]), id);
    var accepted := SetOrder(s.desk, o.(trigger := None, status := Accepted));
    ArriveKept(s.desk, x, o.(trigger := None, status := Accepted), id);
    AcceptedIsOfferable(s.desk, x);
    TryFillKept(c, s.(desk := accepted), x, id);
    KeptTrans(s.desk, accepted, TryFill(c, s.(desk := accepted), x).desk, id);
  }

  lemma AcceptedIsOfferable(d: Desk, x: OrderId)
    requires Coherent(d) && x in d.orders && d.orders[x].status.InFlight?
    ensures var d' := SetOrder(d, d.orders[x].(id := x, trigger := None, status := Accepted));
            Coherent(d') && Offerable(d', x)
  {
    hide Structure;
    OffBookUnlessOpen(d, x);
    assert x !in d.resting && x !in d.untriggered;
    SetOrderCoherent(d, d.orders[x].(id := x, trigger := None, status := Accepted));
  }

  lemma {:induction false} ArmKept(c: Config, s: State, ids: seq<OrderId>, id: OrderId)
    requires Coherent(s.desk) && s.fault.None? && Armable(s.desk, ids)
    ensures Kept(s.desk, Arm(c, s, ids).desk, id)
    decreases |ids|
  {
    hide Structure, Kept, TryFill;
    KeptNone(s.desk, id);
    if ids != [] {
      var x := ids[0];
      var o := s.desk.orders[x].(id := x, trigger := None, status := Accepted);
      var s1 := s.(desk := SetOrder(s.desk, o));
      var s2 := TryFill(c, s1, x);
      ArmOneKept(c, s, ids, id);
      ArmKept(c, s2, ids[1..], id);
      KeptTrans(s.desk, s2.desk, Arm(c, s, ids).desk, id);
    }
  }

  /** The first triggered order joins the market; the rest are as they were. */
  lemma ArmOneKept(c: Config, s: State, ids: seq<OrderId>, id: OrderId)
    requires Coherent(s.desk) && s.fault.None? && Armable(s.desk, ids) && ids != []
    ensures var o := s.desk.orders[ids[0]].(id := ids[0], trigger := None, status := Accepted);
            var s2 := TryFill(c, s.(desk := SetOrder(s.desk, o)), ids[0]);
            && Kept(s.desk, s2.desk, id) && Coherent(s2.desk) && s2.fault.None? && Armable(s2.desk, ids[1..])
  {
    hide Structure, Kept, TryFill;
    var x := ids[0];
    var o := s.desk.orders[x].(id := x, trigger := None, status := Accepted);
    assert x !in s.desk.resting;
    SetOrderCoherent(s.desk, o);
    var s1 := s.(desk := SetOrder(s.desk, o));
    SetOrderKept(s.desk, o, id);
    TryFillCoherent(c, s1, x);
    TryFillKept(c, s1, x, id);
    var s2 := TryFill(c, s1, x);
    KeptTrans(s.desk, s1.desk, s2.desk, id);
    forall i | 0 <= i < |ids[1..]|
      ensures ids[1..][i] in s2.desk.orders && s2.desk.orders[ids[1..][i]].status.Untriggered?
              && ids[1..][i] !in s2.desk.untriggered
    {
      assert ids[1..][i] == ids[i + 1] && ids[i + 1] != x;
      assert s1.desk.orders[ids[i + 1]] == s.desk.orders[ids[i + 1]];
    }
  }

  lemma AcceptedOrderCoherent(d: Desk, x: OrderId)
    requires Coherent(d) && x in d.orders && d.orders[x].status.Untriggered? && x !in d.untriggered
    ensures var d' := SetOrder(d, d.orders[x].(id := x, trigger := None, status := Accepted));
            Coherent(d') && Offerable(d', x)
  {
    hide Structure;
    assert x !in d.resting;
    SetOrderCoherent(d, d.orders[x].(id := x, trigger := None, status := Accepted));
  }

  lemma WaitingCoherent(s: State)
    requires Coherent(s.desk)
    ensures var waiting, ready := StillParked(s, s.desk.untriggered, false), StillParked(s, s.desk.untriggered, true);
            Coherent(s.desk.(untriggered := waiting)) && Armable(s.desk.(untriggered := waiting), ready)
  {
    hide StillParked, Fires, Keyed, NothingElseIndexed, EveryRestingIndexed, LevelsAscend, Tidy;
    StillParkedMembers(s, s.desk.untriggered, false);
    StillParkedMembers(s, s.desk.untriggered, true);
    StructureIgnoresParked(s.desk, StillParked(s, s.desk.untriggered, false));
  }

  lemma StructureIgnoresParked(d: Desk, untriggered: seq<OrderId>)
    requires Structure(d)
    ensures Structure(d.(untriggered := untriggered))
  {
  }

  lemma TriggersArmedKept(c: Config, s: State, id: OrderId)
    requires Coherent(s.desk) && s.fault.None?
    ensures Kept(s.desk, TriggersArmed(c, s).desk, id)
  {
    hide Coherent, Kept, Arm, StillParked, Armable;
    var waiting, ready := StillParked(s, s.desk.untriggered, false), StillParked(s, s.desk.untriggered, true);
    var d1 := s.desk.(untriggered := waiting);
    WaitingCoherent(s);
    UntriggeredKept(s.desk, waiting, id);
    ArmKept(c, s.(desk := d1), ready, id);
    KeptTrans(s.desk, d1, Arm(c, s.(desk := d1), ready).desk, id);
  }

  // ----- Amendments and splits -----

  lemma RequeuedOtherKept(c: Config, m: MarketData, d: Desk, x: OrderId, o': Order, id: OrderId)
    requires x in d.orders && o'.id == x && x != id
    ensures Kept(d, Requeued(c, m, d, x, o'), id)
  {
    hide Insert, Remove, DisplayedAt;
  }

  lemma AmendedOtherKept(c: Config, s: State, x: OrderId, quantity: Option<int>, limit: Option<int>, id: OrderId)
    requires Coherent(s.desk) && x != id
    ensures Kept(s.desk, Amended(c, s, x, quantity, limit).desk, id)
  {
    hide Coherent, Kept, Requeued, LosesPriority, AmendedOrder;
    KeptNone(s.desk, id);
    if StillOpen(s.desk, x) {
      var o' := AmendedOrder(s.desk.orders[x], quantity, limit).(id := x);
      RequeuedOtherKept(c, s.market, s.desk, x, o', id);
      SetOtherKept(s.desk, o', id);
    }
  }

  lemma SetOtherKept(d: Desk, o': Order, id: OrderId)
    requires o'.id != id
    ensures Kept(d, SetOrder(d, o'), id)
  {
  }

  /** An amendment of size alone leaves an order's terms; only a new limit changes them. */
  lemma AmendedTerms(c: Config, s: State, x: OrderId, quantity: Option<int>, limit: Option<int>, id: OrderId)
    requires Coherent(s.desk) && (x != id || limit.None?)
    ensures KeepsTerms(s.desk, Amended(c, s, x, quantity, limit).desk, id)
  {
    hide Coherent, Requeued, LosesPriority;
    OffBookUnlessOpen(s.desk, x);
    if StillOpen(s.desk, x) {
      RequeuedOrders(c, s.market, s.desk, x, AmendedOrder(s.desk.orders[x], quantity, limit).(id := x));
    }
  }

  lemma RequeuedOrders(c: Config, m: MarketData, d: Desk, x: OrderId, o': Order)
    requires x in d.orders && o'.id == x
    ensures Requeued(c, m, d, x, o').orders == d.orders[x := o']
  {
    hide Insert, Remove, DisplayedAt;
  }

  lemma AmendedForward(c: Config, s: State, x: OrderId, quantity: Option<int>, limit: Option<int>, id: OrderId)
    requires Coherent(s.desk)
    ensures Forward(s.desk, Amended(c, s, x, quantity, limit).desk, id)
  {
    hide Coherent, Requeued, LosesPriority;
    OffBookUnlessOpen(s.desk, x);
    if StillOpen(s.desk, x) {
      RequeuedOrders(c, s.market, s.desk, x, AmendedOrder(s.desk.orders[x], quantity, limit).(id := x));
    }
  }

  lemma {:induction false} SplitRestingCarried(d: Desk, ids: seq<OrderId>, instrument: nat, ratio: int, id: OrderId)
    requires ratio > 0
    ensures Carried(d, SplitResting(d, ids, instrument, ratio), id)
    decreases |ids|
  {
    hide Insert, Remove, Carried, SplitRestingOne;
    CarriedNone(d, id);
    if ids != [] {
      var d1 := SplitRestingOne(d, ids[0], instrument, ratio);
      SplitRestingOneCarried(d, ids[0], instrument, ratio, id);
      SplitRestingCarried(d1, ids[1..], instrument, ratio, id);
      CarriedTrans(d, d1, SplitResting(d, ids, instrument, ratio), id);
    }
  }

  lemma SplitRestingOneCarried(d: Desk, x: OrderId, instrument: nat, ratio: int, id: OrderId)
    requires ratio > 0
    ensures Carried(d, SplitRestingOne(d, x, instrument, ratio), id)
  {
    hide Insert, Remove;
  }

  lemma {:induction false} SplitHeldCarried(d: Desk, ids: seq<OrderId>, instrument: nat, ratio: int, inflightOnly: bool, id: OrderId)
    requires ratio > 0
    ensures Carried(d, SplitHeld(d, ids, instrument, ratio, inflightOnly), id)
    decreases |ids|
  {
    hide Carried;
    CarriedNone(d, id);
    if ids != [] {
      var x := ids[0];
      var hit := x in d.orders && d.orders[x].slot.instrument == instrument
                 && (!inflightOnly || d.orders[x].status.InFlight?);
      var d1 := if hit then SetOrder(d, SplitOrder(ratio, d.orders[x]).(id := x)) else d;
      if hit {
        SetOrderCarried(d, SplitOrder(ratio, d.orders[x]).(id := x), id);
      }
      SplitHeldCarried(d1, ids[1..], instrument, ratio, inflightOnly, id);
      CarriedTrans(d, d1, SplitHeld(d, ids, instrument, ratio, inflightOnly), id);
    }
  }

  lemma SplitSharesCarried(s: State, instrument: nat, ratio: int, id: OrderId)
    ensures Carried(s.desk, SplitShares(s, instrument, ratio).desk, id)
  {
    hide Carried, SplitResting, SplitHeld, SplitPrices, BookFeed.SplitBook;
    CarriedNone(s.desk, id);
    if ratio > 0 {
      var d1 := SplitResting(s.desk, s.desk.resting, instrument, ratio);
      var d2 := SplitHeld(d1, d1.untriggered, instrument, ratio, false);
      var d3 := SplitHeld(d2, d2.live, instrument, ratio, true);
      SplitRestingCarried(s.desk, s.desk.resting, instrument, ratio, id);
      SplitHeldCarried(d1, d1.untriggered, instrument, ratio, false, id);
      SplitHeldCarried(d2, d2.live, instrument, ratio, true, id);
      CarriedTrans(s.desk, d1, d2, id);
      CarriedTrans(s.desk, d2, d3, id);
    }
  }

  lemma CarriedNone(d: Desk, id: OrderId)
    ensures Carried(d, d, id)
  {
  }

  // A split of one instrument leaves the orders of every other one as they are.

  lemma {:induction false} SplitRestingTerms(d: Desk, ids: seq<OrderId>, instrument: nat, ratio: int, id: OrderId)
    requires ratio > 0 && id in d.orders && d.orders[id].slot.instrument != instrument
    ensures id in SplitResting(d, ids, instrument, ratio).orders && SplitResting(d, ids, instrument, ratio).orders[id] == d.orders[id]
    decreases |ids|
  {
    hide Insert, Remove, SplitOrder;
    if ids != [] {
      SplitRestingTerms(SplitRestingOne(d, ids[0], instrument, ratio), ids[1..], instrument, ratio, id);
    }
  }

  lemma {:induction false} SplitHeldTerms(d: Desk, ids: seq<OrderId>, instrument: nat, ratio: int, inflightOnly: bool, id: OrderId)
    requires ratio > 0 && id in d.orders && d.orders[id].slot.instrument != instrument
    ensures var d' := SplitHeld(d, ids, instrument, ratio, inflightOnly);
            id in d'.orders && d'.orders[id] == d.orders[id]
    decreases |ids|
  {
    hide SplitOrder;
    if ids != [] {
      var x := ids[0];
      var hit := x in d.orders && d.orders[x].slot.instrument == instrument
                 && (!inflightOnly || d.orders[x].status.InFlight?);
      SplitHeldTerms(if hit then SetOrder(d, SplitOrder(ratio, d.orders[x]).(id := x)) else d,
                     ids[1..], instrument, ratio, inflightOnly, id);
    }
  }

  lemma SplitElsewhereTerms(s: State, instrument: nat, ratio: int, id: OrderId)
    requires id in s.desk.orders ==> s.desk.orders[id].slot.instrument != instrument
    ensures KeepsTerms(s.desk, SplitShares(s, instrument, ratio).desk, id)
  {
    hide SplitResting, SplitHeld, SplitPositions, SplitMarket;
    if ratio > 0 && id in s.desk.orders {
      var d1 := SplitResting(s.desk, s.desk.resting, instrument, ratio);
      var d2 := SplitHeld(d1, d1.untriggered, instrument, ratio, false);
      SplitRestingTerms(s.desk, s.desk.resting, instrument, ratio, id);
      SplitHeldTerms(d1, d1.untriggered, instrument, ratio, false, id);
      SplitHeldTerms(d2, d2.live, instrument, ratio, true, id);
    }
  }

  /** An amendment of this order keeps its limit and does not grow it. */
  predicate Gentle(d: Desk, op: Op, id: OrderId) {
    op.Amend? && op.id == id && id in d.orders ==>
      && (op.newLimit.Some? ==> d.orders[id].kind == Limit(op.newLimit.value))
      && (op.newQuantity.Some? ==> op.newQuantity.value <= d.orders[id].quantity)
  }

  lemma GentleKept(c: Config, s: State, op: Op, id: OrderId)
    requires Coherent(s.desk) && op.Amend? && op.id == id && Gentle(s.desk, op, id)
    ensures Kept(s.desk, Amended(c, s, id, op.newQuantity, op.newLimit).desk, id)
  {
    hide Structure, Requeued;
    KeptNone(s.desk, id);
    if StillOpen(s.desk, id) {
      assert s.desk.orders[id].id == id by { KeyedId(s.desk, id); }
      assert !LosesPriority(s.desk.orders[id], op.newQuantity, op.newLimit);
    }
  }

  lemma KeyedId(d: Desk, id: OrderId)
    requires Structure(d) && id in d.orders
    ensures d.orders[id].id == id
  {
  }

  /** Every step but a print, or an amendment for another limit or more size, keeps an order's place; only a split rescales it. */
  lemma StepKept(c: Config, s: State, op: Op, id: OrderId)
    requires Coherent(s.desk) && !op.Print? && Gentle(s.desk, op, id)
    ensures Carried(s.desk, Step(c, s, op).desk, id)
    ensures !op.SplitAction? ==> KeepsTerms(s.desk, Step(c, s, op).desk, id)
  {
    hide Coherent, Carried, KeepsTerms, Submitted, Amended, Released, TriggersArmed, MatchResting, SplitShares, EngineOrder, SetOperation,
         CashOut, CancelAll, Close, FundingTotal, DividendDue;
    KeptNone(s.desk, id);
    if s.fault.None? {
      match op
      case Submit(r) => SubmittedKept(c, s, r, id);
      case CancelOrder(x) => CloseKept(s.desk, x, id);
      case Amend(x, q, l) =>
        if x == id {
          GentleKept(c, s, op, id);
        } else {
          AmendedOtherKept(c, s, x, q, l, id);
        }
      case Release(x, funded) => ReleasedKept(c, s, x, funded, id);
      case ArmTriggers => TriggersArmedKept(c, s, id);
      case AdvanceTo(now) => CancelAllKept(s.desk, Doomed(c, s.desk, s.desk.resting, now), id);
      case Match(slot, corporate) => MatchKept(c, s, slot, corporate, id);
      case SplitAction(i, ratio) => SplitSharesCarried(s, i, ratio, id);
      case Delist(i, price) => CashOutKept(c, s, i, c.outcomes(i), price, id);
      case PlaceEngineOrder(slot, side, q, reduceOnly) => PlacedKept(c, s, slot, side, q, reduceOnly, id);
      case SetOp(i, kind, q) => SetOperationKept(c, s, i, kind, q, id);
      case _ =>
    }
  }
}
