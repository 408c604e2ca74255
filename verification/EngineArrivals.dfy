/**
 What becomes of an order when it arrives: rejected, parked or offered, each exactly when.
 */
module EngineArrivals {
  import opened Sorting
  import opened Orders
  import opened Book
  import opened Engine
  import opened EngineCoherence
  import opened EngineRuns
  import EngineLifecycle
  import RestingIndex

  /** The market shows a price this limit order would trade at. */
  predicate MarketReaches(m: MarketData, o: Order) {
    && o.kind.Limit? && o.slot in m.books
    && (if o.side == Buy then exists p :: p in m.books[o.slot].asks && p <= o.kind.limit
        else exists p :: p in m.books[o.slot].bids && p >= o.kind.limit)
  }

  /** The mark has come to the order's trigger. */
  predicate MarkReaches(m: MarketData, o: Order) {
    && o.slot in m.marks
    && match o.trigger
       case None => false
       case Some(Above(p)) => p <= m.marks[o.slot]
       case Some(Below(p)) => m.marks[o.slot] <= p
  }

  /** Nothing the market shows on its own side is better than this resting order. */
  predicate LeadsItsSide(m: MarketData, x: Order)
    requires x.kind.Limit?
  {
    x.slot in m.books ==>
      if x.side == Buy then forall p :: p in m.books[x.slot].bids ==> p <= x.kind.limit
      else forall p :: p in m.books[x.slot].asks ==> x.kind.limit <= p
  }

  /** A resting order of the account the arriving one would trade with. */
  predicate Meets(m: MarketData, x: Order, o: Order) {
    && x.IsOpen() && x.kind.Limit? && x.slot == o.slot && x.side != o.side
    && match o.kind
       case Market => LeadsItsSide(m, x)
       case Limit(p) => if o.side == Buy then x.kind.limit <= p else p <= x.kind.limit
  }

  predicate MeetsOwn(m: MarketData, d: Desk, o: Order) {
    exists x :: x in d.resting && x in d.orders && Meets(m, d.orders[x], o)
  }

  lemma CrossingIsReach(m: MarketData, o: Order)
    ensures WouldCross(m, o) <==> MarketReaches(m, o)
  {
    hide BestAsk, BestBid;
  }

  lemma FiringIsReach(m: MarketData, o: Order)
    ensures Fires(m, o) <==> MarkReaches(m, o)
  {
  }

  lemma LeadingIsFront(m: MarketData, x: Order)
    requires x.kind.Limit?
    ensures RestsAtFront(m, x) <==> LeadsItsSide(m, x)
  {
    hide BestAsk, BestBid;
  }

  lemma SelfTradeIsMeeting(m: MarketData, d: Desk, o: Order)
    ensures SelfTrades(m, d, o) <==> MeetsOwn(m, d, o)
  {
    hide RestsAtFront, LeadsItsSide;
    forall x | x in d.orders && d.orders[x].kind.Limit? ensures RestsAtFront(m, d.orders[x]) <==> LeadsItsSide(m, d.orders[x]) {
      LeadingIsFront(m, d.orders[x]);
    }
    if MeetsOwn(m, d, o) {
      var x :| x in d.resting && x in d.orders && Meets(m, d.orders[x], o);
      var i :| 0 <= i < |d.resting| && d.resting[i] == x;
      assert StillOpen(d, d.resting[i]);
    }
  }

  /** Turned away at the door, whatever it is worth. */
  predicate ShutOut(c: Config, m: MarketData, o: Order) {
    Stopped(c, m, o.slot.instrument) || (o.postOnly && MarketReaches(m, o))
  }

  predicate Waits(m: MarketData, o: Order) {
    o.trigger.Some? && !MarkReaches(m, o)
  }

  /** What becomes of an order still in flight that arrives: the order's status, and what else moved. */
  predicate Arrived(c: Config, s: State, s': State, id: OrderId, funded: bool)
    requires id in s.desk.orders
  {
    var o := s.desk.orders[id];
    && id in s'.desk.orders && id !in s'.desk.inflight
    && (var status := s'.desk.orders[id].status;
        if ShutOut(c, s.market, o) then status == Rejected && Unmoved(s, s') && s'.desk.untriggered == s.desk.untriggered
        else if Waits(s.market, o) then status == Untriggered && Unmoved(s, s') && s'.desk.untriggered == s.desk.untriggered + [id]
        else if MeetsOwn(s.market, s.desk, o) || !funded then
          status == Rejected && Unmoved(s, s') && s'.desk.untriggered == s.desk.untriggered
        else !status.Rejected? && !status.Untriggered? && !status.InFlight? && s'.desk.untriggered == s.desk.untriggered)
  }

  /** Nothing traded and nothing came to rest. */
  predicate Unmoved(s: State, s': State) {
    && s'.account == s.account && s'.market == s.market
    && s'.desk.resting == s.desk.resting && s'.desk.queueAhead == s.desk.queueAhead
  }

  lemma MeetingReadsPrice(m: MarketData, d: Desk, d': Desk, o: Order, o': Order)
    requires d'.orders == d.orders && d'.resting == d.resting
    requires o'.slot == o.slot && o'.side == o.side && o'.kind == o.kind
    ensures MeetsOwn(m, d', o') <==> MeetsOwn(m, d, o)
    ensures MarketReaches(m, o') <==> MarketReaches(m, o)
  {
    hide LeadsItsSide;
    if MeetsOwn(m, d, o) {
      var x :| x in d.resting && x in d.orders && Meets(m, d.orders[x], o);
      assert Meets(m, d'.orders[x], o');
    }
    if MeetsOwn(m, d', o') {
      var x :| x in d'.resting && x in d'.orders && Meets(m, d'.orders[x], o');
      assert Meets(m, d.orders[x], o);
    }
  }

  lemma {:induction false} ExecuteAllStatus(c: Config, s: State, id: OrderId, fills: seq<(int, int)>, taker: bool)
    requires id in s.desk.orders
    ensures var s' := ExecuteAll(c, s, id, fills, taker);
            && id in s'.desk.orders
            && (s'.desk.orders[id].status == s.desk.orders[id].status
                || s'.desk.orders[id].status.Filled? || s'.desk.orders[id].status.PartiallyFilled?)
            && s'.desk.inflight == s.desk.inflight && s'.desk.untriggered == s.desk.untriggered
    decreases |fills|
  {
    hide AfterFill, RestingIndex.Remove, Without;
    if fills != [] && s.fault.None? {
      ExecuteAllStatus(c, Execute(c, s, id, fills[0].0, fills[0].1, taker), id, fills[1..], taker);
    }
  }

  lemma RestOrCancelStatus(c: Config, m: MarketData, d: Desk, id: OrderId)
    requires Keyed(d) && id in d.orders
    ensures var d' := RestOrCancel(c, m, d, id);
            && id in d'.orders && (d'.orders[id].status == d.orders[id].status || d'.orders[id].status.Cancelled?)
            && d'.inflight == d.inflight && d'.untriggered == d.untriggered
  {
    hide RestingIndex.Remove, RestingIndex.Insert, Without, DisplayedAt;
    assert d.orders[id].id == id;
  }

  lemma CloseStatus(d: Desk, id: OrderId)
    requires Keyed(d) && id in d.orders
    ensures var d' := Close(d, id, Cancelled);
            && id in d'.orders && (d'.orders[id].status == d.orders[id].status || d'.orders[id].status.Cancelled?)
            && d'.inflight == d.inflight && d'.untriggered == d.untriggered
  {
    hide RestingIndex.Remove, Without;
    assert d.orders[id].id == id;
  }

  /** An accepted order offered to a market that trades is not turned away. */
  lemma OfferedIsNotTurnedAway(c: Config, s: State, id: OrderId)
    requires Coherent(s.desk) && s.fault.None? && Offerable(s.desk, id)
    requires id in s.desk.orders && s.desk.orders[id].status.Accepted? && !Stopped(c, s.market, s.desk.orders[id].slot.instrument)
    ensures var d' := TryFill(c, s, id).desk;
            && id in d'.orders && d'.inflight == s.desk.inflight && d'.untriggered == s.desk.untriggered
            && !d'.orders[id].status.Rejected? && !d'.orders[id].status.Untriggered? && !d'.orders[id].status.InFlight?
  {
    hide Coherent, ExecuteAll, RestOrCancel, Close, Walk, EffectiveBook, Wanted, Stopped;
    var o := s.desk.orders[id];
    CoherentIsKeyed(s.desk);
    RestOrCancelStatus(c, s.market, s.desk, id);
    CloseStatus(s.desk, id);
    if o.slot in s.market.books {
      var w := Walk(EffectiveBook(c, s.market, o), o.side, Wanted(s.account, o), o.LimitPrice());
      var s1 := ExecuteAll(c, s, id, w.fills, !o.postOnly);
      ExecuteAllStatus(c, s, id, w.fills, !o.postOnly);
      WantedFits(c, s, o);
      ExecuteAllCoherent(c, s, id, w.fills, !o.postOnly);
      CoherentIsKeyed(s1.desk);
      RestOrCancelStatus(c, s1.market, s1.desk, id);
    }
  }

  lemma ReleasedArrives(c: Config, s: State, id: OrderId, funded: bool)
    requires Coherent(s.desk) && s.fault.None?
    requires id in s.desk.inflight && id in s.desk.orders && s.desk.orders[id].status.InFlight?
    ensures Arrived(c, s, Released(c, s, id, funded), id, funded)
  {
    hide Coherent, TryFill, SelfTrades, WouldCross, Fires, Without, Stopped, MeetsOwn, MarketReaches, MarkReaches;
    var d := s.desk.(inflight := Without(s.desk.inflight, id));
    var o := d.orders[id].(id := id);
    var o1 := o.(trigger := None);
    WithoutProperties(s.desk.inflight, id);
    InflightIsFree(s.desk, d.inflight);
    CrossingIsReach(s.market, o);
    FiringIsReach(s.market, o);
    SelfTradeIsMeeting(s.market, d, o1);
    MeetingReadsPrice(s.market, s.desk, d, s.desk.orders[id], o1);
    MeetingReadsPrice(s.market, s.desk, d, s.desk.orders[id], o);
    MarkReadsTrigger(s.market, s.desk.orders[id], o);
    EngineLifecycle.AcceptedIsOfferable(d, id);
    var s1 := s.(desk := SetOrder(d, o1.(status := Accepted)));
    if !Stopped(c, s.market, o.slot.instrument) {
      OfferedIsNotTurnedAway(c, s1, id);
    }
  }

  lemma MarkReadsTrigger(m: MarketData, o: Order, o': Order)
    requires o'.slot == o.slot && o'.trigger == o.trigger
    ensures MarkReaches(m, o') <==> MarkReaches(m, o)
  {
  }

  /**
   In every reachable state, an order that arrives is rejected exactly when its market has stopped,
   it is post-only and the market reaches it, or, once nothing parks it, it would trade with a
   resting order of the same account or cannot be funded; it is parked exactly when it has a trigger
   the mark has not come to; and otherwise it is accepted and offered.  Rejected or parked, nothing
   trades and nothing comes to rest.
   */
  lemma ArrivalIsExact(c: Config, ops: seq<Op>, id: OrderId, funded: bool)
    requires var s := Run(c, ops);
             s.fault.None? && id in s.desk.inflight && id in s.desk.orders && s.desk.orders[id].status.InFlight?
    ensures var s := Run(c, ops);
            Arrived(c, s, Step(c, s, Release(id, funded)), id, funded)
  {
    hide Run, Coherent, Arrived, Released;
    RunIsSane(c, ops);
    ReleasedArrives(c, Run(c, ops), id, funded);
  }

  /** An id that is not on the wire does nothing; an order ended on the way only leaves the wire. */
  lemma LateArrivalIsIdle(c: Config, s: State, id: OrderId, funded: bool)
    requires s.fault.None? && !(id in s.desk.inflight && id in s.desk.orders && s.desk.orders[id].status.InFlight?)
    ensures var s' := Step(c, s, Release(id, funded));
            s' == s.(desk := s.desk.(inflight := s'.desk.inflight)) && id !in s'.desk.inflight
    ensures id !in s.desk.inflight ==> Step(c, s, Release(id, funded)) == s
  {
    hide TryFill, SelfTrades, WouldCross, Fires, Stopped;
    WithoutProperties(s.desk.inflight, id);
  }

  // ----- Arming -----

  /** A parked order that is still waiting on its trigger. */
  predicate Parked(d: Desk, id: OrderId) {
    id in d.untriggered && id in d.orders && d.orders[id].status.Untriggered? && d.orders[id].trigger.Some?
  }

  lemma {:induction false} StillParkedAre(s: State, ids: seq<OrderId>, ready: bool, id: OrderId)
    ensures id in StillParked(s, ids, ready) <==>
              && id in ids && id in s.desk.orders && s.desk.orders[id].status.Untriggered? && s.desk.orders[id].trigger.Some?
              && (MarkReaches(s.market, s.desk.orders[id]) <==> ready)
    decreases |ids|
  {
    hide MarkReaches, Fires;
    if ids != [] {
      StillParkedAre(s, ids[1..], ready, id);
      assert ids == [ids[0]] + ids[1..];
      if id in s.desk.orders {
        FiringIsReach(s.market, s.desk.orders[id]);
      }
    }
  }

  /** Arming a list: its orders are let loose, and no other order is touched. */
  lemma {:induction false} ArmIsExact(c: Config, s: State, ids: seq<OrderId>, id: OrderId)
    requires Coherent(s.desk) && s.fault.None? && Armable(s.desk, ids) && id in s.desk.orders
    ensures var d' := Arm(c, s, ids).desk;
            && d'.untriggered == s.desk.untriggered && id in d'.orders
            && (id in ids ==> !d'.orders[id].status.Untriggered?)
            && (id !in ids ==> d'.orders[id] == s.desk.orders[id])
    decreases |ids|
  {
    hide Coherent, TryFill, EngineLifecycle.Kept;
    if ids != [] {
      var x := ids[0];
      var s1 := s.(desk := SetOrder(s.desk, s.desk.orders[x].(id := x, trigger := None, status := Accepted)));
      var s2 := TryFill(c, s1, x);
      EngineLifecycle.AcceptedOrderCoherent(s.desk, x);
      TryFillCoherent(c, s1, x);
      EngineLifecycle.ArmOneKept(c, s, ids, x);
      ArmIsExact(c, s2, ids[1..], id);
      assert ids == [ids[0]] + ids[1..];
      NoDuplicatesTail(ids);
    }
  }

  /**
   In every reachable state arming lets loose exactly the parked orders whose trigger the mark has
   come to; the others stay parked as they are.
   */
  lemma ArmingIsExact(c: Config, ops: seq<Op>, id: OrderId)
    requires Run(c, ops).fault.None? && Parked(Run(c, ops).desk, id)
    ensures var s := Run(c, ops);
            var d' := Step(c, s, ArmTriggers).desk;
            && id in d'.orders
            && (if MarkReaches(s.market, s.desk.orders[id]) then id !in d'.untriggered && !d'.orders[id].status.Untriggered?
                else Parked(d', id) && d'.orders[id] == s.desk.orders[id])
  {
    hide Run, Coherent, Arm, StillParked, Armable, MarkReaches;
    var s := Run(c, ops);
    RunIsSane(c, ops);
    var waiting, ready := StillParked(s, s.desk.untriggered, false), StillParked(s, s.desk.untriggered, true);
    EngineLifecycle.WaitingCoherent(s);
    StillParkedAre(s, s.desk.untriggered, false, id);
    StillParkedAre(s, s.desk.untriggered, true, id);
    ArmIsExact(c, s.(desk := s.desk.(untriggered := waiting)), ready, id);
  }
}
