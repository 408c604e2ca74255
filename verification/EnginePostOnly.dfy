/**
 When a post-only order trades.

 The venue refuses one that would cross on arrival, and nothing checks it again.  So it takes
 exactly when something other than the market puts it within reach: a trigger that lets it loose
 into a market already there, or an amendment of its limit.  Otherwise only the book coming to it
 can fill it.
 */
module EnginePostOnly {
  import opened Sorting
  import opened Orders
  import opened Book
  import opened Engine
  import opened EngineCoherence
  import opened EngineRuns
  import opened EngineMatching
  import opened EngineOffers
  import opened EngineQueueRuns
  import EngineLifecycle
  import RestingIndex

  // ----- One order among those offered -----

  lemma SettledKeepsFilled(c: Config, s: State, id: OrderId)
    requires Coherent(s.desk) && id in s.desk.orders
    ensures FilledOf(Settled(c, s, id).desk, id) == s.desk.orders[id].filled
  {
    hide Coherent, RestingIndex.Insert, RestingIndex.Remove, DisplayedAt;
    EngineLifecycle.OffBookUnlessOpen(s.desk, id);
  }

  /** A plain limit order is filled on being offered exactly when the top of the book is within its limit. */
  lemma OfferFillsExactlyWhenCrossing(c: Config, s: State, id: OrderId)
    requires Offered(c, s, id) && PlainLimit(c, s, id)
    ensures FilledOf(TryFill(c, s, id).desk, id) > s.desk.orders[id].filled <==> WouldCross(s.market, s.desk.orders[id])
  {
    hide KeepsPrices, Coherent, SoundFills, DepthFor, Outcome, ExecuteAll, Settled, Close, Stopped, OnlyOrder, Walk, FitsIn, Recorded;
    var o := s.desk.orders[id];
    OfferedIsKeyed(c, s, id);
    WalkForOffer(c, s, id);
    var b := s.market.books[o.slot];
    var w := Walk(b, o.side, o.Remaining(), o.LimitPrice());
    assert ValidBook(b);
    WalkIsEmptyUnlessCrossing(b, o.side, o.Remaining(), o.kind.limit);
    TradesAreRecorded(c, s, id, w.fills, !o.postOnly);
    ExecuteAllCoherent(c, s, id, w.fills, !o.postOnly);
    TotalOfNone(w.fills, o.Remaining());
    SettledKeepsFilled(c, ExecuteAll(c, s, id, w.fills, !o.postOnly), id);
  }

  /** Another order's turn leaves this one just as offerable. */
  lemma StillOffered(c: Config, s: State, s': State, id: OrderId, x: OrderId)
    requires Offered(c, s, id) && PlainLimit(c, s, id) && x != id
    requires Coherent(s'.desk) && s'.fault.None? && s'.market == s.market && OnlyOrder(s.desk, s'.desk, x)
    ensures Offered(c, s', id) && PlainLimit(c, s', id) && s'.desk.orders[id] == s.desk.orders[id]
  {
    hide Coherent, KeepsPrices, BooksValid;
  }

  lemma {:induction false} OfferAmongOthers(c: Config, s: State, ids: seq<OrderId>, id: OrderId)
    requires Offered(c, s, id) && PlainLimit(c, s, id)
    requires AllOfferable(s.desk, ids) && NoDuplicates(ids) && id in ids
    ensures FilledOf(Offer(c, s, ids).desk, id) > s.desk.orders[id].filled <==> WouldCross(s.market, s.desk.orders[id])
    decreases |ids|
  {
    hide Structure, KeepsPrices, BooksValid, TryFill, WouldCross, PlainLimit;
    var x, rest := ids[0], ids[1..];
    var s1 := TryFill(c, s, x);
    assert Offerable(s.desk, x);
    TryFillCoherent(c, s, x);
    forall i | 0 <= i < |rest| ensures Offerable(s1.desk, rest[i]) && rest[i] != x {
      assert rest[i] == ids[i + 1] && Offerable(s.desk, ids[i + 1]);
    }
    assert ids == [x] + rest;
    if x == id {
      OfferFillsExactlyWhenCrossing(c, s, id);
      assert id !in rest;
      OfferLeavesOthers(c, s1, rest, id);
    } else {
      StillOffered(c, s, s1, id, x);
      OfferAmongOthers(c, s1, rest, id);
    }
  }

  lemma AscendingHasNoDuplicates(ids: seq<OrderId>)
    requires StrictlyAscending(ids)
    ensures NoDuplicates(ids)
  {
  }

  lemma CandidatesOf(c: Config, s: State, slot: Slot, id: OrderId)
    requires Coherent(s.desk) && slot in s.market.books && id in s.desk.resting && s.desk.orders[id].slot == slot
    ensures NoDuplicates(Candidates(c, s, slot, false))
    ensures id in Candidates(c, s, slot, false) <==> !c.preservesPrices || WouldCross(s.market, s.desk.orders[id])
  {
    hide Structure, Candidates, Scan, WouldCross;
    var ids := Scan(s.desk, slot);
    ScanHolds(s.desk, slot);
    if c.preservesPrices {
      CandidatesAreTheCrossing(c, s, slot);
      CrossingOfMembers(s, ids);
      AscendingHasNoDuplicates(CrossingOf(s, ids));
    } else {
      CandidatesAreTheScan(c, s, slot);
      AscendingHasNoDuplicates(ids);
    }
  }

  /** Matching its market fills a resting plain order exactly when the top of the book is within its limit. */
  lemma MatchFillsExactlyWhenCrossing(c: Config, s: State, id: OrderId)
    requires Offered(c, s, id) && PlainLimit(c, s, id) && id in s.desk.resting
    ensures var slot := s.desk.orders[id].slot;
            var after := FilledOf(MatchResting(c, s, slot, false).desk, id);
            after > s.desk.orders[id].filled <==> WouldCross(s.market, s.desk.orders[id])
  {
    hide Structure, RestingIsOpen, KeepsPrices, BooksValid, MatchResting, WouldCross, PlainLimit, Candidates, Offer, AllOfferable, AllResting;
    var slot := s.desk.orders[id].slot;
    var ids := Candidates(c, s, slot, false);
    CandidatesOf(c, s, slot, id);
    CandidatesAreResting(c, s, slot, false);
    RestingIsOfferable(s.desk, ids);
    MatchIsOffer(c, s, slot);
    if id in ids {
      OfferAmongOthers(c, s, ids, id);
    } else {
      OfferLeavesOthers(c, s, ids, id);
    }
  }

  // ----- Amending the limit -----

  lemma AmendedLimit(c: Config, s: State, id: OrderId, quantity: Option<int>, limit: int)
    requires Coherent(s.desk) && StillOpen(s.desk, id) && s.fault.None?
    requires Amended(c, s, id, quantity, Some(limit)).fault.None?
    ensures var s1 := Amended(c, s, id, quantity, Some(limit));
            && s1.market == s.market && s1.account == s.account
            && s1.desk.resting == s.desk.resting && s1.desk.untriggered == s.desk.untriggered
            && s1.desk.orders == s.desk.orders[id := AmendedOrder(s.desk.orders[id], quantity, Some(limit)).(id := id)]
  {
    hide Coherent, Requeued;
    var o' := AmendedOrder(s.desk.orders[id], quantity, Some(limit)).(id := id);
    RequeuedLists(c, s.market, s.desk, id, o');
  }

  lemma RequeuedLists(c: Config, m: MarketData, d: Desk, id: OrderId, o': Order)
    requires id in d.orders && o'.id == id
    ensures var d' := Requeued(c, m, d, id, o');
            d'.orders == d.orders[id := o'] && d'.resting == d.resting && d'.untriggered == d.untriggered
  {
    hide RestingIndex.Insert, RestingIndex.Remove, DisplayedAt;
  }

  /** The order as amended would be offered to a market that trades, as a plain order. */
  predicate AmendsPlainly(c: Config, s: State, id: OrderId, quantity: Option<int>, limit: int) {
    && id in s.desk.resting && id in s.desk.orders
    && var o := s.desk.orders[id];
       var o' := AmendedOrder(o, quantity, Some(limit)).(id := id);
       && !o.reduceOnly && o'.Remaining() > 0
       && o.slot in s.market.books && !Stopped(c, s.market, o.slot.instrument)
       && c.synthetic(s.market.books[o.slot], o').None?
  }

  lemma AmendedIsOffered(c: Config, s: State, id: OrderId, quantity: Option<int>, limit: int)
    requires Coherent(s.desk) && s.fault.None? && KeepsPrices(c) && BooksValid(s.market)
    requires AmendsPlainly(c, s, id, quantity, limit) && Amended(c, s, id, quantity, Some(limit)).fault.None?
    ensures var s1 := Amended(c, s, id, quantity, Some(limit));
            && s1.market == s.market && s1.account == s.account
            && Offered(c, s1, id) && PlainLimit(c, s1, id) && id in s1.desk.resting
            && s1.desk.orders[id].kind == Limit(limit) && s1.desk.orders[id].postOnly == s.desk.orders[id].postOnly
            && var o := s.desk.orders[id].(kind := Limit(limit));
               (WouldCross(s1.market, s1.desk.orders[id]) <==> WouldCross(s.market, o))
  {
    hide Structure, KeepsPrices, BooksValid, Stopped, Amended;
    assert StillOpen(s.desk, id);
    AmendedLimit(c, s, id, quantity, limit);
    AmendedCoherent(c, s, id, quantity, Some(limit));
  }

  /**
   Amending the limit of a resting post-only order is not checked: its next offer trades it, and
   the next match of its market fills it, exactly when the top opposite price is within the new
   limit.
   */
  lemma AmendedPostOnlyTradesExactlyWhenCrossing(c: Config, ops: seq<Op>, id: OrderId, quantity: Option<int>, limit: int)
    requires KeepsPrices(c) && Run(c, ops).fault.None?
    requires AmendsPlainly(c, Run(c, ops), id, quantity, limit) && Run(c, ops).desk.orders[id].postOnly
    requires Amended(c, Run(c, ops), id, quantity, Some(limit)).fault.None?
    ensures var s := Run(c, ops);
            var s1 := Amended(c, s, id, quantity, Some(limit));
            var within := WouldCross(s.market, s.desk.orders[id].(kind := Limit(limit)));
            && id in s1.desk.orders
            && (|TryFill(c, s1, id).account.fills| > |s1.account.fills| <==> within)
            && (FilledOf(MatchResting(c, s1, s1.desk.orders[id].slot, false).desk, id) > s1.desk.orders[id].filled <==> within)
  {
    hide Run, Coherent, KeepsPrices, BooksValid, Amended, TryFill, MatchResting, WouldCross, PlainLimit, AmendsPlainly, StillOpen;
    var s := Run(c, ops);
    RunIsSane(c, ops);
    RunKeepsBooks(c, ops);
    AmendedIsOffered(c, s, id, quantity, limit);
    var s1 := Amended(c, s, id, quantity, Some(limit));
    OfferTradesExactlyWhenCrossing(c, s1, id);
    MatchFillsExactlyWhenCrossing(c, s1, id);
  }

  // ----- Released by a trigger -----

  /** A parked plain order, in a market that trades. */
  predicate ParkedPlainly(c: Config, s: State, id: OrderId) {
    && id in s.desk.untriggered && id in s.desk.orders
    && var o := s.desk.orders[id];
       && o.status.Untriggered? && o.trigger.Some? && o.kind.Limit? && !o.reduceOnly && !o.tif.FillOrKill? && o.Remaining() > 0
       && o.slot in s.market.books && !Stopped(c, s.market, o.slot.instrument)
       && c.synthetic(s.market.books[o.slot], o.(id := id, trigger := None, status := Accepted)).None?
  }

  /** An order still to be armed, with the market it will meet. */
  predicate Armed(c: Config, s: State, id: OrderId) {
    && id !in s.desk.untriggered && id in s.desk.orders
    && var o := s.desk.orders[id];
       && o.status.Untriggered? && o.kind.Limit? && !o.reduceOnly && !o.tif.FillOrKill? && o.Remaining() > 0
       && o.slot in s.market.books && !Stopped(c, s.market, o.slot.instrument)
       && c.synthetic(s.market.books[o.slot], o.(id := id, trigger := None, status := Accepted)).None?
  }

  function ArmedState(s: State, id: OrderId): State
    requires id in s.desk.orders
  {
    s.(desk := SetOrder(s.desk, s.desk.orders[id].(id := id, trigger := None, status := Accepted)))
  }

  lemma ArmedIsOffered(c: Config, s: State, id: OrderId)
    requires Coherent(s.desk) && s.fault.None? && KeepsPrices(c) && BooksValid(s.market) && Armed(c, s, id)
    ensures var s1 := ArmedState(s, id);
            && Offered(c, s1, id) && PlainLimit(c, s1, id) && s1.desk.orders[id].filled == s.desk.orders[id].filled
            && (WouldCross(s1.market, s1.desk.orders[id]) <==> WouldCross(s.market, s.desk.orders[id]))
  {
    hide Structure, KeepsPrices, BooksValid, Stopped;
    assert id !in s.desk.resting;
    SetOrderCoherent(s.desk, s.desk.orders[id].(id := id, trigger := None, status := Accepted));
  }

  /** One order is armed and offered; the rest are as they were. */
  lemma ArmHead(c: Config, s: State, ids: seq<OrderId>)
    requires Coherent(s.desk) && s.fault.None? && Armable(s.desk, ids) && ids != []
    ensures var s2 := TryFill(c, ArmedState(s, ids[0]), ids[0]);
            && Coherent(s2.desk) && s2.fault.None? && Armable(s2.desk, ids[1..]) && s2.market == s.market
            && OnlyOrderButId(s.desk, s2.desk, ids[0])
  {
    hide Structure, TryFill, EngineLifecycle.Kept;
    EngineLifecycle.ArmOneKept(c, s, ids, 0);
    var s1 := ArmedState(s, ids[0]);
    EngineLifecycle.AcceptedOrderCoherent(s.desk, ids[0]);
    TryFillCoherent(c, s1, ids[0]);
  }

  /** Every order but one is as it was, and so is the parked list. */
  predicate OnlyOrderButId(d: Desk, d': Desk, id: OrderId) {
    && d'.orders.Keys == d.orders.Keys && d'.untriggered == d.untriggered
    && (forall j :: j in d.orders && j != id ==> d'.orders[j] == d.orders[j])
  }

  lemma {:induction false} ArmLeavesOthers(c: Config, s: State, ids: seq<OrderId>, id: OrderId)
    requires Coherent(s.desk) && s.fault.None? && Armable(s.desk, ids) && id in s.desk.orders && id !in ids
    ensures FilledOf(Arm(c, s, ids).desk, id) == s.desk.orders[id].filled
    decreases |ids|
  {
    hide Coherent, TryFill;
    if ids != [] {
      ArmHead(c, s, ids);
      assert ids == [ids[0]] + ids[1..] && ids[0] in ids;
      ArmLeavesOthers(c, TryFill(c, ArmedState(s, ids[0]), ids[0]), ids[1..], id);
    }
  }

  lemma {:induction false} ArmAmongOthers(c: Config, s: State, ids: seq<OrderId>, id: OrderId)
    requires Coherent(s.desk) && s.fault.None? && KeepsPrices(c) && BooksValid(s.market)
    requires Armable(s.desk, ids) && id in ids && Armed(c, s, id)
    ensures FilledOf(Arm(c, s, ids).desk, id) > s.desk.orders[id].filled <==> WouldCross(s.market, s.desk.orders[id])
    decreases |ids|
  {
    hide Coherent, KeepsPrices, BooksValid, TryFill, WouldCross;
    var x, rest := ids[0], ids[1..];
    var s2 := TryFill(c, ArmedState(s, x), x);
    ArmHead(c, s, ids);
    assert ids == [x] + rest;
    assert forall i :: 0 <= i < |rest| ==> rest[i] == ids[i + 1];
    if x == id {
      ArmedIsOffered(c, s, id);
      OfferFillsExactlyWhenCrossing(c, ArmedState(s, id), id);
      assert id !in rest;
      ArmLeavesOthers(c, s2, rest, id);
    } else {
      ArmAmongOthers(c, s2, rest, id);
    }
  }

  lemma {:induction false} ReadyExactlyWhenFiring(s: State, ids: seq<OrderId>, id: OrderId)
    requires id in s.desk.orders && s.desk.orders[id].status.Untriggered? && s.desk.orders[id].trigger.Some?
    ensures id in StillParked(s, ids, true) <==> id in ids && Fires(s.market, s.desk.orders[id])
    decreases |ids|
  {
    if ids != [] {
      assert ids == [ids[0]] + ids[1..];
      ReadyExactlyWhenFiring(s, ids[1..], id);
    }
  }

  /**
   A post-only order parked on a trigger is not checked when it is let loose: arming trades it
   exactly when the mark has reached its trigger and the top opposite price is within its limit.
   */
  lemma TriggeredPostOnlyTradesExactlyWhenCrossing(c: Config, ops: seq<Op>, id: OrderId)
    requires KeepsPrices(c) && Run(c, ops).fault.None?
    requires ParkedPlainly(c, Run(c, ops), id) && Run(c, ops).desk.orders[id].postOnly
    ensures var s := Run(c, ops);
            var o := s.desk.orders[id];
            FilledOf(TriggersArmed(c, s).desk, id) > o.filled <==> Fires(s.market, o) && WouldCross(s.market, o)
  {
    hide Run, Coherent, KeepsPrices, BooksValid, Arm, WouldCross, Fires, StillParked, Armable, Stopped;
    var s := Run(c, ops);
    RunIsSane(c, ops);
    RunKeepsBooks(c, ops);
    EngineLifecycle.WaitingCoherent(s);
    var waiting, ready := StillParked(s, s.desk.untriggered, false), StillParked(s, s.desk.untriggered, true);
    var s1 := s.(desk := s.desk.(untriggered := waiting));
    ReadyExactlyWhenFiring(s, s.desk.untriggered, id);
    if id in ready {
      ReadyIsNotWaiting(s, id);
      ArmAmongOthers(c, s1, ready, id);
    } else {
      ArmLeavesOthers(c, s1, ready, id);
    }
  }

  lemma ReadyIsNotWaiting(s: State, id: OrderId)
    requires Coherent(s.desk) && id in StillParked(s, s.desk.untriggered, true)
    ensures id !in StillParked(s, s.desk.untriggered, false)
  {
    hide Structure, StillParked, Fires;
    StillParkedMembers(s, s.desk.untriggered, true);
    StillParkedMembers(s, s.desk.untriggered, false);
  }
}
