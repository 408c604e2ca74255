/**
 Nothing trades on a market that has closed.

 The matcher asks whether an instrument has stopped before it fills anything, but a print fills
 resting orders without asking.  What keeps prints safe is that nothing rests on a closed market:
 the clock cancels what rests on an expired instrument, and matching after a delisting rejects
 what rests on a delisted one.  Only a delisting's own cash-out fills there.
 */
module EngineClosed {
  import opened FixedPoint
  import opened Sorting
  import opened Sums
  import opened Orders
  import opened Book
  import opened RestingIndex
  import opened Engine
  import opened EngineCoherence
  import opened EngineRuns
  import opened EngineQueue
  import EngineLifecycle
  import EngineAccount
  import BookFeed
  import Positions

  /** An order resting on one of the instrument's outcomes. */
  predicate Listed(d: Desk, instrument: nat, id: OrderId) {
    id in d.resting && id in d.orders && d.orders[id].slot.instrument == instrument
  }

  ghost predicate Cleared(d: Desk, instrument: nat) {
    forall id :: !Listed(d, instrument, id)
  }

  /** The instrument's expiry has come. */
  predicate PastExpiry(c: Config, instrument: nat, now: int) {
    match c.expiry(instrument)
    case None => false
    case Some(at) => at <= now
  }

  /** A market has stopped exactly when its expiry has come or it was delisted. */
  lemma StoppedMeans(c: Config, m: MarketData, instrument: nat)
    ensures Stopped(c, m, instrument) <==> PastExpiry(c, instrument, m.now) || instrument in m.delisted
  {
  }

  /** The record of fills, as far as one instrument goes. */
  function FillsOn(fills: seq<Fill>, instrument: nat): seq<Fill> {
    if fills == [] then []
    else
      var last := fills[|fills| - 1];
      FillsOn(fills[..|fills| - 1], instrument) + (if last.slot.instrument == instrument then [last] else [])
  }

  /** Nothing came to rest on the instrument, and nothing traded there. */
  ghost predicate Spared(s: State, s': State, instrument: nat) {
    && (forall id :: Listed(s'.desk, instrument, id) ==> Listed(s.desk, instrument, id))
    && FillsOn(s'.account.fills, instrument) == FillsOn(s.account.fills, instrument)
  }

  lemma SparedTrans(s: State, s1: State, s2: State, instrument: nat)
    requires Spared(s, s1, instrument) && Spared(s1, s2, instrument)
    ensures Spared(s, s2, instrument)
  {
  }

  lemma FillsOnAppend(fills: seq<Fill>, f: Fill, instrument: nat)
    ensures FillsOn(fills + [f], instrument)
         == FillsOn(fills, instrument) + (if f.slot.instrument == instrument then [f] else [])
  {
    assert (fills + [f])[..|fills|] == fills;
  }

  // ----- One order offered -----

  /** Nothing came to rest but perhaps this one order. */
  predicate RestsNoOther(d: Desk, d': Desk, id: OrderId) {
    forall x :: x in d'.resting && x != id ==> x in d.resting
  }

  lemma RemovingRestsNoOther(d: Desk, id: OrderId)
    ensures var d' := RemoveResting(d, id);
            RestsNoOther(d, d', id) && id !in d'.resting && d'.orders == d.orders
  {
    hide Remove;
    WithoutProperties(d.resting, id);
  }

  lemma ClosingRestsNoOther(d: Desk, id: OrderId, status: Status)
    ensures RestsNoOther(d, Close(d, id, status), id) && id !in Close(d, id, status).resting
  {
    hide RemoveResting;
    RemovingRestsNoOther(d, id);
    if id in d.orders {
      RemovingRestsNoOther(SetOrder(d, d.orders[id].(status := status)), id);
    }
  }

  lemma RestOrCancelRestsNoOther(c: Config, m: MarketData, d: Desk, id: OrderId)
    requires Keyed(d) && id in d.orders
    ensures RestsNoOther(d, RestOrCancel(c, m, d, id), id)
  {
    hide Close, Insert, DisplayedAt;
    assert d.orders[id].id == id;
    ClosingRestsNoOther(d, id, Cancelled);
  }

  lemma BookFillSpares(c: Config, s: State, id: OrderId, price: int, q: int, commission: int, taker: bool, instrument: nat)
    requires id in s.desk.orders
    ensures var s' := BookFill(c, s, id, price, q, commission, taker);
            && id in s'.desk.orders && s'.desk.orders[id].slot == s.desk.orders[id].slot
            && RestsNoOther(s.desk, s'.desk, id)
            && (s.desk.orders[id].slot.instrument != instrument ==>
                  FillsOn(s'.account.fills, instrument) == FillsOn(s.account.fills, instrument))
  {
    hide RemoveResting, FillsOn, CashAfterFill, Required, Positions.PortfolioApplied;
    var o := s.desk.orders[id];
    RemovingRestsNoOther(s.desk.(orders := s.desk.orders[id := o.RecordFill(q)]), id);
    FillsOnAppend(s.account.fills, Fill(id, o.slot, o.side, price, q, commission, taker), instrument);
  }

  lemma {:induction false} ExecuteAllSpares(c: Config, s: State, id: OrderId, fills: seq<(int, int)>, taker: bool, instrument: nat)
    requires id in s.desk.orders && s.desk.orders[id].slot.instrument != instrument
    ensures var s' := ExecuteAll(c, s, id, fills, taker);
            && RestsNoOther(s.desk, s'.desk, id)
            && FillsOn(s'.account.fills, instrument) == FillsOn(s.account.fills, instrument)
    decreases |fills|
  {
    hide BookFill, FillsOn;
    if fills != [] && s.fault.None? {
      var commission := c.fee(s.account.fills, s.desk.orders[id].(id := id), fills[0].0, fills[0].1, taker);
      BookFillSpares(c, s, id, fills[0].0, fills[0].1, commission, taker, instrument);
      ExecuteAllSpares(c, Execute(c, s, id, fills[0].0, fills[0].1, taker), id, fills[1..], taker, instrument);
    }
  }

  /** An order of another instrument. */
  lemma OtherOfferSpares(c: Config, s: State, id: OrderId, instrument: nat)
    requires Coherent(s.desk) && s.fault.None? && Offerable(s.desk, id)
    requires id in s.desk.orders && s.desk.orders[id].slot.instrument != instrument
    ensures var s' := TryFill(c, s, id);
            && RestsNoOther(s.desk, s'.desk, id)
            && FillsOn(s'.account.fills, instrument) == FillsOn(s.account.fills, instrument)
  {
    hide Coherent, Close, RestOrCancel, RemoveResting, ExecuteAll, FillsOn, Walk, EffectiveBook, Stopped, Wanted;
    var o := s.desk.orders[id];
    CoherentIsKeyed(s.desk);
    ClosingRestsNoOther(s.desk, id, Cancelled);
    RemovingRestsNoOther(SetOrder(s.desk, o.(id := id, status := Rejected)), id);
    RestOrCancelRestsNoOther(c, s.market, s.desk, id);
    if AtVenue(o) && o.slot in s.market.books {
      var w := Walk(EffectiveBook(c, s.market, o), o.side, Wanted(s.account, o), o.LimitPrice());
      var s1 := ExecuteAll(c, s, id, w.fills, !o.postOnly);
      ExecuteAllSpares(c, s, id, w.fills, !o.postOnly, instrument);
      WantedFits(c, s, o);
      ExecuteAllCoherent(c, s, id, w.fills, !o.postOnly);
      CoherentIsKeyed(s1.desk);
      RestOrCancelRestsNoOther(c, s1.market, s1.desk, id);
    }
  }

  /** The matcher turns away an order of a stopped instrument. */
  lemma StoppedOfferSpares(c: Config, s: State, id: OrderId)
    requires id in s.desk.orders && Stopped(c, s.market, s.desk.orders[id].slot.instrument)
    ensures var s' := TryFill(c, s, id);
            && RestsNoOther(s.desk, s'.desk, id) && s'.account == s.account
            && (id in s'.desk.resting ==> s' == s)
            && (StillOpen(s.desk, id) && !s.desk.orders[id].status.InFlight? ==> id !in s'.desk.resting)
  {
    hide Close, RestOrCancel, RemoveResting, ExecuteAll, Walk, EffectiveBook, Stopped, Wanted;
    RemovingRestsNoOther(SetOrder(s.desk, s.desk.orders[id].(id := id, status := Rejected)), id);
  }

  lemma OfferSpares(c: Config, s: State, id: OrderId, instrument: nat)
    requires Coherent(s.desk) && s.fault.None? && Offerable(s.desk, id) && Stopped(c, s.market, instrument)
    ensures Spared(s, TryFill(c, s, id), instrument)
  {
    hide Coherent, TryFill, FillsOn, Stopped;
    TryFillCoherent(c, s, id);
    CoherentIsKeyed(s.desk);
    if id !in s.desk.orders {
      OfferNothing(c, s, id);
    } else if s.desk.orders[id].slot.instrument == instrument {
      StoppedOfferSpares(c, s, id);
    } else {
      OtherOfferSpares(c, s, id, instrument);
    }
  }

  lemma OfferNothing(c: Config, s: State, id: OrderId)
    ensures id !in s.desk.orders ==> TryFill(c, s, id) == s
  {
  }

  lemma {:induction false} OffersSpare(c: Config, s: State, ids: seq<OrderId>, instrument: nat)
    requires Coherent(s.desk) && s.fault.None? && AllOfferable(s.desk, ids) && Stopped(c, s.market, instrument)
    ensures Spared(s, Offer(c, s, ids), instrument)
    decreases |ids|
  {
    hide Coherent, TryFill, FillsOn, Stopped;
    if ids != [] {
      var s1 := TryFill(c, s, ids[0]);
      assert Offerable(s.desk, ids[0]);
      TryFillCoherent(c, s, ids[0]);
      OfferSpares(c, s, ids[0], instrument);
      forall i | 0 <= i < |ids[1..]| ensures Offerable(s1.desk, ids[1..][i]) {
        assert Offerable(s.desk, ids[i + 1]);
      }
      OffersSpare(c, s1, ids[1..], instrument);
      SparedTrans(s, s1, Offer(c, s, ids), instrument);
    }
  }

  lemma MatchSpares(c: Config, s: State, slot: Slot, corporate: bool, instrument: nat)
    requires Coherent(s.desk) && s.fault.None? && Stopped(c, s.market, instrument)
    ensures Spared(s, MatchResting(c, s, slot, corporate), instrument)
  {
    hide Coherent, Candidates, Offer, Pruned, Stopped, AllResting, AllOfferable, FillsOn;
    if slot in s.market.books {
      var ids := Candidates(c, s, slot, corporate);
      CandidatesAreResting(c, s, slot, corporate);
      RestingIsOfferable(s.desk, ids);
      OfferCoherent(c, s, ids);
      OffersSpare(c, s, ids, instrument);
      PrunedIsIdle(Offer(c, s, ids));
    }
  }

  // ----- Orders arriving -----

  lemma SameBookSpares(s: State, s': State, instrument: nat)
    requires Coherent(s.desk) && s'.desk.resting == s.desk.resting && s'.account.fills == s.account.fills
    requires forall id :: id in s.desk.orders ==> id in s'.desk.orders && s'.desk.orders[id].slot == s.desk.orders[id].slot
    ensures Spared(s, s', instrument)
  {
    hide FillsOn, Structure;
  }

  lemma SubmittedSpares(c: Config, s: State, r: Request, instrument: nat)
    requires Coherent(s.desk)
    ensures Spared(s, Submitted(c, s, r), instrument)
  {
    hide Coherent, FillsOn, Submitted;
    if r.quantity > 0 {
      SubmittedShape(c, s, r);
      CoherentIsKeyed(s.desk);
      SameBookSpares(s, Submitted(c, s, r), instrument);
    } else {
      SubmitNothing(c, s, r);
    }
  }

  lemma PlacedSpares(c: Config, s: State, slot: Slot, side: Side, quantity: int, reduceOnly: bool, instrument: nat)
    requires Coherent(s.desk) && s.fault.None? && Stopped(c, s.market, instrument)
    ensures Spared(s, EngineOrder(c, s, slot, side, quantity, reduceOnly), instrument)
  {
    hide Coherent, FillsOn, TryFill;
    if quantity > 0 {
      var s1 := WithEngineOrder(s, slot, side, quantity, reduceOnly);
      EngineOrderIsNew(s, slot, side, quantity, reduceOnly);
      CoherentIsKeyed(s.desk);
      SameBookSpares(s, s1, instrument);
      OfferSpares(c, s1, s1.desk.nextId, instrument);
      SparedTrans(s, s1, TryFill(c, s1, s1.desk.nextId), instrument);
    }
  }

  /** Off the wire: turned away, parked, or offered. */
  lemma ArrivedSpares(c: Config, s: State, x: OrderId, instrument: nat)
    requires Coherent(s.desk) && s.fault.None? && Stopped(c, s.market, instrument)
    requires x in s.desk.orders && s.desk.orders[x].status.InFlight?
    ensures var o := s.desk.orders[x].(id := x);
            && Spared(s, s.(desk := SetOrder(s.desk, o.(status := Rejected))), instrument)
            && Spared(s, s.(desk := SetOrder(s.desk, o.(trigger := None, status := Rejected))), instrument)
            && Spared(s, s.(desk := SetOrder(s.desk, o.(status := Untriggered)).(untriggered := s.desk.untriggered + [x])), instrument)
            && Spared(s, TryFill(c, s.(desk := SetOrder(s.desk, o.(trigger := None, status := Accepted))), x), instrument)
  {
    hide Coherent, FillsOn, TryFill, Stopped;
    EngineLifecycle.AcceptedIsOfferable(s.desk, x);
    var s1 := s.(desk := SetOrder(s.desk, s.desk.orders[x].(id := x, trigger := None, status := Accepted)));
    SameBookSpares(s, s1, instrument);
    OfferSpares(c, s1, x, instrument);
    SparedTrans(s, s1, TryFill(c, s1, x), instrument);
  }

  lemma ReleasedSpares(c: Config, s: State, x: OrderId, funded: bool, instrument: nat)
    requires Coherent(s.desk) && s.fault.None? && Stopped(c, s.market, instrument)
    ensures Spared(s, Released(c, s, x, funded), instrument)
  {
    hide Coherent, FillsOn, TryFill, SelfTrades, WouldCross, Fires, Without, Stopped, Spared;
    var d := s.desk.(inflight := Without(s.desk.inflight, x));
    InflightIsFree(s.desk, d.inflight);
    SameBookSpares(s, s, instrument);
    SameBookSpares(s, s.(desk := d), instrument);
    if x in s.desk.inflight && x in d.orders && d.orders[x].status.InFlight? {
      ArrivedSpares(c, s.(desk := d), x, instrument);
      SparedTrans(s, s.(desk := d), Released(c, s, x, funded), instrument);
    }
  }

  lemma {:induction false} ArmSpares(c: Config, s: State, ids: seq<OrderId>, instrument: nat)
    requires Coherent(s.desk) && s.fault.None? && Armable(s.desk, ids) && Stopped(c, s.market, instrument)
    ensures Spared(s, Arm(c, s, ids), instrument)
    decreases |ids|
  {
    hide Coherent, TryFill, FillsOn, Stopped, EngineLifecycle.Kept;
    if ids != [] {
      var x := ids[0];
      var s1 := s.(desk := SetOrder(s.desk, s.desk.orders[x].(id := x, trigger := None, status := Accepted)));
      var s2 := TryFill(c, s1, x);
      EngineLifecycle.AcceptedOrderCoherent(s.desk, x);
      SameBookSpares(s, s1, instrument);
      OfferSpares(c, s1, x, instrument);
      TryFillCoherent(c, s1, x);
      EngineLifecycle.ArmOneKept(c, s, ids, x);
      ArmSpares(c, s2, ids[1..], instrument);
      SparedTrans(s, s1, s2, instrument);
      SparedTrans(s, s2, Arm(c, s, ids), instrument);
    }
  }

  lemma TriggersArmedSpares(c: Config, s: State, instrument: nat)
    requires Coherent(s.desk) && s.fault.None? && Stopped(c, s.market, instrument)
    ensures Spared(s, TriggersArmed(c, s), instrument)
  {
    hide Coherent, Arm, StillParked, Armable, FillsOn, Stopped;
    var waiting, ready := StillParked(s, s.desk.untriggered, false), StillParked(s, s.desk.untriggered, true);
    var s1 := s.(desk := s.desk.(untriggered := waiting));
    EngineLifecycle.WaitingCoherent(s);
    SameBookSpares(s, s1, instrument);
    ArmSpares(c, s1, ready, instrument);
    SparedTrans(s, s1, Arm(c, s1, ready), instrument);
  }

  // ----- Orders changing and leaving -----

  lemma ClosedSpares(s: State, x: OrderId, instrument: nat)
    requires Coherent(s.desk)
    ensures Spared(s, s.(desk := Close(s.desk, x, Cancelled)), instrument)
  {
    hide Coherent, FillsOn, Close;
    CloseCoherent(s.desk, x);
    ClosingRestsNoOther(s.desk, x, Cancelled);
  }

  lemma {:induction false} CancelAllSpares(s: State, ids: seq<OrderId>, instrument: nat)
    requires Coherent(s.desk)
    ensures Spared(s, s.(desk := CancelAll(s.desk, ids)), instrument)
    decreases |ids|
  {
    hide Coherent, FillsOn, Close;
    if ids != [] {
      var s1 := s.(desk := Close(s.desk, ids[0], Cancelled));
      CloseCoherent(s.desk, ids[0]);
      ClosedSpares(s, ids[0], instrument);
      CancelAllSpares(s1, ids[1..], instrument);
      SparedTrans(s, s1, s.(desk := CancelAll(s.desk, ids)), instrument);
    }
  }

  lemma AmendedSpares(c: Config, s: State, x: OrderId, quantity: Option<int>, limit: Option<int>, instrument: nat)
    requires Coherent(s.desk)
    ensures Spared(s, Amended(c, s, x, quantity, limit), instrument)
  {
    hide Coherent, FillsOn, Requeued, LosesPriority, AmendRefused, Spared;
    SameBookSpares(s, s, instrument);
    SameBookSpares(s, s.(fault := Some(BadRequest)), instrument);
    if StillOpen(s.desk, x) {
      var o' := AmendedOrder(s.desk.orders[x], quantity, limit).(id := x);
      RequeuedRests(c, s.market, s.desk, x, o');
      SameBookSpares(s, Amended(c, s, x, quantity, limit), instrument);
    }
  }

  lemma RequeuedRests(c: Config, m: MarketData, d: Desk, x: OrderId, o': Order)
    requires x in d.orders && o'.id == x
    ensures Requeued(c, m, d, x, o').resting == d.resting && Requeued(c, m, d, x, o').orders == d.orders[x := o']
  {
    hide Insert, Remove, DisplayedAt;
  }

  lemma {:induction false} SplitRestingSpares(s: State, ids: seq<OrderId>, split: nat, ratio: int, instrument: nat)
    requires ratio > 0
    ensures Spared(s, s.(desk := SplitResting(s.desk, ids, split, ratio)), instrument)
    decreases |ids|
  {
    hide Insert, Remove, FillsOn;
    if ids != [] {
      var s1 := s.(desk := SplitRestingOne(s.desk, ids[0], split, ratio));
      SplitRestingSpares(s1, ids[1..], split, ratio, instrument);
    }
  }

  lemma {:induction false} SplitHeldSpares(s: State, ids: seq<OrderId>, split: nat, ratio: int, inflightOnly: bool, instrument: nat)
    requires ratio > 0
    ensures Spared(s, s.(desk := SplitHeld(s.desk, ids, split, ratio, inflightOnly)), instrument)
    decreases |ids|
  {
    hide FillsOn;
    if ids != [] {
      var x := ids[0];
      var hit := x in s.desk.orders && s.desk.orders[x].slot.instrument == split
                 && (!inflightOnly || s.desk.orders[x].status.InFlight?);
      var s1 := s.(desk := if hit then SetOrder(s.desk, SplitOrder(ratio, s.desk.orders[x]).(id := x)) else s.desk);
      SplitHeldSpares(s1, ids[1..], split, ratio, inflightOnly, instrument);
    }
  }

  lemma SplitSpares(s: State, split: nat, ratio: int, instrument: nat)
    ensures Spared(s, SplitShares(s, split, ratio), instrument)
  {
    hide FillsOn, SplitResting, SplitHeld, SplitPositions, SplitMarket;
    if ratio > 0 {
      var s1 := s.(desk := SplitResting(s.desk, s.desk.resting, split, ratio));
      var s2 := s.(desk := SplitHeld(s1.desk, s1.desk.untriggered, split, ratio, false));
      SplitRestingSpares(s, s.desk.resting, split, ratio, instrument);
      SplitHeldSpares(s1, s1.desk.untriggered, split, ratio, false, instrument);
      SplitHeldSpares(s2, s2.desk.live, split, ratio, true, instrument);
    }
  }

  // ----- Fills of the engine's own orders -----

  /** An order stood up and filled at once: nothing rests, and the fill is on its own instrument. */
  lemma OwnFillSpares(c: Config, s: State, slot: Slot, side: Side, q: int, price: int, commission: int, instrument: nat)
    requires Coherent(s.desk)
    ensures var s1 := WithEngineOrder(s, slot, side, q, false);
            var s' := BookFill(c, s1, s1.desk.nextId, price, q, commission, false);
            && (forall id :: Listed(s'.desk, instrument, id) ==> Listed(s.desk, instrument, id))
            && (slot.instrument != instrument ==> Spared(s, s', instrument))
            && s'.market == s.market
  {
    hide Structure, FillsOn, RemoveResting, AfterFill;
    CoherentIsKeyed(s.desk);
    var s1 := WithEngineOrder(s, slot, side, q, false);
    var x := s1.desk.nextId;
    BookFillSpares(c, s1, x, price, q, commission, false, instrument);
    RemovingRestsNoOther(s1.desk.(orders := s1.desk.orders[x := s1.desk.orders[x].RecordFill(q)]), x);
    assert x !in s.desk.resting;
  }

  /** One outcome cashed out. */
  lemma CashOutOne(c: Config, s: State, slot: Slot, price: int, instrument: nat)
    requires Coherent(s.desk) && s.fault.None?
    ensures var q := Positions.At(s.account.positions, slot).quantity;
            var s1 := WithEngineOrder(s, slot, if q > 0 then Sell else Buy, Abs(q), false);
            && s1.desk.nextId in s1.desk.orders
            && var s' := Execute(c, s1, s1.desk.nextId, price, Abs(q), false);
            && (forall id :: Listed(s'.desk, instrument, id) ==> Listed(s.desk, instrument, id))
            && (slot.instrument != instrument ==> Spared(s, s', instrument))
            && s'.market == s.market
  {
    hide Coherent, FillsOn, BookFill, Spared;
    var q := Positions.At(s.account.positions, slot).quantity;
    var side := if q > 0 then Sell else Buy;
    var s1 := WithEngineOrder(s, slot, side, Abs(q), false);
    var x := s1.desk.nextId;
    OwnFillSpares(c, s, slot, side, Abs(q), price, c.fee(s1.account.fills, s1.desk.orders[x].(id := x), price, Abs(q), false), instrument);
  }

  lemma {:induction false} CashOutSpares(c: Config, s: State, delisted: nat, outcomes: nat, price: int, instrument: nat)
    requires Coherent(s.desk) && s.fault.None?
    ensures var s' := CashOut(c, s, delisted, outcomes, price);
            && (forall id :: Listed(s'.desk, instrument, id) ==> Listed(s.desk, instrument, id))
            && (delisted != instrument ==> Spared(s, s', instrument))
            && s'.market == s.market
    decreases outcomes
  {
    hide Coherent, FillsOn, Execute, WithEngineOrder;
    if outcomes > 0 {
      CashOutSpares(c, s, delisted, outcomes - 1, price, instrument);
      CashOutCoherent(c, s, delisted, outcomes - 1, price);
      var s1 := CashOut(c, s, delisted, outcomes - 1, price);
      CashOutOne(c, s1, Slot(delisted, outcomes - 1), price, instrument);
    }
  }

  lemma {:induction false} BookLegsSpare(c: Config, s: State, minted: nat, side: Side, sets: int, basis: seq<int>, k: nat, cost: int, instrument: nat)
    requires Coherent(s.desk) && s.fault.None? && k <= |basis| && sets > 0 && minted != instrument
    ensures Spared(s, BookLegs(c, s, minted, side, sets, basis, k, cost), instrument)
    decreases |basis| - k
  {
    hide Coherent, FillsOn, BookFill, WithEngineOrder;
    if k < |basis| {
      var commission := if k == 0 then cost else 0;
      var s1 := BookLeg(c, s, Slot(minted, k), side, sets, basis[k], commission);
      BookLegCoherent(c, s, Slot(minted, k), side, sets, basis[k], commission);
      OwnFillSpares(c, s, Slot(minted, k), side, sets, basis[k], commission, instrument);
      BookLegsSpare(c, s1, minted, side, sets, basis, k + 1, cost, instrument);
      SparedTrans(s, s1, BookLegs(c, s, minted, side, sets, basis, k, cost), instrument);
    }
  }

  lemma SetOperationSpares(c: Config, s: State, minted: nat, kind: SetKind, quantity: int, instrument: nat)
    requires Coherent(s.desk) && s.fault.None? && Stopped(c, s.market, instrument)
    ensures Spared(s, SetOperation(c, s, minted, kind, quantity), instrument)
  {
    hide Coherent, FillsOn, BookLegs, SetBasis, Stopped, HoldsSets, NoDuplicates;
    if c.completeSet(minted) && quantity > 0 && minted != instrument {
      match SetCount(c, minted, kind, quantity)
      case None =>
      case Some((sets, side)) =>
        SetCountIsPositive(c, minted, kind, quantity);
        match SetBasis(c, s.market, minted)
        case None =>
        case Some(basis) => BookLegsSpare(c, s, minted, side, sets, basis, 0, SetCost(c, kind), instrument);
    }
  }

  // ----- Prints -----

  /** Every reached order is another instrument's. */
  predicate Elsewhere(d: Desk, eligible: seq<(int, OrderId)>, instrument: nat) {
    forall k :: 0 <= k < |eligible| ==>
      eligible[k].1 in d.orders && d.orders[eligible[k].1].slot.instrument != instrument
  }

  lemma FillReachedSpares(c: Config, s: State, limit: int, id: OrderId, left: int, instrument: nat)
    requires id in s.desk.orders && s.desk.orders[id].slot.instrument != instrument
    ensures var s' := FillReached(c, s, limit, id, left).state;
            && RestsNoOther(s.desk, s'.desk, id)
            && FillsOn(s'.account.fills, instrument) == FillsOn(s.account.fills, instrument)
  {
    hide BookFill, FillsOn;
    var fill := Min(left, WantedBy(s.desk, id));
    BookFillSpares(c, s, id, limit, fill, c.fee(s.account.fills, s.desk.orders[id].(id := id), limit, fill, false), false, instrument);
  }

  lemma ConsumeOneSpares(c: Config, s: State, limit: int, id: OrderId, remaining: int, instrument: nat)
    requires Coherent(s.desk) && s.fault.None? && Reachable(s.desk, id)
    requires s.desk.orders[id].slot.instrument != instrument
    ensures Spared(s, ConsumeOne(c, s, limit, id, remaining).state, instrument)
  {
    hide Coherent, FillReached, FillsOn, Eaten;
    ConsumeOneCoherent(c, s, limit, id, remaining);
    CoherentIsKeyed(s.desk);
    var s1 := SetAhead(s, id, ValueOr(s.desk.queueAhead, id, 0) - Eaten(s, id, remaining));
    FillReachedSpares(c, s1, limit, id, remaining - Eaten(s, id, remaining), instrument);
  }

  lemma {:induction false} ConsumeSpares(c: Config, s: State, eligible: seq<(int, OrderId)>, remaining: int, instrument: nat)
    requires Coherent(s.desk) && s.fault.None? && AllReachable(s.desk, eligible) && Elsewhere(s.desk, eligible, instrument)
    ensures Spared(s, Consume(c, s, eligible, remaining).state, instrument)
    decreases |eligible|
  {
    hide Coherent, ConsumeOne, FillsOn;
    if eligible != [] && remaining > 0 {
      var id := eligible[0].1;
      var one := ConsumeOne(c, s, eligible[0].0, id, remaining);
      assert Reachable(s.desk, id);
      ConsumeOneCoherent(c, s, eligible[0].0, id, remaining);
      ConsumeOneSpares(c, s, eligible[0].0, id, remaining, instrument);
      forall k | 0 <= k < |eligible[1..]|
        ensures Reachable(one.state.desk, eligible[1..][k].1)
        ensures one.state.desk.orders[eligible[1..][k].1].slot.instrument != instrument
      {
        assert Reachable(s.desk, eligible[k + 1].1);
      }
      ConsumeSpares(c, one.state, eligible[1..], one.left, instrument);
      SparedTrans(s, one.state, Consume(c, s, eligible, remaining).state, instrument);
    }
  }

  /** A print reaches nothing of an instrument that is not its own, or that nothing rests on. */
  lemma ReachedIsElsewhere(d: Desk, slot: Slot, passive: Side, price: int, instrument: nat)
    requires Coherent(d) && (slot.instrument == instrument ==> Cleared(d, instrument))
    ensures Elsewhere(d, ReachedByTrade(d.index, slot, passive, price), instrument)
  {
    hide Structure, ReachedByTrade;
    ReachedByTradeIsExact(d, slot, passive, price);
    var eligible := ReachedByTrade(d.index, slot, passive, price);
    forall k | 0 <= k < |eligible|
      ensures eligible[k].1 in d.orders && d.orders[eligible[k].1].slot.instrument != instrument
    {
      assert Hit(d, slot, passive, price, eligible[k].1);
      assert !Listed(d, instrument, eligible[k].1);
    }
  }

  lemma SideSpares(c: Config, s: State, slot: Slot, price: int, size: int, passive: Side, instrument: nat)
    requires Coherent(s.desk) && s.fault.None? && (slot.instrument == instrument ==> Cleared(s.desk, instrument))
    ensures Spared(s, ConsumeSide(c, s, slot, price, size, passive), instrument)
  {
    hide Coherent, Consume, FillsOn, ReachedByTrade, Pruned, Cleared;
    var eligible := ReachedByTrade(s.desk.index, slot, passive, price);
    ReachedIsReachable(s.desk, slot, passive, price);
    ReachedIsElsewhere(s.desk, slot, passive, price, instrument);
    ConsumeCoherent(c, s, eligible, size);
    ConsumeSpares(c, s, eligible, size, instrument);
    PrunedIsIdle(Consume(c, s, eligible, size).state);
  }

  lemma PrintedSpares(c: Config, s: State, slot: Slot, price: int, size: int, aggressor: Option<Side>, instrument: nat)
    requires Coherent(s.desk) && s.fault.None? && (slot.instrument == instrument ==> Cleared(s.desk, instrument))
    ensures Spared(s, Printed(c, s, slot, price, size, aggressor), instrument)
  {
    hide Coherent, ConsumeSide, FillsOn;
    if c.usesQueue {
      match aggressor
      case Some(side) => SideSpares(c, s, slot, price, size, side.Opposite(), instrument);
      case None =>
        var s1 := ConsumeSide(c, s, slot, price, size, Buy);
        ConsumeSideCoherent(c, s, slot, price, size, Buy);
        SideSpares(c, s, slot, price, size, Buy, instrument);
        SideSpares(c, s1, slot, price, size, Sell, instrument);
    }
  }

  // ----- Every step, every run -----

  /** The one step that may fill on a closed market. */
  predicate Delists(op: Op, instrument: nat) {
    op.Delist? && op.instrument == instrument
  }

  /** Time does not go back, and nothing is relisted. */
  lemma MarketOnlyCloses(c: Config, s: State, op: Op)
    ensures var m := Step(c, s, op).market;
            && s.market.now <= m.now && (!op.AdvanceTo? ==> m.now == s.market.now)
            && s.market.delisted <= m.delisted
  {
    hide Submitted, Amended, Released, TriggersArmed, Printed, MatchResting, EngineOrder, CashOut, SetOperation, SplitOrdersOf,
         SplitPositions, CancelAll, FundingTotal, DividendDue, EngineAccount.Executed, EngineAccount.Booked, BookFeed.Fed, BookFeed.DeltaApplied;
    match op
    case Submit(r) => EngineAccount.SubmittedAccount(c, s, r);
    case Amend(id, q, l) => EngineAccount.AmendedAccount(c, s, id, q, l);
    case Release(id, funded) => EngineAccount.ReleasedBooks(c, s, id, funded);
    case ArmTriggers => EngineAccount.TriggersArmedBooks(c, s);
    case Print(slot, price, size, aggressor) => EngineAccount.PrintedBooks(c, s, slot, price, size, aggressor);
    case Match(slot, corporate) => EngineAccount.MatchBooks(c, s, slot, corporate);
    case Delist(i, price) => EngineAccount.CashOutBooks(c, s, i, c.outcomes(i), price);
    case PlaceEngineOrder(slot, side, q, reduceOnly) => EngineAccount.EngineOrderBooks(c, s, slot, side, q, reduceOnly);
    case SetOp(i, kind, q) => EngineAccount.SetOperationBooks(c, s, i, kind, q);
    case _ =>
  }

  lemma StaysStopped(c: Config, s: State, op: Op, instrument: nat)
    requires Stopped(c, s.market, instrument)
    ensures Stopped(c, Step(c, s, op).market, instrument)
  {
    hide Step;
    MarketOnlyCloses(c, s, op);
  }

  lemma DelistedSpares(c: Config, s: State, delisted: nat, price: int, instrument: nat)
    requires Coherent(s.desk) && s.fault.None? && delisted != instrument
    ensures Spared(s, Delisted(c, s, delisted, price), instrument)
  {
    hide Coherent, FillsOn, CashOut;
    CashOutSpares(c, s, delisted, c.outcomes(delisted), price, instrument);
  }

  /** Quotes, marks and payments leave the desk and the record alone. */
  lemma QuietSpares(c: Config, s: State, op: Op, instrument: nat)
    requires op.Feed? || op.SetMark? || op.SetOracle? || op.Funding? || op.Dividend?
    ensures Spared(s, Step(c, s, op), instrument)
  {
    hide FillsOn, BookFeed.Fed, BookFeed.DeltaApplied, FundingTotal, DividendDue, Submitted, CancelledOrder, Amended, Released,
         TriggersArmed, Advanced, Printed, MatchResting, SplitShares, Delisted, EngineOrder, SetOperation;
  }

  lemma FaultSpares(c: Config, s: State, op: Op, instrument: nat)
    requires s.fault.Some?
    ensures Spared(s, Step(c, s, op), instrument)
  {
    hide FillsOn;
    FaultStops(c, s, op);
  }

  lemma CancelledSpares(s: State, id: OrderId, instrument: nat)
    requires Coherent(s.desk)
    ensures Spared(s, CancelledOrder(s, id), instrument)
  {
    hide Coherent, Close, FillsOn;
    ClosedSpares(s, id, instrument);
  }

  lemma AdvancedSpares(c: Config, s: State, now: int, instrument: nat)
    requires Coherent(s.desk)
    ensures Spared(s, Advanced(c, s, now), instrument)
  {
    hide Coherent, CancelAll, FillsOn, Doomed;
    CancelAllSpares(s, Doomed(c, s.desk, s.desk.resting, now), instrument);
  }

  /** On a stopped instrument that nothing rests on, no step but its delisting fills anything. */
  lemma StepSpares(c: Config, s: State, op: Op, instrument: nat)
    requires Coherent(s.desk) && Stopped(c, s.market, instrument) && !Delists(op, instrument)
    requires op.Print? && op.slot.instrument == instrument ==> Cleared(s.desk, instrument)
    ensures Spared(s, Step(c, s, op), instrument)
  {
    hide Coherent, Stopped, Spared, Cleared, Submitted, CancelledOrder, Amended, Released, TriggersArmed, Advanced, FedBook, Printed,
         MatchResting, FundingSettled, DividendPaid, SplitShares, Delisted, EngineOrder, SetOperation;
    if s.fault.Some? {
      FaultSpares(c, s, op, instrument);
    } else {
      match op
      case Submit(r) => SubmittedSpares(c, s, r, instrument);
      case CancelOrder(id) => CancelledSpares(s, id, instrument);
      case Amend(id, q, l) => AmendedSpares(c, s, id, q, l, instrument);
      case Release(id, funded) => ReleasedSpares(c, s, id, funded, instrument);
      case ArmTriggers => TriggersArmedSpares(c, s, instrument);
      case AdvanceTo(now) => AdvancedSpares(c, s, now, instrument);
      case Print(slot, price, size, aggressor) => PrintedSpares(c, s, slot, price, size, aggressor, instrument);
      case Match(slot, corporate) => MatchSpares(c, s, slot, corporate, instrument);
      case SplitAction(i, ratio) => SplitSpares(s, i, ratio, instrument);
      case Delist(i, price) => DelistedSpares(c, s, i, price, instrument);
      case PlaceEngineOrder(slot, side, q, reduceOnly) => PlacedSpares(c, s, slot, side, q, reduceOnly, instrument);
      case SetOp(i, kind, q) => SetOperationSpares(c, s, i, kind, q, instrument);
      case _ => QuietSpares(c, s, op, instrument);
    }
  }

  /** A delisting's cash-out leaves what rests alone. */
  lemma DelistingStaysCleared(c: Config, s: State, op: Op, instrument: nat)
    requires Coherent(s.desk) && Cleared(s.desk, instrument) && Delists(op, instrument)
    ensures Cleared(Step(c, s, op).desk, instrument)
  {
    hide Coherent, FillsOn, CashOut, Listed;
    if s.fault.None? {
      CashOutSpares(c, s, instrument, c.outcomes(instrument), op.price, instrument);
    }
  }

  lemma StaysCleared(c: Config, s: State, op: Op, instrument: nat)
    requires Coherent(s.desk) && Stopped(c, s.market, instrument) && Cleared(s.desk, instrument)
    ensures Cleared(Step(c, s, op).desk, instrument)
  {
    hide Coherent, Stopped, Step, Listed, FillsOn;
    if Delists(op, instrument) {
      DelistingStaysCleared(c, s, op, instrument);
    } else {
      StepSpares(c, s, op, instrument);
    }
  }

  /** A market with nothing resting that is closed stays so, and trades nothing but its cash-out. */
  lemma {:induction false} ClosedStaysClosed(c: Config, before: seq<Op>, after: seq<Op>, instrument: nat)
    requires Stopped(c, Run(c, before).market, instrument) && Cleared(Run(c, before).desk, instrument)
    ensures var s' := Run(c, before + after);
            && Stopped(c, s'.market, instrument) && Cleared(s'.desk, instrument)
            && ((forall k :: 0 <= k < |after| ==> !Delists(after[k], instrument)) ==>
                  FillsOn(s'.account.fills, instrument) == FillsOn(Run(c, before).account.fills, instrument))
    decreases |after|
  {
    hide Stopped, Cleared, FillsOn, Step, Sane;
    if after == [] {
      assert before + after == before;
    } else {
      var n := |after| - 1;
      var all := before + after;
      var s := Run(c, before + after[..n]);
      assert all[..|all| - 1] == before + after[..n] && all[|all| - 1] == after[n];
      ClosedStaysClosed(c, before, after[..n], instrument);
      RunIsSane(c, before + after[..n]);
      SaneIsCoherent(s);
      StaysStopped(c, s, after[n], instrument);
      StaysCleared(c, s, after[n], instrument);
      if !Delists(after[n], instrument) {
        StepSpares(c, s, after[n], instrument);
        SparedFills(s, Step(c, s, after[n]), instrument);
      }
    }
  }

  lemma SparedFills(s: State, s': State, instrument: nat)
    requires Spared(s, s', instrument)
    ensures FillsOn(s'.account.fills, instrument) == FillsOn(s.account.fills, instrument)
  {
    hide FillsOn;
  }

  // ----- Expiry -----

  lemma {:induction false} DoomedMembers(c: Config, d: Desk, ids: seq<OrderId>, now: int)
    ensures forall id :: id in ids && id in d.orders && HasExpired(c, d.orders[id].slot.instrument, now)
              ==> id in Doomed(c, d, ids, now)
    decreases |ids|
  {
    if ids != [] {
      DoomedMembers(c, d, ids[1..], now);
      assert ids == [ids[0]] + ids[1..];
    }
  }

  lemma {:induction false} CancelAllClears(d: Desk, ids: seq<OrderId>, id: OrderId)
    requires Coherent(d)
    ensures id in CancelAll(d, ids).resting ==> id in d.resting && id !in ids
    decreases |ids|
  {
    hide Coherent, Close, OnlyOrder;
    if ids != [] {
      CloseCoherent(d, ids[0]);
      ClosingRestsNoOther(d, ids[0], Cancelled);
      CancelAllClears(Close(d, ids[0], Cancelled), ids[1..], id);
      assert ids == [ids[0]] + ids[1..];
    }
  }

  /** The clock takes everything off an instrument that has expired by then. */
  lemma AdvanceClears(c: Config, s: State, now: int, instrument: nat)
    requires Coherent(s.desk) && s.market.now <= now && HasExpired(c, instrument, now)
    ensures Cleared(Advanced(c, s, now).desk, instrument)
  {
    hide Coherent, CancelAll, Doomed, HasExpired, FillsOn;
    var ids := Doomed(c, s.desk, s.desk.resting, now);
    DoomedMembers(c, s.desk, s.desk.resting, now);
    CancelAllSpares(s, ids, instrument);
    forall id ensures !Listed(Advanced(c, s, now).desk, instrument, id) {
      CancelAllClears(s.desk, ids, id);
      assert Listed(Advanced(c, s, now).desk, instrument, id) ==> Listed(s.desk, instrument, id);
    }
  }

  lemma ExpiryHasCome(c: Config, s: State, op: Op, instrument: nat)
    ensures PastExpiry(c, instrument, s.market.now) ==> Stopped(c, s.market, instrument)
    ensures forall now :: HasExpired(c, instrument, now) <==> PastExpiry(c, instrument, now)
    ensures s.fault.None? && op.AdvanceTo? && s.market.now <= op.now ==> Step(c, s, op) == Advanced(c, s, op.now) && Step(c, s, op).market.now == op.now
    ensures op.AdvanceTo? && (s.fault.Some? || op.now < s.market.now) ==> Step(c, s, op).desk == s.desk
    ensures op.AdvanceTo? && (s.fault.Some? || op.now < s.market.now) ==> Step(c, s, op).market == s.market
  {
    hide CancelAll, Doomed;
  }

  /** After any run, no order rests on an instrument whose expiry has come. */
  lemma {:induction false} NothingRestsPastExpiry(c: Config, ops: seq<Op>, instrument: nat)
    requires PastExpiry(c, instrument, Run(c, ops).market.now)
    ensures Stopped(c, Run(c, ops).market, instrument) && Cleared(Run(c, ops).desk, instrument)
    decreases |ops|
  {
    hide HasExpired, PastExpiry, Step, Sane, Stopped;
    var n := |ops| - 1;
    if ops != [] {
      var s, op := Run(c, ops[..n]), ops[n];
      RunIsSane(c, ops[..n]);
      SaneIsCoherent(s);
      ExpiryHasCome(c, s, op, instrument);
      if op.AdvanceTo? && s.fault.None? && s.market.now <= op.now {
        AdvanceClears(c, s, op.now, instrument);
      } else {
        MarketOnlyCloses(c, s, op);
        NothingRestsPastExpiry(c, ops[..n], instrument);
        StaysCleared(c, s, op, instrument);
      }
    }
    ExpiryHasCome(c, Run(c, ops), ArmTriggers, instrument);
  }

  /** From then on nothing trades there but a delisting's cash-out, whatever is fed, sent or printed. */
  lemma NothingTradesPastExpiry(c: Config, before: seq<Op>, after: seq<Op>, instrument: nat)
    requires PastExpiry(c, instrument, Run(c, before).market.now)
    requires forall k :: 0 <= k < |after| ==> !Delists(after[k], instrument)
    ensures FillsOn(Run(c, before + after).account.fills, instrument) == FillsOn(Run(c, before).account.fills, instrument)
  {
    hide Run, FillsOn, PastExpiry, Stopped, Cleared;
    NothingRestsPastExpiry(c, before, instrument);
    ClosedStaysClosed(c, before, after, instrument);
  }

  // ----- Delisting -----

  /** Each offered order of a stopped instrument leaves the book. */
  lemma {:induction false} OffersClear(c: Config, s: State, ids: seq<OrderId>, instrument: nat, x: OrderId)
    requires Coherent(s.desk) && s.fault.None? && AllOfferable(s.desk, ids) && Stopped(c, s.market, instrument)
    ensures Listed(Offer(c, s, ids).desk, instrument, x) ==> Listed(s.desk, instrument, x) && x !in ids
    decreases |ids|
  {
    hide Structure, TryFill, FillsOn, Stopped;
    if ids != [] {
      var s1 := TryFill(c, s, ids[0]);
      assert Offerable(s.desk, ids[0]);
      TryFillCoherent(c, s, ids[0]);
      OfferSpares(c, s, ids[0], instrument);
      if Listed(s.desk, instrument, ids[0]) {
        StoppedOfferSpares(c, s, ids[0]);
      }
      forall i | 0 <= i < |ids[1..]| ensures Offerable(s1.desk, ids[1..][i]) {
        assert Offerable(s.desk, ids[i + 1]);
      }
      OffersClear(c, s1, ids[1..], instrument, x);
      assert ids == [ids[0]] + ids[1..];
    }
  }

  lemma {:induction false} OfInstrumentHolds(d: Desk, ids: seq<OrderId>, instrument: nat, id: OrderId)
    requires id in ids && StillOpen(d, id) && d.orders[id].slot.instrument == instrument
    ensures id in OfInstrument(d, ids, instrument)
    decreases |ids|
  {
    assert ids == [ids[0]] + ids[1..];
    if id != ids[0] {
      OfInstrumentHolds(d, ids[1..], instrument, id);
    }
  }

  /**
   Matching after a corporate action takes everything off a stopped instrument, whatever the
   outcome, exactly when the outcome the action names has a book or there was nothing to take.
   */
  lemma SweepClears(c: Config, s: State, slot: Slot)
    requires Coherent(s.desk) && s.fault.None? && Stopped(c, s.market, slot.instrument)
    ensures Cleared(MatchResting(c, s, slot, true).desk, slot.instrument)
       <==> slot in s.market.books || Cleared(s.desk, slot.instrument)
  {
    hide Structure, Offer, Pruned, Stopped, OfInstrument, AllResting, AllOfferable;
    if slot in s.market.books {
      var i := slot.instrument;
      var ids := Candidates(c, s, slot, true);
      CandidatesAreResting(c, s, slot, true);
      RestingIsOfferable(s.desk, ids);
      OfferCoherent(c, s, ids);
      PrunedIsIdle(Offer(c, s, ids));
      forall id ensures !Listed(MatchResting(c, s, slot, true).desk, i, id) {
        OffersClear(c, s, ids, i, id);
        if Listed(s.desk, i, id) {
          OfInstrumentHolds(s.desk, s.desk.resting, i, id);
        }
      }
    }
  }

  lemma DelistStops(c: Config, s: State, instrument: nat, price: int)
    requires Coherent(s.desk) && s.fault.None? && price >= 0
    ensures var s' := Step(c, s, Delist(instrument, price));
            s'.fault.None? && Stopped(c, s'.market, instrument) && s'.market.books == s.market.books
  {
    hide Coherent, CashOut, FillsOn;
    CashOutCoherent(c, s, instrument, c.outcomes(instrument), price);
    CashOutSpares(c, s, instrument, c.outcomes(instrument), price, instrument);
  }

  /**
   A delisting and the matching of the record that carried it: from then on nothing trades on any
   outcome of the instrument, but a later delisting of the same one.
   */
  lemma NothingTradesAfterDelisting(c: Config, before: seq<Op>, slot: Slot, price: int, after: seq<Op>)
    requires Run(c, before).fault.None? && price >= 0 && slot in Run(c, before).market.books
    requires forall k :: 0 <= k < |after| ==> !Delists(after[k], slot.instrument)
    ensures var delisted := before + [Delist(slot.instrument, price)];
            (FillsOn(Run(c, delisted + [Match(slot, true)] + after).account.fills, slot.instrument)
             == FillsOn(Run(c, delisted).account.fills, slot.instrument))
  {
    hide Run, FillsOn, Step, Cleared, Sane, Coherent, Stopped;
    var i := slot.instrument;
    var s := Run(c, before);
    var delisted := before + [Delist(i, price)];
    var s1 := Run(c, delisted);
    RunIsSane(c, before);
    SaneIsCoherent(s);
    RunSnoc(c, before, Delist(i, price));
    DelistStops(c, s, i, price);
    RunIsSane(c, delisted);
    SaneIsCoherent(s1);
    RunSnoc(c, delisted, Match(slot, true));
    StaysStopped(c, s1, Match(slot, true), i);
    StepSpares(c, s1, Match(slot, true), i);
    SparedFills(s1, Step(c, s1, Match(slot, true)), i);
    SweepClears(c, s1, slot);
    MatchStep(c, s1, slot);
    ClosedStaysClosed(c, delisted + [Match(slot, true)], after, i);
  }

  lemma MatchStep(c: Config, s: State, slot: Slot)
    requires s.fault.None?
    ensures Step(c, s, Match(slot, true)) == MatchResting(c, s, slot, true)
  {
    hide MatchResting;
  }

  // ----- When a print can fill -----

  /** Every reached order is the instrument's own. */
  predicate Own(d: Desk, eligible: seq<(int, OrderId)>, instrument: nat) {
    forall k :: 0 <= k < |eligible| ==>
      eligible[k].1 in d.orders && d.orders[eligible[k].1].slot.instrument == instrument
  }

  /** Nothing but queue places moved. */
  predicate Untouched(s: State, s': State) {
    && s'.desk.orders == s.desk.orders && s'.desk.resting == s.desk.resting && s'.desk.index == s.desk.index
    && s'.account == s.account && s'.market == s.market && s'.fault == s.fault
  }

  /** Whatever was filled on the instrument is on record. */
  ghost predicate Told(s: State, s': State, instrument: nat) {
    Untouched(s, s') || |FillsOn(s'.account.fills, instrument)| > |FillsOn(s.account.fills, instrument)|
  }

  lemma ExecuteTells(c: Config, s: State, id: OrderId, price: int, fill: int, instrument: nat)
    requires id in s.desk.orders && s.desk.orders[id].slot.instrument == instrument && fill <= s.desk.orders[id].Remaining()
    ensures |FillsOn(Execute(c, s, id, price, fill, false).account.fills, instrument)| > |FillsOn(s.account.fills, instrument)|
  {
    hide FillsOn, RemoveResting, CashAfterFill, Required, Positions.PortfolioApplied;
    var o := s.desk.orders[id];
    var commission := c.fee(s.account.fills, o.(id := id), price, fill, false);
    FillsOnAppend(s.account.fills, Fill(id, o.slot, o.side, price, fill, commission, false), instrument);
  }

  lemma ConsumeOneTells(c: Config, s: State, limit: int, id: OrderId, remaining: int, instrument: nat)
    requires Reachable(s.desk, id) && s.desk.orders[id].slot.instrument == instrument
    ensures var s' := ConsumeOne(c, s, limit, id, remaining).state;
            Told(s, s', instrument) && (WantedBy(s.desk, id) <= 0 ==> Untouched(s, s'))
  {
    hide FillsOn, Execute, Eaten;
    var eaten := Eaten(s, id, remaining);
    var s1 := SetAhead(s, id, ValueOr(s.desk.queueAhead, id, 0) - eaten);
    ExecuteTells(c, s1, id, limit, Min(remaining - eaten, WantedBy(s.desk, id)), instrument);
  }

  predicate NoneWants(d: Desk, eligible: seq<(int, OrderId)>) {
    forall k :: 0 <= k < |eligible| ==> WantedBy(d, eligible[k].1) <= 0
  }

  lemma {:induction false} ConsumeTells(c: Config, s: State, eligible: seq<(int, OrderId)>, remaining: int, instrument: nat)
    requires Coherent(s.desk) && s.fault.None? && AllReachable(s.desk, eligible) && Own(s.desk, eligible, instrument)
    ensures var s' := Consume(c, s, eligible, remaining).state;
            Told(s, s', instrument) && (NoneWants(s.desk, eligible) ==> Untouched(s, s'))
    decreases |eligible|
  {
    hide Coherent, ConsumeOne, FillsOn;
    if eligible != [] && remaining > 0 {
      var id := eligible[0].1;
      var one := ConsumeOne(c, s, eligible[0].0, id, remaining);
      assert Reachable(s.desk, id);
      ConsumeOneCoherent(c, s, eligible[0].0, id, remaining);
      ConsumeOneTells(c, s, eligible[0].0, id, remaining, instrument);
      forall k | 0 <= k < |eligible[1..]|
        ensures Reachable(one.state.desk, eligible[1..][k].1)
        ensures one.state.desk.orders[eligible[1..][k].1].slot.instrument == instrument
        ensures NoneWants(s.desk, eligible) ==> WantedBy(one.state.desk, eligible[1..][k].1) <= 0
      {
        assert Reachable(s.desk, eligible[k + 1].1);
        assert NoneWants(s.desk, eligible) ==> WantedBy(s.desk, eligible[k + 1].1) <= 0;
      }
      ConsumeTells(c, one.state, eligible[1..], one.left, instrument);
    }
  }

  /** What one side of a print hits is the print's own instrument's. */
  lemma SideTells(c: Config, s: State, slot: Slot, price: int, size: int, passive: Side)
    requires Coherent(s.desk) && s.fault.None?
    ensures var s' := ConsumeSide(c, s, slot, price, size, passive);
            && s' == Consume(c, s, ReachedByTrade(s.desk.index, slot, passive, price), size).state
            && Told(s, s', slot.instrument)
            && ((forall id :: Listed(s.desk, slot.instrument, id) ==> s.desk.orders[id].Remaining() <= 0) ==> Untouched(s, s'))
  {
    hide Structure, Consume, ReachedByTrade, Pruned, FillsOn, Told, Untouched;
    var eligible := ReachedByTrade(s.desk.index, slot, passive, price);
    ReachedByTradeIsExact(s.desk, slot, passive, price);
    ReachedIsReachable(s.desk, slot, passive, price);
    forall k | 0 <= k < |eligible|
      ensures eligible[k].1 in s.desk.orders && Listed(s.desk, slot.instrument, eligible[k].1)
    {
      assert Hit(s.desk, slot, passive, price, eligible[k].1);
    }
    ConsumeTells(c, s, eligible, size, slot.instrument);
    ConsumeCoherent(c, s, eligible, size);
    PrunedIsIdle(Consume(c, s, eligible, size).state);
  }

  /** With nothing left to fill on the instrument, no print fills anything there. */
  lemma PrintFindsNothing(c: Config, s: State, slot: Slot, price: int, size: int, aggressor: Option<Side>)
    requires Coherent(s.desk) && s.fault.None?
    requires forall id :: Listed(s.desk, slot.instrument, id) ==> s.desk.orders[id].Remaining() <= 0
    ensures Printed(c, s, slot, price, size, aggressor).account == s.account
  {
    hide Coherent, ConsumeSide, FillsOn, Told;
    if c.usesQueue {
      match aggressor
      case Some(side) => SideTells(c, s, slot, price, size, side.Opposite());
      case None =>
        var s1 := ConsumeSide(c, s, slot, price, size, Buy);
        SideTells(c, s, slot, price, size, Buy);
        ConsumeSideCoherent(c, s, slot, price, size, Buy);
        SideTells(c, s1, slot, price, size, Sell);
    }
  }

  /** A print at a resting order's limit, hitting its side, large enough to get to it. */
  lemma BigPrintFills(c: Config, s: State, id: OrderId) returns (size: int)
    requires Coherent(s.desk) && s.fault.None? && c.usesQueue
    requires id in s.desk.resting && IsLimit(s.desk, id) && s.desk.orders[id].Remaining() > 0
    ensures var o := s.desk.orders[id];
            var i := o.slot.instrument;
            |FillsOn(Printed(c, s, o.slot, o.kind.limit, size, Some(o.side.Opposite())).account.fills, i)| > |FillsOn(s.account.fills, i)|
  {
    hide Structure, Consume, ConsumeSide, ReachedByTrade, FillsOn, RestingIsOpen;
    var o := s.desk.orders[id];
    var eligible := ReachedByTrade(s.desk.index, o.slot, o.side, o.kind.limit);
    ReachedByTradeIsExact(s.desk, o.slot, o.side, o.kind.limit);
    ReachedIsReachable(s.desk, o.slot, o.side, o.kind.limit);
    assert Hit(s.desk, o.slot, o.side, o.kind.limit, id);
    var k :| 0 <= k < |eligible| && eligible[k].1 == id;
    size := DepthBefore(s, eligible, k) + Ahead(s, id) + 1;
    PrintIsAWaterfall(c, s, eligible, size, k);
    SideTells(c, s, o.slot, o.kind.limit, size, o.side);
  }

  /**
   In any reachable state some print fills on an instrument, closed or not, exactly when an order
   with something left to fill rests there: after a delisting, until the instrument is swept.
   */
  lemma PrintCanFillExactlyWhenListed(c: Config, ops: seq<Op>, instrument: nat)
    requires c.usesQueue && Run(c, ops).fault.None?
    ensures var s := Run(c, ops);
            ((exists slot: Slot, price: int, size: int, aggressor: Option<Side> ::
                slot.instrument == instrument
                && FillsOn(Printed(c, s, slot, price, size, aggressor).account.fills, instrument) != FillsOn(s.account.fills, instrument))
             <==> exists id :: Listed(s.desk, instrument, id) && s.desk.orders[id].Remaining() > 0)
  {
    hide Run, FillsOn, Printed, Structure;
    var s := Run(c, ops);
    RunIsSane(c, ops);
    if id :| Listed(s.desk, instrument, id) && s.desk.orders[id].Remaining() > 0 {
      EveryRestingIsLimit(s.desk);
      var size := BigPrintFills(c, s, id);
      var o := s.desk.orders[id];
      assert FillsOn(Printed(c, s, o.slot, o.kind.limit, size, Some(o.side.Opposite())).account.fills, instrument) != FillsOn(s.account.fills, instrument);
    } else {
      forall slot: Slot, price: int, size: int, aggressor: Option<Side> | slot.instrument == instrument
        ensures Printed(c, s, slot, price, size, aggressor).account == s.account
      {
        PrintFindsNothing(c, s, slot, price, size, aggressor);
      }
    }
  }

  lemma EveryRestingIsLimit(d: Desk)
    requires Coherent(d)
    ensures forall id :: id in d.resting ==> IsLimit(d, id)
  {
  }
}
