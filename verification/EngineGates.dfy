/**
 The gate an order passes when it is sent: what the venue takes, told exactly from the state
 before, and the cap on open orders as a bound over every run.
 */
module EngineGates {
  import opened FixedPoint
  import opened Sorting
  import opened Sums
  import opened Orders
  import opened Book
  import opened Engine
  import opened EngineCoherence
  import opened EngineRuns
  import opened EngineAccount
  import EngineQueueRuns
  import RestingIndex
  import BookFeed
  import Positions

  // ----- What is open -----

  /** What each open order of a list still wants, for one side of a market. */
  function SizesIn(d: Desk, ids: seq<OrderId>, slot: Slot, side: Side, plainOnly: bool): map<OrderId, int> {
    map id | id in ids && IsOpenFor(d, id, slot, side, plainOnly) :: d.orders[id].quantity - d.orders[id].filled
  }

  predicate IsOpenFor(d: Desk, id: OrderId, slot: Slot, side: Side, plainOnly: bool) {
    && StillOpen(d, id) && d.orders[id].slot == slot && d.orders[id].side == side
    && (plainOnly ==> !d.orders[id].reduceOnly)
  }

  function OpenSizes(d: Desk, slot: Slot, side: Side, plainOnly: bool): map<OrderId, int> {
    SizesIn(d, d.live, slot, side, plainOnly)
  }

  function OpenIn(d: Desk, ids: seq<OrderId>): set<OrderId> {
    set id | id in ids && StillOpen(d, id)
  }

  function OpenOrders(d: Desk): set<OrderId> {
    OpenIn(d, d.live)
  }

  lemma OneMoreSize(d: Desk, x: OrderId, ids: seq<OrderId>, slot: Slot, side: Side, plainOnly: bool)
    requires x !in ids
    ensures MapSum(SizesIn(d, [x] + ids, slot, side, plainOnly))
         == MapSum(SizesIn(d, ids, slot, side, plainOnly)) + PendingOf(d, x, slot, side, plainOnly)
  {
    hide MapSum;
    var rest, all := SizesIn(d, ids, slot, side, plainOnly), SizesIn(d, [x] + ids, slot, side, plainOnly);
    if IsOpenFor(d, x, slot, side, plainOnly) {
      assert all == rest[x := d.orders[x].quantity - d.orders[x].filled];
      MapSumUpdate(rest, x, all[x]);
    } else {
      assert all == rest;
    }
  }

  lemma {:induction false} PendingIsTheSizes(d: Desk, ids: seq<OrderId>, slot: Slot, side: Side, plainOnly: bool)
    requires NoDuplicates(ids)
    ensures Pending(d, ids, slot, side, plainOnly) == MapSum(SizesIn(d, ids, slot, side, plainOnly))
    decreases |ids|
  {
    hide PendingOf, IsOpenFor;
    if ids == [] {
      assert SizesIn(d, ids, slot, side, plainOnly) == map[];
    } else {
      NoDuplicatesTail(ids);
      PendingIsTheSizes(d, ids[1..], slot, side, plainOnly);
      OneMoreSize(d, ids[0], ids[1..], slot, side, plainOnly);
    }
  }

  lemma {:induction false} CountIsTheSet(d: Desk, ids: seq<OrderId>)
    requires NoDuplicates(ids)
    ensures OpenCount(d, ids) == |OpenIn(d, ids)|
    decreases |ids|
  {
    if ids == [] {
      assert OpenIn(d, ids) == {};
    } else {
      NoDuplicatesTail(ids);
      CountIsTheSet(d, ids[1..]);
      if StillOpen(d, ids[0]) {
        assert OpenIn(d, ids) == OpenIn(d, ids[1..]) + {ids[0]};
      } else {
        assert OpenIn(d, ids) == OpenIn(d, ids[1..]);
      }
    }
  }

  /** Pruning the list first changes none of these. */
  lemma PrunedListSame(d: Desk, d1: Desk, slot: Slot, side: Side, plainOnly: bool)
    requires LiveOnce(d) && d1.orders == d.orders && d1.live == LiveOnly(d, d.live)
    ensures Pending(d1, d1.live, slot, side, plainOnly) == MapSum(OpenSizes(d, slot, side, plainOnly))
    ensures OpenCount(d1, d1.live) == |OpenOrders(d)|
  {
    hide LiveOnly;
    LiveOnlyMembers(d, d.live);
    PendingIsTheSizes(d1, d1.live, slot, side, plainOnly);
    CountIsTheSet(d1, d1.live);
    assert SizesIn(d1, d1.live, slot, side, plainOnly) == OpenSizes(d, slot, side, plainOnly);
    assert OpenIn(d1, d1.live) == OpenOrders(d);
  }

  // ----- Sending -----

  /** The request names a market that exists, at a valid price, and can rest if it only may rest. */
  predicate WellFormed(c: Config, r: Request) {
    && r.slot.outcome < c.outcomes(r.slot.instrument)
    && (r.kind.Limit? ==> c.validPrice(r.slot.instrument, r.kind.limit))
    && (r.postOnly ==> r.kind.Limit?)
  }

  /** Everything plain that is open to sell, and this, is covered by what is held. */
  ghost predicate CoveredSell(s: State, r: Request) {
    MapSum(OpenSizes(s.desk, r.slot, Sell, true)) + r.quantity <= Held(s.account, r.slot)
  }

  ghost predicate SellIsAllowed(c: Config, s: State, r: Request) {
    c.prediction(r.slot.instrument) && r.side == Sell && !r.reduceOnly && !c.allowNakedShorts ==> CoveredSell(s, r)
  }

  /** With this order filled, all the buys or all the sells could fill and the position stay within the limit. */
  ghost predicate WithinLimit(s: State, r: Request, maximum: int) {
    var long := Held(s.account, r.slot) + MapSum(OpenSizes(s.desk, r.slot, Buy, false)) + (if r.side == Buy then r.quantity else 0);
    var short := Held(s.account, r.slot) - MapSum(OpenSizes(s.desk, r.slot, Sell, false)) - (if r.side == Sell then r.quantity else 0);
    -maximum <= long <= maximum && -maximum <= short <= maximum
  }

  /** What the venue takes. */
  ghost predicate Admissible(c: Config, s: State, r: Request) {
    && WellFormed(c, r) && !Stopped(c, s.market, r.slot.instrument) && SellIsAllowed(c, s, r)
    && (c.maxOrderQuantity.Some? ==> r.quantity <= c.maxOrderQuantity.value)
    && (c.maxOpenOrders.Some? ==> |OpenOrders(s.desk)| < c.maxOpenOrders.value)
    && (c.maxAbsPosition.Some? ==> WithinLimit(s, r, c.maxAbsPosition.value))
  }

  lemma GateIsExact(c: Config, s: State, r: Request)
    requires Coherent(s.desk)
    ensures var d := s.desk.(nextId := s.desk.nextId + 1, live := LiveOnly(s.desk, s.desk.live));
            var s1 := s.(desk := d);
            (Refused(c, r) || Stopped(c, s.market, r.slot.instrument) || NakedShort(c, s1, r) || RiskRejected(c, s1, r))
              <==> !Admissible(c, s, r)
  {
    hide Structure, RestingIsOpen, ParkedApart, Pending, OpenCount, LiveOnly, Stopped, OpenSizes, OpenOrders, MapSum;
    var d := s.desk.(nextId := s.desk.nextId + 1, live := LiveOnly(s.desk, s.desk.live));
    PrunedListSame(s.desk, d, r.slot, Sell, true);
    PrunedListSame(s.desk, d, r.slot, Sell, false);
    PrunedListSame(s.desk, d, r.slot, Buy, false);
  }

  /** What a submission leaves. */
  ghost predicate Sent(c: Config, s: State, s': State, r: Request) {
    var id := s.desk.nextId + 1;
    if r.quantity < 1 then s' == s.(fault := Some(BadRequest))
    else
      var taken := Admissible(c, s, r);
      var o := Order(id, r.slot, r.side, r.kind, r.quantity, 0, r.tif, if taken then InFlight else Rejected,
                     r.reduceOnly, r.postOnly, r.trigger);
      && id !in s.desk.orders && s'.desk.orders == s.desk.orders[id := o]
      && s'.desk.inflight == s.desk.inflight + (if taken then [id] else [])
      && OpenOrders(s'.desk) == OpenOrders(s.desk) + (if taken then {id} else {})
      && s'.desk.resting == s.desk.resting && s'.desk.untriggered == s.desk.untriggered
      && s'.desk.queueAhead == s.desk.queueAhead && s'.desk.nextId == id
      && s'.account == s.account && s'.market == s.market && s'.fault.None?
  }

  lemma SubmittedIsSent(c: Config, s: State, r: Request)
    requires Coherent(s.desk) && s.fault.None?
    ensures Sent(c, s, Submitted(c, s, r), r)
  {
    hide Coherent, Admissible, Refused, NakedShort, RiskRejected, Stopped, LiveOnly, OpenOrders;
    GateIsExact(c, s, r);
    NewIdIsFresh(s.desk);
    if r.quantity >= 1 {
      OpenAfterSending(s.desk, Submitted(c, s, r).desk);
    }
  }

  /**
   In every reachable state an order sent is put on the wire exactly when it is admissible and is
   recorded as rejected otherwise, with the terms asked for either way; no other order, no
   position and no market is touched.  A size that is not positive ends the run.
   */
  lemma SubmissionIsExact(c: Config, ops: seq<Op>, r: Request)
    requires Run(c, ops).fault.None?
    ensures Sent(c, Run(c, ops), Step(c, Run(c, ops), Submit(r)), r)
  {
    hide Run, Coherent, Sent, Submitted;
    RunIsSane(c, ops);
    SubmittedIsSent(c, Run(c, ops), r);
  }

  lemma NewIdIsFresh(d: Desk)
    requires Coherent(d)
    ensures d.nextId + 1 !in d.orders && LiveOnce(d)
  {
  }

  lemma OpenAfterSending(d: Desk, d': Desk)
    requires LiveOnce(d)
    requires var id := d.nextId + 1;
             && id in d'.orders && d'.orders == d.orders[id := d'.orders[id]]
             && d'.live == LiveOnly(d, d.live) + (if d'.orders[id].IsOpen() then [id] else [])
    ensures var id := d.nextId + 1;
            OpenOrders(d') == OpenOrders(d) + (if d'.orders[id].IsOpen() then {id} else {})
  {
    hide LiveOnly;
    LiveOnlyMembers(d, d.live);
    var id := d.nextId + 1;
    assert id !in d.live;
    assert forall x :: x in d'.live <==> x in LiveOnly(d, d.live) || (x == id && d'.orders[id].IsOpen());
  }

  // ----- Nothing but a submission joins the live list -----

  lemma {:induction false} PruneLive(d: Desk, ids: seq<OrderId>)
    ensures Prune(d, ids).live == d.live
    decreases |ids|
  {
    if ids != [] {
      PruneLive(if StillOpen(d, ids[0]) then d else RemoveResting(d, ids[0]), ids[1..]);
    }
  }

  lemma RestOrCancelLive(c: Config, m: MarketData, d: Desk, id: OrderId)
    requires id in d.orders
    ensures RestOrCancel(c, m, d, id).live == d.live
  {
  }

  lemma ExecuteLive(c: Config, s: State, id: OrderId, price: int, q: int, commission: int, taker: bool)
    requires id in s.desk.orders
    ensures BookFill(c, s, id, price, q, commission, taker).desk.live == s.desk.live
  {
    hide AfterFill;
  }

  lemma {:induction false} ExecuteAllLive(c: Config, s: State, id: OrderId, fills: seq<(int, int)>, taker: bool)
    ensures ExecuteAll(c, s, id, fills, taker).desk.live == s.desk.live
    decreases |fills|
  {
    hide BookFill;
    if fills != [] && s.fault.None? && id in s.desk.orders {
      ExecuteLive(c, s, id, fills[0].0, fills[0].1, c.fee(s.account.fills, s.desk.orders[id].(id := id), fills[0].0, fills[0].1, taker), taker);
      ExecuteAllLive(c, Execute(c, s, id, fills[0].0, fills[0].1, taker), id, fills[1..], taker);
    }
  }

  lemma TryFillLive(c: Config, s: State, id: OrderId)
    ensures TryFill(c, s, id).desk.live == s.desk.live
  {
    hide ExecuteAll, RestOrCancel, Walk, EffectiveBook, Wanted, Stopped;
    if id in s.desk.orders {
      var o := s.desk.orders[id];
      RestOrCancelLive(c, s.market, s.desk, id);
      if o.slot in s.market.books {
        var w := Walk(EffectiveBook(c, s.market, o), o.side, Wanted(s.account, o), o.LimitPrice());
        ExecuteAllLive(c, s, id, w.fills, !o.postOnly);
        var s1 := ExecuteAll(c, s, id, w.fills, !o.postOnly);
        if id in s1.desk.orders {
          RestOrCancelLive(c, s1.market, s1.desk, id);
        }
      }
    }
  }

  lemma {:induction false} OfferLive(c: Config, s: State, ids: seq<OrderId>)
    ensures Offer(c, s, ids).desk.live == s.desk.live
    decreases |ids|
  {
    hide TryFill;
    if ids != [] && s.fault.None? {
      TryFillLive(c, s, ids[0]);
      OfferLive(c, TryFill(c, s, ids[0]), ids[1..]);
    }
  }

  lemma {:induction false} ArmLive(c: Config, s: State, ids: seq<OrderId>)
    ensures Arm(c, s, ids).desk.live == s.desk.live
    decreases |ids|
  {
    hide TryFill;
    if ids != [] && s.fault.None? && ids[0] in s.desk.orders {
      var s1 := s.(desk := SetOrder(s.desk, s.desk.orders[ids[0]].(id := ids[0], trigger := None, status := Accepted)));
      TryFillLive(c, s1, ids[0]);
      ArmLive(c, TryFill(c, s1, ids[0]), ids[1..]);
    }
  }

  lemma ConsumeOneLive(c: Config, s: State, limit: int, id: OrderId, remaining: int)
    ensures ConsumeOne(c, s, limit, id, remaining).state.desk.live == s.desk.live
  {
    hide BookFill, Eaten;
    var s1 := SetAhead(s, id, ValueOr(s.desk.queueAhead, id, 0) - Eaten(s, id, remaining));
    var fill := Min(remaining - Eaten(s, id, remaining), WantedBy(s1.desk, id));
    if id in s.desk.orders {
      ExecuteLive(c, s1, id, limit, fill, c.fee(s1.account.fills, s1.desk.orders[id].(id := id), limit, fill, false), false);
    }
  }

  lemma {:induction false} ConsumeLive(c: Config, s: State, eligible: seq<(int, OrderId)>, remaining: int)
    ensures Consume(c, s, eligible, remaining).state.desk.live == s.desk.live
    decreases |eligible|
  {
    hide ConsumeOne;
    if eligible != [] && remaining > 0 && s.fault.None? {
      var one := ConsumeOne(c, s, eligible[0].0, eligible[0].1, remaining);
      ConsumeOneLive(c, s, eligible[0].0, eligible[0].1, remaining);
      ConsumeLive(c, one.state, eligible[1..], one.left);
    }
  }

  lemma SideLive(c: Config, s: State, slot: Slot, price: int, size: int, passive: Side)
    ensures ConsumeSide(c, s, slot, price, size, passive).desk.live == s.desk.live
  {
    hide Consume, RestingIndex.ReachedByTrade, Prune;
    var eligible := RestingIndex.ReachedByTrade(s.desk.index, slot, passive, price);
    ConsumeLive(c, s, eligible, size);
    var s1 := Consume(c, s, eligible, size).state;
    PruneLive(s1.desk, s1.desk.resting);
  }

  lemma PrintedLive(c: Config, s: State, slot: Slot, price: int, size: int, aggressor: Option<Side>)
    ensures Printed(c, s, slot, price, size, aggressor).desk.live == s.desk.live
  {
    hide ConsumeSide;
    SideLive(c, s, slot, price, size, Buy);
    SideLive(c, s, slot, price, size, Sell);
    SideLive(c, ConsumeSide(c, s, slot, price, size, Buy), slot, price, size, Sell);
  }

  lemma MatchLive(c: Config, s: State, slot: Slot, corporate: bool)
    ensures MatchResting(c, s, slot, corporate).desk.live == s.desk.live
  {
    hide Candidates, Offer, Prune;
    if slot in s.market.books {
      var ids := Candidates(c, s, slot, corporate);
      OfferLive(c, s, ids);
      PruneLive(Offer(c, s, ids).desk, Offer(c, s, ids).desk.resting);
    }
  }

  lemma {:induction false} CancelAllLive(d: Desk, ids: seq<OrderId>)
    ensures CancelAll(d, ids).live == d.live
    decreases |ids|
  {
    if ids != [] {
      CancelAllLive(Close(d, ids[0], Cancelled), ids[1..]);
    }
  }

  lemma {:induction false} SplitRestingLive(d: Desk, ids: seq<OrderId>, instrument: nat, ratio: int)
    requires ratio > 0
    ensures SplitResting(d, ids, instrument, ratio).live == d.live
    decreases |ids|
  {
    hide SplitOrder;
    if ids != [] {
      SplitRestingLive(SplitRestingOne(d, ids[0], instrument, ratio), ids[1..], instrument, ratio);
    }
  }

  lemma {:induction false} SplitHeldLive(d: Desk, ids: seq<OrderId>, instrument: nat, ratio: int, inflightOnly: bool)
    requires ratio > 0
    ensures SplitHeld(d, ids, instrument, ratio, inflightOnly).live == d.live
    decreases |ids|
  {
    hide SplitOrder;
    if ids != [] {
      var id := ids[0];
      var hit := id in d.orders && d.orders[id].slot.instrument == instrument
                 && (!inflightOnly || d.orders[id].status.InFlight?);
      SplitHeldLive(if hit then SetOrder(d, SplitOrder(ratio, d.orders[id]).(id := id)) else d,
                    ids[1..], instrument, ratio, inflightOnly);
    }
  }

  lemma SplitLive(s: State, instrument: nat, ratio: int)
    ensures SplitShares(s, instrument, ratio).desk.live == s.desk.live
  {
    hide SplitResting, SplitHeld, SplitPositions, SplitMarket;
    if ratio > 0 {
      var d1 := SplitResting(s.desk, s.desk.resting, instrument, ratio);
      var d2 := SplitHeld(d1, d1.untriggered, instrument, ratio, false);
      SplitRestingLive(s.desk, s.desk.resting, instrument, ratio);
      SplitHeldLive(d1, d1.untriggered, instrument, ratio, false);
      SplitHeldLive(d2, d2.live, instrument, ratio, true);
    }
  }

  lemma {:induction false} CashOutLive(c: Config, s: State, instrument: nat, outcomes: nat, price: int)
    ensures CashOut(c, s, instrument, outcomes, price).desk.live == s.desk.live
    decreases outcomes
  {
    hide BookFill;
    if outcomes > 0 {
      CashOutLive(c, s, instrument, outcomes - 1, price);
      var s1 := CashOut(c, s, instrument, outcomes - 1, price);
      var slot := Slot(instrument, outcomes - 1);
      var q := Positions.At(s1.account.positions, slot).quantity;
      var s2 := WithEngineOrder(s1, slot, if q > 0 then Sell else Buy, Abs(q), false);
      var id := s2.desk.nextId;
      ExecuteLive(c, s2, id, price, Abs(q), c.fee(s2.account.fills, s2.desk.orders[id].(id := id), price, Abs(q), false), false);
    }
  }

  lemma {:induction false} BookLegsLive(c: Config, s: State, instrument: nat, side: Side, sets: int, basis: seq<int>, k: nat, cost: int)
    requires k <= |basis|
    ensures BookLegs(c, s, instrument, side, sets, basis, k, cost).desk.live == s.desk.live
    decreases |basis| - k
  {
    hide BookFill;
    if k < |basis| && s.fault.None? {
      var commission := if k == 0 then cost else 0;
      var s1 := WithEngineOrder(s, Slot(instrument, k), side, sets, false);
      ExecuteLive(c, s1, s1.desk.nextId, basis[k], sets, commission, false);
      BookLegsLive(c, BookLeg(c, s, Slot(instrument, k), side, sets, basis[k], commission), instrument, side, sets, basis, k + 1, cost);
    }
  }

  lemma SetOperationLive(c: Config, s: State, instrument: nat, kind: SetKind, quantity: int)
    ensures SetOperation(c, s, instrument, kind, quantity).desk.live == s.desk.live
  {
    hide BookLegs, SetBasis, SetRefused, NoDuplicates;
    if SetCount(c, instrument, kind, quantity).Some? && SetBasis(c, s.market, instrument).Some? {
      var (sets, side) := SetCount(c, instrument, kind, quantity).value;
      BookLegsLive(c, s, instrument, side, sets, SetBasis(c, s.market, instrument).value, 0, SetCost(c, kind));
    }
  }

  lemma AmendedLive(c: Config, s: State, id: OrderId, quantity: Option<int>, limit: Option<int>)
    ensures Amended(c, s, id, quantity, limit).desk.live == s.desk.live
  {
    hide RestingIndex.Insert, RestingIndex.Remove, DisplayedAt, LosesPriority, AmendRefused;
  }

  lemma ReleasedLive(c: Config, s: State, id: OrderId, funded: bool)
    ensures Released(c, s, id, funded).desk.live == s.desk.live
  {
    hide TryFill, SelfTrades, WouldCross, Fires, Without, Stopped;
    if id in s.desk.orders {
      var d := s.desk.(inflight := Without(s.desk.inflight, id));
      TryFillLive(c, s.(desk := SetOrder(d, d.orders[id].(id := id, trigger := None, status := Accepted))), id);
    }
  }

  lemma PlacedLive(c: Config, s: State, slot: Slot, side: Side, quantity: int, reduceOnly: bool)
    ensures EngineOrder(c, s, slot, side, quantity, reduceOnly).desk.live == s.desk.live
  {
    hide TryFill;
    var s1 := WithEngineOrder(s, slot, side, quantity, reduceOnly);
    TryFillLive(c, s1, s1.desk.nextId);
  }

  lemma ArmedLive(c: Config, s: State)
    ensures TriggersArmed(c, s).desk.live == s.desk.live
  {
    hide Arm, StillParked;
    var parked := s.desk.untriggered;
    ArmLive(c, s.(desk := s.desk.(untriggered := StillParked(s, parked, false))), StillParked(s, parked, true));
  }

  lemma StepLive(c: Config, s: State, op: Op)
    requires !op.Submit?
    ensures Step(c, s, op).desk.live == s.desk.live
  {
    hide Amended, Released, TriggersArmed, CancelAll, Doomed, Printed, MatchResting, SplitShares, CashOut, EngineOrder, SetOperation,
         FundingTotal, DividendDue, BookFeed.Fed, BookFeed.DeltaApplied, RestingIndex.Remove;
    match op
    case Amend(id, q, l) => AmendedLive(c, s, id, q, l);
    case Release(id, funded) => ReleasedLive(c, s, id, funded);
    case ArmTriggers => ArmedLive(c, s);
    case AdvanceTo(now) => CancelAllLive(s.desk, Doomed(c, s.desk, s.desk.resting, now));
    case Print(slot, price, size, aggressor) => PrintedLive(c, s, slot, price, size, aggressor);
    case Match(slot, corporate) => MatchLive(c, s, slot, corporate);
    case SplitAction(i, ratio) => SplitLive(s, i, ratio);
    case Delist(i, price) => CashOutLive(c, s, i, c.outcomes(i), price);
    case PlaceEngineOrder(slot, side, q, reduceOnly) => PlacedLive(c, s, slot, side, q, reduceOnly);
    case SetOp(i, kind, q) => SetOperationLive(c, s, i, kind, q);
    case _ =>
  }

  // ----- The cap on open orders -----

  predicate LiveIsKnown(d: Desk) {
    forall id :: id in d.live ==> id in d.orders
  }

  lemma StepOpensNothing(c: Config, s: State, op: Op)
    requires Coherent(s.desk) && !op.Submit? && LiveIsKnown(s.desk)
    ensures var d' := Step(c, s, op).desk;
            LiveIsKnown(d') && OpenOrders(d') <= OpenOrders(s.desk)
  {
    hide Coherent, Step;
    StepLive(c, s, op);
    forall id | id in s.desk.live
      ensures id in Step(c, s, op).desk.orders && (StillOpen(Step(c, s, op).desk, id) ==> StillOpen(s.desk, id))
    {
      EngineQueueRuns.StepForward(c, s, op, id);
    }
  }

  lemma SubmitOpensOne(c: Config, ops: seq<Op>, r: Request)
    requires LiveIsKnown(Run(c, ops).desk)
    ensures var s := Run(c, ops);
            var d' := Step(c, s, Submit(r)).desk;
            && LiveIsKnown(d')
            && (OpenOrders(d') <= OpenOrders(s.desk)
                || (c.maxOpenOrders.Some? ==> |OpenOrders(d')| <= c.maxOpenOrders.value))
  {
    hide Run, Step, OpenOrders, Admissible;
    var s := Run(c, ops);
    if s.fault.Some? {
      FaultStops(c, s, Submit(r));
    } else {
      SubmissionIsExact(c, ops, r);
      SubmittedKnown(c, s, r);
      if r.quantity >= 1 && Admissible(c, s, r) && c.maxOpenOrders.Some? {
        AdmissibleHasRoom(c, s, r);
      }
    }
  }

  lemma AdmissibleHasRoom(c: Config, s: State, r: Request)
    requires Admissible(c, s, r) && c.maxOpenOrders.Some?
    ensures |OpenOrders(s.desk)| < c.maxOpenOrders.value
  {
  }

  lemma SubmittedKnown(c: Config, s: State, r: Request)
    requires LiveIsKnown(s.desk) && s.fault.None?
    ensures LiveIsKnown(Step(c, s, Submit(r)).desk)
  {
    hide LiveOnly, NakedShort, RiskRejected, Refused, Stopped;
    LiveOnlyMembers(s.desk, s.desk.live);
  }

  /** After any run at all, no more orders are open than the venue's cap. */
  lemma {:induction false} OpenOrdersAreCapped(c: Config, ops: seq<Op>)
    requires c.maxOpenOrders.Some?
    ensures LiveIsKnown(Run(c, ops).desk)
    ensures |OpenOrders(Run(c, ops).desk)| <= c.maxOpenOrders.value
    decreases |ops|
  {
    hide Step, OpenOrders, LiveIsKnown;
    if ops == [] {
      NothingOpen(c);
    } else {
      var n := |ops| - 1;
      var s := Run(c, ops[..n]);
      OpenOrdersAreCapped(c, ops[..n]);
      RunIsSane(c, ops[..n]);
      if ops[n].Submit? {
        SubmitOpensOne(c, ops[..n], ops[n].request);
      } else {
        StepOpensNothing(c, s, ops[n]);
      }
      FewerIsSmaller(OpenOrders(Step(c, s, ops[n]).desk), OpenOrders(s.desk));
    }
  }

  lemma NothingOpen(c: Config)
    ensures LiveIsKnown(Init(c).desk) && OpenOrders(Init(c).desk) == {}
  {
  }

  lemma FewerIsSmaller(a: set<OrderId>, b: set<OrderId>)
    ensures a <= b ==> |a| <= |b|
  {
    if a <= b {
      assert b == a + (b - a);
    }
  }
}
