/** Coherence over whole runs: every kernel step keeps it, and no step ever overfills an order. */
module EngineRuns {
  import opened FixedPoint
  import opened Sorting
  import opened Sums
  import opened Orders
  import opened Book
  import opened RestingIndex
  import opened Engine
  import opened EngineCoherence
  import BookFeed
  import Positions

  /** What every reachable state satisfies. */
  ghost predicate Sane(s: State) {
    Coherent(s.desk) && s.fault != Some(Overfilled)
  }

  // ----- Offering candidates -----

  predicate Offerable(d: Desk, id: OrderId) {
    id !in d.untriggered && (id in d.orders ==> !d.orders[id].status.Untriggered?)
  }

  predicate AllOfferable(d: Desk, ids: seq<OrderId>) {
    forall i :: 0 <= i < |ids| ==> Offerable(d, ids[i])
  }

  lemma {:induction false} OfferCoherent(c: Config, s: State, ids: seq<OrderId>)
    requires Coherent(s.desk) && s.fault.None? && AllOfferable(s.desk, ids)
    ensures var s' := Offer(c, s, ids);
            s'.fault.None? && Coherent(s'.desk) && s'.market == s.market
    decreases |ids|
  {
    if ids != [] {
      var s1 := TryFill(c, s, ids[0]);
      assert Offerable(s.desk, ids[0]);
      TryFillCoherent(c, s, ids[0]);
      forall i | 0 <= i < |ids[1..]| ensures Offerable(s1.desk, ids[1..][i]) {
        assert Offerable(s.desk, ids[i + 1]);
      }
      OfferCoherent(c, s1, ids[1..]);
    }
  }

  predicate AllResting(d: Desk, ids: seq<OrderId>) {
    forall i :: 0 <= i < |ids| ==> ids[i] in d.resting
  }

  lemma RestingIsOfferable(d: Desk, ids: seq<OrderId>)
    requires Coherent(d) && AllResting(d, ids)
    ensures AllOfferable(d, ids)
  {
  }

  lemma {:induction false} OfInstrumentIsResting(d: Desk, ids: seq<OrderId>, instrument: nat)
    requires AllResting(d, ids)
    ensures AllResting(d, OfInstrument(d, ids, instrument))
    decreases |ids|
  {
    if ids != [] {
      OfInstrumentIsResting(d, ids[1..], instrument);
    }
  }

  lemma LevelIdsAreResting(d: Desk, h: Home, id: OrderId)
    requires Structure(d) && id in IdsAt(d.index, h)
    ensures id in d.resting
  {
  }

  lemma FlattenIsResting(d: Desk, slot: Slot, side: Side, keys: set<int>, id: OrderId)
    requires Structure(d) && forall p :: p in keys ==> p in SideOf(MarketAt(d.index, slot), side)
    ensures forall i :: 0 <= i < |Ascending(keys)| ==> Ascending(keys)[i] in SideOf(MarketAt(d.index, slot), side)
    ensures id in Flatten(SideOf(MarketAt(d.index, slot), side), Ascending(keys)) ==> id in d.resting
  {
    var levels := SideOf(MarketAt(d.index, slot), side);
    FlattenOverSet(levels, keys, id);
    if id in Flatten(levels, Ascending(keys)) {
      var p :| p in keys && id in levels[p];
      LevelIdsAreResting(d, Home(slot, side, p), id);
    }
  }

  lemma CandidatesAreResting(c: Config, s: State, slot: Slot, corporate: bool)
    requires Coherent(s.desk) && slot in s.market.books
    ensures AllResting(s.desk, Candidates(c, s, slot, corporate))
  {
    var d := s.desk;
    var ids := Candidates(c, s, slot, corporate);
    if corporate {
      forall i | 0 <= i < |d.resting| ensures d.resting[i] in d.resting {
      }
      OfInstrumentIsResting(d, d.resting, slot.instrument);
    } else {
      var book := s.market.books[slot];
      var raw := if c.preservesPrices then CrossingTop(d.index, slot, BestBid(book), BestAsk(book))
                 else AllForMarket(d.index, slot);
      SortedIsAscending(raw);
      forall i | 0 <= i < |ids| ensures ids[i] in d.resting {
        assert ids[i] in ids && ids[i] in raw;
        var market := MarketAt(d.index, slot);
        FlattenIsResting(d, slot, Buy, market.buys.Keys, ids[i]);
        FlattenIsResting(d, slot, Sell, market.sells.Keys, ids[i]);
        if BestAsk(book).Some? {
          FlattenIsResting(d, slot, Buy, (set p | p in market.buys && p >= BestAsk(book).value), ids[i]);
        }
        if BestBid(book).Some? {
          FlattenIsResting(d, slot, Sell, (set p | p in market.sells && p <= BestBid(book).value), ids[i]);
        }
      }
    }
  }

  lemma {:induction false} PruneIsIdle(d: Desk, ids: seq<OrderId>)
    requires forall i :: 0 <= i < |ids| ==> StillOpen(d, ids[i])
    ensures Prune(d, ids) == d
    decreases |ids|
  {
    if ids != [] {
      PruneIsIdle(d, ids[1..]);
    }
  }

  /** Orders leave the book the moment they close, so the sweep at the end finds nothing. */
  lemma PrunedIsIdle(s: State)
    requires Coherent(s.desk)
    ensures Pruned(s) == s
  {
    forall i | 0 <= i < |s.desk.resting| ensures StillOpen(s.desk, s.desk.resting[i]) {
      assert s.desk.resting[i] in s.desk.resting;
    }
    PruneIsIdle(s.desk, s.desk.resting);
  }

  lemma MatchCoherent(c: Config, s: State, slot: Slot, corporate: bool)
    requires Coherent(s.desk) && s.fault.None?
    ensures var s' := MatchResting(c, s, slot, corporate);
            s'.fault.None? && Coherent(s'.desk)
  {
    if slot in s.market.books {
      var ids := Candidates(c, s, slot, corporate);
      CandidatesAreResting(c, s, slot, corporate);
      RestingIsOfferable(s.desk, ids);
      OfferCoherent(c, s, ids);
      PrunedIsIdle(Offer(c, s, ids));
    }
  }

  // ----- Prints -----

  /** A reached order that can still be filled is at the venue. */
  predicate Reachable(d: Desk, id: OrderId) {
    id in d.orders && (AtVenue(d.orders[id]) || d.orders[id].Remaining() <= 0)
  }

  predicate AllReachable(d: Desk, eligible: seq<(int, OrderId)>) {
    forall i :: 0 <= i < |eligible| ==> Reachable(d, eligible[i].1)
  }

  lemma QueueAheadIsFree(d: Desk, ahead: map<OrderId, int>)
    requires Coherent(d)
    ensures Coherent(d.(queueAhead := ahead))
  {
  }

  /** What a print's effect on one reached order keeps; `first` is the desk before it. */
  ghost predicate Consumable(s: State, first: State, id: OrderId) {
    && Coherent(s.desk) && s.fault.None? && Reachable(s.desk, id)
    && OnlyOrder(first.desk, s.desk, id) && s.market == first.market
  }

  lemma AheadConsumable(s: State, first: State, id: OrderId, ahead: map<OrderId, int>)
    requires Consumable(s, first, id)
    ensures Consumable(s.(desk := s.desk.(queueAhead := ahead)), first, id)
  {
    QueueAheadIsFree(s.desk, ahead);
  }

  lemma SetAheadConsumable(s: State, id: OrderId, ahead: int)
    requires Coherent(s.desk) && s.fault.None? && Reachable(s.desk, id)
    ensures Consumable(SetAhead(s, id, ahead), s, id)
  {
    AheadConsumable(s, s, id, s.desk.queueAhead[id := ahead]);
  }

  lemma ExecuteConsumable(c: Config, s: State, first: State, limit: int, id: OrderId, fill: int)
    requires Consumable(s, first, id) && 0 < fill <= s.desk.orders[id].Remaining()
    ensures Consumable(Execute(c, s, id, limit, fill, false), first, id)
  {
    BookFillCoherent(c, s, id, limit, fill, c.fee(s.account.fills, s.desk.orders[id].(id := id), limit, fill, false), false);
    OnlyOrderTrans(first.desk, s.desk, Execute(c, s, id, limit, fill, false).desk, id);
  }

  lemma FillReachedConsumable(c: Config, s: State, first: State, limit: int, id: OrderId, left: int)
    requires Consumable(s, first, id) && left > 0
    ensures Consumable(FillReached(c, s, limit, id, left).state, first, id)
  {
    var fill := Min(left, WantedBy(s.desk, id));
    if fill > 0 {
      ExecuteConsumable(c, s, first, limit, id, fill);
    }
    var s1 := if fill > 0 then Execute(c, s, id, limit, fill, false) else s;
    AheadConsumable(s1, first, id, s1.desk.queueAhead - {id});
  }

  lemma ConsumeOneCoherent(c: Config, s: State, limit: int, id: OrderId, remaining: int)
    requires Coherent(s.desk) && s.fault.None? && Reachable(s.desk, id)
    ensures Consumable(ConsumeOne(c, s, limit, id, remaining).state, s, id)
  {
    hide Consumable, FillReached, SetAhead;
    var eaten := Eaten(s, id, remaining);
    var ahead := ValueOr(s.desk.queueAhead, id, 0) - eaten;
    SetAheadConsumable(s, id, ahead);
    if remaining - eaten > 0 {
      FillReachedConsumable(c, SetAhead(s, id, ahead), s, limit, id, remaining - eaten);
    }
  }

  lemma {:induction false} ConsumeCoherent(c: Config, s: State, eligible: seq<(int, OrderId)>, remaining: int)
    requires Coherent(s.desk) && s.fault.None? && AllReachable(s.desk, eligible)
    ensures var one := Consume(c, s, eligible, remaining);
            one.state.fault.None? && Coherent(one.state.desk) && one.state.market == s.market
    decreases |eligible|
  {
    if eligible != [] && remaining > 0 {
      var one := ConsumeOne(c, s, eligible[0].0, eligible[0].1, remaining);
      assert Reachable(s.desk, eligible[0].1);
      ConsumeOneCoherent(c, s, eligible[0].0, eligible[0].1, remaining);
      forall i | 0 <= i < |eligible[1..]| ensures Reachable(one.state.desk, eligible[1..][i].1) {
        assert Reachable(s.desk, eligible[i + 1].1);
      }
      ConsumeCoherent(c, one.state, eligible[1..], one.left);
    }
  }

  lemma {:induction false} ReachedIsResting(d: Desk, slot: Slot, side: Side, prices: seq<int>)
    requires Structure(d) && forall i :: 0 <= i < |prices| ==> prices[i] in SideOf(MarketAt(d.index, slot), side)
    ensures forall i :: 0 <= i < |Reached(SideOf(MarketAt(d.index, slot), side), prices)| ==>
              Reached(SideOf(MarketAt(d.index, slot), side), prices)[i].1 in d.resting
    decreases |prices|
  {
    if prices != [] {
      var levels := SideOf(MarketAt(d.index, slot), side);
      ReachedIsResting(d, slot, side, prices[1..]);
      var ids := levels[prices[0]];
      forall i | 0 <= i < |ids| ensures ids[i] in d.resting {
        assert ids[i] in IdsAt(d.index, Home(slot, side, prices[0]));
      }
    }
  }

  lemma ReachedIsReachable(d: Desk, slot: Slot, passive: Side, price: int)
    requires Coherent(d)
    ensures AllReachable(d, ReachedByTrade(d.index, slot, passive, price))
  {
    var levels := SideOf(MarketAt(d.index, slot), passive);
    ReachedIsResting(d, slot, passive, ReachedPrices(levels, passive, price));
  }

  lemma ConsumeSideCoherent(c: Config, s: State, slot: Slot, price: int, size: int, passive: Side)
    requires Coherent(s.desk) && s.fault.None?
    ensures var s' := ConsumeSide(c, s, slot, price, size, passive);
            s'.fault.None? && Coherent(s'.desk)
  {
    var eligible := ReachedByTrade(s.desk.index, slot, passive, price);
    ReachedIsReachable(s.desk, slot, passive, price);
    ConsumeCoherent(c, s, eligible, size);
    PrunedIsIdle(Consume(c, s, eligible, size).state);
  }

  lemma PrintedCoherent(c: Config, s: State, slot: Slot, price: int, size: int, aggressor: Option<Side>)
    requires Coherent(s.desk) && s.fault.None?
    ensures var s' := Printed(c, s, slot, price, size, aggressor);
            s'.fault.None? && Coherent(s'.desk)
  {
    if c.usesQueue {
      match aggressor
      case Some(side) => ConsumeSideCoherent(c, s, slot, price, size, side.Opposite());
      case None =>
        if c.fillsOnUnknownAggressor {
          ConsumeSideCoherent(c, s, slot, price, size, Buy);
          ConsumeSideCoherent(c, ConsumeSide(c, s, slot, price, size, Buy), slot, price, size, Sell);
        }
    }
  }

  // ----- New orders -----

  /** A fresh id with its order; only an in-flight or finished order, or one not yet resting. */
  lemma NewOrderCoherent(d: Desk, o: Order, live: seq<OrderId>, inflight: seq<OrderId>)
    requires Coherent(d) && o.id == d.nextId + 1
    requires NoDuplicates(live) && forall i :: 0 <= i < |live| ==> live[i] <= o.id
    ensures var d' := d.(orders := d.orders[o.id := o], nextId := o.id, live := live, inflight := inflight);
            Coherent(d') && o.id !in d'.resting && o.id !in d'.untriggered
  {
    assert o.id !in d.orders;
    assert o.id !in d.resting && o.id !in d.untriggered;
    var d1 := d.(nextId := o.id, live := live, inflight := inflight);
    assert Structure(d1);
    SetOrderKeepsStructure(d1, o);
  }

  lemma NewOrderIsSane(s: State, o: Order, live: seq<OrderId>, inflight: seq<OrderId>)
    requires Coherent(s.desk) && s.fault.None? && o.id == s.desk.nextId + 1
    requires NoDuplicates(live) && forall i :: 0 <= i < |live| ==> live[i] <= o.id
    ensures Sane(s.(desk := s.desk.(orders := s.desk.orders[o.id := o], nextId := o.id, live := live, inflight := inflight)))
  {
    NewOrderCoherent(s.desk, o, live, inflight);
  }

  lemma {:induction false} LiveOnlyMembers(d: Desk, ids: seq<OrderId>)
    ensures forall x :: x in LiveOnly(d, ids) <==> x in ids && StillOpen(d, x)
    ensures NoDuplicates(ids) ==> NoDuplicates(LiveOnly(d, ids))
    decreases |ids|
  {
    if ids != [] {
      LiveOnlyMembers(d, ids[1..]);
      assert ids == [ids[0]] + ids[1..];
      if NoDuplicates(ids) {
        forall i | 0 <= i < |ids[1..]| ensures ids[1..][i] != ids[0] {
          assert ids[1..][i] == ids[i + 1];
        }
        assert ids[0] !in LiveOnly(d, ids[1..]);
      }
    }
  }

  lemma StillLiveOnce(d: Desk)
    requires Coherent(d)
    ensures var live := LiveOnly(d, d.live);
            && NoDuplicates(live) && NoDuplicates(live + [d.nextId + 1])
            && (forall i :: 0 <= i < |live| ==> live[i] <= d.nextId)
            && live + [] == live
  {
    hide Structure;
    var live := LiveOnly(d, d.live);
    LiveOnlyMembers(d, d.live);
    forall i | 0 <= i < |live| ensures live[i] <= d.nextId {
      var x := live[i];
      assert x in live;
    }
  }

  lemma BadRequestIsSane(s: State)
    requires Coherent(s.desk)
    ensures Sane(s.(fault := Some(BadRequest)))
  {
  }

  /** What a submission does to the desk. */
  lemma SubmittedShape(c: Config, s: State, r: Request)
    requires r.quantity > 0
    ensures var s' := Submitted(c, s, r);
            var id := s.desk.nextId + 1;
            var kept := LiveOnly(s.desk, s.desk.live);
            && id in s'.desk.orders && s'.desk.orders[id].id == id
            && (s'.desk.live == kept || s'.desk.live == kept + [id])
            && s' == s.(desk := s.desk.(orders := s.desk.orders[id := s'.desk.orders[id]], nextId := id,
                                        live := s'.desk.live, inflight := s'.desk.inflight))
  {
    hide NakedShort, RiskRejected, LiveOnly, Refused, Stopped;
  }

  lemma SubmittedCoherent(c: Config, s: State, r: Request)
    requires Coherent(s.desk) && s.fault.None?
    ensures Sane(Submitted(c, s, r))
  {
    hide Sane, Coherent, LiveOnly, Submitted, NoDuplicates;
    if r.quantity > 0 {
      var s' := Submitted(c, s, r);
      SubmittedShape(c, s, r);
      StillLiveOnce(s.desk);
      NewOrderIsSane(s, s'.desk.orders[s.desk.nextId + 1], s'.desk.live, s'.desk.inflight);
    } else {
      SubmitNothing(c, s, r);
      BadRequestIsSane(s);
    }
  }

  lemma SubmitNothing(c: Config, s: State, r: Request)
    requires r.quantity <= 0
    ensures Submitted(c, s, r) == s.(fault := Some(BadRequest))
  {
  }

  lemma EngineOrderIsNew(s: State, slot: Slot, side: Side, quantity: int, reduceOnly: bool)
    requires Coherent(s.desk) && s.fault.None?
    ensures var s1 := WithEngineOrder(s, slot, side, quantity, reduceOnly);
            && Coherent(s1.desk) && s1.fault.None? && Offerable(s1.desk, s1.desk.nextId)
            && s1.desk.nextId in s1.desk.orders && AtVenue(s1.desk.orders[s1.desk.nextId])
            && s1.desk.orders[s1.desk.nextId].Remaining() == quantity
  {
    var id := s.desk.nextId + 1;
    var o := Order(id, slot, side, Market, quantity, 0, ImmediateOrCancel, Accepted, reduceOnly, false, None);
    NewOrderCoherent(s.desk, o, s.desk.live, s.desk.inflight);
  }

  lemma {:induction false} CashOutCoherent(c: Config, s: State, instrument: nat, outcomes: nat, price: int)
    requires Coherent(s.desk) && s.fault.None?
    ensures var s' := CashOut(c, s, instrument, outcomes, price);
            s'.fault.None? && Coherent(s'.desk)
    decreases outcomes
  {
    if outcomes > 0 {
      CashOutCoherent(c, s, instrument, outcomes - 1, price);
      var s1 := CashOut(c, s, instrument, outcomes - 1, price);
      var slot := Slot(instrument, outcomes - 1);
      var q := Positions.At(s1.account.positions, slot).quantity;
      if q != 0 {
        var side := if q > 0 then Sell else Buy;
        var s2 := WithEngineOrder(s1, slot, side, Abs(q), false);
        EngineOrderIsNew(s1, slot, side, Abs(q), false);
        var id := s2.desk.nextId;
        BookFillCoherent(c, s2, id, price, Abs(q), c.fee(s2.account.fills, s2.desk.orders[id].(id := id), price, Abs(q), false), false);
      }
    }
  }

  lemma BookLegCoherent(c: Config, s: State, slot: Slot, side: Side, sets: int, price: int, commission: int)
    requires Coherent(s.desk) && s.fault.None? && sets > 0
    ensures var s' := BookLeg(c, s, slot, side, sets, price, commission);
            s'.fault.None? && Coherent(s'.desk)
  {
    var s1 := WithEngineOrder(s, slot, side, sets, false);
    EngineOrderIsNew(s, slot, side, sets, false);
    BookFillCoherent(c, s1, s1.desk.nextId, price, sets, commission, false);
  }

  lemma {:induction false} BookLegsCoherent(c: Config, s: State, instrument: nat, side: Side, sets: int, basis: seq<int>, k: nat, cost: int)
    requires Coherent(s.desk) && s.fault.None? && k <= |basis| && sets > 0
    ensures var s' := BookLegs(c, s, instrument, side, sets, basis, k, cost);
            s'.fault.None? && Coherent(s'.desk)
    decreases |basis| - k
  {
    hide Coherent, BookLeg;
    if k < |basis| {
      var commission := if k == 0 then cost else 0;
      BookLegCoherent(c, s, Slot(instrument, k), side, sets, basis[k], commission);
      BookLegsCoherent(c, BookLeg(c, s, Slot(instrument, k), side, sets, basis[k], commission),
                       instrument, side, sets, basis, k + 1, cost);
    }
  }

  lemma SetOperationCoherent(c: Config, s: State, instrument: nat, kind: SetKind, quantity: int)
    requires Coherent(s.desk) && s.fault.None?
    ensures Sane(SetOperation(c, s, instrument, kind, quantity))
  {
    if c.completeSet(instrument) && quantity > 0 {
      match SetCount(c, instrument, kind, quantity)
      case None =>
      case Some((sets, side)) =>
        var cost := SetCost(c, kind);
        SetCountIsPositive(c, instrument, kind, quantity);
        if !SetRefused(c, s, instrument, side, sets, cost) {
          match SetBasis(c, s.market, instrument)
          case None =>
          case Some(basis) => BookLegsCoherent(c, s, instrument, side, sets, basis, 0, cost);
        }
    }
  }

  lemma SetCountIsPositive(c: Config, instrument: nat, kind: SetKind, quantity: int)
    requires quantity > 0
    ensures SetCount(c, instrument, kind, quantity).Some? ==> SetCount(c, instrument, kind, quantity).value.0 > 0
  {
  }

  // ----- Changing and releasing orders -----

  lemma AmendedCoherent(c: Config, s: State, id: OrderId, quantity: Option<int>, limit: Option<int>)
    requires Coherent(s.desk) && s.fault.None?
    ensures Sane(Amended(c, s, id, quantity, limit))
  {
    if StillOpen(s.desk, id) && Amended(c, s, id, quantity, limit).fault.None? {
      var o := s.desk.orders[id];
      var o' := AmendedOrder(o, quantity, limit).(id := id);
      assert o.id == id;
      if LosesPriority(o, quantity, limit) {
        RequeuedCoherent(c, s.market, s.desk, id, o');
      } else {
        SetOrderCoherent(s.desk, o');
      }
    }
  }

  lemma RequeuedCoherent(c: Config, m: MarketData, d: Desk, id: OrderId, o': Order)
    requires Coherent(d) && StillOpen(d, id) && o'.id == id
    requires o'.slot == d.orders[id].slot && o'.side == d.orders[id].side
    requires o'.status == d.orders[id].status && o'.tif == d.orders[id].tif
    requires id in d.resting ==> o'.kind.Limit?
    ensures Coherent(Requeued(c, m, d, id, o'))
  {
    var d' := Requeued(c, m, d, id, o');
    if id in d.resting {
      MoveKeepsStructure(d, o', d'.queueAhead);
      assert d' == d.(index := Insert(Remove(d.index, d.orders[id]), o'),
                      orders := d.orders[id := o'], queueAhead := d'.queueAhead);
    } else {
      SetOrderCoherent(d, o');
      QueueAheadIsFree(SetOrder(d, o'), d'.queueAhead);
    }
  }

  lemma InflightIsFree(d: Desk, inflight: seq<OrderId>)
    requires Coherent(d)
    ensures Coherent(d.(inflight := inflight))
  {
  }

  lemma ReleasedCoherent(c: Config, s: State, id: OrderId, funded: bool)
    requires Coherent(s.desk) && s.fault.None?
    ensures Sane(Released(c, s, id, funded))
  {
    if id in s.desk.inflight {
      var d := s.desk.(inflight := Without(s.desk.inflight, id));
      InflightIsFree(s.desk, d.inflight);
      if id in d.orders && d.orders[id].status.InFlight? {
        ReleaseArrives(c, s.(desk := d), id, funded);
      }
    }
  }

  /** What happens to an order that was still in flight when it arrived. */
  lemma ReleaseArrives(c: Config, s: State, id: OrderId, funded: bool)
    requires Coherent(s.desk) && s.fault.None? && id in s.desk.orders && s.desk.orders[id].status.InFlight?
    ensures id !in s.desk.resting && id !in s.desk.untriggered
    ensures var o := s.desk.orders[id];
            && Coherent(SetOrder(s.desk, o.(id := id, status := Rejected)))
            && Coherent(SetOrder(s.desk, o.(id := id, trigger := None, status := Rejected)))
            && Coherent(SetOrder(s.desk, o.(id := id, status := Untriggered)).(untriggered := s.desk.untriggered + [id]))
            && Sane(TryFill(c, s.(desk := SetOrder(s.desk, o.(id := id, trigger := None, status := Accepted))), id))
  {
    var d, o := s.desk, s.desk.orders[id];
    assert o.id == id;
    assert id !in d.resting && id !in d.untriggered;
    SetOrderCoherent(d, o.(id := id, status := Rejected));
    SetOrderCoherent(d, o.(id := id, trigger := None, status := Rejected));
    SetOrderCoherent(d, o.(id := id, status := Untriggered));
    ParkCoherent(SetOrder(d, o.(id := id, status := Untriggered)), id);
    SetOrderCoherent(d, o.(id := id, trigger := None, status := Accepted));
    TryFillCoherent(c, s.(desk := SetOrder(d, o.(id := id, trigger := None, status := Accepted))), id);
  }

  lemma ParkCoherent(d: Desk, id: OrderId)
    requires Coherent(d) && id in d.orders && !d.orders[id].status.InFlight? && id !in d.resting && id !in d.untriggered
    ensures Coherent(d.(untriggered := d.untriggered + [id]))
  {
  }

  // ----- Triggers -----

  lemma {:induction false} StillParkedMembers(s: State, ids: seq<OrderId>, ready: bool)
    requires NoDuplicates(ids)
    ensures NoDuplicates(StillParked(s, ids, ready))
    ensures forall x :: x in StillParked(s, ids, ready) ==>
              && x in ids && x in s.desk.orders && s.desk.orders[x].status.Untriggered?
              && Fires(s.market, s.desk.orders[x]) == ready
    ensures forall i :: 0 <= i < |StillParked(s, ids, ready)| ==>
              var x := StillParked(s, ids, ready)[i];
              && x in s.desk.orders && s.desk.orders[x].status.Untriggered?
              && Fires(s.market, s.desk.orders[x]) == ready
    decreases |ids|
  {
    if ids != [] {
      StillParkedMembers(s, ids[1..], ready);
      assert ids == [ids[0]] + ids[1..];
      forall i | 0 <= i < |ids[1..]| ensures ids[1..][i] != ids[0] {
        assert ids[1..][i] == ids[i + 1];
      }
      assert ids[0] !in StillParked(s, ids[1..], ready);
    }
  }

  predicate Armable(d: Desk, ids: seq<OrderId>) {
    && NoDuplicates(ids)
    && (forall i :: 0 <= i < |ids| ==>
          ids[i] in d.orders && d.orders[ids[i]].status.Untriggered? && ids[i] !in d.untriggered)
  }

  lemma {:induction false} ArmCoherent(c: Config, s: State, ids: seq<OrderId>)
    requires Coherent(s.desk) && s.fault.None? && Armable(s.desk, ids)
    ensures Sane(Arm(c, s, ids))
    decreases |ids|
  {
    if ids != [] {
      var id := ids[0];
      var o := s.desk.orders[id].(id := id, trigger := None, status := Accepted);
      assert id !in s.desk.resting;
      SetOrderCoherent(s.desk, o);
      var s1 := s.(desk := SetOrder(s.desk, o));
      TryFillCoherent(c, s1, id);
      var s2 := TryFill(c, s1, id);
      forall i | 0 <= i < |ids[1..]|
        ensures ids[1..][i] in s2.desk.orders && s2.desk.orders[ids[1..][i]].status.Untriggered?
                && ids[1..][i] !in s2.desk.untriggered
      {
        assert ids[1..][i] == ids[i + 1] && ids[i + 1] != ids[0];
        assert s1.desk.orders[ids[i + 1]] == s.desk.orders[ids[i + 1]];
      }
      ArmCoherent(c, s2, ids[1..]);
    }
  }

  lemma TriggersArmedCoherent(c: Config, s: State)
    requires Coherent(s.desk) && s.fault.None?
    ensures Sane(TriggersArmed(c, s))
  {
    var parked := s.desk.untriggered;
    var waiting, ready := StillParked(s, parked, false), StillParked(s, parked, true);
    StillParkedMembers(s, parked, false);
    StillParkedMembers(s, parked, true);
    var s1 := s.(desk := s.desk.(untriggered := waiting));
    assert Structure(s1.desk);
    assert Armable(s1.desk, ready);
    ArmCoherent(c, s1, ready);
  }

  // ----- Expiry -----

  lemma {:induction false} CancelAllCoherent(d: Desk, ids: seq<OrderId>)
    requires Coherent(d)
    ensures Coherent(CancelAll(d, ids))
    decreases |ids|
  {
    if ids != [] {
      CloseCoherent(d, ids[0]);
      CancelAllCoherent(Close(d, ids[0], Cancelled), ids[1..]);
    }
  }

  // ----- Splits -----

  lemma SplitRestingOneCoherent(d: Desk, id: OrderId, instrument: nat, ratio: int)
    requires Coherent(d) && ratio > 0 && id in d.resting
    ensures Coherent(SplitRestingOne(d, id, instrument, ratio))
    ensures SplitRestingOne(d, id, instrument, ratio).resting == d.resting
  {
    if id in d.orders && d.orders[id].slot.instrument == instrument {
      var o' := SplitOrder(ratio, d.orders[id]).(id := id);
      assert IsLimit(d, id);
      MoveKeepsStructure(d, o', d.queueAhead);
      assert SplitRestingOne(d, id, instrument, ratio)
          == d.(index := Insert(Remove(d.index, d.orders[id]), o'), orders := d.orders[id := o'], queueAhead := d.queueAhead);
    }
  }

  lemma {:induction false} SplitRestingCoherent(d: Desk, ids: seq<OrderId>, instrument: nat, ratio: int)
    requires Coherent(d) && ratio > 0 && AllResting(d, ids)
    ensures Coherent(SplitResting(d, ids, instrument, ratio))
    decreases |ids|
  {
    if ids != [] {
      SplitRestingOneCoherent(d, ids[0], instrument, ratio);
      SplitRestingCoherent(SplitRestingOne(d, ids[0], instrument, ratio), ids[1..], instrument, ratio);
    }
  }

  predicate AllOffBook(d: Desk, ids: seq<OrderId>) {
    forall i :: 0 <= i < |ids| ==> ids[i] !in d.resting
  }

  lemma ParkedIsOffBook(d: Desk)
    requires ParkedApart(d)
    ensures AllOffBook(d, d.untriggered)
  {
    forall i | 0 <= i < |d.untriggered| ensures d.untriggered[i] !in d.resting {
      var id := d.untriggered[i];
      assert id in d.untriggered;
    }
  }

  lemma {:induction false} SplitHeldCoherent(d: Desk, ids: seq<OrderId>, instrument: nat, ratio: int, inflightOnly: bool)
    requires Coherent(d) && ratio > 0 && (inflightOnly || AllOffBook(d, ids))
    ensures Coherent(SplitHeld(d, ids, instrument, ratio, inflightOnly))
    decreases |ids|
  {
    if ids != [] {
      var id := ids[0];
      var hit := id in d.orders && d.orders[id].slot.instrument == instrument
                 && (!inflightOnly || d.orders[id].status.InFlight?);
      var d1 := if hit then SetOrder(d, SplitOrder(ratio, d.orders[id]).(id := id)) else d;
      if hit {
        assert id !in d.resting;
        SetOrderCoherent(d, SplitOrder(ratio, d.orders[id]).(id := id));
      }
      SplitHeldCoherent(d1, ids[1..], instrument, ratio, inflightOnly);
    }
  }

  lemma SplitSharesCoherent(s: State, instrument: nat, ratio: int)
    requires Coherent(s.desk) && s.fault.None?
    ensures Sane(SplitShares(s, instrument, ratio))
  {
    if ratio > 0 {
      forall i | 0 <= i < |s.desk.resting| ensures s.desk.resting[i] in s.desk.resting {
      }
      SplitRestingCoherent(s.desk, s.desk.resting, instrument, ratio);
      var d1 := SplitResting(s.desk, s.desk.resting, instrument, ratio);
      ParkedIsOffBook(d1);
      SplitHeldCoherent(d1, d1.untriggered, instrument, ratio, false);
      var d2 := SplitHeld(d1, d1.untriggered, instrument, ratio, false);
      SplitHeldCoherent(d2, d2.live, instrument, ratio, true);
    }
  }

  // ----- Every step, every run -----

  lemma StepIsSane(c: Config, s: State, op: Op)
    requires Sane(s)
    ensures Sane(Step(c, s, op))
  {
    hide Sane, Coherent, Submitted, CancelledOrder, Amended, Released, TriggersArmed, Advanced, FedBook, Printed, MatchResting,
         FundingSettled, DividendPaid, SplitShares, Delisted, EngineOrder, SetOperation;
    SaneIsCoherent(s);
    if s.fault.None? {
      match op
      case Submit(r) => SubmittedCoherent(c, s, r);
      case CancelOrder(id) => CancelledSane(s, id);
      case Amend(id, q, l) => AmendedCoherent(c, s, id, q, l);
      case Release(id, funded) => ReleasedCoherent(c, s, id, funded);
      case ArmTriggers => TriggersArmedCoherent(c, s);
      case AdvanceTo(now) => AdvancedSane(c, s, now);
      case Print(slot, price, size, aggressor) => PrintedSane(c, s, slot, price, size, aggressor);
      case Match(slot, corporate) => MatchSane(c, s, slot, corporate);
      case SplitAction(i, ratio) => SplitSharesCoherent(s, i, ratio);
      case Delist(i, price) => DelistedSane(c, s, i, price);
      case PlaceEngineOrder(slot, side, q, reduceOnly) => PlacedCoherent(c, s, slot, side, q, reduceOnly);
      case SetOp(i, kind, q) => SetOperationCoherent(c, s, i, kind, q);
      case _ => QuietSane(c, s, op);
    }
  }

  lemma SaneIsCoherent(s: State)
    requires Sane(s)
    ensures Coherent(s.desk)
  {
    hide Coherent;
  }

  lemma CancelledSane(s: State, id: OrderId)
    requires Coherent(s.desk) && s.fault.None?
    ensures Sane(CancelledOrder(s, id))
  {
    hide Coherent, Close, OnlyOrder;
    CloseCoherent(s.desk, id);
  }

  lemma AdvancedSane(c: Config, s: State, now: int)
    requires Coherent(s.desk) && s.fault.None?
    ensures Sane(Advanced(c, s, now))
  {
    hide Coherent, CancelAll, Doomed;
    CancelAllCoherent(s.desk, Doomed(c, s.desk, s.desk.resting, now));
  }

  lemma PrintedSane(c: Config, s: State, slot: Slot, price: int, size: int, aggressor: Option<Side>)
    requires Coherent(s.desk) && s.fault.None?
    ensures Sane(Printed(c, s, slot, price, size, aggressor))
  {
    hide Coherent, Printed;
    PrintedCoherent(c, s, slot, price, size, aggressor);
  }

  lemma MatchSane(c: Config, s: State, slot: Slot, corporate: bool)
    requires Coherent(s.desk) && s.fault.None?
    ensures Sane(MatchResting(c, s, slot, corporate))
  {
    hide Coherent, MatchResting;
    MatchCoherent(c, s, slot, corporate);
  }

  lemma DelistedSane(c: Config, s: State, instrument: nat, price: int)
    requires Coherent(s.desk) && s.fault.None?
    ensures Sane(Delisted(c, s, instrument, price))
  {
    hide Coherent, CashOut;
    CashOutCoherent(c, s, instrument, c.outcomes(instrument), price);
  }

  /** Quotes, marks and payments leave the desk alone. */
  lemma QuietSane(c: Config, s: State, op: Op)
    requires Coherent(s.desk) && s.fault.None?
    requires op.Feed? || op.SetMark? || op.SetOracle? || op.Funding? || op.Dividend?
    ensures Sane(Step(c, s, op))
  {
    hide Coherent, BookFeed.Fed, BookFeed.DeltaApplied, FundingTotal, DividendDue;
  }

  lemma PlacedCoherent(c: Config, s: State, slot: Slot, side: Side, quantity: int, reduceOnly: bool)
    requires Coherent(s.desk) && s.fault.None?
    ensures Sane(EngineOrder(c, s, slot, side, quantity, reduceOnly))
  {
    if quantity > 0 {
      var s1 := WithEngineOrder(s, slot, side, quantity, reduceOnly);
      EngineOrderIsNew(s, slot, side, quantity, reduceOnly);
      TryFillCoherent(c, s1, s1.desk.nextId);
    }
  }

  /** A fault ends the run: nothing moves after it. */
  lemma FaultStops(c: Config, s: State, op: Op)
    ensures s.fault.Some? ==> Step(c, s, op) == s
  {
  }

  lemma RunSnoc(c: Config, ops: seq<Op>, op: Op)
    ensures Run(c, ops + [op]) == Step(c, Run(c, ops), op)
  {
    hide Step;
    var all := ops + [op];
    assert all[..|all| - 1] == ops && all[|all| - 1] == op;
  }

  /** Over every run, of any steps in any order. */
  lemma {:induction false} RunIsSane(c: Config, ops: seq<Op>)
    ensures Sane(Run(c, ops))
    decreases |ops|
  {
    if ops != [] {
      RunIsSane(c, ops[..|ops| - 1]);
      StepIsSane(c, Run(c, ops[..|ops| - 1]), ops[|ops| - 1]);
    }
  }

  /**
   Index coherence, spelled out: after any run, an id is indexed at a place exactly when it is
   resting and that place is its order's current slot, side and limit; each level lists its ids
   once and in submission order; resting orders are open limit orders; nothing is left empty;
   and no order was ever filled beyond its size.
   */
  lemma IndexIsCoherent(c: Config, ops: seq<Op>)
    ensures var s := Run(c, ops);
            && s.fault != Some(Overfilled)
            && (forall h: Home, id :: id in IdsAt(s.desk.index, h) <==>
                  id in s.desk.resting && IsLimit(s.desk, id) && HomeOf(s.desk.orders[id]) == h)
            && (forall h: Home :: StrictlyAscending(IdsAt(s.desk.index, h)))
            && (forall id :: id in s.desk.resting ==> StillOpen(s.desk, id) && s.desk.orders[id].kind.Limit?)
            && NoDuplicates(s.desk.resting)
            && Tidy(s.desk.index)
  {
    hide Run, Step;
    RunIsSane(c, ops);
  }
}
