/**
 The index and the resting list describe the same orders, after any run.

 Every id in the resting list is an open limit order and is indexed exactly once, under the
 slot, side and limit it has now; nothing else is indexed; levels list ids in strictly
 ascending order; and no empty level or market is left behind.
 */
module EngineCoherence {
  import opened FixedPoint
  import opened Sorting
  import opened Orders
  import opened Book
  import opened RestingIndex
  import opened Engine

  // ----- The structural part: the index matches the resting list -----

  predicate Keyed(d: Desk) {
    forall id :: id in d.orders ==> d.orders[id].id == id && id <= d.nextId
  }

  predicate IsLimit(d: Desk, id: OrderId) {
    id in d.orders && d.orders[id].kind.Limit?
  }

  /** Nothing is indexed but resting orders, at home. */
  ghost predicate NothingElseIndexed(d: Desk) {
    forall h: Home, id :: id in IdsAt(d.index, h) ==>
      id in d.resting && IsLimit(d, id) && HomeOf(d.orders[id]) == h
  }

  predicate EveryRestingIndexed(d: Desk) {
    forall id :: id in d.resting ==> IsLimit(d, id) && id in IdsAt(d.index, HomeOf(d.orders[id]))
  }

  ghost predicate LevelsAscend(d: Desk) {
    forall h: Home :: StrictlyAscending(IdsAt(d.index, h))
  }

  ghost predicate Structure(d: Desk) {
    && Keyed(d) && NoDuplicates(d.resting)
    && NothingElseIndexed(d) && EveryRestingIndexed(d) && LevelsAscend(d) && Tidy(d.index)
  }

  lemma RemoveRestingKeepsStructure(d: Desk, id: OrderId)
    requires Structure(d)
    ensures Structure(RemoveResting(d, id))
    ensures forall x :: x in RemoveResting(d, id).resting <==> x in d.resting && x != id
  {
    var d' := RemoveResting(d, id);
    WithoutProperties(d.resting, id);
    if IsLimit(d, id) {
      var o := d.orders[id];
      RemoveStaysTidy(d.index, o);
      forall h: Home
        ensures StrictlyAscending(IdsAt(d'.index, h))
        ensures forall x :: x in IdsAt(d'.index, h) <==> x in IdsAt(d.index, h) && x != id
      {
        RemovedMembers(d.index, o, h);
      }
    } else {
      assert id !in d.resting;
    }
  }

  lemma SetOrderKeepsStructure(d: Desk, o: Order)
    requires Structure(d) && o.id <= d.nextId
    requires o.id in d.resting ==> o.kind.Limit? && HomeOf(o) == HomeOf(d.orders[o.id])
    ensures Structure(SetOrder(d, o))
  {
    var d' := SetOrder(d, o);
    forall h: Home, id | id in IdsAt(d'.index, h)
      ensures id in d'.resting && IsLimit(d', id) && HomeOf(d'.orders[id]) == h
    {
      assert id in IdsAt(d.index, h);
    }
    forall id | id in d'.resting ensures IsLimit(d', id) && id in IdsAt(d'.index, HomeOf(d'.orders[id])) {
      assert IsLimit(d, id);
    }
  }

  lemma InsertKeepsStructure(d: Desk, o: Order, ahead: map<OrderId, int>)
    requires Structure(d) && o.id in d.orders && d.orders[o.id] == o && o.kind.Limit? && o.id !in d.resting
    ensures Structure(d.(index := Insert(d.index, o), resting := d.resting + [o.id], queueAhead := ahead))
  {
    hide Insert, IdsAt, Tidy;
    var d' := d.(index := Insert(d.index, o), resting := d.resting + [o.id], queueAhead := ahead);
    InsertStaysTidy(d.index, o);
    forall h: Home
      ensures StrictlyAscending(IdsAt(d'.index, h))
      ensures forall x :: x in IdsAt(d'.index, h) <==> x in IdsAt(d.index, h) || (x == o.id && h == HomeOf(o))
    {
      InsertedMembers(d.index, o, h);
    }
  }

  /** Changing a resting order's home around the index: out of the old place, into the new one. */
  lemma MoveKeepsStructure(d: Desk, o': Order, ahead: map<OrderId, int>)
    requires Structure(d) && o'.id in d.resting && o'.kind.Limit?
    ensures Structure(d.(index := Insert(Remove(d.index, d.orders[o'.id]), o'),
                         orders := d.orders[o'.id := o'], queueAhead := ahead))
  {
    hide Insert, Remove, IdsAt, Tidy;
    var id := o'.id;
    var o := d.orders[id];
    var mid := Remove(d.index, o);
    var d' := d.(index := Insert(mid, o'), orders := d.orders[id := o'], queueAhead := ahead);
    RemoveStaysTidy(d.index, o);
    InsertStaysTidy(mid, o');
    forall h: Home
      ensures StrictlyAscending(IdsAt(d'.index, h))
      ensures forall x :: x in IdsAt(d'.index, h) <==> (x in IdsAt(d.index, h) && x != id) || (x == id && h == HomeOf(o'))
    {
      MovedMembers(d.index, o, o', h);
    }
  }

  // ----- The rest of the invariant -----

  /** Live at the venue: accepted, and perhaps part filled. */
  predicate AtVenue(o: Order) {
    o.status.Accepted? || o.status.PartiallyFilled?
  }

  predicate RestingIsOpen(d: Desk) {
    forall id :: id in d.resting ==> id in d.orders && AtVenue(d.orders[id]) && d.orders[id].tif.GoodTilCancel?
  }

  /** Parked triggers are listed once, have arrived, and are not on the book. */
  predicate ParkedApart(d: Desk) {
    && NoDuplicates(d.untriggered)
    && (forall id :: id in d.untriggered ==> id in d.orders && !d.orders[id].status.InFlight? && id !in d.resting)
  }

  /** Live orders are listed once. */
  predicate LiveOnce(d: Desk) {
    NoDuplicates(d.live) && forall i :: 0 <= i < |d.live| ==> d.live[i] <= d.nextId
  }

  ghost predicate Coherent(d: Desk) {
    Structure(d) && RestingIsOpen(d) && ParkedApart(d) && LiveOnce(d)
  }

  lemma CoherentIsKeyed(d: Desk)
    requires Coherent(d)
    ensures Keyed(d)
    ensures forall id :: id in d.resting ==> id in d.orders
  {
  }

  /** A step touched one order only. */
  predicate OnlyOrder(d: Desk, d': Desk, id: OrderId) {
    && d'.orders.Keys == d.orders.Keys
    && (forall j :: j in d.orders && j != id ==> d'.orders[j] == d.orders[j])
    && d'.untriggered == d.untriggered && d'.live == d.live && d'.inflight == d.inflight && d'.nextId == d.nextId
    && (id in d.orders ==>
          && d'.orders[id].slot == d.orders[id].slot
          && (!d.orders[id].status.Untriggered? ==> !d'.orders[id].status.Untriggered?))
  }

  lemma RemoveRestingCoherent(d: Desk, id: OrderId)
    requires Structure(d) && ParkedApart(d) && LiveOnce(d)
    requires forall x :: x in d.resting && x != id ==>
               x in d.orders && AtVenue(d.orders[x]) && d.orders[x].tif.GoodTilCancel?
    ensures Coherent(RemoveResting(d, id)) && OnlyOrder(d, RemoveResting(d, id), id)
    ensures id !in RemoveResting(d, id).resting && RemoveResting(d, id).orders == d.orders
  {
    RemoveRestingKeepsStructure(d, id);
  }

  /** Ending an order takes it off the book. */
  lemma EndOrderCoherent(d: Desk, id: OrderId, o': Order)
    requires Coherent(d) && id in d.orders && o'.id == id
    requires o'.slot == d.orders[id].slot && o'.side == d.orders[id].side && o'.kind == d.orders[id].kind
    requires o'.status.IsTerminal()
    ensures Coherent(RemoveResting(SetOrder(d, o'), id)) && OnlyOrder(d, RemoveResting(SetOrder(d, o'), id), id)
    ensures RemoveResting(SetOrder(d, o'), id).orders[id] == o'
  {
    SetOrderKeepsStructure(d, o');
    RemoveRestingCoherent(SetOrder(d, o'), id);
  }

  lemma CloseCoherent(d: Desk, id: OrderId)
    requires Coherent(d)
    ensures Coherent(Close(d, id, Cancelled)) && OnlyOrder(d, Close(d, id, Cancelled), id)
  {
    if StillOpen(d, id) {
      EndOrderCoherent(d, id, d.orders[id].(status := Cancelled));
    } else {
      RemoveRestingCoherent(d, id);
    }
  }

  /** Changing an order that stays where it is. */
  lemma SetOrderCoherent(d: Desk, o': Order)
    requires Coherent(d) && o'.id in d.orders
    requires o'.id in d.resting ==>
               && o'.kind == d.orders[o'.id].kind && o'.side == d.orders[o'.id].side && o'.slot == d.orders[o'.id].slot
               && AtVenue(o') && o'.tif.GoodTilCancel?
    requires o'.id in d.untriggered ==> !o'.status.InFlight?
    ensures Coherent(SetOrder(d, o'))
  {
    assert d.orders[o'.id].id == o'.id;
    assert o'.id in d.resting ==> IsLimit(d, o'.id);
    SetOrderKeepsStructure(d, o');
  }

  lemma AddRestingCoherent(c: Config, m: MarketData, d: Desk, id: OrderId)
    requires Coherent(d) && id in d.orders && id !in d.untriggered
    requires AtVenue(d.orders[id]) && d.orders[id].tif.GoodTilCancel? && d.orders[id].kind.Limit?
    ensures Coherent(AddResting(c, m, d, d.orders[id])) && OnlyOrder(d, AddResting(c, m, d, d.orders[id]), id)
  {
    var o := d.orders[id];
    assert o.id == id;
    if id !in d.resting {
      var d1 := JoinQueue(c, m, d, o);
      InsertKeepsStructure(d, o, d1.queueAhead);
    }
  }

  lemma RestOrCancelCoherent(c: Config, m: MarketData, d: Desk, id: OrderId)
    requires Coherent(d) && id in d.orders && id !in d.untriggered && AtVenue(d.orders[id])
    ensures Coherent(RestOrCancel(c, m, d, id)) && OnlyOrder(d, RestOrCancel(c, m, d, id), id)
  {
    var o := d.orders[id];
    if o.tif.GoodTilCancel? {
      if o.kind.Limit? && id !in d.resting {
        AddRestingCoherent(c, m, d, id);
      }
    } else {
      CloseCoherent(d, id);
    }
  }

  lemma OnlyOrderTrans(d: Desk, d1: Desk, d2: Desk, id: OrderId)
    requires OnlyOrder(d, d1, id) && OnlyOrder(d1, d2, id)
    ensures OnlyOrder(d, d2, id)
  {
  }

  // ----- Filling -----

  lemma BookFillCoherent(c: Config, s: State, id: OrderId, price: int, q: int, commission: int, taker: bool)
    requires Coherent(s.desk) && s.fault.None? && id in s.desk.orders
    requires AtVenue(s.desk.orders[id]) && 0 < q <= s.desk.orders[id].Remaining()
    ensures var s' := BookFill(c, s, id, price, q, commission, taker);
            && s'.fault.None? && Coherent(s'.desk) && OnlyOrder(s.desk, s'.desk, id) && s'.market == s.market
            && s'.desk.orders[id] == s.desk.orders[id].RecordFill(q)
  {
    var o := s.desk.orders[id];
    var o' := o.RecordFill(q);
    assert o.id == id;
    if o'.IsOpen() {
      SetOrderCoherent(s.desk, o');
    } else {
      EndOrderCoherent(s.desk, id, o');
    }
  }

  /** Positive pieces that together fit in `room`. */
  predicate FitsIn(fills: seq<(int, int)>, room: int) {
    fills == [] || (0 < fills[0].1 <= room && FitsIn(fills[1..], room - fills[0].1))
  }

  lemma {:induction false} VisitFits(prices: seq<int>, levels: Levels, taker: Side, q: int, limit: Option<int>)
    requires Among(prices, levels)
    ensures FitsIn(Visit(prices, levels, taker, q, limit).fills, q)
    decreases |prices|
  {
    if prices != [] && q > 0 && Acceptable(taker, prices[0], limit) {
      var take := Min(q, levels[prices[0]]);
      if take > 0 {
        VisitFits(prices[1..], levels, taker, q - take, limit);
        var w := Visit(prices, levels, taker, q, limit);
        assert w.fills[1..] == Visit(prices[1..], levels, taker, q - take, limit).fills;
      } else {
        VisitFits(prices[1..], levels, taker, q, limit);
      }
    }
  }

  lemma {:induction false} FitsWidens(fills: seq<(int, int)>, room: int, more: int)
    requires FitsIn(fills, room) && room <= more
    ensures FitsIn(fills, more)
    decreases |fills|
  {
    if fills != [] {
      FitsWidens(fills[1..], room - fills[0].1, more - fills[0].1);
    }
  }

  lemma {:induction false} ExecuteAllCoherent(c: Config, s: State, id: OrderId, fills: seq<(int, int)>, taker: bool)
    requires Coherent(s.desk) && s.fault.None? && id in s.desk.orders
    requires fills != [] ==> AtVenue(s.desk.orders[id])
    requires FitsIn(fills, s.desk.orders[id].Remaining())
    ensures var s' := ExecuteAll(c, s, id, fills, taker);
            && s'.fault.None? && Coherent(s'.desk) && OnlyOrder(s.desk, s'.desk, id) && s'.market == s.market
            && (s'.desk.orders[id].IsOpen() ==> s'.desk.orders[id].status == s.desk.orders[id].status || AtVenue(s'.desk.orders[id]))
    decreases |fills|
  {
    if fills != [] {
      var q := fills[0].1;
      var s1 := Execute(c, s, id, fills[0].0, q, taker);
      BookFillCoherent(c, s, id, fills[0].0, q, c.fee(s.account.fills, s.desk.orders[id].(id := id), fills[0].0, q, taker), taker);
      assert fills[1..] != [] ==> fills[1..][0].1 > 0 && AtVenue(s1.desk.orders[id]);
      ExecuteAllCoherent(c, s1, id, fills[1..], taker);
      OnlyOrderTrans(s.desk, s1.desk, ExecuteAll(c, s, id, fills, taker).desk, id);
    }
  }

  lemma WantedFits(c: Config, s: State, o: Order)
    requires o.slot in s.market.books
    ensures FitsIn(Walk(EffectiveBook(c, s.market, o), o.side, Wanted(s.account, o), o.LimitPrice()).fills, o.Remaining())
  {
    var levels := Facing(EffectiveBook(c, s.market, o), o.side);
    VisitFits(Reach(levels, o.side), levels, o.side, Wanted(s.account, o), o.LimitPrice());
    FitsWidens(Walk(EffectiveBook(c, s.market, o), o.side, Wanted(s.account, o), o.LimitPrice()).fills,
               Wanted(s.account, o), o.Remaining());
  }

  /** Offering one order to the book keeps everything in place and never overfills it. */
  lemma TryFillCoherent(c: Config, s: State, id: OrderId)
    requires Coherent(s.desk) && s.fault.None? && id !in s.desk.untriggered
    requires id in s.desk.orders ==> !s.desk.orders[id].status.Untriggered?
    ensures var s' := TryFill(c, s, id);
            s'.fault.None? && Coherent(s'.desk) && OnlyOrder(s.desk, s'.desk, id) && s'.market == s.market
  {
    if id in s.desk.orders {
      var o := s.desk.orders[id];
      assert o.id == id;
      if !o.IsOpen() || o.status.InFlight? {
      } else if Stopped(c, s.market, o.slot.instrument) {
        EndOrderCoherent(s.desk, id, o.(id := id, status := Rejected));
      } else if o.slot !in s.market.books {
        RestOrCancelCoherent(c, s.market, s.desk, id);
      } else {
        TryFillOnBook(c, s, id);
      }
    }
  }

  lemma SettledCoherent(c: Config, s: State, id: OrderId)
    requires Coherent(s.desk) && s.fault.None? && id !in s.desk.untriggered
    requires StillOpen(s.desk, id) ==> AtVenue(s.desk.orders[id])
    ensures var s' := Settled(c, s, id);
            s'.fault.None? && Coherent(s'.desk) && OnlyOrder(s.desk, s'.desk, id) && s'.market == s.market
  {
    if StillOpen(s.desk, id) {
      RestOrCancelCoherent(c, s.market, s.desk, id);
    }
  }

  lemma TryFillOnBook(c: Config, s: State, id: OrderId)
    requires Coherent(s.desk) && s.fault.None? && id !in s.desk.untriggered
    requires id in s.desk.orders && AtVenue(s.desk.orders[id]) && s.desk.orders[id].slot in s.market.books
    requires !Stopped(c, s.market, s.desk.orders[id].slot.instrument)
    ensures var s' := TryFill(c, s, id);
            s'.fault.None? && Coherent(s'.desk) && OnlyOrder(s.desk, s'.desk, id) && s'.market == s.market
  {
    hide Structure, Settled, ExecuteAll, Close, EffectiveBook;
    var o := s.desk.orders[id];
    var wanted := Wanted(s.account, o);
    CloseCoherent(s.desk, id);
    if !(o.reduceOnly && wanted <= 0) {
      var w := Walk(EffectiveBook(c, s.market, o), o.side, wanted, o.LimitPrice());
      if !(o.tif.FillOrKill? && Total(w.fills) != wanted) {
        WantedFits(c, s, o);
        var s1 := ExecuteAll(c, s, id, w.fills, !o.postOnly);
        ExecuteAllCoherent(c, s, id, w.fills, !o.postOnly);
        SettledCoherent(c, s1, id);
        OnlyOrderTrans(s.desk, s1.desk, Settled(c, s1, id).desk, id);
      }
    }
  }
}
