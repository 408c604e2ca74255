/**
 An order's place in the queue: what it joins behind when it comes to rest, and what its own
 amendments do to it.
 */
module EngineAmends {
  import opened Sorting
  import opened Sums
  import opened Orders
  import opened Book
  import opened RestingIndex
  import opened Engine
  import opened EngineCoherence
  import opened EngineRuns
  import opened EngineQueue
  import EngineLifecycle
  import BookFeed

  /** What the market shows at a price, on the side an order would join. */
  function ShownAt(m: MarketData, slot: Slot, side: Side, price: int): int {
    if slot in m.books then BookFeed.Shown(m.books[slot], side, price) else 0
  }

  lemma DisplayedIsShown(m: MarketData, slot: Slot, side: Side, price: int)
    ensures DisplayedAt(m, slot, side, price) == ShownAt(m, slot, side, price)
  {
  }

  /** An order ends filled, cancelled or rejected. */
  predicate Ended(status: Status) {
    status == Filled || status == Cancelled || status == Rejected
  }

  // ----- Amending -----

  /** The price is off the grid, or the size is not positive or is less than what is filled. */
  predicate Improper(c: Config, o: Order, quantity: Option<int>, limit: Option<int>) {
    || (limit.Some? && !c.validPrice(o.slot.instrument, limit.value))
    || (quantity.Some? && (quantity.value < 1 || o.filled > quantity.value))
  }

  /** The order as asked for, and the same in every other respect. */
  predicate AsAsked(o: Order, o': Order, quantity: Option<int>, limit: Option<int>) {
    && o'.quantity == (if quantity.Some? then quantity.value else o.quantity)
    && o'.kind == (if limit.Some? then Limit(limit.value) else o.kind)
    && o' == o.(quantity := o'.quantity, kind := o'.kind)
  }

  lemma RequeuedPlace(c: Config, m: MarketData, d: Desk, id: OrderId, o': Order)
    requires id in d.orders && o'.id == id
    ensures var d' := Requeued(c, m, d, id, o');
            && d'.orders == d.orders[id := o'] && d'.resting == d.resting
            && (if c.usesQueue then ValueOr(d'.queueAhead, id, 0) == BackOfQueue(m, o') else id !in d'.queueAhead)
            && (forall j :: j != id ==> SamePlace(d, d', j))
  {
    hide Insert, Remove, DisplayedAt, ShownAt;
    if o'.kind.Limit? {
      DisplayedIsShown(m, o'.slot, o'.side, o'.kind.limit);
    }
  }

  /** What the market shows where a limit order would stand; a market order stands nowhere. */
  function BackOfQueue(m: MarketData, o: Order): int {
    match o.kind
    case Market => 0
    case Limit(p) => ShownAt(m, o.slot, o.side, p)
  }

  lemma SetOrderPlaces(d: Desk, o': Order)
    ensures forall j :: j != o'.id ==> SamePlace(d, SetOrder(d, o'), j)
  {
  }

  /** What a proper amendment of an open order leaves. */
  ghost predicate AmendedAs(c: Config, s: State, s': State, id: OrderId, quantity: Option<int>, limit: Option<int>)
    requires id in s.desk.orders
  {
    var o := s.desk.orders[id];
    && s'.fault.None? && id in s'.desk.orders && (id in s'.desk.resting <==> id in s.desk.resting)
    && AsAsked(o, s'.desk.orders[id], quantity, limit)
    && s'.account == s.account && s'.market == s.market
    && (forall j :: j != id ==> SamePlace(s.desk, s'.desk, j))
    && (!c.usesQueue && id !in s.desk.queueAhead ==> id !in s'.desk.queueAhead)
    && (c.usesQueue ==>
          var o' := s'.desk.orders[id];
          ValueOr(s'.desk.queueAhead, id, 0)
            == if o'.kind != o.kind || o'.quantity > o.quantity then BackOfQueue(s.market, o')
               else ValueOr(s.desk.queueAhead, id, 0))
  }

  lemma AmendedDesk(c: Config, s: State, id: OrderId, quantity: Option<int>, limit: Option<int>)
    requires Coherent(s.desk) && s.fault.None? && StillOpen(s.desk, id)
    requires !Improper(c, s.desk.orders[id], quantity, limit)
    ensures AmendedAs(c, s, Amended(c, s, id, quantity, limit), id, quantity, limit)
  {
    hide Coherent, Requeued, BackOfQueue, SamePlace;
    var o := s.desk.orders[id];
    CoherentIsKeyed(s.desk);
    var o' := AmendedOrder(o, quantity, limit).(id := id);
    RequeuedPlace(c, s.market, s.desk, id, o');
    SetOrderPlaces(s.desk, o');
  }

  /**
   In every reachable state: an amendment of an order that has ended does nothing; of an open one it
   is refused, and ends the run, exactly when it is improper.  Otherwise the order has the size and
   limit asked for and rests if it rested; it goes behind everything the market now shows at its
   limit when the limit is another or the size larger, and keeps what is ahead of it when neither
   is; every other order keeps its place, and nothing trades.
   */
  lemma AmendmentPlaces(c: Config, ops: seq<Op>, id: OrderId, quantity: Option<int>, limit: Option<int>)
    requires Run(c, ops).fault.None?
    ensures var s := Run(c, ops);
            var s' := Step(c, s, Amend(id, quantity, limit));
            if id !in s.desk.orders || Ended(s.desk.orders[id].status) then s' == s
            else if Improper(c, s.desk.orders[id], quantity, limit) then s' == s.(fault := Some(BadRequest))
            else AmendedAs(c, s, s', id, quantity, limit)
  {
    hide Run, Coherent, Amended, AmendedAs, Improper;
    var s := Run(c, ops);
    RunIsSane(c, ops);
    if !StillOpen(s.desk, id) {
      EndedIsLeftAlone(c, s, id, quantity, limit);
    } else if Improper(c, s.desk.orders[id], quantity, limit) {
      ImproperIsRefused(c, s, id, quantity, limit);
    } else {
      AmendedDesk(c, s, id, quantity, limit);
    }
  }

  lemma EndedIsLeftAlone(c: Config, s: State, id: OrderId, quantity: Option<int>, limit: Option<int>)
    requires !StillOpen(s.desk, id)
    ensures Amended(c, s, id, quantity, limit) == s
  {
  }

  lemma ImproperIsRefused(c: Config, s: State, id: OrderId, quantity: Option<int>, limit: Option<int>)
    requires StillOpen(s.desk, id) && Improper(c, s.desk.orders[id], quantity, limit)
    ensures Amended(c, s, id, quantity, limit) == s.(fault := Some(BadRequest))
  {
  }

  // ----- Coming to rest -----

  lemma RestingJoins(c: Config, m: MarketData, d: Desk, id: OrderId)
    requires Keyed(d) && id in d.orders && id !in d.resting && id !in d.queueAhead
    ensures var d' := RestOrCancel(c, m, d, id);
            id in d'.resting ==>
              && d.orders[id].kind.Limit? && d'.orders == d.orders
              && (if c.usesQueue then
                    ValueOr(d'.queueAhead, id, 0) == ShownAt(m, d.orders[id].slot, d.orders[id].side, d.orders[id].kind.limit)
                  else id !in d'.queueAhead)
  {
    hide Insert, Remove, DisplayedAt, ShownAt, Close;
    var o := d.orders[id];
    assert o.id == id;
    CloseRemoves(d, id);
    if o.kind.Limit? {
      DisplayedIsShown(m, o.slot, o.side, o.kind.limit);
    }
  }

  lemma CloseRemoves(d: Desk, id: OrderId)
    ensures id !in Close(d, id, Cancelled).resting
  {
    hide Remove;
    WithoutProperties(d.resting, id);
  }

  /** Filling an order that is off the book does not put it on. */
  predicate StaysOff(d: Desk, d': Desk, id: OrderId) {
    && id in d.orders && id in d'.orders
    && EngineLifecycle.SameTerms(d.orders[id], d'.orders[id])
    && (id !in d.resting ==> id !in d'.resting)
    && (id !in d.queueAhead ==> id !in d'.queueAhead)
  }

  lemma BookFillStaysOff(c: Config, s: State, id: OrderId, price: int, q: int, commission: int, taker: bool)
    requires id in s.desk.orders
    ensures StaysOff(s.desk, BookFill(c, s, id, price, q, commission, taker).desk, id)
  {
    hide Remove, AfterFill;
    WithoutProperties(s.desk.resting, id);
  }

  lemma {:induction false} ExecuteAllStaysOff(c: Config, s: State, id: OrderId, fills: seq<(int, int)>, taker: bool)
    requires id in s.desk.orders
    ensures StaysOff(s.desk, ExecuteAll(c, s, id, fills, taker).desk, id)
    decreases |fills|
  {
    hide BookFill;
    if fills != [] && s.fault.None? {
      var commission := c.fee(s.account.fills, s.desk.orders[id].(id := id), fills[0].0, fills[0].1, taker);
      BookFillStaysOff(c, s, id, fills[0].0, fills[0].1, commission, taker);
      ExecuteAllStaysOff(c, Execute(c, s, id, fills[0].0, fills[0].1, taker), id, fills[1..], taker);
    }
  }

  /** Behind everything the market shows at the order's limit; no place is kept by a model without a queue. */
  predicate JoinedBehind(c: Config, m: MarketData, d: Desk, d': Desk, id: OrderId) {
    id in d'.resting ==>
      && id in d.orders && id in d'.orders && EngineLifecycle.SameTerms(d.orders[id], d'.orders[id]) && d.orders[id].kind.Limit?
      && (if c.usesQueue then
            ValueOr(d'.queueAhead, id, 0) == ShownAt(m, d.orders[id].slot, d.orders[id].side, d.orders[id].kind.limit)
          else id !in d'.queueAhead)
  }

  lemma OfferJoins(c: Config, s: State, id: OrderId)
    requires Coherent(s.desk) && s.fault.None? && Offerable(s.desk, id)
    requires id in s.desk.orders && id !in s.desk.resting && id !in s.desk.queueAhead
    ensures JoinedBehind(c, s.market, s.desk, TryFill(c, s, id).desk, id)
  {
    hide Coherent, ExecuteAll, Walk, EffectiveBook, Wanted, RestOrCancel, Close, RemoveResting, ShownAt, Stopped;
    var o := s.desk.orders[id];
    CoherentIsKeyed(s.desk);
    RestingJoins(c, s.market, s.desk, id);
    CloseRemoves(s.desk, id);
    RemovedIsOff(SetOrder(s.desk, o.(id := id, status := Rejected)), id);
    if AtVenue(o) && o.slot in s.market.books {
      var w := Walk(EffectiveBook(c, s.market, o), o.side, Wanted(s.account, o), o.LimitPrice());
      var s1 := ExecuteAll(c, s, id, w.fills, !o.postOnly);
      WantedFits(c, s, o);
      ExecuteAllCoherent(c, s, id, w.fills, !o.postOnly);
      ExecuteAllStaysOff(c, s, id, w.fills, !o.postOnly);
      CoherentIsKeyed(s1.desk);
      RestingJoins(c, s1.market, s1.desk, id);
    }
  }

  lemma RemovedIsOff(d: Desk, id: OrderId)
    ensures id !in RemoveResting(d, id).resting
  {
    hide Remove;
    WithoutProperties(d.resting, id);
  }

  /** In every reachable state an order that comes to rest on arrival joins behind all that is shown there. */
  lemma ArrivalJoinsBehind(c: Config, ops: seq<Op>, id: OrderId, funded: bool)
    requires var s := Run(c, ops); s.fault.None? && id !in s.desk.resting && id !in s.desk.queueAhead
    ensures var s := Run(c, ops);
            JoinedBehind(c, s.market, s.desk, Step(c, s, Release(id, funded)).desk, id)
  {
    hide Run, Coherent, TryFill, SelfTrades, WouldCross, Fires, Without, ShownAt, Stopped;
    var s := Run(c, ops);
    RunIsSane(c, ops);
    if id in s.desk.inflight && id in s.desk.orders && s.desk.orders[id].status.InFlight? {
      var d := s.desk.(inflight := Without(s.desk.inflight, id));
      InflightIsFree(s.desk, d.inflight);
      EngineLifecycle.AcceptedIsOfferable(d, id);
      OfferJoins(c, s.(desk := SetOrder(d, d.orders[id].(id := id, trigger := None, status := Accepted))), id);
    }
  }
}
