/**
 The kernel as it runs: one object whose fields the steps update in place.

 Each method is proved to leave the state its step function describes, so what is proved about
 every run of the steps holds of this object, command by command.
 */
module EngineMachine {
  import opened FixedPoint
  import opened Sorting
  import opened Sums
  import opened Orders
  import opened RestingIndex
  import opened Engine
  import EngineRuns
  import L2 = Book
  import F = BookFeed
  import P = Positions
  import I = Instruments

  class Kernel {
    const config: Config

    // The desk.
    var orders: map<OrderId, Order>
    var resting: seq<OrderId>
    var index: Index
    var queueAhead: map<OrderId, int>
    var live: seq<OrderId>
    var untriggered: seq<OrderId>
    var inflight: seq<OrderId>
    var nextId: OrderId

    // The account.
    var positions: map<Slot, P.Holding>
    var cash: int
    var buckets: map<nat, int>
    var fundingPaid: int
    var dividends: int
    var fills: seq<Fill>

    // The market.
    var books: map<Slot, L2.BookState>
    var marks: map<Slot, int>
    var oracles: map<Slot, int>
    var now: int
    var delisted: set<nat>

    var fault: Option<Fault>

    function DeskNow(): Desk
      reads this
    {
      Desk(orders, resting, index, queueAhead, live, untriggered, inflight, nextId)
    }

    function AccountNow(): Account
      reads this
    {
      Account(positions, cash, buckets, fundingPaid, dividends, fills)
    }

    function MarketNow(): MarketData
      reads this
    {
      MarketData(books, marks, oracles, now, delisted)
    }

    function Value(): State
      reads this
    {
      State(DeskNow(), AccountNow(), MarketNow(), fault)
    }

    constructor (c: Config)
      ensures config == c && Value() == Init(c)
    {
      config := c;
      orders, resting, index, queueAhead := map[], [], map[], map[];
      live, untriggered, inflight, nextId := [], [], [], 0;
      positions, cash, buckets, fundingPaid, dividends, fills := map[], c.startingCash, map[], 0, 0, [];
      books, marks, oracles, now, delisted := map[], map[], map[], 0, {};
      fault := None;
    }

    // ----- Resting -----

    method RemoveFromBook(id: OrderId)
      modifies this`index, this`resting, this`queueAhead
      ensures DeskNow() == RemoveResting(old(DeskNow()), id) && orders == old(orders)
    {
      if id in orders {
        index := Remove(index, orders[id]);
      }
      resting := Without(resting, id);
      queueAhead := queueAhead - {id};
    }

    method Join(o: Order)
      modifies this`queueAhead
      ensures DeskNow() == JoinQueue(config, MarketNow(), old(DeskNow()), o)
    {
      if !config.usesQueue || o.id in queueAhead {
        return;
      }
      match o.kind {
        case Market =>
        case Limit(price) =>
          queueAhead := queueAhead[o.id := DisplayedAt(MarketNow(), o.slot, o.side, price)];
      }
    }

    method AddToBook(o: Order)
      modifies this`index, this`resting, this`queueAhead
      ensures DeskNow() == AddResting(config, MarketNow(), old(DeskNow()), o)
    {
      if o.id in resting {
        return;
      }
      Join(o);
      index := Insert(index, o);
      resting := resting + [o.id];
    }

    method CloseOrder(id: OrderId, status: Status)
      modifies this`orders, this`index, this`resting, this`queueAhead
      ensures DeskNow() == Close(old(DeskNow()), id, status)
    {
      if id in orders && orders[id].IsOpen() {
        var o := orders[id].(status := status);
        orders := orders[o.id := o];
      }
      RemoveFromBook(id);
    }

    /** Time in force decides what becomes of an order that cannot be matched any further. */
    method NoLiquidity(id: OrderId)
      requires id in orders
      modifies this`orders, this`index, this`resting, this`queueAhead
      ensures DeskNow() == RestOrCancel(config, MarketNow(), old(DeskNow()), id)
    {
      var o := orders[id];
      match o.tif {
        case GoodTilCancel =>
          if o.kind.Limit? && id !in resting {
            AddToBook(o);
          }
        case _ =>
          CloseOrder(id, Cancelled);
      }
    }

    /** Drop whatever no longer belongs on the book. */
    method PruneResting()
      modifies this`index, this`resting, this`queueAhead
      ensures DeskNow() == Prune(old(DeskNow()), old(resting))
    {
      var rest := resting;
      while rest != []
        invariant Prune(DeskNow(), rest) == Prune(old(DeskNow()), old(resting))
        decreases |rest|
      {
        var id := rest[0];
        if !(id in orders && orders[id].IsOpen()) {
          RemoveFromBook(id);
        }
        rest := rest[1..];
      }
    }

    // ----- Fills -----

    method Rebalance(instrument: nat)
      modifies this`cash, this`buckets
      ensures AccountNow() == Rebalanced(config, old(AccountNow()), instrument)
    {
      if instrument !in config.isolated || config.margin.None? {
        return;
      }
      var required := RequiredNow(instrument);
      var posted := if instrument in buckets then buckets[instrument] else 0;
      var delta := required - posted;
      if delta == 0 {
        return;
      }
      cash := cash - delta;
      if required == 0 {
        buckets := buckets - {instrument};
      } else {
        buckets := buckets[instrument := required];
      }
    }

    /** What the open positions of an instrument must post, one outcome after another. */
    method RequiredNow(instrument: nat) returns (required: int)
      requires config.margin.Some?
      ensures required == Required(config, positions, instrument, config.outcomes(instrument))
    {
      required := 0;
      for outcome := 0 to config.outcomes(instrument)
        invariant required == Required(config, positions, instrument, outcome)
      {
        var h := P.At(positions, Slot(instrument, outcome));
        if h.quantity != 0 {
          required := required + config.margin.value(instrument, h.quantity, h.averagePrice);
        }
      }
    }

    /** Positions and cash, then collateral, then the fill on record. */
    method BookMoney(f: Fill)
      modifies this`positions, this`cash, this`buckets, this`fills
      ensures AccountNow() == AfterFill(config, old(AccountNow()), f)
    {
      hide P.Applied, Notional;
      var before := P.At(positions, f.slot).realizedPnl;
      positions := P.PortfolioApplied(positions, f);
      if config.funded(f.slot.instrument) {
        var gross := Notional(f.price, f.quantity);
        match f.side {
          case Buy => cash := cash - gross - f.commission;
          case Sell => cash := cash + gross - f.commission;
        }
      } else {
        cash := cash + (positions[f.slot].realizedPnl - before);
      }
      fills := fills + [f];
      Rebalance(f.slot.instrument);
    }

    /** The order itself; one that is done leaves the book. */
    method MarkFilled(id: OrderId, quantity: int)
      requires id in orders
      modifies this`orders, this`index, this`resting, this`queueAhead
      ensures var d := old(DeskNow());
              var o := d.orders[id].RecordFill(quantity);
              var d1 := d.(orders := d.orders[id := o]);
              DeskNow() == if o.IsOpen() then d1 else RemoveResting(d1, id)
      ensures old(orders).Keys == orders.Keys
    {
      hide RemoveResting;
      var o := orders[id].RecordFill(quantity);
      orders := orders[id := o];
      if !o.IsOpen() {
        RemoveFromBook(id);
      }
    }

    method BookOneFill(id: OrderId, price: int, quantity: int, commission: int, taker: bool)
      requires id in orders
      modifies this`orders, this`index, this`resting, this`queueAhead, this`positions, this`cash, this`buckets, this`fills, this`fault
      ensures Value() == BookFill(config, old(Value()), id, price, quantity, commission, taker)
      ensures old(orders).Keys == orders.Keys
    {
      hide AfterFill, RemoveResting;
      var o := orders[id];
      if o.WouldOverfill(quantity) {
        fault := Some(Overfilled);
        return;
      }
      BookMoney(Fill(id, o.slot, o.side, price, quantity, commission, taker));
      MarkFilled(id, quantity);
    }

    method ExecuteOne(id: OrderId, price: int, quantity: int, taker: bool)
      requires id in orders
      modifies this`orders, this`index, this`resting, this`queueAhead, this`positions, this`cash, this`buckets, this`fills, this`fault
      ensures Value() == Execute(config, old(Value()), id, price, quantity, taker)
      ensures old(orders).Keys == orders.Keys
    {
      hide BookFill;
      var commission := config.fee(fills, orders[id].(id := id), price, quantity, taker);
      BookOneFill(id, price, quantity, commission, taker);
    }

    method ExecuteWalk(id: OrderId, walked: seq<(int, int)>, taker: bool)
      requires id in orders
      modifies this`orders, this`index, this`resting, this`queueAhead, this`positions, this`cash, this`buckets, this`fills, this`fault
      ensures Value() == ExecuteAll(config, old(Value()), id, walked, taker)
      ensures old(orders).Keys == orders.Keys
    {
      hide Execute;
      var rest := walked;
      while rest != [] && fault.None?
        invariant orders.Keys == old(orders).Keys
        invariant ExecuteAll(config, Value(), id, rest, taker) == ExecuteAll(config, old(Value()), id, walked, taker)
        decreases |rest|
      {
        ExecuteOne(id, rest[0].0, rest[0].1, taker);
        rest := rest[1..];
      }
    }

    // ----- Matching -----

    /** Walk the book the fill model gives, level by level. */
    method WalkFor(o: Order, wanted: int) returns (walked: seq<(int, int)>, unfilled: int)
      requires o.slot in books
      ensures L2.Walked(walked, unfilled)
           == L2.Walk(EffectiveBook(config, MarketNow(), o), o.side, wanted, o.LimitPrice())
    {
      hide L2.Visit, L2.Reach;
      var levels := L2.Facing(EffectiveBook(config, MarketNow(), o), o.side);
      walked, unfilled := F.OrderBook.VisitLevels(L2.Reach(levels, o.side), levels, o.side, wanted, o.LimitPrice());
    }

    method TryFillOrder(id: OrderId)
      modifies this`orders, this`index, this`resting, this`queueAhead, this`positions, this`cash, this`buckets, this`fills, this`fault
      ensures Value() == TryFill(config, old(Value()), id)
    {
      hide ExecuteAll, RestOrCancel, Close, RemoveResting, Stopped, L2.Walk, Wanted, EffectiveBook;
      if id !in orders {
        return;
      }
      var o := orders[id];
      if !o.IsOpen() || o.status.InFlight? {
        return;
      }
      if Stopped(config, MarketNow(), o.slot.instrument) {
        orders := orders[id := o.(id := id, status := Rejected)];
        RemoveFromBook(id);
        return;
      }
      if o.slot !in books {
        NoLiquidity(id);
        return;
      }
      var wanted := Wanted(AccountNow(), o);
      if o.reduceOnly && wanted <= 0 {
        CloseOrder(id, Cancelled);
        return;
      }
      var walked, unfilled := WalkFor(o, wanted);
      if o.tif.FillOrKill? && L2.Total(walked) != wanted {
        CloseOrder(id, Cancelled);
        return;
      }
      ExecuteWalk(id, walked, !o.postOnly);
      if fault.None? && orders[id].IsOpen() {
        NoLiquidity(id);
      }
    }

    method OfferAll(ids: seq<OrderId>)
      modifies this`orders, this`index, this`resting, this`queueAhead, this`positions, this`cash, this`buckets, this`fills, this`fault
      ensures Value() == Offer(config, old(Value()), ids)
    {
      hide TryFill;
      var rest := ids;
      while rest != [] && fault.None?
        invariant Offer(config, Value(), rest) == Offer(config, old(Value()), ids)
        decreases |rest|
      {
        TryFillOrder(rest[0]);
        rest := rest[1..];
      }
    }

    /** Match what a record may have made marketable. */
    method MatchMarket(slot: Slot, corporate: bool)
      modifies this`orders, this`index, this`resting, this`queueAhead, this`positions, this`cash, this`buckets, this`fills, this`fault
      ensures Value() == MatchResting(config, old(Value()), slot, corporate)
    {
      hide Offer, Prune, Candidates;
      if slot !in books {
        return;
      }
      var ids := Candidates(config, Value(), slot, corporate);
      if ids == [] {
        return;
      }
      OfferAll(ids);
      if fault.None? {
        PruneResting();
      }
    }

    // ----- The queue -----

    /** The queue ahead of an order takes its part of the volume first. */
    method EatQueue(id: OrderId, volume: int) returns (left: int)
      modifies this`queueAhead
      ensures var s := old(Value());
              && Value() == SetAhead(s, id, ValueOr(s.desk.queueAhead, id, 0) - Eaten(s, id, volume))
              && left == volume - Eaten(s, id, volume)
    {
      var ahead := if id in queueAhead then queueAhead[id] else 0;
      var consumed := if ahead > 0 then Min(volume, ahead) else 0;
      queueAhead := queueAhead[id := ahead - consumed];
      left := volume - consumed;
    }

    /** Then the order itself, at its own limit. */
    method FillBehindQueue(limit: int, id: OrderId, volume: int) returns (left: int)
      modifies this`orders, this`index, this`resting, this`queueAhead, this`positions, this`cash, this`buckets, this`fills, this`fault
      ensures Consumed(Value(), left) == FillReached(config, old(Value()), limit, id, volume)
    {
      hide Execute;
      left := volume;
      var wanted := if id in orders then orders[id].Remaining() else 0;
      var fill := Min(left, wanted);
      if fill > 0 {
        ExecuteOne(id, limit, fill, false);
        left := left - fill;
      }
      if !(id in orders && orders[id].IsOpen()) {
        queueAhead := queueAhead - {id};
      }
    }

    /** Volume against one reached order: the queue ahead of it, then the order. */
    method ConsumeReached(limit: int, id: OrderId, volume: int) returns (left: int)
      modifies this`orders, this`index, this`resting, this`queueAhead, this`positions, this`cash, this`buckets, this`fills, this`fault
      ensures Consumed(Value(), left) == ConsumeOne(config, old(Value()), limit, id, volume)
    {
      hide FillReached, SetAhead, Eaten;
      left := EatQueue(id, volume);
      if left > 0 {
        left := FillBehindQueue(limit, id, left);
      }
    }

    /** The resting orders a print reaches, level after level, best price first. */
    method CollectReached(slot: Slot, passive: Side, price: int) returns (eligible: seq<(int, OrderId)>)
      ensures eligible == ReachedByTrade(index, slot, passive, price)
    {
      var levels := SideOf(MarketAt(index, slot), passive);
      var prices := ReachedPrices(levels, passive, price);
      eligible := [];
      var rest := prices;
      while rest != []
        invariant forall i :: 0 <= i < |rest| ==> rest[i] in levels
        invariant eligible + Reached(levels, rest) == Reached(levels, prices)
        decreases |rest|
      {
        var level := Tagged(rest[0], levels[rest[0]]);
        assert eligible + (level + Reached(levels, rest[1..])) == (eligible + level) + Reached(levels, rest[1..]);
        eligible := eligible + level;
        rest := rest[1..];
      }
    }

    method ConsumeQueueSide(slot: Slot, price: int, size: int, passive: Side)
      modifies this`orders, this`index, this`resting, this`queueAhead, this`positions, this`cash, this`buckets, this`fills, this`fault
      ensures Value() == ConsumeSide(config, old(Value()), slot, price, size, passive)
    {
      hide ConsumeOne, Prune, ReachedByTrade;
      var eligible := CollectReached(slot, passive, price);
      var rest, remaining := eligible, size;
      while rest != [] && remaining > 0 && fault.None?
        invariant Consume(config, Value(), rest, remaining) == Consume(config, old(Value()), eligible, size)
        decreases |rest|
      {
        remaining := ConsumeReached(rest[0].0, rest[0].1, remaining);
        rest := rest[1..];
      }
      if fault.None? {
        PruneResting();
      }
    }

    method ConsumeQueue(slot: Slot, price: int, size: int, aggressor: Option<Side>)
      modifies this`orders, this`index, this`resting, this`queueAhead, this`positions, this`cash, this`buckets, this`fills, this`fault
      ensures Value() == Printed(config, old(Value()), slot, price, size, aggressor)
    {
      hide ConsumeSide;
      if !config.usesQueue {
        return;
      }
      match aggressor {
        case Some(side) =>
          ConsumeQueueSide(slot, price, size, side.Opposite());
        case None =>
          if config.fillsOnUnknownAggressor {
            ConsumeQueueSide(slot, price, size, Buy);
            if fault.None? {
              ConsumeQueueSide(slot, price, size, Sell);
            }
          }
      }
    }

    // ----- Commands -----

    /** The order goes on file, and on the wire unless it was refused. */
    method Record(r: Request, refused: bool)
      modifies this`orders, this`live, this`inflight
      ensures var d := old(DeskNow());
              DeskNow() == if refused then SetOrder(d, NewOrder(d.nextId, r, Rejected))
                           else SetOrder(d, NewOrder(d.nextId, r, InFlight)).(live := d.live + [d.nextId],
                                                                              inflight := d.inflight + [d.nextId])
    {
      orders := orders[nextId := NewOrder(nextId, r, if refused then Rejected else InFlight)];
      if !refused {
        live := live + [nextId];
        inflight := inflight + [nextId];
      }
    }

    /** A new order: refused at the gate, or sent on its way. */
    method Send(r: Request)
      modifies this`orders, this`live, this`inflight, this`nextId, this`fault
      ensures Value() == Submitted(config, old(Value()), r)
    {
      hide NakedShort, RiskRejected, Refused, Stopped, LiveOnly, NewOrder;
      if r.quantity <= 0 {
        fault := Some(BadRequest);
        return;
      }
      var kept := LiveOnly(DeskNow(), live);
      nextId, live := nextId + 1, kept;
      var refused := Refused(config, r) || Stopped(config, MarketNow(), r.slot.instrument)
                     || NakedShort(config, Value(), r) || RiskRejected(config, Value(), r);
      Record(r, refused);
    }

    method CancelOne(id: OrderId)
      modifies this`orders, this`index, this`resting, this`queueAhead
      ensures Value() == CancelledOrder(old(Value()), id)
    {
      if id in orders && orders[id].IsOpen() {
        CloseOrder(id, Cancelled);
      }
    }

    /** Out of the index, changed, and back in at the end of its new queue. */
    method Requeue(id: OrderId, updated: Order)
      requires id in orders && updated.id == id
      modifies this`orders, this`index, this`queueAhead
      ensures DeskNow() == Requeued(config, MarketNow(), old(DeskNow()), id, updated)
    {
      hide JoinQueue, Insert, Remove;
      var wasResting := id in resting;
      if wasResting {
        index := Remove(index, orders[id]);
      }
      orders := orders[id := updated];
      queueAhead := queueAhead - {id};
      ghost var before := DeskNow();
      Join(updated);
      JoinKeepsIndex(config, MarketNow(), before, updated);
      if wasResting {
        index := Insert(index, updated);
      }
    }

    /** The order as it would be amended, and whether that gives up its place; or a refusal. */
    method Amendment(o: Order, quantity: Option<int>, limit: Option<int>)
      returns (refused: bool, updated: Order, losesPriority: bool)
      ensures refused == AmendRefused(config, o, quantity, limit)
      ensures !refused ==> updated == AmendedOrder(o, quantity, limit) && losesPriority == LosesPriority(o, quantity, limit)
    {
      refused, updated, losesPriority := false, o, false;
      if limit.Some? {
        if !config.validPrice(o.slot.instrument, limit.value) {
          refused := true;
          return;
        }
        if o.LimitPrice() != Some(limit.value) {
          updated := updated.(kind := Limit(limit.value));
          losesPriority := true;
        }
      }
      if quantity.Some? {
        if quantity.value <= 0 || quantity.value < o.filled {
          refused := true;
          return;
        }
        losesPriority := losesPriority || quantity.value > o.quantity;
        updated := updated.(quantity := quantity.value);
      }
    }

    method AmendOne(id: OrderId, quantity: Option<int>, limit: Option<int>)
      modifies this`orders, this`index, this`queueAhead, this`fault
      ensures Value() == Amended(config, old(Value()), id, quantity, limit)
    {
      hide Requeued, AmendRefused, AmendedOrder, LosesPriority;
      if !(id in orders && orders[id].IsOpen()) {
        return;
      }
      var refused, updated, losesPriority := Amendment(orders[id], quantity, limit);
      if refused {
        fault := Some(BadRequest);
      } else if losesPriority {
        Requeue(id, updated.(id := id));
      } else {
        orders := orders[id := updated.(id := id)];
      }
    }

    /** An order in flight reaches the venue. */
    method Arrive(id: OrderId, funded: bool)
      modifies this`orders, this`index, this`resting, this`queueAhead, this`positions, this`cash, this`buckets, this`fills, this`inflight, this`untriggered, this`fault
      ensures Value() == Released(config, old(Value()), id, funded)
    {
      hide TryFill, SelfTrades, WouldCross, Fires, Stopped, Without;
      if id !in inflight {
        return;
      }
      inflight := Without(inflight, id);
      if id !in orders || !orders[id].status.InFlight? {
        return;
      }
      var o := orders[id].(id := id);
      if Stopped(config, MarketNow(), o.slot.instrument) || (o.postOnly && WouldCross(MarketNow(), o)) {
        orders := orders[id := o.(status := Rejected)];
        return;
      }
      if o.trigger.Some? && !Fires(MarketNow(), o) {
        orders := orders[id := o.(status := Untriggered)];
        untriggered := untriggered + [id];
        return;
      }
      o := o.(trigger := None);
      if SelfTrades(MarketNow(), DeskNow(), o) || !funded {
        orders := orders[id := o.(status := Rejected)];
        return;
      }
      AcceptOrder(o.(status := Accepted));
    }

    /** Put an accepted order on file and offer it to the market. */
    method AcceptOrder(o: Order)
      modifies this`orders, this`index, this`resting, this`queueAhead, this`positions, this`cash, this`buckets, this`fills, this`fault
      ensures Value() == TryFill(config, old(Value()).(desk := SetOrder(old(DeskNow()), o)), o.id)
    {
      hide TryFill;
      orders := orders[o.id := o];
      TryFillOrder(o.id);
    }

    method ArmOrders(ids: seq<OrderId>)
      modifies this
      ensures Value() == Arm(config, old(Value()), ids)
    {
      hide TryFill;
      var rest := ids;
      while rest != [] && fault.None? && rest[0] in orders
        invariant Arm(config, Value(), rest) == Arm(config, old(Value()), ids)
        decreases |rest|
      {
        var id := rest[0];
        AcceptOrder(orders[id].(id := id, trigger := None, status := Accepted));
        rest := rest[1..];
      }
    }

    method ArmTriggered()
      modifies this
      ensures Value() == TriggersArmed(config, old(Value()))
    {
      hide Arm, StillParked;
      var ready := StillParked(Value(), untriggered, true);
      untriggered := StillParked(Value(), untriggered, false);
      ArmOrders(ready);
    }

    // ----- Time -----

    method CancelDoomed(ids: seq<OrderId>)
      modifies this`orders, this`index, this`resting, this`queueAhead
      ensures DeskNow() == CancelAll(old(DeskNow()), ids)
    {
      hide Close;
      var rest := ids;
      while rest != []
        invariant CancelAll(DeskNow(), rest) == CancelAll(old(DeskNow()), ids)
        decreases |rest|
      {
        CloseOrder(rest[0], Cancelled);
        rest := rest[1..];
      }
    }

    method AdvanceClock(time: int)
      modifies this`orders, this`index, this`resting, this`queueAhead, this`now, this`fault
      ensures Value() == Advanced(config, old(Value()), time)
    {
      hide CancelAll, Doomed;
      if time < now {
        fault := Some(BadRequest);
        return;
      }
      now := time;
      CancelDoomed(Doomed(config, DeskNow(), resting, time));
    }

    // ----- Corporate actions and funding -----

    method RepriceResting(ids: seq<OrderId>, instrument: nat, ratio: int)
      requires ratio > 0
      modifies this`orders, this`index
      ensures DeskNow() == SplitResting(old(DeskNow()), ids, instrument, ratio)
    {
      hide Insert, Remove, SplitOrder;
      var rest := ids;
      while rest != []
        invariant SplitResting(DeskNow(), rest, instrument, ratio) == SplitResting(old(DeskNow()), ids, instrument, ratio)
        decreases |rest|
      {
        var id := rest[0];
        if id in orders && orders[id].slot.instrument == instrument {
          var o := SplitOrder(ratio, orders[id]).(id := id);
          index := Remove(index, orders[id]);
          orders := orders[id := o];
          index := Insert(index, o);
        }
        rest := rest[1..];
      }
    }

    method RepriceHeld(ids: seq<OrderId>, instrument: nat, ratio: int, inflightOnly: bool)
      requires ratio > 0
      modifies this`orders
      ensures DeskNow() == SplitHeld(old(DeskNow()), ids, instrument, ratio, inflightOnly)
    {
      hide SplitOrder;
      var rest := ids;
      while rest != []
        invariant SplitHeld(DeskNow(), rest, instrument, ratio, inflightOnly)
               == SplitHeld(old(DeskNow()), ids, instrument, ratio, inflightOnly)
        decreases |rest|
      {
        var id := rest[0];
        if id in orders && orders[id].slot.instrument == instrument && (!inflightOnly || orders[id].status.InFlight?) {
          orders := orders[id := SplitOrder(ratio, orders[id]).(id := id)];
        }
        rest := rest[1..];
      }
    }

    /** On the book, parked, and on the wire. */
    method SplitOrders(instrument: nat, ratio: int)
      requires ratio > 0
      modifies this`orders, this`index
      ensures DeskNow() == SplitOrdersOf(old(DeskNow()), instrument, ratio)
    {
      hide SplitResting, SplitHeld;
      RepriceResting(resting, instrument, ratio);
      RepriceHeld(untriggered, instrument, ratio, false);
      RepriceHeld(live, instrument, ratio, true);
    }

    method SplitQuotes(instrument: nat, ratio: int)
      requires ratio > 0
      modifies this`books, this`marks, this`oracles
      ensures MarketNow() == SplitMarket(old(MarketNow()), instrument, ratio)
    {
      hide F.SplitBook, SplitPrices;
      books := map slot | slot in books ::
        if slot.instrument == instrument then F.SplitBook(books[slot], ratio) else books[slot];
      marks := SplitPrices(marks, instrument, ratio);
      oracles := SplitPrices(oracles, instrument, ratio);
    }

    method SplitPortfolio(instrument: nat, ratio: int)
      requires ratio > 0
      modifies this`positions
      ensures AccountNow() == old(AccountNow()).(positions := SplitPositions(old(positions), instrument, ratio))
    {
      hide SplitHolding;
      positions := map slot | slot in positions ::
        if slot.instrument == instrument then SplitHolding(ratio, positions[slot]) else positions[slot];
    }

    /** Everything the split renames moves at once: positions, orders, books and reference prices. */
    method ApplySplit(instrument: nat, ratio: int)
      modifies this`positions, this`orders, this`index, this`books, this`marks, this`oracles, this`fault
      ensures Value() == SplitShares(old(Value()), instrument, ratio)
    {
      hide SplitOrdersOf, SplitMarket, SplitPositions;
      if ratio <= 0 {
        fault := Some(BadRequest);
      } else {
        SplitEverything(instrument, ratio);
      }
    }

    method SplitEverything(instrument: nat, ratio: int)
      requires ratio > 0
      modifies this`positions, this`orders, this`index, this`books, this`marks, this`oracles
      ensures DeskNow() == SplitOrdersOf(old(DeskNow()), instrument, ratio)
      ensures MarketNow() == SplitMarket(old(MarketNow()), instrument, ratio)
      ensures AccountNow() == old(AccountNow()).(positions := SplitPositions(old(positions), instrument, ratio))
    {
      hide SplitOrdersOf, SplitMarket, SplitPositions;
      SplitPortfolio(instrument, ratio);
      SplitOrders(instrument, ratio);
      SplitQuotes(instrument, ratio);
    }

    method PayDividend(instrument: nat, perShare: int)
      modifies this
      ensures Value() == DividendPaid(config, old(Value()), instrument, perShare)
    {
      hide Notional;
      if perShare < 0 {
        fault := Some(BadRequest);
        return;
      }
      var due := 0;
      for outcome := 0 to config.outcomes(instrument)
        invariant Value() == old(Value())
        invariant due == DividendDue(positions, instrument, outcome, perShare)
      {
        due := due + Notional(perShare, P.At(positions, Slot(instrument, outcome)).quantity);
      }
      cash := cash + due;
      dividends := dividends + due;
    }

    method SettleFunding(instrument: nat, rate: int)
      modifies this
      ensures Value() == FundingSettled(config, old(Value()), instrument, rate)
    {
      hide Notional;
      var total := 0;
      for outcome := 0 to config.outcomes(instrument)
        invariant Value() == old(Value())
        invariant total == FundingTotal(Value(), instrument, outcome, rate)
      {
        var slot := Slot(instrument, outcome);
        var q := P.At(positions, slot).quantity;
        if q != 0 {
          if slot in oracles {
            total := total - Notional(rate, Notional(oracles[slot], q));
          } else if slot in marks {
            total := total - Notional(rate, Notional(marks[slot], q));
          }
        }
      }
      cash := cash + total;
      fundingPaid := fundingPaid - total;
    }

    method StandUpOrder(slot: Slot, side: Side, quantity: int, reduceOnly: bool)
      modifies this`orders, this`nextId
      ensures Value() == WithEngineOrder(old(Value()), slot, side, quantity, reduceOnly)
    {
      nextId := nextId + 1;
      orders := orders[nextId := Order(nextId, slot, side, Market, quantity, 0, ImmediateOrCancel, Accepted, reduceOnly, false, None)];
    }

    method WorkEngineOrder(slot: Slot, side: Side, quantity: int, reduceOnly: bool)
      modifies this`orders, this`index, this`resting, this`queueAhead, this`positions, this`cash, this`buckets, this`fills, this`nextId, this`fault
      ensures Value() == EngineOrder(config, old(Value()), slot, side, quantity, reduceOnly)
    {
      hide TryFill, WithEngineOrder;
      if quantity <= 0 {
        fault := Some(BadRequest);
        return;
      }
      StandUpOrder(slot, side, quantity, reduceOnly);
      TryFillOrder(nextId);
    }

    /** Cash out what is open at the final price, then close the market for good. */
    method DelistInstrument(instrument: nat, price: int)
      modifies this
      ensures Value() == Delisted(config, old(Value()), instrument, price)
    {
      hide Execute;
      if price < 0 {
        fault := Some(BadRequest);
        return;
      }
      for outcome := 0 to config.outcomes(instrument)
        invariant Value() == CashOut(config, old(Value()), instrument, outcome, price)
      {
        var slot := Slot(instrument, outcome);
        var q := P.At(positions, slot).quantity;
        if q != 0 && fault.None? {
          StandUpOrder(slot, if q > 0 then Sell else Buy, Abs(q), false);
          ExecuteOne(nextId, price, Abs(q), false);
        }
      }
      delisted := delisted + {instrument};
    }

    // ----- Complete sets -----

    method BookSetLegs(instrument: nat, side: Side, sets: int, basis: seq<int>, cost: int)
      modifies this
      ensures Value() == BookLegs(config, old(Value()), instrument, side, sets, basis, 0, cost)
    {
      hide BookFill;
      var k := 0;
      while k < |basis| && fault.None?
        invariant 0 <= k <= |basis|
        invariant BookLegs(config, Value(), instrument, side, sets, basis, k, cost)
               == BookLegs(config, old(Value()), instrument, side, sets, basis, 0, cost)
      {
        StandUpOrder(Slot(instrument, k), side, sets, false);
        BookOneFill(nextId, basis[k], sets, if k == 0 then cost else 0, false);
        k := k + 1;
      }
    }

    /** The division in force: the marks when every outcome is quoted, an even one otherwise. */
    method BasisFor(instrument: nat) returns (basis: Option<seq<int>>)
      ensures basis == SetBasis(config, MarketNow(), instrument)
    {
      var quoted := MarksFor(instrument);
      match quoted {
        case Some(prices) => basis := I.NormaliseToOne(prices);
        case None => basis := I.UniformPrices(config.outcomes(instrument));
      }
    }

    /** Outcome by outcome, giving up at the first that is not quoted or not positive. */
    method MarksFor(instrument: nat) returns (quoted: Option<seq<int>>)
      ensures quoted == QuotedMarks(MarketNow(), instrument, config.outcomes(instrument))
    {
      quoted := Some([]);
      for outcome := 0 to config.outcomes(instrument)
        invariant quoted == QuotedMarks(MarketNow(), instrument, outcome)
      {
        var slot := Slot(instrument, outcome);
        match quoted {
          case None =>
          case Some(front) =>
            quoted := if slot in marks && marks[slot] > 0 then Some(front + [marks[slot]]) else None;
        }
      }
    }

    method RunSetOperation(instrument: nat, kind: SetKind, quantity: int)
      modifies this
      ensures Value() == SetOperation(config, old(Value()), instrument, kind, quantity)
    {
      hide BookLegs, SetBasis, SetRefused, SetCount;
      if !config.completeSet(instrument) || quantity <= 0 {
        fault := Some(BadRequest);
        return;
      }
      match SetCount(config, instrument, kind, quantity) {
        case None =>
          fault := Some(BadRequest);
        case Some((sets, side)) =>
          var cost := SetCost(config, kind);
          if SetRefused(config, Value(), instrument, side, sets, cost) {
            return;
          }
          var division := BasisFor(instrument);
          match division {
            case None =>
              fault := Some(BadRequest);
            case Some(basis) =>
              BookSetLegs(instrument, side, sets, basis, cost);
          }
      }
    }

    // ----- The feed and the loop -----

    method TakeFeed(slot: Slot, feed: F.FeedOp)
      modifies this`books, this`fault
      ensures Value() == FedBook(old(Value()), slot, feed)
    {
      hide F.Fed, F.DeltaApplied;
      var b := BookAt(MarketNow(), slot);
      if (feed.Increment? && F.DeltaApplied(b, feed.delta).None?) || feed.Split? {
        fault := Some(BookGap);
      } else {
        books := books[slot := F.Fed(b, feed)];
      }
    }

    /** What the market and the venue do. */
    method PerformRecord(op: Op)
      requires fault.None? && !IsCommand(op) && !IsPayment(op) && !IsAction(op)
      modifies this
      ensures Value() == Step(config, old(Value()), op)
    {
      hide FedBook, Printed, MatchResting, Advanced;
      match op {
        case AdvanceTo(time) => AdvanceClock(time);
        case Feed(slot, feed) => TakeFeed(slot, feed);
        case Print(slot, price, size, aggressor) => ConsumeQueue(slot, price, size, aggressor);
        case Match(slot, corporate) => MatchMarket(slot, corporate);
        case SetMark(slot, price) => marks := marks[slot := price];
        case SetOracle(slot, price) => oracles := oracles[slot := price];
      }
    }

    /** Funding and dividends. */
    method PerformPayment(op: Op)
      requires fault.None? && (op.Funding? || op.Dividend?)
      modifies this
      ensures Value() == Step(config, old(Value()), op)
    {
      hide FundingSettled, DividendPaid;
      match op {
        case Funding(i, rate) => SettleFunding(i, rate);
        case Dividend(i, perShare) => PayDividend(i, perShare);
      }
    }

    /** Splits and delistings. */
    method PerformAction(op: Op)
      requires fault.None? && (op.SplitAction? || op.Delist?)
      modifies this
      ensures Value() == Step(config, old(Value()), op)
    {
      hide SplitShares, Delisted;
      match op {
        case SplitAction(i, ratio) => ApplySplit(i, ratio);
        case Delist(i, price) => DelistInstrument(i, price);
      }
    }

    /** What the account asks for, and the engine does on its behalf. */
    method PerformCommand(op: Op)
      requires fault.None? && IsCommand(op)
      modifies this
      ensures Value() == Step(config, old(Value()), op)
    {
      hide Submitted, CancelledOrder, Amended, Released, TriggersArmed, EngineOrder, SetOperation;
      match op {
        case Submit(r) => Send(r);
        case CancelOrder(id) => CancelOne(id);
        case Amend(id, q, l) => AmendOne(id, q, l);
        case Release(id, funded) => Arrive(id, funded);
        case ArmTriggers => ArmTriggered();
        case PlaceEngineOrder(slot, side, q, reduceOnly) => WorkEngineOrder(slot, side, q, reduceOnly);
        case SetOp(i, kind, q) => RunSetOperation(i, kind, q);
      }
    }

    /** One step, whatever it is.  A fault ends the run: nothing moves after it. */
    method Perform(op: Op)
      modifies this
      ensures Value() == Step(config, old(Value()), op)
    {
      EngineRuns.FaultStops(config, Value(), op);
      hide Step;
      if fault.None? {
        if IsCommand(op) {
          PerformCommand(op);
        } else if IsPayment(op) {
          PerformPayment(op);
        } else if IsAction(op) {
          PerformAction(op);
        } else {
          PerformRecord(op);
        }
      }
    }
  }

  predicate IsCommand(op: Op) {
    op.Submit? || op.CancelOrder? || op.Amend? || op.Release? || op.ArmTriggers? || op.PlaceEngineOrder? || op.SetOp?
  }

  predicate IsAction(op: Op) {
    op.SplitAction? || op.Delist?
  }

  predicate IsPayment(op: Op) {
    op.Funding? || op.Dividend?
  }

  lemma JoinKeepsIndex(c: Config, m: MarketData, d: Desk, o: Order)
    ensures var d' := JoinQueue(c, m, d, o);
            d' == d.(queueAhead := d'.queueAhead)
  {
  }

  /** A whole run of the kernel is the run its steps describe, so every theorem about runs is about it. */
  method RunKernel(c: Config, ops: seq<Op>) returns (k: Kernel)
    ensures fresh(k) && k.config == c && k.Value() == Run(c, ops)
  {
    hide Step;
    k := new Kernel(c);
    for i := 0 to |ops|
      invariant fresh(k) && k.config == c && k.Value() == Run(c, ops[..i])
    {
      assert ops[..i + 1][..i] == ops[..i];
      k.Perform(ops[i]);
    }
    assert ops[..|ops|] == ops;
  }
}
