/**
 The backtest kernel: orders, matching, the queue model and accounting.

 The state is split the way the kernel's own steps touch it: the desk (orders and where they
 rest), the account (positions, cash, collateral, fills) and the market (books, marks, time).
 Every step is a total function of it.  A run is any sequence of steps, which covers the
 kernel's own fixed order of them.  Strategies issue no commands from inside a fill.

 What the kernel takes from outside is a parameter: fee and margin models, fill models, the
 instrument table, and whether an arriving order can be funded.
 */
module Engine {
  import opened FixedPoint
  import opened Sorting
  import opened Sums
  import opened Orders
  import opened Positions
  import opened Corporate
  import opened Book
  import opened BookFeed
  import opened Instruments
  import opened RestingIndex

  /**
   Everything fixed for a run.  `fee` prices a fill from the fills before it, which is how a
   fee model with per-order or per-window state depends on the past.
   */
  datatype Config = Config(
    startingCash: int,
    outcomes: nat -> nat,
    funded: nat -> bool,
    prediction: nat -> bool,
    completeSet: nat -> bool,
    negRisk: nat -> bool,
    validPrice: (nat, int) -> bool,
    expiry: nat -> Option<int>,
    fee: (seq<Fill>, Order, int, int, bool) -> int,
    margin: Option<(nat, int, int) -> int>,
    isolated: set<nat>,
    usesQueue: bool,
    fillsOnUnknownAggressor: bool,
    preservesPrices: bool,
    synthetic: (BookState, Order) -> Option<BookState>,
    maxOrderQuantity: Option<int>,
    maxAbsPosition: Option<int>,
    maxOpenOrders: Option<nat>,
    allowNakedShorts: bool,
    mintCost: int,
    redeemCost: int,
    convertCost: int)

  datatype Desk = Desk(
    orders: map<OrderId, Order>,
    resting: seq<OrderId>,
    index: Index,
    queueAhead: map<OrderId, int>,
    live: seq<OrderId>,
    untriggered: seq<OrderId>,
    inflight: seq<OrderId>,
    nextId: OrderId)

  datatype Account = Account(
    positions: map<Slot, Holding>,
    cash: int,
    buckets: map<nat, int>,
    fundingPaid: int,
    dividends: int,
    fills: seq<Fill>)

  datatype MarketData = MarketData(
    books: map<Slot, BookState>,
    marks: map<Slot, int>,
    oracles: map<Slot, int>,
    now: int,
    delisted: set<nat>)

  /** Why a run ended early.  Overfilling is the engine's own consistency check. */
  datatype Fault = Overfilled | BadRequest | BookGap

  datatype State = State(desk: Desk, account: Account, market: MarketData, fault: Option<Fault>)

  function Init(c: Config): State {
    State(Desk(map[], [], map[], map[], [], [], [], 0),
          Account(map[], c.startingCash, map[], 0, 0, []),
          MarketData(map[], map[], map[], 0, {}),
          None)
  }

  predicate Known(c: Config, slot: Slot) {
    slot.outcome < c.outcomes(slot.instrument)
  }

  /** Expired by the clock, or delisted. */
  predicate Stopped(c: Config, m: MarketData, instrument: nat) {
    (c.expiry(instrument).Some? && m.now >= c.expiry(instrument).value) || instrument in m.delisted
  }

  // ----- The account -----

  /** Collateral the open positions of an instrument call for, outcome by outcome. */
  function Required(c: Config, positions: map<Slot, Holding>, instrument: nat, outcomes: nat): int
    requires c.margin.Some?
  {
    if outcomes == 0 then 0
    else
      var h := At(positions, Slot(instrument, outcomes - 1));
      Required(c, positions, instrument, outcomes - 1)
        + (if h.quantity == 0 then 0 else c.margin.value(instrument, h.quantity, h.averagePrice))
  }

  /** Bring an isolated instrument's posted collateral in line with its positions. */
  function Rebalanced(c: Config, a: Account, instrument: nat): Account {
    if instrument !in c.isolated || c.margin.None? then a
    else
      var required := Required(c, a.positions, instrument, c.outcomes(instrument));
      var delta := required - ValueOr(a.buckets, instrument, 0);
      if delta == 0 then a
      else a.(cash := a.cash - delta,
              buckets := if required == 0 then a.buckets - {instrument} else a.buckets[instrument := required])
  }

  /** Funded instruments move their notional; derivatives move only realised profit. */
  function CashAfterFill(c: Config, a: Account, f: Fill): int {
    if c.funded(f.slot.instrument) then
      var gross := Notional(f.price, f.quantity);
      a.cash + (if f.side.Buy? then -gross else gross) - f.commission
    else
      var before := At(a.positions, f.slot);
      a.cash + (Applied(before, f).realizedPnl - before.realizedPnl)
  }

  function AfterFill(c: Config, a: Account, f: Fill): Account {
    var cash := CashAfterFill(c, a, f);
    Rebalanced(c, a.(positions := PortfolioApplied(a.positions, f), cash := cash, fills := a.fills + [f]),
               f.slot.instrument)
  }

  // ----- The desk -----

  function SetOrder(d: Desk, o: Order): Desk {
    d.(orders := d.orders[o.id := o])
  }

  function RemoveResting(d: Desk, id: OrderId): Desk {
    d.(index := if id in d.orders then Remove(d.index, d.orders[id]) else d.index,
       resting := Without(d.resting, id),
       queueAhead := d.queueAhead - {id})
  }

  /** Displayed size an order joins behind: its own side of the book, at its own price. */
  function DisplayedAt(m: MarketData, slot: Slot, side: Side, price: int): int {
    if slot !in m.books then 0
    else ValueOr(if side.Buy? then m.books[slot].bids else m.books[slot].asks, price, 0)
  }

  function JoinQueue(c: Config, m: MarketData, d: Desk, o: Order): Desk {
    if !c.usesQueue || o.id in d.queueAhead || o.kind.Market? then d
    else d.(queueAhead := d.queueAhead[o.id := DisplayedAt(m, o.slot, o.side, o.kind.limit)])
  }

  function AddResting(c: Config, m: MarketData, d: Desk, o: Order): Desk {
    if o.id in d.resting then d
    else
      var d1 := JoinQueue(c, m, d, o);
      d1.(index := Insert(d1.index, o), resting := d1.resting + [o.id])
  }

  function Close(d: Desk, id: OrderId, status: Status): Desk {
    var d1 := if id in d.orders && d.orders[id].IsOpen() then SetOrder(d, d.orders[id].(status := status)) else d;
    RemoveResting(d1, id)
  }

  /** Nothing more can be matched now: the order's own time in force decides. */
  function RestOrCancel(c: Config, m: MarketData, d: Desk, id: OrderId): Desk
    requires id in d.orders
  {
    var o := d.orders[id];
    if o.tif.GoodTilCancel? then
      if o.kind.Limit? && id !in d.resting then AddResting(c, m, d, o) else d
    else Close(d, id, Cancelled)
  }

  function StillOpen(d: Desk, id: OrderId): bool {
    id in d.orders && d.orders[id].IsOpen()
  }

  function Prune(d: Desk, ids: seq<OrderId>): Desk
    decreases |ids|
  {
    if ids == [] then d
    else Prune(if StillOpen(d, ids[0]) then d else RemoveResting(d, ids[0]), ids[1..])
  }

  // ----- Filling -----

  /** Book one fill: positions and cash, collateral, then the order itself. */
  function BookFill(c: Config, s: State, id: OrderId, price: int, quantity: int, commission: int, taker: bool): State
    requires id in s.desk.orders
  {
    var o := s.desk.orders[id];
    if o.WouldOverfill(quantity) then s.(fault := Some(Overfilled))
    else
      var o' := o.RecordFill(quantity);
      var d := s.desk.(orders := s.desk.orders[id := o']);
      s.(desk := if o'.IsOpen() then d else RemoveResting(d, id),
         account := AfterFill(c, s.account, Fill(id, o.slot, o.side, price, quantity, commission, taker)))
  }

  function Execute(c: Config, s: State, id: OrderId, price: int, quantity: int, taker: bool): State
    requires id in s.desk.orders
  {
    BookFill(c, s, id, price, quantity, c.fee(s.account.fills, s.desk.orders[id].(id := id), price, quantity, taker), taker)
  }

  function ExecuteAll(c: Config, s: State, id: OrderId, fills: seq<(int, int)>, taker: bool): State
    decreases |fills|
  {
    if fills == [] || s.fault.Some? || id !in s.desk.orders then s
    else ExecuteAll(c, Execute(c, s, id, fills[0].0, fills[0].1, taker), id, fills[1..], taker)
  }

  /** What an order may take now: a reduce-only order never opens or flips. */
  function Wanted(a: Account, o: Order): int {
    if !o.reduceOnly then o.Remaining()
    else
      var held := At(a.positions, o.slot).quantity;
      Min(o.Remaining(), Max(if o.side.Buy? then -held else held, 0))
  }

  function EffectiveBook(c: Config, m: MarketData, o: Order): BookState
    requires o.slot in m.books
  {
    match c.synthetic(m.books[o.slot], o)
    case None => m.books[o.slot]
    case Some(b) => b
  }

  /** Match one order against the current book. */
  function TryFill(c: Config, s: State, id: OrderId): State {
    if id !in s.desk.orders then s
    else
      var o := s.desk.orders[id];
      if !o.IsOpen() || o.status.InFlight? then s
      else if Stopped(c, s.market, o.slot.instrument) then
        s.(desk := RemoveResting(SetOrder(s.desk, o.(id := id, status := Rejected)), id))
      else if o.slot !in s.market.books then
        s.(desk := RestOrCancel(c, s.market, s.desk, id))
      else
        var wanted := Wanted(s.account, o);
        if o.reduceOnly && wanted <= 0 then s.(desk := Close(s.desk, id, Cancelled))
        else
          var w := Walk(EffectiveBook(c, s.market, o), o.side, wanted, o.LimitPrice());
          if o.tif.FillOrKill? && Total(w.fills) != wanted then s.(desk := Close(s.desk, id, Cancelled))
          else Settled(c, ExecuteAll(c, s, id, w.fills, !o.postOnly), id)
  }

  function Settled(c: Config, s: State, id: OrderId): State {
    if s.fault.None? && StillOpen(s.desk, id) then s.(desk := RestOrCancel(c, s.market, s.desk, id)) else s
  }

  function Offer(c: Config, s: State, ids: seq<OrderId>): State
    decreases |ids|
  {
    if ids == [] || s.fault.Some? then s else Offer(c, TryFill(c, s, ids[0]), ids[1..])
  }

  // ----- Matching resting orders -----

  function OfInstrument(d: Desk, ids: seq<OrderId>, instrument: nat): seq<OrderId> {
    if ids == [] then []
    else
      var rest := OfInstrument(d, ids[1..], instrument);
      if StillOpen(d, ids[0]) && d.orders[ids[0]].slot.instrument == instrument then [ids[0]] + rest else rest
  }

  function Candidates(c: Config, s: State, slot: Slot, corporate: bool): seq<OrderId>
    requires slot in s.market.books
  {
    var book := s.market.books[slot];
    if corporate then OfInstrument(s.desk, s.desk.resting, slot.instrument)
    else if c.preservesPrices then Sorted(CrossingTop(s.desk.index, slot, BestBid(book), BestAsk(book)))
    else Sorted(AllForMarket(s.desk.index, slot))
  }

  function Pruned(s: State): State {
    if s.fault.Some? then s else s.(desk := Prune(s.desk, s.desk.resting))
  }

  function MatchResting(c: Config, s: State, slot: Slot, corporate: bool): State {
    if slot !in s.market.books then s
    else
      var ids := Candidates(c, s, slot, corporate);
      if ids == [] then s else Pruned(Offer(c, s, ids))
  }

  // ----- The queue -----

  datatype Consumed = Consumed(state: State, left: int)

  function SetAhead(s: State, id: OrderId, ahead: int): State {
    s.(desk := s.desk.(queueAhead := s.desk.queueAhead[id := ahead]))
  }

  function WantedBy(d: Desk, id: OrderId): int {
    if id in d.orders then d.orders[id].Remaining() else 0
  }

  /** What is left of a print after the queue ahead of an order fills the order itself. */
  function FillReached(c: Config, s: State, limit: int, id: OrderId, left: int): Consumed {
    var fill := Min(left, WantedBy(s.desk, id));
    var s1 := if fill > 0 then Execute(c, s, id, limit, fill, false) else s;
    Consumed(if StillOpen(s1.desk, id) then s1
             else s1.(desk := s1.desk.(queueAhead := s1.desk.queueAhead - {id})),
             if fill > 0 then left - fill else left)
  }

  /** How much of the queue ahead of an order a print's volume eats. */
  function Eaten(s: State, id: OrderId, remaining: int): int {
    var ahead := ValueOr(s.desk.queueAhead, id, 0);
    if ahead > 0 then Min(remaining, ahead) else 0
  }

  /** A print's volume against one reached order: the queue ahead of it first, then the order. */
  function ConsumeOne(c: Config, s: State, limit: int, id: OrderId, remaining: int): Consumed {
    var eaten := Eaten(s, id, remaining);
    var s1 := SetAhead(s, id, ValueOr(s.desk.queueAhead, id, 0) - eaten);
    if remaining - eaten <= 0 then Consumed(s1, remaining - eaten)
    else FillReached(c, s1, limit, id, remaining - eaten)
  }

  function Consume(c: Config, s: State, eligible: seq<(int, OrderId)>, remaining: int): Consumed
    decreases |eligible|
  {
    if eligible == [] || remaining <= 0 || s.fault.Some? then Consumed(s, remaining)
    else
      var one := ConsumeOne(c, s, eligible[0].0, eligible[0].1, remaining);
      Consume(c, one.state, eligible[1..], one.left)
  }

  function ConsumeSide(c: Config, s: State, slot: Slot, price: int, size: int, passive: Side): State {
    Pruned(Consume(c, s, ReachedByTrade(s.desk.index, slot, passive, price), size).state)
  }

  /** A print works through the passive side its aggressor hits; with no side stated, both or none. */
  function Printed(c: Config, s: State, slot: Slot, price: int, size: int, aggressor: Option<Side>): State {
    if !c.usesQueue then s
    else match aggressor
      case Some(side) => ConsumeSide(c, s, slot, price, size, side.Opposite())
      case None =>
        if !c.fillsOnUnknownAggressor then s
        else
          var s1 := ConsumeSide(c, s, slot, price, size, Buy);
          if s1.fault.Some? then s1 else ConsumeSide(c, s1, slot, price, size, Sell)
  }

  // ----- Orders arriving, changing and leaving -----

  datatype Request = Request(
    slot: Slot, side: Side, kind: Kind, quantity: int, tif: TimeInForce,
    reduceOnly: bool, postOnly: bool, trigger: Option<Trigger>)

  /** The shape of the request is wrong: no such market, a price off the grid, or nothing to rest at. */
  predicate Refused(c: Config, r: Request) {
    || !Known(c, r.slot)
    || (r.kind.Limit? && !c.validPrice(r.slot.instrument, r.kind.limit))
    || (r.postOnly && r.kind.Market?)
  }

  /** Unfilled size of the open live orders of one side of a slot. */
  function Pending(d: Desk, ids: seq<OrderId>, slot: Slot, side: Side, skipReduceOnly: bool): int {
    if ids == [] then 0
    else
      Pending(d, ids[1..], slot, side, skipReduceOnly) + PendingOf(d, ids[0], slot, side, skipReduceOnly)
  }

  function PendingOf(d: Desk, id: OrderId, slot: Slot, side: Side, skipReduceOnly: bool): int {
    if StillOpen(d, id) && d.orders[id].slot == slot && d.orders[id].side == side
       && !(skipReduceOnly && d.orders[id].reduceOnly)
    then d.orders[id].Remaining() else 0
  }

  predicate NakedShort(c: Config, s: State, r: Request) {
    && !c.allowNakedShorts && r.side.Sell? && !r.reduceOnly
    && c.prediction(r.slot.instrument)
    && At(s.account.positions, r.slot).quantity - Pending(s.desk, s.desk.live, r.slot, Sell, true) - r.quantity < 0
  }

  function OpenCount(d: Desk, ids: seq<OrderId>): nat {
    if ids == [] then 0 else OpenCount(d, ids[1..]) + (if StillOpen(d, ids[0]) then 1 else 0)
  }

  /** The worst position on either side if every live order, and this one, filled. */
  predicate OverPositionLimit(s: State, r: Request, maximum: int) {
    var current := At(s.account.positions, r.slot).quantity;
    var buys := Pending(s.desk, s.desk.live, r.slot, Buy, false) + (if r.side.Buy? then r.quantity else 0);
    var sells := Pending(s.desk, s.desk.live, r.slot, Sell, false) + (if r.side.Sell? then r.quantity else 0);
    Max(Abs(current + buys), Abs(current - sells)) > maximum
  }

  predicate RiskRejected(c: Config, s: State, r: Request) {
    || (c.maxOrderQuantity.Some? && r.quantity > c.maxOrderQuantity.value)
    || (c.maxOpenOrders.Some? && OpenCount(s.desk, s.desk.live) >= c.maxOpenOrders.value)
    || (c.maxAbsPosition.Some? && OverPositionLimit(s, r, c.maxAbsPosition.value))
  }

  function LiveOnly(d: Desk, ids: seq<OrderId>): seq<OrderId> {
    if ids == [] then []
    else if StillOpen(d, ids[0]) then [ids[0]] + LiveOnly(d, ids[1..])
    else LiveOnly(d, ids[1..])
  }

  function NewOrder(id: OrderId, r: Request, status: Status): Order {
    Order(id, r.slot, r.side, r.kind, r.quantity, 0, r.tif, status, r.reduceOnly, r.postOnly, r.trigger)
  }

  function Submitted(c: Config, s: State, r: Request): State {
    if r.quantity <= 0 then s.(fault := Some(BadRequest))
    else
      var id := s.desk.nextId + 1;
      var d := s.desk.(nextId := id, live := LiveOnly(s.desk, s.desk.live));
      var s1 := s.(desk := d);
      if Refused(c, r) || Stopped(c, s.market, r.slot.instrument) || NakedShort(c, s1, r) || RiskRejected(c, s1, r) then
        s.(desk := SetOrder(d, NewOrder(id, r, Rejected)))
      else
        s.(desk := SetOrder(d, NewOrder(id, r, InFlight)).(live := d.live + [id], inflight := d.inflight + [id]))
  }

  function CancelledOrder(s: State, id: OrderId): State {
    if StillOpen(s.desk, id) then s.(desk := Close(s.desk, id, Cancelled)) else s
  }

  /** A new limit, or a larger size, gives up the order's place in the queue. */
  predicate LosesPriority(o: Order, quantity: Option<int>, limit: Option<int>) {
    || (limit.Some? && o.kind != Limit(limit.value))
    || (quantity.Some? && quantity.value > o.quantity)
  }

  function AmendedOrder(o: Order, quantity: Option<int>, limit: Option<int>): Order {
    var o1 := if limit.Some? then o.(kind := Limit(limit.value)) else o;
    if quantity.Some? then o1.(quantity := quantity.value) else o1
  }

  /** A price off the grid, or a size that is not positive or below what is already filled. */
  predicate AmendRefused(c: Config, o: Order, quantity: Option<int>, limit: Option<int>) {
    || (limit.Some? && !c.validPrice(o.slot.instrument, limit.value))
    || (quantity.Some? && (quantity.value <= 0 || quantity.value < o.filled))
  }

  function Amended(c: Config, s: State, id: OrderId, quantity: Option<int>, limit: Option<int>): State {
    if !StillOpen(s.desk, id) then s
    else
      var o := s.desk.orders[id];
      if AmendRefused(c, o, quantity, limit) then s.(fault := Some(BadRequest))
      else
        var o' := AmendedOrder(o, quantity, limit);
        if !LosesPriority(o, quantity, limit) then s.(desk := SetOrder(s.desk, o'.(id := id)))
        else s.(desk := Requeued(c, s.market, s.desk, id, o'.(id := id)))
  }

  /** Take the order out of the index, change it, and put it at the back of its new queue. */
  function Requeued(c: Config, m: MarketData, d: Desk, id: OrderId, o': Order): Desk
    requires id in d.orders
  {
    var resting := id in d.resting;
    var d1 := if resting then d.(index := Remove(d.index, d.orders[id])) else d;
    var d2 := SetOrder(d1, o').(queueAhead := d1.queueAhead - {id});
    var d3 := JoinQueue(c, m, d2, o');
    if resting then d3.(index := Insert(d3.index, o')) else d3
  }

  /** The top of the book an order would immediately trade against. */
  predicate WouldCross(m: MarketData, o: Order) {
    o.kind.Limit? && o.slot in m.books &&
      var b := m.books[o.slot];
      if o.side.Buy? then BestAsk(b).Some? && BestAsk(b).value <= o.kind.limit
      else BestBid(b).Some? && BestBid(b).value >= o.kind.limit
  }

  predicate RestsAtFront(m: MarketData, o: Order)
    requires o.kind.Limit?
  {
    o.slot !in m.books ||
      var b := m.books[o.slot];
      if o.side.Buy? then BestBid(b).None? || o.kind.limit >= BestBid(b).value
      else BestAsk(b).None? || o.kind.limit <= BestAsk(b).value
  }

  /** Would the order meet one of the account's own resting orders? */
  predicate SelfTrades(m: MarketData, d: Desk, o: Order) {
    exists i :: 0 <= i < |d.resting| && StillOpen(d, d.resting[i]) &&
      var r := d.orders[d.resting[i]];
      && r.slot == o.slot && r.side != o.side && r.kind.Limit?
      && (match o.kind
          case Market => RestsAtFront(m, r)
          case Limit(p) => if o.side.Buy? then r.kind.limit <= p else r.kind.limit >= p)
  }

  /** An in-flight order reaches the venue; `funded` is the margin check's answer. */
  function Released(c: Config, s: State, id: OrderId, funded: bool): State {
    if id !in s.desk.inflight then s
    else
      var d := s.desk.(inflight := Without(s.desk.inflight, id));
      if id !in d.orders || !d.orders[id].status.InFlight? then s.(desk := d)
      else
        var o := d.orders[id].(id := id);
        if Stopped(c, s.market, o.slot.instrument) || (o.postOnly && WouldCross(s.market, o)) then
          s.(desk := SetOrder(d, o.(status := Rejected)))
        else if o.trigger.Some? && !Fires(s.market, o) then
          s.(desk := SetOrder(d, o.(status := Untriggered)).(untriggered := d.untriggered + [id]))
        else
          var o1 := o.(trigger := None);
          if SelfTrades(s.market, d, o1) || !funded then s.(desk := SetOrder(d, o1.(status := Rejected)))
          else TryFill(c, s.(desk := SetOrder(d, o1.(status := Accepted))), id)
  }

  predicate Fires(m: MarketData, o: Order) {
    o.trigger.Some? && o.slot in m.marks && o.trigger.value.FiresAt(m.marks[o.slot])
  }

  /** Parked orders still waiting, and those the mark has now reached. */
  function StillParked(s: State, ids: seq<OrderId>, ready: bool): seq<OrderId> {
    if ids == [] then []
    else
      var rest := StillParked(s, ids[1..], ready);
      if ids[0] in s.desk.orders && s.desk.orders[ids[0]].status.Untriggered?
         && s.desk.orders[ids[0]].trigger.Some? && Fires(s.market, s.desk.orders[ids[0]]) == ready
      then [ids[0]] + rest else rest
  }

  function Arm(c: Config, s: State, ids: seq<OrderId>): State
    decreases |ids|
  {
    if ids == [] || s.fault.Some? || ids[0] !in s.desk.orders then s
    else
      var o := s.desk.orders[ids[0]].(id := ids[0], trigger := None, status := Accepted);
      Arm(c, TryFill(c, s.(desk := SetOrder(s.desk, o)), ids[0]), ids[1..])
  }

  function TriggersArmed(c: Config, s: State): State {
    var parked := s.desk.untriggered;
    Arm(c, s.(desk := s.desk.(untriggered := StillParked(s, parked, false))), StillParked(s, parked, true))
  }

  // ----- Time, corporate actions, funding -----

  function CancelAll(d: Desk, ids: seq<OrderId>): Desk
    decreases |ids|
  {
    if ids == [] then d else CancelAll(Close(d, ids[0], Cancelled), ids[1..])
  }

  predicate HasExpired(c: Config, instrument: nat, now: int) {
    c.expiry(instrument).Some? && now >= c.expiry(instrument).value
  }

  function Doomed(c: Config, d: Desk, ids: seq<OrderId>, now: int): seq<OrderId> {
    if ids == [] then []
    else
      var rest := Doomed(c, d, ids[1..], now);
      if ids[0] in d.orders && HasExpired(c, d.orders[ids[0]].slot.instrument, now) then [ids[0]] + rest else rest
  }

  /** Time moves forward, and resting orders on anything that expired on the way are cancelled. */
  function Advanced(c: Config, s: State, now: int): State {
    if now < s.market.now then s.(fault := Some(BadRequest))
    else s.(market := s.market.(now := now), desk := CancelAll(s.desk, Doomed(c, s.desk, s.desk.resting, now)))
  }

  function SplitOrder(ratio: int, o: Order): Order
    requires ratio > 0
  {
    o.(quantity := SplitQuantity(ratio, o.quantity),
       kind := if o.kind.Limit? then Limit(SplitPrice(ratio, o.kind.limit)) else Market,
       trigger := match o.trigger
                  case None => None
                  case Some(Above(p)) => Some(Above(SplitPrice(ratio, p)))
                  case Some(Below(p)) => Some(Below(SplitPrice(ratio, p))))
  }

  /** Reprice one resting order, around the price-keyed index. */
  function SplitRestingOne(d: Desk, id: OrderId, instrument: nat, ratio: int): Desk
    requires ratio > 0
  {
    if id !in d.orders || d.orders[id].slot.instrument != instrument then d
    else
      var o' := SplitOrder(ratio, d.orders[id]).(id := id);
      var d1 := SetOrder(d.(index := Remove(d.index, d.orders[id])), o');
      d1.(index := Insert(d1.index, o'))
  }

  function SplitResting(d: Desk, ids: seq<OrderId>, instrument: nat, ratio: int): Desk
    requires ratio > 0
    decreases |ids|
  {
    if ids == [] then d else SplitResting(SplitRestingOne(d, ids[0], instrument, ratio), ids[1..], instrument, ratio)
  }

  /** Reprice orders held off the book: parked ones, and (when asked) only those still in flight. */
  function SplitHeld(d: Desk, ids: seq<OrderId>, instrument: nat, ratio: int, inflightOnly: bool): Desk
    requires ratio > 0
    decreases |ids|
  {
    if ids == [] then d
    else
      var id := ids[0];
      var hit := id in d.orders && d.orders[id].slot.instrument == instrument
                 && (!inflightOnly || d.orders[id].status.InFlight?);
      SplitHeld(if hit then SetOrder(d, SplitOrder(ratio, d.orders[id]).(id := id)) else d,
                ids[1..], instrument, ratio, inflightOnly)
  }

  function SplitHolding(ratio: int, h: Holding): Holding
    requires ratio > 0
  {
    if h.quantity == 0 then h
    else h.(quantity := SplitQuantity(ratio, h.quantity), averagePrice := SplitPrice(ratio, h.averagePrice))
  }

  function SplitPrices(prices: map<Slot, int>, instrument: nat, ratio: int): map<Slot, int>
    requires ratio > 0
  {
    map slot | slot in prices ::
      if slot.instrument == instrument then SplitPrice(ratio, prices[slot]) else prices[slot]
  }

  /** Orders on the book, parked on a trigger, and still on the wire. */
  function SplitOrdersOf(d: Desk, instrument: nat, ratio: int): Desk
    requires ratio > 0
  {
    var d1 := SplitResting(d, d.resting, instrument, ratio);
    var d2 := SplitHeld(d1, d1.untriggered, instrument, ratio, false);
    SplitHeld(d2, d2.live, instrument, ratio, true)
  }

  function SplitPositions(positions: map<Slot, Holding>, instrument: nat, ratio: int): map<Slot, Holding>
    requires ratio > 0
  {
    map slot | slot in positions ::
      if slot.instrument == instrument then SplitHolding(ratio, positions[slot]) else positions[slot]
  }

  function SplitMarket(m: MarketData, instrument: nat, ratio: int): MarketData
    requires ratio > 0
  {
    m.(books := map slot | slot in m.books ::
         if slot.instrument == instrument then SplitBook(m.books[slot], ratio) else m.books[slot],
       marks := SplitPrices(m.marks, instrument, ratio),
       oracles := SplitPrices(m.oracles, instrument, ratio))
  }

  function SplitShares(s: State, instrument: nat, ratio: int): State {
    if ratio <= 0 then s.(fault := Some(BadRequest))
    else
      State(SplitOrdersOf(s.desk, instrument, ratio),
            s.account.(positions := SplitPositions(s.account.positions, instrument, ratio)),
            SplitMarket(s.market, instrument, ratio),
            s.fault)
  }

  /** What the holders of an instrument are owed per unit, outcome by outcome. */
  function DividendDue(positions: map<Slot, Holding>, instrument: nat, outcomes: nat, perShare: int): int {
    if outcomes == 0 then 0
    else
      DividendDue(positions, instrument, outcomes - 1, perShare)
        + Notional(perShare, At(positions, Slot(instrument, outcomes - 1)).quantity)
  }

  function DividendPaid(c: Config, s: State, instrument: nat, perShare: int): State {
    if perShare < 0 then s.(fault := Some(BadRequest))
    else
      var due := DividendDue(s.account.positions, instrument, c.outcomes(instrument), perShare);
      s.(account := s.account.(cash := s.account.cash + due, dividends := s.account.dividends + due))
  }

  /** Position value at the oracle, or the mark where there is none, times the rate. */
  function FundingTotal(s: State, instrument: nat, outcomes: nat, rate: int): int {
    if outcomes == 0 then 0
    else
      var slot := Slot(instrument, outcomes - 1);
      var rest := FundingTotal(s, instrument, outcomes - 1, rate);
      var q := At(s.account.positions, slot).quantity;
      var price := if slot in s.market.oracles then Some(s.market.oracles[slot])
                   else if slot in s.market.marks then Some(s.market.marks[slot]) else None;
      if q == 0 || price.None? then rest else rest - Notional(rate, Notional(price.value, q))
  }

  function FundingSettled(c: Config, s: State, instrument: nat, rate: int): State {
    var total := FundingTotal(s, instrument, c.outcomes(instrument), rate);
    s.(account := s.account.(cash := s.account.cash + total, fundingPaid := s.account.fundingPaid - total))
  }

  /** An order the engine itself stands up, already accepted. */
  function WithEngineOrder(s: State, slot: Slot, side: Side, quantity: int, reduceOnly: bool): State {
    var id := s.desk.nextId + 1;
    var o := Order(id, slot, side, Market, quantity, 0, ImmediateOrCancel, Accepted, reduceOnly, false, None);
    s.(desk := SetOrder(s.desk.(nextId := id), o))
  }

  /** TWAP children and liquidations: matched at once, past the pre-trade checks. */
  function EngineOrder(c: Config, s: State, slot: Slot, side: Side, quantity: int, reduceOnly: bool): State {
    if quantity <= 0 then s.(fault := Some(BadRequest))
    else
      var s1 := WithEngineOrder(s, slot, side, quantity, reduceOnly);
      TryFill(c, s1, s1.desk.nextId)
  }

  /** Cash out every open position of an instrument at one price. */
  function CashOut(c: Config, s: State, instrument: nat, outcomes: nat, price: int): State {
    if outcomes == 0 then s
    else
      var s1 := CashOut(c, s, instrument, outcomes - 1, price);
      var slot := Slot(instrument, outcomes - 1);
      var q := At(s1.account.positions, slot).quantity;
      if q == 0 || s1.fault.Some? then s1
      else
        var s2 := WithEngineOrder(s1, slot, if q > 0 then Sell else Buy, Abs(q), false);
        Execute(c, s2, s2.desk.nextId, price, Abs(q), false)
  }

  function Delisted(c: Config, s: State, instrument: nat, price: int): State {
    if price < 0 then s.(fault := Some(BadRequest))
    else
      var s1 := CashOut(c, s, instrument, c.outcomes(instrument), price);
      s1.(market := s1.market.(delisted := s1.market.delisted + {instrument}))
  }

  // ----- Complete sets -----

  datatype SetKind = Mint | Redeem | Convert(held: seq<nat>)

  function SetCost(c: Config, kind: SetKind): int {
    match kind
    case Mint => c.mintCost
    case Redeem => c.redeemCost
    case Convert(_) => c.convertCost
  }

  /** How many sets the operation moves, and which way; nothing when the request is malformed. */
  function SetCount(c: Config, instrument: nat, kind: SetKind, quantity: int): Option<(int, Side)> {
    match kind
    case Mint => Some((quantity, Buy))
    case Redeem => Some((quantity, Sell))
    case Convert(held) =>
      var n := c.outcomes(instrument);
      if !c.negRisk(instrument) || !NoDuplicates(held) || |held| < 2 || |held| >= n
         || (exists i :: 0 <= i < |held| && held[i] >= n) then None
      else Some((quantity * (|held| - 1), Sell))
  }

  predicate HoldsSets(positions: map<Slot, Holding>, instrument: nat, outcomes: nat, sets: int) {
    forall k :: 0 <= k < outcomes ==> At(positions, Slot(instrument, k)).quantity >= sets
  }

  predicate SetRefused(c: Config, s: State, instrument: nat, side: Side, sets: int, cost: int) {
    || Stopped(c, s.market, instrument)
    || (if side.Buy? then s.account.cash < Notional(SCALE, sets) + cost
        else !HoldsSets(s.account.positions, instrument, c.outcomes(instrument), sets))
  }

  /** Marks of every outcome, when all of them are quoted and positive. */
  function QuotedMarks(m: MarketData, instrument: nat, outcomes: nat): Option<seq<int>> {
    if outcomes == 0 then Some([])
    else
      var slot := Slot(instrument, outcomes - 1);
      match QuotedMarks(m, instrument, outcomes - 1)
      case None => None
      case Some(front) => if slot in m.marks && m.marks[slot] > 0 then Some(front + [m.marks[slot]]) else None
  }

  /** How a set's single unit of cash is divided across its outcomes. */
  function SetBasis(c: Config, m: MarketData, instrument: nat): Option<seq<int>> {
    match QuotedMarks(m, instrument, c.outcomes(instrument))
    case Some(prices) => Normalised(prices)
    case None => Uniform(c.outcomes(instrument))
  }

  /** One outcome's leg, as a fill of an order of its own. */
  function BookLeg(c: Config, s: State, slot: Slot, side: Side, sets: int, price: int, commission: int): State {
    var s1 := WithEngineOrder(s, slot, side, sets, false);
    BookFill(c, s1, s1.desk.nextId, price, sets, commission, false)
  }

  /** One fill per outcome; the flat cost rides on the first leg. */
  function BookLegs(c: Config, s: State, instrument: nat, side: Side, sets: int, basis: seq<int>, k: nat, cost: int): State
    requires k <= |basis|
    decreases |basis| - k
  {
    if k == |basis| || s.fault.Some? then s
    else
      BookLegs(c, BookLeg(c, s, Slot(instrument, k), side, sets, basis[k], if k == 0 then cost else 0),
               instrument, side, sets, basis, k + 1, cost)
  }

  function SetOperation(c: Config, s: State, instrument: nat, kind: SetKind, quantity: int): State {
    if !c.completeSet(instrument) || quantity <= 0 then s.(fault := Some(BadRequest))
    else match SetCount(c, instrument, kind, quantity)
      case None => s.(fault := Some(BadRequest))
      case Some((sets, side)) =>
        var cost := SetCost(c, kind);
        if SetRefused(c, s, instrument, side, sets, cost) then s
        else match SetBasis(c, s.market, instrument)
          case None => s.(fault := Some(BadRequest))
          case Some(basis) => BookLegs(c, s, instrument, side, sets, basis, 0, cost)
  }

  // ----- Runs -----

  datatype Op =
    | Submit(request: Request)
    | CancelOrder(id: OrderId)
    | Amend(id: OrderId, newQuantity: Option<int>, newLimit: Option<int>)
    | Release(id: OrderId, funded: bool)
    | ArmTriggers
    | AdvanceTo(now: int)
    | Feed(slot: Slot, feed: FeedOp)
    | Print(slot: Slot, price: int, size: int, aggressor: Option<Side>)
    | Match(slot: Slot, corporate: bool)
    | SetMark(slot: Slot, price: int)
    | SetOracle(slot: Slot, price: int)
    | Funding(instrument: nat, rate: int)
    | Dividend(instrument: nat, perShare: int)
    | SplitAction(instrument: nat, ratio: int)
    | Delist(instrument: nat, price: int)
    | PlaceEngineOrder(slot: Slot, side: Side, quantity: int, reduceOnly: bool)
    | SetOp(instrument: nat, kind: SetKind, quantity: int)

  function BookAt(m: MarketData, slot: Slot): BookState {
    if slot in m.books then m.books[slot] else BookFeed.EMPTY
  }

  /** An increment without a base ends the run; split ratios reach books only through `SplitAction`. */
  function FedBook(s: State, slot: Slot, feed: FeedOp): State {
    var b := BookAt(s.market, slot);
    if (feed.Increment? && DeltaApplied(b, feed.delta).None?) || feed.Split? then s.(fault := Some(BookGap))
    else s.(market := s.market.(books := s.market.books[slot := Fed(b, feed)]))
  }

  function Step(c: Config, s: State, op: Op): (s': State) {
    if s.fault.Some? then s
    else match op
      case Submit(r) => Submitted(c, s, r)
      case CancelOrder(id) => CancelledOrder(s, id)
      case Amend(id, q, l) => Amended(c, s, id, q, l)
      case Release(id, funded) => Released(c, s, id, funded)
      case ArmTriggers => TriggersArmed(c, s)
      case AdvanceTo(now) => Advanced(c, s, now)
      case Feed(slot, feed) => FedBook(s, slot, feed)
      case Print(slot, price, size, aggressor) => Printed(c, s, slot, price, size, aggressor)
      case Match(slot, corporate) => MatchResting(c, s, slot, corporate)
      case SetMark(slot, price) => s.(market := s.market.(marks := s.market.marks[slot := price]))
      case SetOracle(slot, price) => s.(market := s.market.(oracles := s.market.oracles[slot := price]))
      case Funding(i, rate) => FundingSettled(c, s, i, rate)
      case Dividend(i, perShare) => DividendPaid(c, s, i, perShare)
      case SplitAction(i, ratio) => SplitShares(s, i, ratio)
      case Delist(i, price) => Delisted(c, s, i, price)
      case PlaceEngineOrder(slot, side, q, reduceOnly) => EngineOrder(c, s, slot, side, q, reduceOnly)
      case SetOp(i, kind, q) => SetOperation(c, s, i, kind, q)
  }

  function Run(c: Config, ops: seq<Op>): (s: State) {
    if ops == [] then Init(c) else Step(c, Run(c, ops[..|ops| - 1]), ops[|ops| - 1])
  }
}
