/**
 The price-keyed index over resting orders: per market and side, the ids at each price, in
 submission order.  It stands in for a scan of every resting order.
 */
module RestingIndex {
  import opened Sorting
  import opened Orders

  type PriceLevels = map<int, seq<OrderId>>

  datatype QueueLevels = QueueLevels(buys: PriceLevels, sells: PriceLevels)

  type Index = map<Slot, QueueLevels>

  const NO_LEVELS: QueueLevels := QueueLevels(map[], map[])

  function SideOf(q: QueueLevels, side: Side): PriceLevels {
    if side.Buy? then q.buys else q.sells
  }

  function WithSide(q: QueueLevels, side: Side, levels: PriceLevels): QueueLevels {
    if side.Buy? then q.(buys := levels) else q.(sells := levels)
  }

  function MarketAt(index: Index, slot: Slot): QueueLevels {
    if slot in index then index[slot] else NO_LEVELS
  }

  /** Where an order belongs. */
  datatype Home = Home(slot: Slot, side: Side, price: int)

  function HomeOf(o: Order): Home
    requires o.kind.Limit?
  {
    Home(o.slot, o.side, o.kind.limit)
  }

  /** The ids indexed at one place. */
  function IdsAt(index: Index, h: Home): seq<OrderId> {
    var levels := SideOf(MarketAt(index, h.slot), h.side);
    if h.price in levels then levels[h.price] else []
  }

  // ----- Updates -----

  function Insert(index: Index, o: Order): Index {
    match o.kind
    case Market => index
    case Limit(price) =>
      var market := MarketAt(index, o.slot);
      var levels := SideOf(market, o.side);
      var ids := if price in levels then levels[price] else [];
      index[o.slot := WithSide(market, o.side, levels[price := InsertSorted(ids, o.id)])]
  }

  function RemoveFromLevels(levels: PriceLevels, price: int, id: OrderId): PriceLevels {
    if price !in levels then levels
    else
      var ids := RemoveSorted(levels[price], id);
      if ids == [] then levels - {price} else levels[price := ids]
  }

  function Remove(index: Index, o: Order): Index {
    if o.kind.Market? || o.slot !in index then index
    else
      var market := index[o.slot];
      var levels := RemoveFromLevels(SideOf(market, o.side), o.kind.limit, o.id);
      var market' := WithSide(market, o.side, levels);
      if market' == NO_LEVELS then index - {o.slot} else index[o.slot := market']
  }

  /** No empty level, and no empty market. */
  predicate NoEmptyLevels(levels: PriceLevels) {
    forall p :: p in levels ==> levels[p] != []
  }

  predicate Tidy(index: Index) {
    forall slot :: slot in index ==>
      && index[slot] != NO_LEVELS
      && NoEmptyLevels(index[slot].buys) && NoEmptyLevels(index[slot].sells)
  }

  lemma InsertedIds(index: Index, o: Order, h: Home)
    requires o.kind.Limit?
    ensures IdsAt(Insert(index, o), h)
         == if h == HomeOf(o) then InsertSorted(IdsAt(index, h), o.id) else IdsAt(index, h)
  {
  }

  lemma InsertSortedNotEmpty(ids: seq<int>, id: int)
    ensures InsertSorted(ids, id) != []
  {
  }

  lemma InsertStaysTidy(index: Index, o: Order)
    requires Tidy(index)
    ensures Tidy(Insert(index, o))
  {
    if o.kind.Limit? {
      var market := MarketAt(index, o.slot);
      var levels := SideOf(market, o.side);
      var ids := if o.kind.limit in levels then levels[o.kind.limit] else [];
      InsertSortedNotEmpty(ids, o.id);
      var levels' := levels[o.kind.limit := InsertSorted(ids, o.id)];
      assert o.kind.limit in levels';
      assert SideOf(Insert(index, o)[o.slot], o.side) == levels';
    }
  }

  lemma RemovedIds(index: Index, o: Order, h: Home)
    requires o.kind.Limit?
    ensures IdsAt(Remove(index, o), h)
         == if h == HomeOf(o) then RemoveSorted(IdsAt(index, h), o.id) else IdsAt(index, h)
  {
    if o.slot in index {
      var market := index[o.slot];
      var levels := RemoveFromLevels(SideOf(market, o.side), o.kind.limit, o.id);
      var market' := WithSide(market, o.side, levels);
      assert MarketAt(Remove(index, o), o.slot) == market';
    }
  }

  lemma RemoveStaysTidy(index: Index, o: Order)
    requires Tidy(index)
    ensures Tidy(Remove(index, o))
  {
  }

  /** Removing an order from its home removes its id and nothing else. */
  lemma RemovedMembers(index: Index, o: Order, h: Home)
    requires o.kind.Limit? && StrictlyAscending(IdsAt(index, h))
    requires o.id in IdsAt(index, h) ==> h == HomeOf(o)
    ensures StrictlyAscending(IdsAt(Remove(index, o), h))
    ensures forall x :: x in IdsAt(Remove(index, o), h) <==> x in IdsAt(index, h) && x != o.id
  {
    RemovedIds(index, o, h);
    RemoveSortedProperties(IdsAt(index, h), o.id);
  }

  /** Inserting an order adds its id at its home and nowhere else. */
  lemma InsertedMembers(index: Index, o: Order, h: Home)
    requires o.kind.Limit? && StrictlyAscending(IdsAt(index, h))
    ensures StrictlyAscending(IdsAt(Insert(index, o), h))
    ensures forall x :: x in IdsAt(Insert(index, o), h) <==> x in IdsAt(index, h) || (x == o.id && h == HomeOf(o))
  {
    InsertedIds(index, o, h);
    InsertSortedAscends(IdsAt(index, h), o.id);
    InsertSortedMembers(IdsAt(index, h), o.id);
  }

  /** Moving an order from one home to another. */
  lemma MovedMembers(index: Index, o: Order, o': Order, h: Home)
    requires o.kind.Limit? && o'.kind.Limit? && o.id == o'.id && StrictlyAscending(IdsAt(index, h))
    requires o.id in IdsAt(index, h) ==> h == HomeOf(o)
    ensures StrictlyAscending(IdsAt(Insert(Remove(index, o), o'), h))
    ensures forall x :: x in IdsAt(Insert(Remove(index, o), o'), h)
              <==> (x in IdsAt(index, h) && x != o.id) || (x == o.id && h == HomeOf(o'))
  {
    RemovedMembers(index, o, h);
    InsertedMembers(Remove(index, o), o', h);
  }

  // ----- Queries -----

  /** The ids at the listed prices, one level after another. */
  function Flatten(levels: PriceLevels, prices: seq<int>): seq<OrderId>
    requires forall i :: 0 <= i < |prices| ==> prices[i] in levels
  {
    if prices == [] then [] else levels[prices[0]] + Flatten(levels, prices[1..])
  }

  /** Buys a new best offer may fill, then sells a new best bid may fill. */
  function CrossingTop(index: Index, slot: Slot, bestBid: Option<int>, bestAsk: Option<int>): seq<OrderId> {
    var market := MarketAt(index, slot);
    (match bestAsk
     case None => []
     case Some(ask) => Flatten(market.buys, Ascending(set p | p in market.buys && p >= ask)))
    +
    (match bestBid
     case None => []
     case Some(bid) => Flatten(market.sells, Ascending(set p | p in market.sells && p <= bid)))
  }

  function AllForMarket(index: Index, slot: Slot): seq<OrderId> {
    var market := MarketAt(index, slot);
    Flatten(market.buys, Ascending(market.buys.Keys)) + Flatten(market.sells, Ascending(market.sells.Keys))
  }

  /** Resting orders a print reaches, as (limit, id), best price first and earliest id first. */
  function Reached(levels: PriceLevels, prices: seq<int>): seq<(int, OrderId)>
    requires forall i :: 0 <= i < |prices| ==> prices[i] in levels
  {
    if prices == [] then []
    else Tagged(prices[0], levels[prices[0]]) + Reached(levels, prices[1..])
  }

  function Tagged(price: int, ids: seq<OrderId>): seq<(int, OrderId)> {
    seq(|ids|, i requires 0 <= i < |ids| => (price, ids[i]))
  }

  function ReachedPrices(levels: PriceLevels, passive: Side, price: int): (prices: seq<int>)
    ensures forall i :: 0 <= i < |prices| ==> prices[i] in levels
  {
    if passive.Buy? then Reversed(Ascending(set p | p in levels && p >= price))
    else Ascending(set p | p in levels && p <= price)
  }

  function ReachedByTrade(index: Index, slot: Slot, passive: Side, price: int): seq<(int, OrderId)> {
    var levels := SideOf(MarketAt(index, slot), passive);
    Reached(levels, ReachedPrices(levels, passive, price))
  }

  lemma {:induction false} FlattenMembers(levels: PriceLevels, prices: seq<int>, id: OrderId)
    requires forall i :: 0 <= i < |prices| ==> prices[i] in levels
    ensures id in Flatten(levels, prices) <==> exists i :: 0 <= i < |prices| && id in levels[prices[i]]
    decreases |prices|
  {
    if prices != [] {
      FlattenMembers(levels, prices[1..], id);
      if id in Flatten(levels, prices[1..]) {
        var i :| 0 <= i < |prices[1..]| && id in levels[prices[1..][i]];
        assert id in levels[prices[i + 1]];
      }
      if exists i :: 0 <= i < |prices| && id in levels[prices[i]] {
        var i :| 0 <= i < |prices| && id in levels[prices[i]];
        if i > 0 {
          assert id in levels[prices[1..][i - 1]];
        }
      }
    }
  }

  /** Some level at a price satisfying the range holds the id. */
  lemma FlattenOverSet(levels: PriceLevels, keys: set<int>, id: OrderId)
    requires forall p :: p in keys ==> p in levels
    ensures forall i :: 0 <= i < |Ascending(keys)| ==> Ascending(keys)[i] in levels
    ensures id in Flatten(levels, Ascending(keys)) <==> exists p :: p in keys && id in levels[p]
  {
    var prices := Ascending(keys);
    FlattenMembers(levels, prices, id);
    if exists p :: p in keys && id in levels[p] {
      var p :| p in keys && id in levels[p];
      assert p in prices;
      var i :| 0 <= i < |prices| && prices[i] == p;
      assert id in levels[prices[i]];
    }
    if id in Flatten(levels, prices) {
      var i :| 0 <= i < |prices| && id in levels[prices[i]];
      assert prices[i] in keys;
    }
  }
}
