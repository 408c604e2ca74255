/**
 The queue model: what a print does to the orders it reaches.

 A print's volume runs down the reached orders like water: the queue ahead of each, then the
 order itself, best price first and earliest order first, until it is spent.
 */
module EngineQueue {
  import opened FixedPoint
  import opened Sorting
  import opened Sums
  import opened Orders
  import opened RestingIndex
  import opened Engine
  import opened EngineCoherence
  import opened EngineRuns

  /** Size displayed in front of an order that has not yet traded away. */
  function Ahead(s: State, id: OrderId): nat {
    Max(ValueOr(s.desk.queueAhead, id, 0), 0)
  }

  /** What the order itself still wants. */
  function Room(s: State, id: OrderId): nat {
    Max(WantedBy(s.desk, id), 0)
  }

  /** What a demand of `room` behind `floor` gets out of a volume. */
  function Share(volume: int, floor: nat, room: nat): nat {
    Max(0, Min(volume - floor, room))
  }

  /** What everything before the i-th reached order takes first. */
  function DepthBefore(s: State, eligible: seq<(int, OrderId)>, i: nat): nat
    requires i <= |eligible|
  {
    if i == 0 then 0
    else Ahead(s, eligible[0].1) + Room(s, eligible[0].1) + DepthBefore(s, eligible[1..], i - 1)
  }

  predicate DistinctIds(eligible: seq<(int, OrderId)>) {
    forall i, j :: 0 <= i < j < |eligible| ==> eligible[i].1 != eligible[j].1
  }

  /** What an order has been filled between two states. */
  function FilledBetween(s: State, s': State, id: OrderId): int
    requires id in s.desk.orders && id in s'.desk.orders
  {
    s'.desk.orders[id].filled - s.desk.orders[id].filled
  }

  // ----- One reached order -----

  /** Another order's place and size are as they were. */
  predicate SamePlace(d: Desk, d': Desk, j: OrderId) {
    && (j in d.orders ==> j in d'.orders && d'.orders[j] == d.orders[j])
    && (j in d.queueAhead <==> j in d'.queueAhead)
    && (j in d.queueAhead ==> d'.queueAhead[j] == d.queueAhead[j])
    && (j in d.resting <==> j in d'.resting)
  }

  lemma ExecuteSamePlace(c: Config, s: State, limit: int, id: OrderId, fill: int, j: OrderId)
    requires id in s.desk.orders && j != id
    ensures SamePlace(s.desk, Execute(c, s, id, limit, fill, false).desk, j)
  {
    hide AfterFill, Remove;
    WithoutProperties(s.desk.resting, id);
  }

  lemma ConsumeOneSamePlace(c: Config, s: State, limit: int, id: OrderId, remaining: int, j: OrderId)
    requires j != id
    ensures SamePlace(s.desk, ConsumeOne(c, s, limit, id, remaining).state.desk, j)
  {
    hide Execute, Eaten;
    var eaten := Eaten(s, id, remaining);
    var s1 := SetAhead(s, id, ValueOr(s.desk.queueAhead, id, 0) - eaten);
    if id in s.desk.orders {
      ExecuteSamePlace(c, s1, limit, id, Min(remaining - eaten, WantedBy(s1.desk, id)), j);
    }
  }

  lemma ExecuteFills(c: Config, s: State, limit: int, id: OrderId, fill: int)
    requires Reachable(s.desk, id) && 0 < fill <= s.desk.orders[id].Remaining()
    ensures var s' := Execute(c, s, id, limit, fill, false);
            && id in s'.desk.orders && s'.desk.orders[id] == s.desk.orders[id].RecordFill(fill)
            && (StillOpen(s'.desk, id) ==> s'.desk.resting == s.desk.resting && s'.desk.queueAhead == s.desk.queueAhead)
  {
    hide AfterFill, Remove, Without;
  }

  /** The queue ahead first, then the order; whatever is left goes on to the next. */
  lemma ConsumeOneShares(c: Config, s: State, limit: int, id: OrderId, remaining: int)
    requires Reachable(s.desk, id) && remaining > 0
    ensures var one := ConsumeOne(c, s, limit, id, remaining);
            && id in one.state.desk.orders
            && one.state.desk.orders[id].quantity == s.desk.orders[id].quantity
            && FilledBetween(s, one.state, id) == Share(remaining, Ahead(s, id), Room(s, id))
            && one.left == Max(0, remaining - Ahead(s, id) - Room(s, id))
            && (StillOpen(one.state.desk, id) ==>
                  && one.state.desk.resting == s.desk.resting
                  && id in one.state.desk.queueAhead
                  && one.state.desk.queueAhead[id] == ValueOr(s.desk.queueAhead, id, 0) - Share(remaining, 0, Ahead(s, id)))
  {
    hide Execute;
    var eaten := Eaten(s, id, remaining);
    var s1 := SetAhead(s, id, ValueOr(s.desk.queueAhead, id, 0) - eaten);
    var fill := Min(remaining - eaten, WantedBy(s1.desk, id));
    if remaining - eaten > 0 && fill > 0 {
      ExecuteFills(c, s1, limit, id, fill);
    }
  }

  // ----- The whole print -----

  lemma {:induction false} ConsumeSamePlace(c: Config, s: State, eligible: seq<(int, OrderId)>, remaining: int, j: OrderId)
    requires forall i :: 0 <= i < |eligible| ==> eligible[i].1 != j
    ensures SamePlace(s.desk, Consume(c, s, eligible, remaining).state.desk, j)
    decreases |eligible|
  {
    hide ConsumeOne;
    if eligible != [] && remaining > 0 && s.fault.None? {
      var one := ConsumeOne(c, s, eligible[0].0, eligible[0].1, remaining);
      ConsumeOneSamePlace(c, s, eligible[0].0, eligible[0].1, remaining, j);
      ConsumeSamePlace(c, one.state, eligible[1..], one.left, j);
    }
  }

  lemma {:induction false} SameDepth(s: State, s': State, eligible: seq<(int, OrderId)>, i: nat)
    requires i <= |eligible|
    requires forall k :: 0 <= k < |eligible| ==> Reachable(s.desk, eligible[k].1) && SamePlace(s.desk, s'.desk, eligible[k].1)
    ensures DepthBefore(s', eligible, i) == DepthBefore(s, eligible, i)
    decreases i
  {
    if i > 0 {
      SameDepth(s, s', eligible[1..], i - 1);
    }
  }

  /** What consuming needs, carried from one reached order to the next. */
  ghost predicate Printable(s: State, eligible: seq<(int, OrderId)>) {
    Coherent(s.desk) && s.fault.None? && DistinctIds(eligible) && AllReachable(s.desk, eligible)
  }

  lemma PrintableTail(c: Config, s: State, eligible: seq<(int, OrderId)>, remaining: int)
    requires Printable(s, eligible) && eligible != []
    ensures var one := ConsumeOne(c, s, eligible[0].0, eligible[0].1, remaining);
            && Printable(one.state, eligible[1..])
            && (forall k :: 0 <= k < |eligible| - 1 ==>
                  Reachable(s.desk, eligible[1..][k].1) && SamePlace(s.desk, one.state.desk, eligible[1..][k].1))
  {
    hide Coherent, ConsumeOne, SamePlace, OnlyOrder;
    var id := eligible[0].1;
    var one := ConsumeOne(c, s, eligible[0].0, id, remaining);
    assert Reachable(s.desk, id);
    ConsumeOneCoherent(c, s, eligible[0].0, id, remaining);
    forall k | 0 <= k < |eligible[1..]|
      ensures Reachable(s.desk, eligible[1..][k].1) && SamePlace(s.desk, one.state.desk, eligible[1..][k].1)
      ensures Reachable(one.state.desk, eligible[1..][k].1)
    {
      var j := eligible[k + 1].1;
      assert Reachable(s.desk, j) && j != id;
      ConsumeOneSamePlace(c, s, eligible[0].0, id, remaining, j);
      SamePlaceReachable(s.desk, one.state.desk, j);
    }
  }

  lemma SamePlaceReachable(d: Desk, d': Desk, j: OrderId)
    requires Reachable(d, j) && SamePlace(d, d', j)
    ensures Reachable(d', j)
  {
  }

  lemma ShareOfLeft(volume: int, first: nat, depth: nat, floor: nat, room: nat)
    ensures Share(Max(0, volume - first) - depth, floor, room) == Share(volume - (first + depth), floor, room)
    ensures Max(0, Max(0, volume - first) - depth) == Max(0, volume - (first + depth))
  {
  }

  lemma ShareOfSpent(volume: int, depth: nat, floor: nat, room: nat)
    ensures volume <= 0 ==> Share(volume - depth, floor, room) == 0
  {
  }

  /**
   Every reached order gets exactly what is left of the volume once everything in front of it,
   and the queue ahead of it, has been served, up to what it wants; and the queue ahead of it
   shrinks by exactly what reached it.
   */
  lemma {:induction false} PrintIsAWaterfall(c: Config, s: State, eligible: seq<(int, OrderId)>, volume: int, i: nat)
    requires Printable(s, eligible) && i < |eligible|
    ensures var s' := Consume(c, s, eligible, volume).state;
            var id := eligible[i].1;
            var reaching := volume - DepthBefore(s, eligible, i);
            && id in s'.desk.orders && s'.desk.orders[id].quantity == s.desk.orders[id].quantity
            && FilledBetween(s, s', id) == Share(reaching, Ahead(s, id), Room(s, id))
            && (StillOpen(s'.desk, id) ==>
                  && (id in s.desk.resting <==> id in s'.desk.resting)
                  && ValueOr(s'.desk.queueAhead, id, 0)
                       == ValueOr(s.desk.queueAhead, id, 0) - Share(reaching, 0, Ahead(s, id))
                  && (id in s.desk.queueAhead ==> id in s'.desk.queueAhead))
    decreases |eligible|
  {
    hide Coherent, ConsumeOne, Ahead, Room, OnlyOrder, Share;
    assert Reachable(s.desk, eligible[i].1);
    if volume > 0 {
      var first := eligible[0].1;
      var one := ConsumeOne(c, s, eligible[0].0, first, volume);
      assert Reachable(s.desk, first);
      PrintableTail(c, s, eligible, volume);
      ConsumeOneShares(c, s, eligible[0].0, first, volume);
      if i == 0 {
        ConsumeSamePlace(c, one.state, eligible[1..], one.left, first);
      } else {
        PrintIsAWaterfall(c, one.state, eligible[1..], one.left, i - 1);
        SameDepth(s, one.state, eligible[1..], i - 1);
        assert eligible[1..][i - 1] == eligible[i];
        var id := eligible[i].1;
        SameDemand(s, one.state, id);
        ShareOfLeft(volume, Ahead(s, first) + Room(s, first), DepthBefore(s, eligible[1..], i - 1), Ahead(s, id), Room(s, id));
        ShareOfLeft(volume, Ahead(s, first) + Room(s, first), DepthBefore(s, eligible[1..], i - 1), 0, Ahead(s, id));
      }
    } else {
      var id := eligible[i].1;
      ShareOfSpent(volume, DepthBefore(s, eligible, i), Ahead(s, id), Room(s, id));
      ShareOfSpent(volume, DepthBefore(s, eligible, i), 0, Ahead(s, id));
    }
  }

  lemma SameDemand(s: State, s': State, j: OrderId)
    requires Reachable(s.desk, j) && SamePlace(s.desk, s'.desk, j)
    ensures Ahead(s', j) == Ahead(s, j) && Room(s', j) == Room(s, j)
    ensures ValueOr(s'.desk.queueAhead, j, 0) == ValueOr(s.desk.queueAhead, j, 0)
  {
  }

  /** A print ends with what all the reached orders together could not use. */
  lemma {:induction false} LeftoverIsUnused(c: Config, s: State, eligible: seq<(int, OrderId)>, volume: nat)
    requires Printable(s, eligible)
    ensures Consume(c, s, eligible, volume).left == Max(0, volume - DepthBefore(s, eligible, |eligible|))
    decreases |eligible|
  {
    hide Coherent, ConsumeOne, Ahead, Room;
    if eligible != [] && volume > 0 {
      var first := eligible[0].1;
      var one := ConsumeOne(c, s, eligible[0].0, first, volume);
      assert Reachable(s.desk, first);
      PrintableTail(c, s, eligible, volume);
      ConsumeOneShares(c, s, eligible[0].0, first, volume);
      LeftoverIsUnused(c, one.state, eligible[1..], one.left);
      SameDepth(s, one.state, eligible[1..], |eligible| - 1);
    }
  }

  /** Queue volume traded away and fills, over the first `n` reached orders. */
  function Served(s: State, eligible: seq<(int, OrderId)>, volume: int, n: nat): nat
    requires n <= |eligible|
  {
    if n == 0 then 0
    else
      var id := eligible[n - 1].1;
      var reaching := volume - DepthBefore(s, eligible, n - 1);
      Served(s, eligible, volume, n - 1) + Share(reaching, 0, Ahead(s, id)) + Share(reaching, Ahead(s, id), Room(s, id))
  }

  lemma {:induction false} DepthGrows(s: State, eligible: seq<(int, OrderId)>, n: nat)
    requires n < |eligible|
    ensures DepthBefore(s, eligible, n + 1)
         == DepthBefore(s, eligible, n) + Ahead(s, eligible[n].1) + Room(s, eligible[n].1)
    decreases n
  {
    hide Ahead, Room;
    if n > 0 {
      DepthGrows(s, eligible[1..], n - 1);
      assert eligible[1..][n - 1] == eligible[n];
    }
  }

  lemma {:induction false} ServedIsTheVolume(s: State, eligible: seq<(int, OrderId)>, volume: nat, n: nat)
    requires n <= |eligible|
    ensures Served(s, eligible, volume, n) == Min(volume, DepthBefore(s, eligible, n))
    decreases n
  {
    hide Ahead, Room;
    if n > 0 {
      ServedIsTheVolume(s, eligible, volume, n - 1);
      DepthGrows(s, eligible, n - 1);
    }
  }

  /**
   No volume is lost or made up: queue volume traded away, fills and the leftover add up to the
   print; and something is left over only when every reached order is filled.
   */
  lemma PrintVolumeIsAccountedFor(c: Config, s: State, eligible: seq<(int, OrderId)>, volume: nat)
    requires Printable(s, eligible)
    ensures var one := Consume(c, s, eligible, volume);
            && Served(s, eligible, volume, |eligible|) + one.left == volume
            && (one.left > 0 ==> forall i :: 0 <= i < |eligible| ==> Exhausted(s, one.state, eligible[i].1))
  {
    hide Consume, Printable, Served;
    LeftoverIsUnused(c, s, eligible, volume);
    ServedIsTheVolume(s, eligible, volume, |eligible|);
    if Consume(c, s, eligible, volume).left > 0 {
      forall i | 0 <= i < |eligible|
        ensures Exhausted(s, Consume(c, s, eligible, volume).state, eligible[i].1)
      {
        DepthIsMonotone(s, eligible, i + 1, |eligible|);
        DepthGrows(s, eligible, i);
        ReachedInFull(c, s, eligible, volume, i);
      }
    }
  }

  /** Filled in full. */
  predicate Exhausted(s: State, s': State, id: OrderId) {
    id in s.desk.orders && id in s'.desk.orders && FilledBetween(s, s', id) == Room(s, id)
  }

  lemma {:induction false} DepthIsMonotone(s: State, eligible: seq<(int, OrderId)>, i: nat, j: nat)
    requires i <= j <= |eligible|
    ensures DepthBefore(s, eligible, i) <= DepthBefore(s, eligible, j)
    decreases j
  {
    if i < j {
      DepthGrows(s, eligible, j - 1);
      DepthIsMonotone(s, eligible, i, j - 1);
    }
  }

  lemma ReachedInFull(c: Config, s: State, eligible: seq<(int, OrderId)>, volume: int, i: nat)
    requires Printable(s, eligible) && i < |eligible|
    requires volume >= DepthBefore(s, eligible, i) + Ahead(s, eligible[i].1) + Room(s, eligible[i].1)
    ensures Exhausted(s, Consume(c, s, eligible, volume).state, eligible[i].1)
  {
    hide Consume, Coherent, Ahead, Room;
    assert Reachable(s.desk, eligible[i].1);
    PrintIsAWaterfall(c, s, eligible, volume, i);
  }

  /** Priority: an order gets anything only once everything reached before it is filled. */
  lemma FillsRespectPriority(c: Config, s: State, eligible: seq<(int, OrderId)>, volume: int, i: nat, j: nat)
    requires Printable(s, eligible) && i < j < |eligible|
    requires var s' := Consume(c, s, eligible, volume).state;
             var id := eligible[j].1;
             id in s.desk.orders && id in s'.desk.orders && FilledBetween(s, s', id) > 0
    ensures Exhausted(s, Consume(c, s, eligible, volume).state, eligible[i].1)
  {
    hide Consume, Coherent, Ahead, Room;
    PrintIsAWaterfall(c, s, eligible, volume, j);
    DepthIsMonotone(s, eligible, i + 1, j);
    DepthGrows(s, eligible, i);
    ReachedInFull(c, s, eligible, volume, i);
  }

  // ----- Which orders a print reaches, and in what order -----

  predicate Better(passive: Side, p: int, q: int) {
    if passive.Buy? then p > q else p < q
  }

  /** Best price first, earliest order first within a price. */
  predicate Ranked(passive: Side, eligible: seq<(int, OrderId)>) {
    forall i, j :: 0 <= i < j < |eligible| ==>
      || Better(passive, eligible[i].0, eligible[j].0)
      || (eligible[i].0 == eligible[j].0 && eligible[i].1 < eligible[j].1)
  }

  predicate BestFirst(passive: Side, prices: seq<int>) {
    forall i, j :: 0 <= i < j < |prices| ==> Better(passive, prices[i], prices[j])
  }

  lemma {:induction false} ReachedIsRanked(levels: PriceLevels, prices: seq<int>, passive: Side)
    requires forall i :: 0 <= i < |prices| ==> prices[i] in levels && StrictlyAscending(levels[prices[i]])
    requires BestFirst(passive, prices)
    ensures Ranked(passive, Reached(levels, prices))
    ensures forall k :: 0 <= k < |Reached(levels, prices)| ==>
              var (p, id) := Reached(levels, prices)[k];
              p in prices && p in levels && id in levels[p]
    decreases |prices|
  {
    if prices != [] {
      var head, tail := Tagged(prices[0], levels[prices[0]]), Reached(levels, prices[1..]);
      assert forall i :: 0 <= i < |prices[1..]| ==> prices[1..][i] == prices[i + 1];
      ReachedIsRanked(levels, prices[1..], passive);
      var all := Reached(levels, prices);
      forall k | 0 <= k < |tail| ensures Better(passive, prices[0], tail[k].0) && tail[k].0 in prices {
        var p := tail[k].0;
        assert p in prices[1..];
        var i :| 0 <= i < |prices[1..]| && prices[1..][i] == p;
        assert prices[i + 1] == p;
      }
      assert prices[0] in prices;
      RankedJoin(passive, prices[0], levels[prices[0]], tail);
    }
  }

  lemma RankedJoin(passive: Side, price: int, ids: seq<OrderId>, tail: seq<(int, OrderId)>)
    requires StrictlyAscending(ids) && Ranked(passive, tail)
    requires forall k :: 0 <= k < |tail| ==> Better(passive, price, tail[k].0)
    ensures Ranked(passive, Tagged(price, ids) + tail)
  {
  }

  lemma {:induction false} ReachedHas(levels: PriceLevels, prices: seq<int>, i: nat, id: OrderId)
    requires forall j :: 0 <= j < |prices| ==> prices[j] in levels
    requires i < |prices| && id in levels[prices[i]]
    ensures exists k :: 0 <= k < |Reached(levels, prices)| && Reached(levels, prices)[k] == (prices[i], id)
    decreases i
  {
    var head, tail := Tagged(prices[0], levels[prices[0]]), Reached(levels, prices[1..]);
    var all := Reached(levels, prices);
    if i == 0 {
      var k :| 0 <= k < |levels[prices[0]]| && levels[prices[0]][k] == id;
      assert all[k] == (prices[0], id);
    } else {
      assert prices[1..][i - 1] == prices[i];
      ReachedHas(levels, prices[1..], i - 1, id);
      var k :| 0 <= k < |tail| && tail[k] == (prices[i], id);
      assert all[|head| + k] == (prices[i], id);
    }
  }

  lemma ReachedPricesAreBestFirst(levels: PriceLevels, passive: Side, price: int)
    ensures BestFirst(passive, ReachedPrices(levels, passive, price))
    ensures forall p :: p in ReachedPrices(levels, passive, price)
              <==> p in levels && !Better(passive, price, p)
  {
  }

  /** Does a print at this price reach an order of this side resting at this limit? */
  predicate ReachesLimit(passive: Side, price: int, limit: int) {
    if passive.Buy? then limit >= price else limit <= price
  }

  /** A resting order a print at this price hits on this side. */
  predicate Hit(d: Desk, slot: Slot, passive: Side, price: int, id: OrderId) {
    && id in d.resting && IsLimit(d, id)
    && d.orders[id].slot == slot && d.orders[id].side == passive
    && ReachesLimit(passive, price, d.orders[id].kind.limit)
  }

  lemma LevelsAtHome(d: Desk, slot: Slot, side: Side, p: int, id: OrderId)
    requires Structure(d)
    ensures p in SideOf(MarketAt(d.index, slot), side) ==> StrictlyAscending(SideOf(MarketAt(d.index, slot), side)[p])
    ensures p in SideOf(MarketAt(d.index, slot), side) && id in SideOf(MarketAt(d.index, slot), side)[p]
       <==> id in d.resting && IsLimit(d, id) && HomeOf(d.orders[id]) == Home(slot, side, p)
  {
    assert IdsAt(d.index, Home(slot, side, p)) == IdsAt(d.index, Home(slot, side, p));
  }

  /** The reached list holds exactly the orders the print hits, each once, in priority order. */
  lemma ReachedByTradeIsExact(d: Desk, slot: Slot, passive: Side, price: int)
    requires Structure(d)
    ensures var eligible := ReachedByTrade(d.index, slot, passive, price);
            && Ranked(passive, eligible) && DistinctIds(eligible)
            && (forall k :: 0 <= k < |eligible| ==>
                  Hit(d, slot, passive, price, eligible[k].1) && d.orders[eligible[k].1].kind.limit == eligible[k].0)
            && (forall id :: Hit(d, slot, passive, price, id) ==> exists k :: 0 <= k < |eligible| && eligible[k].1 == id)
  {
    hide Structure, ReachedPrices, Reached;
    var levels := SideOf(MarketAt(d.index, slot), passive);
    var prices := ReachedPrices(levels, passive, price);
    var eligible := Reached(levels, prices);
    ReachedPricesAreBestFirst(levels, passive, price);
    forall i | 0 <= i < |prices| ensures prices[i] in levels && StrictlyAscending(levels[prices[i]]) {
      LevelsAtHome(d, slot, passive, prices[i], 0);
    }
    ReachedIsRanked(levels, prices, passive);
    forall k | 0 <= k < |eligible|
      ensures Hit(d, slot, passive, price, eligible[k].1) && d.orders[eligible[k].1].kind.limit == eligible[k].0
    {
      LevelsAtHome(d, slot, passive, eligible[k].0, eligible[k].1);
    }
    forall id | Hit(d, slot, passive, price, id) ensures exists k :: 0 <= k < |eligible| && eligible[k].1 == id {
      var p := d.orders[id].kind.limit;
      LevelsAtHome(d, slot, passive, p, id);
      var i :| 0 <= i < |prices| && prices[i] == p;
      ReachedHas(levels, prices, i, id);
    }
  }
}
