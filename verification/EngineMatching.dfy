/**
 Indexed matching against the full scan it stands in for.

 Offering only the orders the top of the book could fill leaves exactly what offering every
 resting order of the market would, because an order that is skipped would have met an empty
 walk.  The one exception is a reduce-only order with nothing left to reduce: the scan cancels
 it on sight, while the index never looks at it.
 */
module EngineMatching {
  import opened Sorting
  import opened Orders
  import opened Book
  import opened RestingIndex
  import opened Engine
  import opened EngineCoherence
  import opened EngineRuns
  import opened EngineAccount
  import F = BookFeed

  // ----- The reference: every resting order of a market, in submission order -----

  function RestingAt(d: Desk, ids: seq<OrderId>, slot: Slot): seq<OrderId> {
    if ids == [] then []
    else
      var rest := RestingAt(d, ids[1..], slot);
      if ids[0] in d.orders && d.orders[ids[0]].slot == slot then [ids[0]] + rest else rest
  }

  function Scan(d: Desk, slot: Slot): seq<OrderId> {
    Sorted(RestingAt(d, d.resting, slot))
  }

  /** Orders of a list that the top of the book could fill. */
  function CrossingOf(s: State, ids: seq<OrderId>): seq<OrderId> {
    if ids == [] then []
    else
      var rest := CrossingOf(s, ids[1..]);
      if ids[0] in s.desk.orders && WouldCross(s.market, s.desk.orders[ids[0]]) then [ids[0]] + rest else rest
  }

  lemma {:induction false} RestingAtMembers(d: Desk, ids: seq<OrderId>, slot: Slot)
    ensures forall x :: x in RestingAt(d, ids, slot) <==> x in ids && x in d.orders && d.orders[x].slot == slot
    decreases |ids|
  {
    if ids != [] {
      RestingAtMembers(d, ids[1..], slot);
      assert ids == [ids[0]] + ids[1..];
    }
  }

  lemma {:induction false} CrossingOfMembers(s: State, ids: seq<OrderId>)
    requires StrictlyAscending(ids)
    ensures StrictlyAscending(CrossingOf(s, ids))
    ensures forall x :: x in CrossingOf(s, ids) <==> x in ids && x in s.desk.orders && WouldCross(s.market, s.desk.orders[x])
    decreases |ids|
  {
    hide WouldCross;
    if ids != [] {
      TailMembers(ids);
      CrossingOfMembers(s, ids[1..]);
      assert ids[0] in ids;
      var rest := CrossingOf(s, ids[1..]);
      forall x | x in rest ensures ids[0] < x {
        assert x in ids[1..];
      }
      AscendsFromHead(ids[0], rest);
    }
  }

  lemma ScanMembers(d: Desk, slot: Slot)
    requires EveryRestingIndexed(d)
    ensures StrictlyAscending(Scan(d, slot))
    ensures forall x :: x in Scan(d, slot) <==> x in d.resting && d.orders[x].slot == slot
  {
    RestingAtMembers(d, d.resting, slot);
    SortedIsAscending(RestingAt(d, d.resting, slot));
  }

  // ----- The index finds exactly those orders -----

  lemma IndexedExactlyAtHome(d: Desk, h: Home, id: OrderId)
    requires Structure(d)
    ensures id in d.resting ==> IsLimit(d, id)
    ensures id in IdsAt(d.index, h) <==> id in d.resting && HomeOf(d.orders[id]) == h
  {
  }

  /** An id is found in a range of levels exactly when its order rests there. */
  lemma FoundInRange(d: Desk, slot: Slot, side: Side, keys: set<int>, id: OrderId)
    requires Structure(d)
    requires forall p :: p in keys ==> p in SideOf(MarketAt(d.index, slot), side)
    ensures id in d.resting ==> IsLimit(d, id)
    ensures forall i :: 0 <= i < |Ascending(keys)| ==> Ascending(keys)[i] in SideOf(MarketAt(d.index, slot), side)
    ensures id in Flatten(SideOf(MarketAt(d.index, slot), side), Ascending(keys))
       <==> id in d.resting && d.orders[id].slot == slot && d.orders[id].side == side && d.orders[id].kind.limit in keys
  {
    hide Structure, Flatten;
    var levels := SideOf(MarketAt(d.index, slot), side);
    FlattenOverSet(levels, keys, id);
    if id in Flatten(levels, Ascending(keys)) {
      var p :| p in keys && id in levels[p];
      IndexedExactlyAtHome(d, Home(slot, side, p), id);
    }
    if id in d.resting {
      RestingIsLimit(d, id);
      IndexedExactlyAtHome(d, HomeOf(d.orders[id]), id);
    }
  }

  /** A resting order's limit is one of its side's levels. */
  lemma LimitIsLevel(d: Desk, id: OrderId)
    requires Structure(d) && id in d.resting
    ensures d.orders[id].kind.Limit?
    ensures d.orders[id].kind.limit in SideOf(MarketAt(d.index, d.orders[id].slot), d.orders[id].side)
  {
    assert id in IdsAt(d.index, HomeOf(d.orders[id]));
  }

  lemma CrossingTopMembers(d: Desk, slot: Slot, bid: Option<int>, ask: Option<int>, id: OrderId)
    requires Structure(d)
    ensures id in CrossingTop(d.index, slot, bid, ask)
       <==> id in d.resting && d.orders[id].slot == slot
            && if d.orders[id].side.Buy? then ask.Some? && d.orders[id].kind.limit >= ask.value
               else bid.Some? && d.orders[id].kind.limit <= bid.value
  {
    hide Structure, Flatten;
    var market := MarketAt(d.index, slot);
    if ask.Some? {
      FoundInRange(d, slot, Buy, (set p | p in market.buys && p >= ask.value), id);
    }
    if bid.Some? {
      FoundInRange(d, slot, Sell, (set p | p in market.sells && p <= bid.value), id);
    }
    if id in d.resting {
      LimitIsLevel(d, id);
    }
  }

  lemma AllForMarketMembers(d: Desk, slot: Slot, id: OrderId)
    requires Structure(d)
    ensures id in AllForMarket(d.index, slot) <==> id in d.resting && d.orders[id].slot == slot
  {
    hide Structure, Flatten;
    var market := MarketAt(d.index, slot);
    FoundInRange(d, slot, Buy, market.buys.Keys, id);
    FoundInRange(d, slot, Sell, market.sells.Keys, id);
    if id in d.resting {
      LimitIsLevel(d, id);
    }
  }

  lemma RestingIsLimit(d: Desk, id: OrderId)
    requires Structure(d) && id in d.resting
    ensures id in d.orders && d.orders[id].kind.Limit?
  {
  }

  /** For a model that keeps prices the candidates are the crossing orders of the scan, in the same order. */
  lemma CandidatesAreTheCrossing(c: Config, s: State, slot: Slot)
    requires Structure(s.desk) && slot in s.market.books && c.preservesPrices
    ensures Candidates(c, s, slot, false) == CrossingOf(s, Scan(s.desk, slot))
  {
    hide Structure, CrossingTop, Scan;
    var d, book := s.desk, s.market.books[slot];
    var raw := CrossingTop(d.index, slot, BestBid(book), BestAsk(book));
    SortedIsAscending(raw);
    ScanHolds(d, slot);
    CrossingOfMembers(s, Scan(d, slot));
    forall id ensures id in Sorted(raw) <==> id in CrossingOf(s, Scan(d, slot)) {
      CrossingTopMembers(d, slot, BestBid(book), BestAsk(book), id);
      if id in d.resting {
        RestingIsLimit(d, id);
      }
    }
    SameMembersSameSequence(Sorted(raw), CrossingOf(s, Scan(d, slot)));
  }

  lemma ScanHolds(d: Desk, slot: Slot)
    requires Structure(d)
    ensures StrictlyAscending(Scan(d, slot))
    ensures forall x :: x in Scan(d, slot) <==> x in d.resting && x in d.orders && d.orders[x].slot == slot
  {
    hide Scan;
    ScanMembers(d, slot);
  }

  /** For any other model the candidates are the scan itself. */
  lemma CandidatesAreTheScan(c: Config, s: State, slot: Slot)
    requires Structure(s.desk) && slot in s.market.books && !c.preservesPrices
    ensures Candidates(c, s, slot, false) == Scan(s.desk, slot)
  {
    hide Structure, AllForMarket, Scan;
    var raw := AllForMarket(s.desk.index, slot);
    SortedIsAscending(raw);
    ScanHolds(s.desk, slot);
    forall id ensures id in Sorted(raw) <==> id in Scan(s.desk, slot) {
      AllForMarketMembers(s.desk, slot, id);
      if id in s.desk.resting {
        RestingIsLimit(s.desk, id);
      }
    }
    SameMembersSameSequence(Sorted(raw), Scan(s.desk, slot));
  }

  // ----- A skipped order would have met an empty walk -----

  /** What `preservesPrices` promises: a substituted book quotes no price the venue does not. */
  ghost predicate KeepsPrices(c: Config) {
    forall b: BookState, o: Order :: ValidBook(b) && c.synthetic(b, o).Some? ==>
      var b' := c.synthetic(b, o).value;
      ValidBook(b') && b'.bids.Keys <= b.bids.Keys && b'.asks.Keys <= b.asks.Keys
  }

  ghost predicate BooksValid(m: MarketData) {
    forall slot :: slot in m.books ==> ValidBook(m.books[slot])
  }

  lemma NothingToTake(b: BookState, side: Side, q: int, limit: int)
    requires ValidBook(b)
    requires if side.Buy? then BestAsk(b).None? || BestAsk(b).value > limit
             else BestBid(b).None? || BestBid(b).value < limit
    ensures Walk(b, side, q, Some(limit)).fills == []
  {
    if q > 0 {
      WalkIsEmptyUnlessCrossing(b, side, q, limit);
    }
  }

  lemma SubsetKeepsTop(b: BookState, b': BookState)
    requires b'.bids.Keys <= b.bids.Keys && b'.asks.Keys <= b.asks.Keys
    ensures BestAsk(b').Some? ==> BestAsk(b).Some? && BestAsk(b).value <= BestAsk(b').value
    ensures BestBid(b').Some? ==> BestBid(b).Some? && BestBid(b).value >= BestBid(b').value
  {
    assert BestAsk(b').Some? ==> BestAsk(b').value in b.asks.Keys;
    assert BestBid(b').Some? ==> BestBid(b').value in b.bids.Keys;
  }

  lemma SkippedWalkIsEmpty(c: Config, m: MarketData, o: Order, q: int)
    requires KeepsPrices(c) && BooksValid(m) && o.slot in m.books && o.kind.Limit? && !WouldCross(m, o)
    ensures Walk(EffectiveBook(c, m, o), o.side, q, o.LimitPrice()).fills == []
  {
    var b := m.books[o.slot];
    var b' := EffectiveBook(c, m, o);
    SubsetKeepsTop(b, b');
    NothingToTake(b', o.side, q, o.kind.limit);
  }

  /** An order resting in a market that still trades. */
  predicate Waiting(c: Config, s: State, id: OrderId) {
    && id in s.desk.resting && id in s.desk.orders
    && AtVenue(s.desk.orders[id]) && s.desk.orders[id].tif.GoodTilCancel? && s.desk.orders[id].kind.Limit?
    && s.desk.orders[id].slot in s.market.books
    && !Stopped(c, s.market, s.desk.orders[id].slot.instrument)
  }

  predicate EmptyHanded(s: State, id: OrderId)
    requires id in s.desk.orders
  {
    s.desk.orders[id].reduceOnly && Wanted(s.account, s.desk.orders[id]) <= 0
  }

  /** Offering a skipped order changes nothing, unless it only reduces and has nothing to reduce. */
  lemma SkippedOfferIsIdle(c: Config, s: State, id: OrderId)
    requires KeepsPrices(c) && BooksValid(s.market) && Waiting(c, s, id)
    requires !WouldCross(s.market, s.desk.orders[id])
    ensures TryFill(c, s, id) == if EmptyHanded(s, id) then s.(desk := Close(s.desk, id, Cancelled)) else s
  {
    hide KeepsPrices, BooksValid, WouldCross, Close, Stopped, Walk, EffectiveBook, Wanted;
    var o := s.desk.orders[id];
    SkippedWalkIsEmpty(c, s.market, o, Wanted(s.account, o));
  }

  // ----- Offering one order leaves the others where they are -----

  /** Every order but one is unchanged and rests if it rested. */
  predicate OthersStay(d: Desk, d': Desk, id: OrderId) {
    && (forall j :: j in d.orders && j != id ==> j in d'.orders && d'.orders[j] == d.orders[j])
    && (forall j :: j in d.resting && j != id ==> j in d'.resting)
  }

  lemma OthersStayTrans(d: Desk, d1: Desk, d2: Desk, id: OrderId)
    requires OthersStay(d, d1, id) && OthersStay(d1, d2, id)
    ensures OthersStay(d, d2, id)
  {
  }

  lemma RemoveLeavesOthers(d: Desk, id: OrderId)
    ensures OthersStay(d, RemoveResting(d, id), id)
  {
    WithoutProperties(d.resting, id);
  }

  lemma CloseLeavesOthers(d: Desk, id: OrderId)
    requires id in d.orders ==> d.orders[id].id == id
    ensures OthersStay(d, Close(d, id, Cancelled), id)
  {
    hide RemoveResting;
    RemoveLeavesOthers(d, id);
    if StillOpen(d, id) {
      RemoveLeavesOthers(SetOrder(d, d.orders[id].(status := Cancelled)), id);
    }
  }

  lemma RestOrCancelLeavesOthers(c: Config, m: MarketData, d: Desk, id: OrderId)
    requires id in d.orders && d.orders[id].id == id
    ensures OthersStay(d, RestOrCancel(c, m, d, id), id)
  {
    hide Close, Insert, JoinQueue;
    CloseLeavesOthers(d, id);
    JoinLeavesOrders(c, m, d, d.orders[id]);
  }

  lemma JoinLeavesOrders(c: Config, m: MarketData, d: Desk, o: Order)
    ensures var d1 := JoinQueue(c, m, d, o);
            d1.orders == d.orders && d1.resting == d.resting && d1.index == d.index
  {
  }

  lemma ExecuteLeavesOthers(c: Config, s: State, id: OrderId, price: int, q: int, taker: bool)
    requires id in s.desk.orders && s.desk.orders[id].id == id
    ensures var s' := Execute(c, s, id, price, q, taker);
            OthersStay(s.desk, s'.desk, id) && id in s'.desk.orders && s'.desk.orders[id].id == id
  {
    hide RemoveResting, AfterFill;
    RemoveLeavesOthers(s.desk.(orders := s.desk.orders[id := s.desk.orders[id].RecordFill(q)]), id);
    RemoveRestingOrders(s.desk.(orders := s.desk.orders[id := s.desk.orders[id].RecordFill(q)]), id);
  }

  lemma RemoveRestingOrders(d: Desk, id: OrderId)
    ensures RemoveResting(d, id).orders == d.orders
  {
  }

  lemma {:induction false} ExecuteAllLeavesOthers(c: Config, s: State, id: OrderId, fills: seq<(int, int)>, taker: bool)
    requires id in s.desk.orders && s.desk.orders[id].id == id
    ensures var s' := ExecuteAll(c, s, id, fills, taker);
            OthersStay(s.desk, s'.desk, id) && id in s'.desk.orders && s'.desk.orders[id].id == id
    decreases |fills|
  {
    hide Execute;
    if fills != [] && s.fault.None? {
      var s1 := Execute(c, s, id, fills[0].0, fills[0].1, taker);
      ExecuteLeavesOthers(c, s, id, fills[0].0, fills[0].1, taker);
      ExecuteAllLeavesOthers(c, s1, id, fills[1..], taker);
      OthersStayTrans(s.desk, s1.desk, ExecuteAll(c, s, id, fills, taker).desk, id);
    }
  }

  lemma TryFillLeavesOthers(c: Config, s: State, id: OrderId)
    requires Keyed(s.desk)
    ensures OthersStay(s.desk, TryFill(c, s, id).desk, id)
  {
    hide RemoveResting, RestOrCancel, Close, ExecuteAll, Walk, Wanted, EffectiveBook, OthersStay, Stopped;
    OthersStayRefl(s.desk, id);
    if id in s.desk.orders {
      var o := s.desk.orders[id];
      assert o.id == id;
      RejectLeavesOthers(s.desk, id, o.(id := id, status := Rejected));
      RestOrCancelLeavesOthers(c, s.market, s.desk, id);
      CloseLeavesOthers(s.desk, id);
      if o.slot in s.market.books {
        var w := Walk(EffectiveBook(c, s.market, o), o.side, Wanted(s.account, o), o.LimitPrice());
        ExecuteAllLeavesOthers(c, s, id, w.fills, !o.postOnly);
        var s1 := ExecuteAll(c, s, id, w.fills, !o.postOnly);
        RestOrCancelLeavesOthers(c, s1.market, s1.desk, id);
        OthersStayTrans(s.desk, s1.desk, RestOrCancel(c, s1.market, s1.desk, id), id);
      }
    }
  }

  lemma OthersStayRefl(d: Desk, id: OrderId)
    ensures OthersStay(d, d, id)
  {
  }

  lemma RejectLeavesOthers(d: Desk, id: OrderId, o': Order)
    requires o'.id == id
    ensures OthersStay(d, RemoveResting(SetOrder(d, o'), id), id)
  {
    RemoveLeavesOthers(SetOrder(d, o'), id);
  }

  // ----- The refinement -----

  /**
   No order the index skips is a reduce-only order that, when its turn comes, has nothing left
   to reduce.  Only the orders the index does offer are followed to find that out.
   */
  predicate NoneEmptyHanded(c: Config, s: State, ids: seq<OrderId>)
    decreases |ids|
  {
    ids == [] || ids[0] !in s.desk.orders ||
    if WouldCross(s.market, s.desk.orders[ids[0]]) then NoneEmptyHanded(c, TryFill(c, s, ids[0]), ids[1..])
    else !EmptyHanded(s, ids[0]) && NoneEmptyHanded(c, s, ids[1..])
  }

  predicate AllWaiting(c: Config, s: State, ids: seq<OrderId>) {
    forall i :: 0 <= i < |ids| ==> Waiting(c, s, ids[i])
  }

  /** The conditions matching starts from, carried from one offer to the next. */
  ghost predicate Matchable(c: Config, s: State, ids: seq<OrderId>) {
    && Coherent(s.desk) && s.fault.None? && KeepsPrices(c) && BooksValid(s.market)
    && StrictlyAscending(ids) && AllWaiting(c, s, ids)
  }

  lemma WaitingIsOfferable(c: Config, s: State, id: OrderId)
    requires Coherent(s.desk) && Waiting(c, s, id)
    ensures Offerable(s.desk, id) && s.desk.orders[id].id == id
  {
  }

  lemma StillWaiting(c: Config, s: State, s': State, id: OrderId, j: OrderId)
    requires Waiting(c, s, j) && j != id && OthersStay(s.desk, s'.desk, id) && s'.market == s.market
    ensures Waiting(c, s', j) && s'.desk.orders[j] == s.desk.orders[j]
  {
  }

  lemma MatchableTail(c: Config, s: State, ids: seq<OrderId>)
    requires Matchable(c, s, ids) && ids != []
    ensures Matchable(c, s, ids[1..])
  {
    hide Coherent, KeepsPrices, BooksValid, Waiting;
    forall i | 0 <= i < |ids[1..]| ensures Waiting(c, s, ids[1..][i]) {
      assert ids[1..][i] == ids[i + 1];
    }
  }

  lemma MatchableAfterOffer(c: Config, s: State, ids: seq<OrderId>)
    requires Matchable(c, s, ids) && ids != []
    ensures var s1 := TryFill(c, s, ids[0]);
            && Matchable(c, s1, ids[1..])
            && CrossingOf(s1, ids[1..]) == CrossingOf(s, ids[1..])
  {
    hide Structure, KeepsPrices, BooksValid, TryFill, WouldCross;
    var s1 := TryFill(c, s, ids[0]);
    assert Waiting(c, s, ids[0]);
    WaitingIsOfferable(c, s, ids[0]);
    TryFillCoherent(c, s, ids[0]);
    TryFillLeavesOthers(c, s, ids[0]) by {
      KeyedDesk(s.desk);
    }
    forall i | 0 <= i < |ids[1..]|
      ensures Waiting(c, s1, ids[1..][i]) && s1.desk.orders[ids[1..][i]] == s.desk.orders[ids[1..][i]]
    {
      assert ids[1..][i] == ids[i + 1];
      StillWaiting(c, s, s1, ids[0], ids[i + 1]);
    }
    CrossingOfSameOrders(s, s1, ids[1..]);
  }

  lemma KeyedDesk(d: Desk)
    requires Structure(d)
    ensures Keyed(d)
  {
  }

  lemma {:induction false} CrossingOfSameOrders(s: State, s': State, ids: seq<OrderId>)
    requires s'.market == s.market
    requires forall i :: 0 <= i < |ids| ==>
               ids[i] in s.desk.orders && ids[i] in s'.desk.orders && s'.desk.orders[ids[i]] == s.desk.orders[ids[i]]
    ensures CrossingOf(s', ids) == CrossingOf(s, ids)
    decreases |ids|
  {
    hide WouldCross;
    if ids != [] {
      CrossingOfSameOrders(s, s', ids[1..]);
    }
  }

  /** Offering orders that are not this one never changes it. */
  lemma {:induction false} OfferLeavesOthers(c: Config, s: State, ids: seq<OrderId>, id: OrderId)
    requires Coherent(s.desk) && s.fault.None? && AllOfferable(s.desk, ids) && id !in ids && id in s.desk.orders
    ensures var s' := Offer(c, s, ids);
            id in s'.desk.orders && s'.desk.orders[id] == s.desk.orders[id]
    decreases |ids|
  {
    hide Structure, TryFill;
    if ids != [] {
      var s1 := TryFill(c, s, ids[0]);
      assert Offerable(s.desk, ids[0]) && ids[0] in ids;
      TryFillCoherent(c, s, ids[0]);
      forall i | 0 <= i < |ids[1..]| ensures Offerable(s1.desk, ids[1..][i]) {
        assert Offerable(s.desk, ids[i + 1]);
      }
      OfferLeavesOthers(c, s1, ids[1..], id);
    }
  }

  lemma OfferHead(c: Config, s: State, ids: seq<OrderId>)
    requires ids != [] && s.fault.None?
    ensures Offer(c, s, ids) == Offer(c, TryFill(c, s, ids[0]), ids[1..])
  {
  }

  lemma MembersAreOfferable(c: Config, s: State, ids: seq<OrderId>, some: seq<OrderId>)
    requires Matchable(c, s, ids) && forall i :: 0 <= i < |some| ==> some[i] in ids
    ensures AllOfferable(s.desk, some)
  {
    hide Coherent, KeepsPrices, BooksValid, Waiting;
    forall i | 0 <= i < |some| ensures Offerable(s.desk, some[i]) {
      var k :| 0 <= k < |ids| && ids[k] == some[i];
      assert Waiting(c, s, ids[k]);
      WaitingIsOfferable(c, s, some[i]);
    }
  }

  lemma OutsiderIsUntouched(c: Config, s: State, ids: seq<OrderId>, some: seq<OrderId>, id: OrderId)
    requires Matchable(c, s, ids) && forall x :: x in some ==> x in ids
    requires id !in ids && id in s.desk.orders
    ensures var s' := Offer(c, s, some);
            id in s'.desk.orders && s'.desk.orders[id] == s.desk.orders[id]
  {
    hide Coherent, KeepsPrices, BooksValid, Offerable, Waiting, Offer;
    forall i | 0 <= i < |some| ensures some[i] in ids {
      var x := some[i];
      assert x in some;
    }
    MembersAreOfferable(c, s, ids, some);
    OfferLeavesOthers(c, s, some, id);
  }

  lemma HeadNotInTail(ids: seq<OrderId>)
    requires ids != [] && StrictlyAscending(ids)
    ensures ids[0] !in ids[1..] && StrictlyAscending(ids[1..])
  {
    TailMembers(ids);
  }

  lemma HeadIsWaiting(c: Config, s: State, ids: seq<OrderId>)
    requires Matchable(c, s, ids) && ids != []
    ensures Waiting(c, s, ids[0]) && s.desk.orders[ids[0]].id == ids[0]
  {
    hide KeepsPrices, BooksValid, Structure;
    assert Waiting(c, s, ids[0]);
    WaitingIsOfferable(c, s, ids[0]);
  }

  /** The scan cancels an order the index leaves alone, and nothing brings it back. */
  lemma EmptyHandedPartsThem(c: Config, s: State, ids: seq<OrderId>)
    requires Matchable(c, s, ids) && ids != [] && ids[0] in s.desk.orders
    requires !WouldCross(s.market, s.desk.orders[ids[0]]) && EmptyHanded(s, ids[0])
    ensures Offer(c, s, ids) != Offer(c, s, CrossingOf(s, ids[1..]))
  {
    hide Matchable, WouldCross, TryFill, Offer, EmptyHanded, CrossingOf, Close;
    var id := ids[0];
    HeadIsWaiting(c, s, ids);
    MatchableParts(c, s, ids);
    SkippedOfferIsIdle(c, s, id);
    ClosedIsClosed(s.desk, id);
    MatchableAfterOffer(c, s, ids);
    MatchableTail(c, s, ids);
    HeadNotInTail(ids);
    CrossingOfMembers(s, ids[1..]);
    OutsiderIsUntouched(c, TryFill(c, s, id), ids[1..], ids[1..], id);
    OutsiderIsUntouched(c, s, ids[1..], CrossingOf(s, ids[1..]), id);
    OfferHead(c, s, ids);
  }

  lemma MatchableParts(c: Config, s: State, ids: seq<OrderId>)
    requires Matchable(c, s, ids)
    ensures KeepsPrices(c) && BooksValid(s.market) && StrictlyAscending(ids) && s.fault.None? && Coherent(s.desk)
  {
  }

  lemma ClosedIsClosed(d: Desk, id: OrderId)
    requires StillOpen(d, id) && d.orders[id].id == id
    ensures id in Close(d, id, Cancelled).orders && !Close(d, id, Cancelled).orders[id].IsOpen()
  {
  }

  /** Offering the crossing orders equals offering them all exactly when none that is skipped is empty-handed. */
  lemma {:induction false} SkippingIsExact(c: Config, s: State, ids: seq<OrderId>)
    requires Matchable(c, s, ids)
    ensures Offer(c, s, CrossingOf(s, ids)) == Offer(c, s, ids) <==> NoneEmptyHanded(c, s, ids)
    decreases |ids|
  {
    hide Matchable, WouldCross, TryFill, EmptyHanded, Offer;
    MatchableParts(c, s, ids);
    if ids != [] {
      HeadIsWaiting(c, s, ids);
      OfferHead(c, s, ids);
      if WouldCross(s.market, s.desk.orders[ids[0]]) {
        MatchableAfterOffer(c, s, ids);
        SkippingIsExact(c, TryFill(c, s, ids[0]), ids[1..]);
        OfferHead(c, s, CrossingOf(s, ids));
        assert CrossingOf(s, ids)[1..] == CrossingOf(s, ids[1..]);
      } else if EmptyHanded(s, ids[0]) {
        EmptyHandedPartsThem(c, s, ids);
      } else {
        SkippedOfferIsIdle(c, s, ids[0]);
        MatchableTail(c, s, ids);
        SkippingIsExact(c, s, ids[1..]);
      }
    }
  }

  // ----- In every reachable state -----

  lemma FedBookValid(s: State, slot: Slot, feed: F.FeedOp)
    requires BooksValid(s.market)
    ensures BooksValid(FedBook(s, slot, feed).market)
  {
  }

  lemma SplitBooksValid(s: State, instrument: nat, ratio: int)
    requires BooksValid(s.market)
    ensures BooksValid(SplitShares(s, instrument, ratio).market)
  {
    hide SplitResting, SplitHeld, SplitPrices, SplitHolding;
    if ratio > 0 {
      forall slot | slot in s.market.books ensures ValidBook(F.SplitBook(s.market.books[slot], ratio)) {
        F.SplitSideKeepsDepth(s.market.books[slot].bids, ratio);
        F.SplitSideKeepsDepth(s.market.books[slot].asks, ratio);
      }
    }
  }

  lemma StepKeepsBooks(c: Config, s: State, op: Op)
    requires BooksValid(s.market)
    ensures BooksValid(Step(c, s, op).market)
  {
    if s.fault.None? {
      if op.Feed? {
        FedBookValid(s, op.slot, op.feed);
      } else if op.SplitAction? {
        SplitBooksValid(s, op.instrument, op.ratio);
      } else if !MovesAccountDirectly(op) {
        StepSameBooks(c, s, op);
      }
    }
  }

  /** Every book a run builds shows only positive sizes. */
  lemma {:induction false} RunKeepsBooks(c: Config, ops: seq<Op>)
    ensures BooksValid(Run(c, ops).market)
    decreases |ops|
  {
    hide Step;
    if ops != [] {
      RunKeepsBooks(c, ops[..|ops| - 1]);
      StepKeepsBooks(c, Run(c, ops[..|ops| - 1]), ops[|ops| - 1]);
    }
  }

  lemma ScanIsWaiting(c: Config, s: State, slot: Slot)
    requires Coherent(s.desk) && s.fault.None? && KeepsPrices(c) && BooksValid(s.market)
    requires slot in s.market.books && !Stopped(c, s.market, slot.instrument)
    ensures Matchable(c, s, Scan(s.desk, slot))
  {
    hide KeepsPrices, BooksValid, Scan, Structure, Stopped;
    var ids := Scan(s.desk, slot);
    ScanHolds(s.desk, slot);
    forall i | 0 <= i < |ids| ensures Waiting(c, s, ids[i]) {
      assert ids[i] in ids;
      RestingIsLimit(s.desk, ids[i]);
    }
  }

  lemma MatchIsOffer(c: Config, s: State, slot: Slot)
    requires Coherent(s.desk) && s.fault.None? && slot in s.market.books
    ensures MatchResting(c, s, slot, false) == Offer(c, s, Candidates(c, s, slot, false))
  {
    hide Candidates, Coherent, TryFill, AllOfferable, AllResting, Pruned;
    var ids := Candidates(c, s, slot, false);
    CandidatesAreResting(c, s, slot, false);
    RestingIsOfferable(s.desk, ids);
    OfferCoherent(c, s, ids);
    PrunedIsIdle(Offer(c, s, ids));
  }

  /**
   The refinement, in every reachable state of a market that still trades: matching through the
   index leaves the same orders, fills, cash and positions as offering every resting order of the
   market in submission order, exactly when no skipped reduce-only order has, at its turn, nothing
   to reduce.
   */
  lemma IndexedMatchingIsTheScan(c: Config, ops: seq<Op>, slot: Slot)
    requires KeepsPrices(c) && c.preservesPrices
    requires var s := Run(c, ops);
             s.fault.None? && slot in s.market.books && !Stopped(c, s.market, slot.instrument)
    ensures var s := Run(c, ops);
            (MatchResting(c, s, slot, false) == Offer(c, s, Scan(s.desk, slot)))
              <==> NoneEmptyHanded(c, s, Scan(s.desk, slot))
  {
    hide Run, MatchResting, Offer, Structure, KeepsPrices, BooksValid, Candidates, Stopped, NoneEmptyHanded, Scan, CrossingOf;
    var s := Run(c, ops);
    RunIsSane(c, ops);
    RunKeepsBooks(c, ops);
    ScanIsWaiting(c, s, slot);
    MatchIsOffer(c, s, slot);
    CandidatesAreTheCrossing(c, s, slot);
    SkippingIsExact(c, s, Scan(s.desk, slot));
  }

  lemma {:induction false} NobodyReducesOnly(c: Config, s: State, ids: seq<OrderId>)
    requires Matchable(c, s, ids)
    requires forall i :: 0 <= i < |ids| ==> !s.desk.orders[ids[i]].reduceOnly
    ensures NoneEmptyHanded(c, s, ids)
    decreases |ids|
  {
    hide Coherent, WouldCross, TryFill, KeepsPrices, BooksValid;
    if ids != [] {
      HeadIsWaiting(c, s, ids);
      MatchableTail(c, s, ids);
      MatchableAfterOffer(c, s, ids);
      assert forall i :: 0 <= i < |ids[1..]| ==> ids[1..][i] == ids[i + 1];
      if WouldCross(s.market, s.desk.orders[ids[0]]) {
        SameOrdersAfterOffer(c, s, ids);
        NobodyReducesOnly(c, TryFill(c, s, ids[0]), ids[1..]);
      } else {
        NobodyReducesOnly(c, s, ids[1..]);
      }
    }
  }

  lemma SameOrdersAfterOffer(c: Config, s: State, ids: seq<OrderId>)
    requires Matchable(c, s, ids) && ids != []
    ensures forall i :: 1 <= i < |ids| ==>
              ids[i] in TryFill(c, s, ids[0]).desk.orders
              && TryFill(c, s, ids[0]).desk.orders[ids[i]] == s.desk.orders[ids[i]]
  {
    hide KeepsPrices, BooksValid, TryFill, Waiting;
    TryFillLeavesOthers(c, s, ids[0]) by {
      KeyedDesk(s.desk);
    }
    forall i | 1 <= i < |ids| ensures ids[i] in s.desk.orders {
      WaitingIsKnown(c, s, ids[i]);
    }
  }

  lemma WaitingIsKnown(c: Config, s: State, id: OrderId)
    requires Waiting(c, s, id)
    ensures id in s.desk.orders
  {
  }

  /** With no reduce-only order resting in the market, the index is the scan outright. */
  lemma IndexedMatchingWithoutReduceOnly(c: Config, ops: seq<Op>, slot: Slot)
    requires KeepsPrices(c) && c.preservesPrices
    requires var s := Run(c, ops);
             s.fault.None? && slot in s.market.books && !Stopped(c, s.market, slot.instrument)
    requires var d := Run(c, ops).desk;
             forall id :: id in d.resting && id in d.orders && d.orders[id].slot == slot ==> !d.orders[id].reduceOnly
    ensures var s := Run(c, ops);
            MatchResting(c, s, slot, false) == Offer(c, s, Scan(s.desk, slot))
  {
    hide Run, MatchResting, Offer, Structure, KeepsPrices, BooksValid, Stopped, NoneEmptyHanded, Scan;
    var s := Run(c, ops);
    var ids := Scan(s.desk, slot);
    RunIsSane(c, ops);
    RunKeepsBooks(c, ops);
    ScanIsWaiting(c, s, slot);
    ScanHolds(s.desk, slot);
    forall i | 0 <= i < |ids| ensures !s.desk.orders[ids[i]].reduceOnly {
      assert ids[i] in ids;
    }
    NobodyReducesOnly(c, s, ids);
    IndexedMatchingIsTheScan(c, ops, slot);
  }

  // ----- Where the two part -----

  const CORNER: Slot := Slot(0, 0)

  /** A reduce-only sale of nothing held, resting above the only bid. */
  function StrandedRequest(): Request {
    Request(CORNER, Sell, Limit(10), 1, GoodTilCancel, true, false, None)
  }

  function StrandedRun(): seq<Op> {
    [Submit(StrandedRequest()), Release(1, true), Feed(CORNER, F.Snapshot([(5, 1)], []))]
  }

  /** A venue with no limits on what may be sent. */
  predicate Unlimited(c: Config) {
    && c.outcomes(0) > 0 && c.validPrice(0, 10) && c.expiry(0).None?
    && c.maxOrderQuantity.None? && c.maxAbsPosition.None? && c.maxOpenOrders.None?
  }

  /** On the wire: nothing else is known yet. */
  lemma StrandedSubmitted(c: Config)
    requires Unlimited(c)
    ensures var s := Submitted(c, Init(c), StrandedRequest());
            && s.fault.None? && s.account == Init(c).account && s.market == Init(c).market
            && s.desk == Desk(map[1 := NewOrder(1, StrandedRequest(), InFlight)], [], map[], map[], [1], [], [1], 1)
  {
  }

  /** At the venue, with no book there yet: the order rests. */
  lemma StrandedReleased(c: Config, s: State)
    requires Unlimited(c) && s == Submitted(c, Init(c), StrandedRequest())
    ensures var s' := Released(c, s, 1, true);
            && s'.fault.None? && s'.account == s.account && s'.market == s.market
            && s'.desk.resting == [1] && s'.desk.orders == map[1 := NewOrder(1, StrandedRequest(), Accepted)]
  {
    hide Submitted, Insert, Unlimited, Walk, Wanted;
    StrandedSubmitted(c);
    StrandedOffered(c, s);
  }

  lemma StrandedOffered(c: Config, s: State)
    requires Unlimited(c) && s == Submitted(c, Init(c), StrandedRequest())
    ensures !Stopped(c, s.market, 0) && CORNER !in s.market.books && s.desk.inflight == [1] && s.desk.resting == []
  {
    StrandedSubmitted(c);
  }

  lemma StrandedOrderRests(c: Config)
    requires Unlimited(c)
    ensures var s := Run(c, StrandedRun());
            && s.fault.None? && s.desk.resting == [1] && 1 in s.desk.orders
            && s.desk.orders[1] == NewOrder(1, StrandedRequest(), Accepted)
            && CORNER in s.market.books && s.market.books[CORNER] == BookState(map[5 := 1], map[], Fresh)
            && s.account.positions == map[] && !Stopped(c, s.market, 0)
  {
    hide Run, Submitted, Released;
    var ops := StrandedRun();
    RunOfThree(c, ops);
    StrandedSubmitted(c);
    StrandedReleased(c, Submitted(c, Init(c), StrandedRequest()));
    SnapshotOfOne(5, 1);
  }

  lemma SnapshotOfOne(price: int, size: int)
    requires size > 0
    ensures F.SnapshotSide([(price, size)]) == map[price := size] && F.SnapshotSide([]) == map[]
  {
    assert [(price, size)][..0] == [];
  }

  lemma RunOfThree(c: Config, ops: seq<Op>)
    requires |ops| == 3
    ensures Run(c, ops) == Step(c, Step(c, Step(c, Init(c), ops[0]), ops[1]), ops[2])
  {
    hide Step;
    assert ops[..2][..1] == ops[..1] && ops[..1][..0] == [] && ops[..2][1] == ops[1];
    assert Run(c, ops[..1]) == Step(c, Init(c), ops[0]);
    assert Run(c, ops[..2]) == Step(c, Run(c, ops[..1]), ops[1]);
  }

  lemma ScanOfOne(d: Desk)
    requires d.resting == [1] && 1 in d.orders && d.orders[1].slot == CORNER
    ensures Scan(d, CORNER) == [1]
  {
    assert d.resting[1..] == [];
    assert RestingAt(d, d.resting, CORNER) == [1];
    assert [1][1..] == [];
  }

  lemma StrandedIsEmptyHanded(s: State)
    requires 1 in s.desk.orders && s.desk.orders[1] == NewOrder(1, StrandedRequest(), Accepted)
    requires CORNER in s.market.books && s.market.books[CORNER] == BookState(map[5 := 1], map[], Fresh)
    requires s.account.positions == map[]
    ensures EmptyHanded(s, 1) && !WouldCross(s.market, s.desk.orders[1])
  {
    hide BestBid, BestAsk, Wanted;
    TopIsFive(s.market.books[CORNER]);
    NothingToReduce(s.account, s.desk.orders[1]);
  }

  lemma TopIsFive(b: BookState)
    requires b.bids == map[5 := 1]
    ensures BestBid(b) == Some(5)
  {
    hide BestBid;
    assert 5 in b.bids;
    assert BestBid(b).Some? && BestBid(b).value in b.bids;
  }

  lemma NothingToReduce(a: Account, o: Order)
    requires a.positions == map[] && o.reduceOnly
    ensures Wanted(a, o) <= 0
  {
  }

  /** The scan cancels that order; matching through the index leaves it resting. */
  lemma IndexLeavesStrandedReduceOnly(c: Config)
    requires Unlimited(c) && KeepsPrices(c) && c.preservesPrices
    ensures var s := Run(c, StrandedRun());
            MatchResting(c, s, CORNER, false) != Offer(c, s, Scan(s.desk, CORNER))
  {
    hide Run, MatchResting, Offer, KeepsPrices, Unlimited, StrandedRun, Scan, EmptyHanded, WouldCross, TryFill;
    var s := Run(c, StrandedRun());
    StrandedOrderRests(c);
    IndexedMatchingIsTheScan(c, StrandedRun(), CORNER);
    ScanOfOne(s.desk);
    StrandedIsEmptyHanded(s);
  }
}
