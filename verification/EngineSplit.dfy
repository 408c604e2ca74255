/**
 A share split across the whole engine.

 Orders rest on the book, wait parked on a trigger, or are still on the wire; each is rescaled
 exactly once wherever it is.  A resting order the market could not fill before the split stays
 out of reach afterwards exactly when the gap to the market survives the rounding.
 */
module EngineSplit {
  import opened FixedPoint
  import opened Sorting
  import opened Orders
  import opened Corporate
  import opened Positions
  import opened Book
  import opened RestingIndex
  import opened Engine
  import opened EngineCoherence
  import opened EngineRuns
  import F = BookFeed

  // ----- Every order moves once -----

  /** The order rescaled, when it is one of the instrument's. */
  function Rescaled(d: Desk, id: OrderId, instrument: nat, ratio: int): Order
    requires id in d.orders && ratio > 0
  {
    if d.orders[id].slot.instrument == instrument then SplitOrder(ratio, d.orders[id]).(id := id) else d.orders[id]
  }

  /** Orders of a list are rescaled, the others are left alone. */
  ghost predicate RescaledOnce(d: Desk, d': Desk, ids: seq<OrderId>, instrument: nat, ratio: int)
    requires ratio > 0
  {
    && d'.orders.Keys == d.orders.Keys
    && (forall id :: id in d.orders ==>
          d'.orders[id] == if id in ids then Rescaled(d, id, instrument, ratio) else d.orders[id])
  }

  lemma {:induction false} SplitRestingOnce(d: Desk, ids: seq<OrderId>, instrument: nat, ratio: int)
    requires ratio > 0 && NoDuplicates(ids)
    ensures var d' := SplitResting(d, ids, instrument, ratio);
            && RescaledOnce(d, d', ids, instrument, ratio)
            && d'.untriggered == d.untriggered && d'.live == d.live
    decreases |ids|
  {
    hide Insert, Remove, SplitOrder;
    if ids != [] {
      var d1 := SplitRestingOne(d, ids[0], instrument, ratio);
      assert ids == [ids[0]] + ids[1..];
      assert forall i :: 0 <= i < |ids[1..]| ==> ids[1..][i] == ids[i + 1];
      SplitRestingOnce(d1, ids[1..], instrument, ratio);
      assert ids[0] !in ids[1..];
    }
  }

  /** The orders of a list a held-order sweep touches. */
  predicate Sweeps(d: Desk, ids: seq<OrderId>, inflightOnly: bool, id: OrderId)
    requires id in d.orders
  {
    id in ids && (!inflightOnly || d.orders[id].status.InFlight?)
  }

  lemma {:induction false} SplitHeldOnce(d: Desk, ids: seq<OrderId>, instrument: nat, ratio: int, inflightOnly: bool)
    requires ratio > 0 && NoDuplicates(ids)
    ensures var d' := SplitHeld(d, ids, instrument, ratio, inflightOnly);
            && d'.orders.Keys == d.orders.Keys
            && (forall id :: id in d.orders ==>
                  d'.orders[id] == if Sweeps(d, ids, inflightOnly, id) then Rescaled(d, id, instrument, ratio) else d.orders[id])
            && d'.untriggered == d.untriggered && d'.live == d.live
    decreases |ids|
  {
    hide SplitOrder;
    if ids != [] {
      var id := ids[0];
      var hit := id in d.orders && d.orders[id].slot.instrument == instrument
                 && (!inflightOnly || d.orders[id].status.InFlight?);
      var d1 := if hit then SetOrder(d, SplitOrder(ratio, d.orders[id]).(id := id)) else d;
      assert ids == [ids[0]] + ids[1..];
      assert forall i :: 0 <= i < |ids[1..]| ==> ids[1..][i] == ids[i + 1];
      SplitHeldOnce(d1, ids[1..], instrument, ratio, inflightOnly);
      assert id !in ids[1..];
    }
  }

  /** Where a split finds an order: on the book, parked, or on the wire. */
  predicate Found(d: Desk, id: OrderId)
    requires id in d.orders
  {
    id in d.resting || id in d.untriggered || (id in d.live && d.orders[id].status.InFlight?)
  }

  lemma RescaledStatus(d: Desk, id: OrderId, instrument: nat, ratio: int)
    requires id in d.orders && ratio > 0
    ensures Rescaled(d, id, instrument, ratio).status == d.orders[id].status
    ensures Rescaled(d, id, instrument, ratio).slot == d.orders[id].slot
  {
  }

  /** The three places never share an order. */
  lemma PlacesAreApart(d: Desk, id: OrderId)
    requires Coherent(d) && id in d.orders
    ensures id in d.resting ==> id !in d.untriggered && !d.orders[id].status.InFlight?
    ensures id in d.untriggered ==> !d.orders[id].status.InFlight?
    ensures NoDuplicates(d.resting) && NoDuplicates(d.untriggered) && NoDuplicates(d.live)
  {
  }

  /** A price in post-split terms, and a size. */
  function NewPrice(ratio: int, price: int): int
    requires ratio > 0
  {
    TruncDiv(price * SCALE, ratio)
  }

  function NewSize(ratio: int, size: int): int
    requires ratio > 0
  {
    TruncDiv(size * ratio, SCALE)
  }

  /** The order in post-split terms: more or less size, at prices moved the other way, its trigger too. */
  predicate Restated(ratio: int, o: Order, o': Order)
    requires ratio > 0
  {
    && o' == o.(quantity := o'.quantity, kind := o'.kind, trigger := o'.trigger)
    && o'.quantity == NewSize(ratio, o.quantity)
    && (match o.kind
        case Market => o'.kind == Market
        case Limit(p) => o'.kind == Limit(NewPrice(ratio, p)))
    && (match o.trigger
        case None => o'.trigger == None
        case Some(Above(p)) => o'.trigger == Some(Above(NewPrice(ratio, p)))
        case Some(Below(p)) => o'.trigger == Some(Below(NewPrice(ratio, p))))
  }

  lemma RescaledIsRestated(d: Desk, id: OrderId, instrument: nat, ratio: int)
    requires Coherent(d) && id in d.orders && ratio > 0 && d.orders[id].slot.instrument == instrument
    ensures Restated(ratio, d.orders[id], Rescaled(d, id, instrument, ratio))
  {
    hide TruncDiv, NothingElseIndexed, EveryRestingIndexed;
    assert d.orders[id].id == id;
  }

  lemma ElsewhereIsSame(d: Desk, id: OrderId, instrument: nat, ratio: int)
    requires id in d.orders && ratio > 0 && d.orders[id].slot.instrument != instrument
    ensures Rescaled(d, id, instrument, ratio) == d.orders[id]
  {
  }

  /** A holding in post-split terms: its size and its average price, and nothing of its profit. */
  predicate HoldingRestated(ratio: int, h: Holding, h': Holding)
    requires ratio > 0
  {
    && h' == h.(quantity := h'.quantity, averagePrice := h'.averagePrice)
    && (if h.quantity == 0 then h' == h
        else h'.quantity == NewSize(ratio, h.quantity) && h'.averagePrice == NewPrice(ratio, h.averagePrice))
  }

  /** Prices of the instrument are restated, and no other. */
  predicate PricesRestated(ratio: int, instrument: nat, prices: map<Slot, int>, prices': map<Slot, int>)
    requires ratio > 0
  {
    && prices'.Keys == prices.Keys
    && forall slot :: slot in prices ==>
         prices'[slot] == if slot.instrument == instrument then NewPrice(ratio, prices[slot]) else prices[slot]
  }

  /**
   A split restates every holding of the instrument, its marks and its oracle prices in the new
   terms, and moves no money: cash, collateral, fills and payments are as they were, and so is
   everything of any other instrument.  A ratio that is not positive is refused.
   */
  lemma SplitRestatesTheAccount(c: Config, s: State, instrument: nat, ratio: int)
    requires s.fault.None?
    ensures var s' := Step(c, s, SplitAction(instrument, ratio));
            if ratio < 1 then s' == s.(fault := Some(BadRequest))
            else
              && s'.fault.None? && s'.account == s.account.(positions := s'.account.positions)
              && s'.account.positions.Keys == s.account.positions.Keys
              && (forall slot :: slot in s.account.positions ==>
                    if slot.instrument == instrument then HoldingRestated(ratio, s.account.positions[slot], s'.account.positions[slot])
                    else s'.account.positions[slot] == s.account.positions[slot])
              && PricesRestated(ratio, instrument, s.market.marks, s'.market.marks)
              && PricesRestated(ratio, instrument, s.market.oracles, s'.market.oracles)
              && s'.market.now == s.market.now && s'.market.delisted == s.market.delisted
  {
    hide SplitOrdersOf, F.SplitBook, TruncDiv;
  }

  /** In every reachable state a split restates each of the instrument's orders once, and no other order. */
  lemma SplitScalesEachOrderOnce(c: Config, ops: seq<Op>, instrument: nat, ratio: int, id: OrderId)
    requires ratio > 0 && id in Run(c, ops).desk.orders
    ensures var d, d' := Run(c, ops).desk, SplitShares(Run(c, ops), instrument, ratio).desk;
            && id in d'.orders
            && d'.orders[id] == (if Found(d, id) then Rescaled(d, id, instrument, ratio) else d.orders[id])
            && (if Found(d, id) && d.orders[id].slot.instrument == instrument then Restated(ratio, d.orders[id], d'.orders[id])
                else d'.orders[id] == d.orders[id])
  {
    hide Run, Coherent, Restated, SplitResting, SplitHeld, Rescaled, SplitHolding, SplitPrices, F.SplitBook;
    var s := Run(c, ops);
    RunIsSane(c, ops);
    var d := s.desk;
    PlacesAreApart(d, id);
    var d1 := SplitResting(d, d.resting, instrument, ratio);
    SplitRestingOnce(d, d.resting, instrument, ratio);
    RescaledStatus(d, id, instrument, ratio);
    var d2 := SplitHeld(d1, d1.untriggered, instrument, ratio, false);
    SplitHeldOnce(d1, d1.untriggered, instrument, ratio, false);
    var d3 := SplitHeld(d2, d2.live, instrument, ratio, true);
    SplitHeldOnce(d2, d2.live, instrument, ratio, true);
    SameOrderSameScale(d, d1, id, instrument, ratio);
    SameOrderSameScale(d, d2, id, instrument, ratio);
    SameOrderSameScale(d1, d2, id, instrument, ratio);
    if d.orders[id].slot.instrument == instrument {
      RescaledIsRestated(d, id, instrument, ratio);
    } else {
      ElsewhereIsSame(d, id, instrument, ratio);
    }
  }

  lemma SameOrderSameScale(d: Desk, d': Desk, id: OrderId, instrument: nat, ratio: int)
    requires id in d.orders && id in d'.orders && ratio > 0
    ensures d'.orders[id] == d.orders[id] ==> Rescaled(d', id, instrument, ratio) == Rescaled(d, id, instrument, ratio)
  {
  }

  // ----- What the market can reach afterwards -----

  /** Every price still shown is a requoted one. */
  lemma RequotedSide(levels: Levels, ratio: int, x: int)
    requires ratio > 0 && x in F.SplitSide(levels, ratio)
    ensures exists p :: p in levels && SplitPrice(ratio, p) == x
  {
    F.SplitSideKeepsDepth(levels, ratio);
  }

  /** The new best price is no better than the old one requoted. */
  lemma BestAfterSplit(b: BookState, ratio: int)
    requires ratio > 0
    ensures var b' := F.SplitBook(b, ratio);
            && (BestAsk(b').Some? ==> BestAsk(b).Some? && SplitPrice(ratio, BestAsk(b).value) <= BestAsk(b').value)
            && (BestBid(b').Some? ==> BestBid(b).Some? && SplitPrice(ratio, BestBid(b).value) >= BestBid(b').value)
  {
    hide SplitPrice, F.SplitSide;
    var b' := F.SplitBook(b, ratio);
    if BestAsk(b').Some? {
      RequotedSide(b.asks, ratio, BestAsk(b').value);
      var p :| p in b.asks && SplitPrice(ratio, p) == BestAsk(b').value;
      RequotingKeepsOrder(ratio, BestAsk(b).value, p);
    }
    if BestBid(b').Some? {
      RequotedSide(b.bids, ratio, BestBid(b').value);
      var p :| p in b.bids && SplitPrice(ratio, p) == BestBid(b').value;
      RequotingKeepsOrder(ratio, p, BestBid(b).value);
    }
  }

  /** The price across the spread. */
  function Opposite(b: BookState, side: Side): Option<int> {
    if side.Buy? then BestAsk(b) else BestBid(b)
  }

  /** The gap between an order and the market across from it is wider than what rounding eats. */
  predicate StaysApart(ratio: int, limit: int, opposite: int)
    requires ratio > 0
  {
    GapSurvives(ratio, Min(limit, opposite), Max(limit, opposite))
  }

  /** A ratio below one divides less than one unit away, so every gap survives. */
  lemma ConsolidationKeepsGaps(ratio: int, limit: int, opposite: int)
    requires 0 < ratio < SCALE && limit != opposite
    ensures StaysApart(ratio, limit, opposite)
  {
    var low, high := Min(limit, opposite), Max(limit, opposite);
    assert (high * SCALE) % ratio < ratio && (-low * SCALE) % ratio < ratio;
    MultipleGap(high - low, SCALE);
    MultipleGap(high, SCALE);
  }

  /** A ratio of one or more never rounds a displayed size away. */
  lemma SplitKeepsSize(ratio: int, size: int)
    requires ratio >= SCALE && size > 0
    ensures SplitQuantity(ratio, size) > 0
  {
    assert size * ratio >= SCALE by {
      MulMonotone(size, SCALE, ratio);
      MultipleGap(size, SCALE);
    }
    TruncDivMonotone(SCALE, size * ratio, SCALE);
  }

  lemma {:induction false} EveryPriceIsShown(prices: seq<int>, levels: Levels, ratio: int, acc: Levels, p: int)
    requires ratio >= SCALE && Positive(levels) && Among(prices, levels)
    requires p in prices || SplitPrice(ratio, p) in acc
    ensures SplitPrice(ratio, p) in F.SplitFold(prices, levels, ratio, acc)
    decreases |prices|
  {
    hide SplitPrice, SplitQuantity;
    if prices != [] {
      assert prices == [prices[0]] + prices[1..];
      var first := prices[0];
      assert first in levels;
      SplitKeepsSize(ratio, levels[first]);
      var acc' := F.AddLevel(acc, SplitPrice(ratio, prices[0]), SplitQuantity(ratio, levels[prices[0]]));
      assert p in prices ==> p == prices[0] || p in prices[1..];
      assert SplitPrice(ratio, prices[0]) in acc';
      EveryPriceIsShown(prices[1..], levels, ratio, acc', p);
    }
  }

  /** So the best price across the spread is still the best one, requoted. */
  lemma OppositeIsRequoted(b: BookState, side: Side, ratio: int)
    requires ratio >= SCALE && ValidBook(b) && Opposite(b, side).Some?
    ensures Opposite(F.SplitBook(b, ratio), side) == Some(SplitPrice(ratio, Opposite(b, side).value))
  {
    hide SplitPrice, F.SplitFold, Ascending, BestAsk, BestBid;
    var levels := if side.Buy? then b.asks else b.bids;
    var p := Opposite(b, side).value;
    assert p in Ascending(levels.Keys);
    EveryPriceIsShown(Ascending(levels.Keys), levels, ratio, map[], p);
    BestAfterSplit(b, ratio);
    var b' := F.SplitBook(b, ratio);
    assert SplitPrice(ratio, p) in (if side.Buy? then b'.asks else b'.bids);
  }

  /**
   An order that the market could not fill is still out of reach after a split exactly when its
   gap to the opposite price survives the rounding.
   */
  lemma SplitKeepsOutOfReach(m: MarketData, m': MarketData, o: Order, ratio: int)
    requires ratio > 0 && o.kind.Limit?
    requires o.slot in m.books && o.slot in m'.books && m'.books[o.slot] == F.SplitBook(m.books[o.slot], ratio)
    requires ValidBook(m.books[o.slot])
    requires !WouldCross(m, o) && Opposite(m.books[o.slot], o.side).Some?
    ensures !WouldCross(m', SplitOrder(ratio, o))
       <==> StaysApart(ratio, o.kind.limit, Opposite(m.books[o.slot], o.side).value)
  {
    hide F.SplitBook, SplitPrice, SplitQuantity, BestAsk, BestBid, ValidBook;
    var b := m.books[o.slot];
    var opposite := Opposite(b, o.side).value;
    BestAfterSplit(b, ratio);
    if ratio < SCALE {
      ConsolidationKeepsGaps(ratio, o.kind.limit, opposite);
    } else {
      OppositeIsRequoted(b, o.side, ratio);
    }
    if o.side.Buy? {
      GapSurvivesSplit(ratio, o.kind.limit, opposite);
      RequotingKeepsOrder(ratio, o.kind.limit, opposite);
    } else {
      GapSurvivesSplit(ratio, opposite, o.kind.limit);
      RequotingKeepsOrder(ratio, opposite, o.kind.limit);
    }
  }
}
