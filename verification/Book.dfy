/**
 The L2 book of one market, and the walk a taker makes through it.

 A side is a map from price to displayed size; an ordered map is iterated in key order.
 Levels only ever hold positive sizes, whatever the feed sends, and that is what makes the
 walk conservative, complete and unbeatable.
 */
module Book {
  import opened FixedPoint
  import opened Sorting
  import opened Orders
  import opened Corporate

  type Levels = map<int, int>

  datatype Freshness = NeverSeen | Fresh | Stale(since: int)

  datatype BookState = BookState(bids: Levels, asks: Levels, status: Freshness)

  predicate Positive(levels: Levels) {
    forall p :: p in levels ==> levels[p] > 0
  }

  /** Every listed price is a level. */
  predicate Among(prices: seq<int>, levels: map<int, int>) {
    forall i :: 0 <= i < |prices| ==> prices[i] in levels
  }

  predicate ValidBook(b: BookState) {
    Positive(b.bids) && Positive(b.asks)
  }

  // ----- Top of book -----

  function BestAsk(b: BookState): (p: Option<int>)
    ensures p.None? <==> b.asks == map[]
    ensures p.Some? ==> p.value in b.asks && forall x :: x in b.asks ==> p.value <= x
  {
    if b.asks == map[] then None
    else
      MapIsEmptyOrNot(b.asks);
      Some(Least(b.asks.Keys))
  }

  function Greatest(s: set<int>): (m: int)
    requires s != {}
    ensures m in s && forall x :: x in s ==> x <= m
  {
    var a := Ascending(s);
    SetIsEmptyOrNot(s);
    var m := a[|a| - 1];
    assert m in a;
    assert forall i :: 0 <= i < |a| ==> a[i] <= m;
    m
  }

  function BestBid(b: BookState): (p: Option<int>)
    ensures p.None? <==> b.bids == map[]
    ensures p.Some? ==> p.value in b.bids && forall x :: x in b.bids ==> x <= p.value
  {
    if b.bids == map[] then None
    else
      MapIsEmptyOrNot(b.bids);
      Some(Greatest(b.bids.Keys))
  }

  // ----- Walking -----

  datatype Walked = Walked(fills: seq<(int, int)>, unfilled: int)

  /** The levels a taker meets. */
  function Facing(b: BookState, taker: Side): Levels {
    if taker.Buy? then b.asks else b.bids
  }

  /** Prices in the order a taker reaches them: cheapest offer first, or dearest bid first. */
  function Reach(levels: Levels, taker: Side): (prices: seq<int>)
    ensures Among(prices, levels)
  {
    if taker.Buy? then Ascending(levels.Keys) else Reversed(Ascending(levels.Keys))
  }

  predicate Acceptable(taker: Side, price: int, limit: Option<int>) {
    match limit
    case None => true
    case Some(cap) => if taker.Buy? then price <= cap else price >= cap
  }

  function Visit(prices: seq<int>, levels: Levels, taker: Side, remaining: int, limit: Option<int>): (w: Walked)
    requires Among(prices, levels)
    decreases |prices|
  {
    if prices == [] || remaining <= 0 || !Acceptable(taker, prices[0], limit) then
      Walked([], remaining)
    else
      var take := Min(remaining, levels[prices[0]]);
      if take > 0 then
        var rest := Visit(prices[1..], levels, taker, remaining - take, limit);
        Walked([(prices[0], take)] + rest.fills, rest.unfilled)
      else
        Visit(prices[1..], levels, taker, remaining, limit)
  }

  function WalkSide(levels: Levels, taker: Side, qty: int, limit: Option<int>): (w: Walked) {
    Visit(Reach(levels, taker), levels, taker, qty, limit)
  }

  function Walk(b: BookState, taker: Side, qty: int, limit: Option<int>): (w: Walked) {
    WalkSide(Facing(b, taker), taker, qty, limit)
  }

  function Total(fills: seq<(int, int)>): int {
    if fills == [] then 0 else fills[0].1 + Total(fills[1..])
  }

  /** What a price costs the taker: the price itself to a buyer, its negation to a seller. */
  function Dearness(taker: Side, price: int): int {
    if taker.Buy? then price else -price
  }

  /** Prices run from the best for the taker to the worst. */
  predicate BestFirst(prices: seq<int>, taker: Side) {
    forall i, j :: 0 <= i < j < |prices| ==> Dearness(taker, prices[i]) < Dearness(taker, prices[j])
  }

  lemma ReachIsBestFirst(levels: Levels, taker: Side)
    ensures BestFirst(Reach(levels, taker), taker)
    ensures Among(Reach(levels, taker), levels)
    ensures forall p :: p in Reach(levels, taker) <==> p in levels
  {
  }

  /** Size displayed at prices the limit accepts. */
  function DepthWithin(prices: seq<int>, levels: Levels, taker: Side, limit: Option<int>): int
    requires Among(prices, levels)
  {
    if prices == [] then 0
    else
      (if Acceptable(taker, prices[0], limit) then levels[prices[0]] else 0)
        + DepthWithin(prices[1..], levels, taker, limit)
  }

  /** Every fill is a positive piece of a displayed level the limit accepts, best price first. */
  predicate SoundFills(fills: seq<(int, int)>, levels: Levels, taker: Side, limit: Option<int>) {
    && (forall i :: 0 <= i < |fills| ==>
          && fills[i].0 in levels
          && 0 < fills[i].1 <= levels[fills[i].0]
          && Acceptable(taker, fills[i].0, limit))
    && (forall i, j :: 0 <= i < j < |fills| ==>
          Dearness(taker, fills[i].0) < Dearness(taker, fills[j].0))
  }

  /** The same, level after level, every price dearer than the one before. */
  predicate SoundFrom(fills: seq<(int, int)>, levels: Levels, taker: Side, limit: Option<int>, above: int) {
    fills == [] ||
      var (p, q) := fills[0];
      && p in levels && 0 < q <= levels[p] && Acceptable(taker, p, limit)
      && above < Dearness(taker, p)
      && SoundFrom(fills[1..], levels, taker, limit, Dearness(taker, p))
  }

  lemma {:induction false} SoundFromIsSound(fills: seq<(int, int)>, levels: Levels, taker: Side, limit: Option<int>, above: int)
    requires SoundFrom(fills, levels, taker, limit, above)
    ensures SoundFills(fills, levels, taker, limit)
    ensures forall i :: 0 <= i < |fills| ==> above < Dearness(taker, fills[i].0)
    decreases |fills|
  {
    if fills != [] {
      SoundFromIsSound(fills[1..], levels, taker, limit, Dearness(taker, fills[0].0));
      assert forall i :: 1 <= i < |fills| ==> fills[i] == fills[1..][i - 1];
    }
  }

  lemma {:induction false} VisitIsSound(prices: seq<int>, levels: Levels, taker: Side, q: int, limit: Option<int>, above: int)
    requires BestFirst(prices, taker) && Among(prices, levels)
    requires forall i :: 0 <= i < |prices| ==> above < Dearness(taker, prices[i])
    ensures SoundFrom(Visit(prices, levels, taker, q, limit).fills, levels, taker, limit, above)
    decreases |prices|
  {
    if prices != [] && q > 0 && Acceptable(taker, prices[0], limit) {
      var take := Min(q, levels[prices[0]]);
      if take > 0 {
        VisitIsSound(prices[1..], levels, taker, q - take, limit, Dearness(taker, prices[0]));
        var w := Visit(prices, levels, taker, q, limit);
        assert w.fills[1..] == Visit(prices[1..], levels, taker, q - take, limit).fills;
      } else {
        VisitIsSound(prices[1..], levels, taker, q, limit, above);
      }
    }
  }

  /** Fills and remainder account for the request, whatever the levels hold. */
  lemma {:induction false} VisitAccountsForRequest(prices: seq<int>, levels: Levels, taker: Side, q: int, limit: Option<int>)
    requires Among(prices, levels)
    ensures var w := Visit(prices, levels, taker, q, limit);
            && Total(w.fills) + w.unfilled == q
            && (q >= 0 ==> 0 <= w.unfilled <= q)
            && (q < 0 ==> w.fills == [])
    decreases |prices|
  {
    if prices != [] && q > 0 && Acceptable(taker, prices[0], limit) {
      var take := Min(q, levels[prices[0]]);
      if take > 0 {
        VisitAccountsForRequest(prices[1..], levels, taker, q - take, limit);
        var w := Visit(prices, levels, taker, q, limit);
        assert w.fills[1..] == Visit(prices[1..], levels, taker, q - take, limit).fills;
      } else {
        VisitAccountsForRequest(prices[1..], levels, taker, q, limit);
      }
    }
  }

  /** Once the limit refuses a price it refuses every worse one. */
  lemma {:induction false} NothingBeyondTheLimit(prices: seq<int>, levels: Levels, taker: Side, limit: Option<int>)
    requires BestFirst(prices, taker) && Among(prices, levels)
    requires prices != [] && !Acceptable(taker, prices[0], limit)
    ensures DepthWithin(prices, levels, taker, limit) == 0
    decreases |prices|
  {
    if |prices| > 1 {
      assert Dearness(taker, prices[0]) < Dearness(taker, prices[1]);
      assert prices[1..][0] == prices[1];
      NothingBeyondTheLimit(prices[1..], levels, taker, limit);
    }
  }

  lemma {:induction false} DepthIsNonNegative(prices: seq<int>, levels: Levels, taker: Side, limit: Option<int>)
    requires Positive(levels) && Among(prices, levels)
    ensures DepthWithin(prices, levels, taker, limit) >= 0
    decreases |prices|
  {
    if prices != [] {
      assert prices[0] in levels;
      DepthIsNonNegative(prices[1..], levels, taker, limit);
    }
  }

  lemma {:induction false} VisitTakesAllItCan(prices: seq<int>, levels: Levels, taker: Side, q: int, limit: Option<int>)
    requires BestFirst(prices, taker) && Positive(levels) && Among(prices, levels)
    requires q >= 0
    ensures Total(Visit(prices, levels, taker, q, limit).fills)
         == Min(q, DepthWithin(prices, levels, taker, limit))
    decreases |prices|
  {
    DepthIsNonNegative(prices, levels, taker, limit);
    if prices != [] && q > 0 {
      if Acceptable(taker, prices[0], limit) {
        var take := Min(q, levels[prices[0]]);
        assert take > 0;
        VisitTakesAllItCan(prices[1..], levels, taker, q - take, limit);
        DepthIsNonNegative(prices[1..], levels, taker, limit);
        var w := Visit(prices, levels, taker, q, limit);
        assert w.fills[1..] == Visit(prices[1..], levels, taker, q - take, limit).fills;
      } else {
        NothingBeyondTheLimit(prices, levels, taker, limit);
      }
    }
  }

  // ----- No better way to take that quantity -----

  /** Any way of taking size out of the levels: at most what is displayed, within the limit. */
  predicate Feasible(take: map<int, int>, levels: Levels, taker: Side, limit: Option<int>) {
    && take.Keys == levels.Keys
    && (forall p :: p in take ==> 0 <= take[p] <= levels[p])
    && (forall p :: p in take && take[p] > 0 ==> Acceptable(taker, p, limit))
  }

  function Taken(prices: seq<int>, take: map<int, int>): int
    requires Among(prices, take)
  {
    if prices == [] then 0 else take[prices[0]] + Taken(prices[1..], take)
  }

  /** What an allocation costs a buyer, or the negation of what it earns a seller. */
  function Cost(prices: seq<int>, take: map<int, int>, taker: Side): int
    requires Among(prices, take)
  {
    if prices == [] then 0
    else Dearness(taker, prices[0]) * take[prices[0]] + Cost(prices[1..], take, taker)
  }

  function CostOf(fills: seq<(int, int)>, taker: Side): int {
    if fills == [] then 0 else Dearness(taker, fills[0].0) * fills[0].1 + CostOf(fills[1..], taker)
  }

  lemma {:induction false} EveryUnitCostsAtLeast(
    prices: seq<int>, levels: Levels, take: map<int, int>, taker: Side, limit: Option<int>, base: int)
    requires Feasible(take, levels, taker, limit) && Among(prices, levels)
    requires forall i :: 0 <= i < |prices| ==> base <= Dearness(taker, prices[i])
    ensures Cost(prices, take, taker) >= base * Taken(prices, take)
    ensures Taken(prices, take) >= 0
    decreases |prices|
  {
    if prices != [] {
      EveryUnitCostsAtLeast(prices[1..], levels, take, taker, limit, base);
      var p := prices[0];
      MulMonotone(take[p], base, Dearness(taker, p));
      assert base * Taken(prices, take) == base * take[p] + base * Taken(prices[1..], take);
    }
  }

  lemma MarginalStep(b: int, p: int, t: int, f: int, costRest: int, costWalk: int, a: int, g: int)
    requires b <= p && f <= t
    requires costRest - p * (t - a) >= costWalk - p * (f - g)
    ensures (p * a + costRest) - b * t >= (p * g + costWalk) - b * f
  {
    assert p * (t - a) == p * t - p * a && p * (f - g) == p * f - p * g;
    assert (p - b) * (t - f) >= 0;
    assert (p - b) * (t - f) == p * t - p * f - b * t + b * f;
  }

  lemma RestIsDearer(prices: seq<int>, taker: Side)
    requires prices != [] && BestFirst(prices, taker)
    ensures forall i :: 0 <= i < |prices[1..]| ==> Dearness(taker, prices[0]) <= Dearness(taker, prices[1..][i])
    ensures BestFirst(prices[1..], taker)
  {
  }

  /** The first level of a walk over positive levels. */
  lemma VisitTakesFirst(prices: seq<int>, levels: Levels, taker: Side, q: int, limit: Option<int>)
    requires Positive(levels) && Among(prices, levels)
    requires prices != [] && q > 0 && Acceptable(taker, prices[0], limit)
    ensures var g := Min(q, levels[prices[0]]);
            var w := Visit(prices, levels, taker, q, limit);
            var rest := Visit(prices[1..], levels, taker, q - g, limit);
            && g > 0
            && w.fills == [(prices[0], g)] + rest.fills
            && Total(w.fills) == g + Total(rest.fills)
            && CostOf(w.fills, taker) == Dearness(taker, prices[0]) * g + CostOf(rest.fills, taker)
            && (q == g ==> rest.fills == [])
  {
    assert prices[0] in levels;
    var g := Min(q, levels[prices[0]]);
    var w := Visit(prices, levels, taker, q, limit);
    assert w.fills[1..] == Visit(prices[1..], levels, taker, q - g, limit).fills;
  }

  /** Over a base price, the allocation pays at least what the fills pay. */
  predicate PaysAtLeast(prices: seq<int>, take: map<int, int>, taker: Side, fills: seq<(int, int)>, base: int)
    requires Among(prices, take)
  {
    Cost(prices, take, taker) - base * Taken(prices, take) >= CostOf(fills, taker) - base * Total(fills)
  }

  lemma FirstLevelKeepsBound(
    prices: seq<int>, take: map<int, int>, taker: Side, rest: seq<(int, int)>, g: int, base: int)
    requires prices != [] && Among(prices, take)
    requires base <= Dearness(taker, prices[0])
    requires g + Total(rest) <= Taken(prices, take)
    requires PaysAtLeast(prices[1..], take, taker, rest, Dearness(taker, prices[0]))
    ensures PaysAtLeast(prices, take, taker, [(prices[0], g)] + rest, base)
  {
    assert ([(prices[0], g)] + rest)[1..] == rest;
    MarginalStep(base, Dearness(taker, prices[0]), Taken(prices, take), g + Total(rest),
                 Cost(prices[1..], take, taker), CostOf(rest, taker), take[prices[0]], g);
  }

  /**
   Against any base price no better than the best level: an allocation that takes at least as
   much as the walk pays at least as much over that base.
   */
  lemma {:induction false} WalkIsCheapestOverBase(
    prices: seq<int>, levels: Levels, take: map<int, int>, taker: Side, q: int, limit: Option<int>, base: int)
    requires BestFirst(prices, taker) && Positive(levels) && Feasible(take, levels, taker, limit)
    requires Among(prices, levels)
    requires forall i :: 0 <= i < |prices| ==> base <= Dearness(taker, prices[i])
    requires q >= 0
    requires Taken(prices, take) >= Total(Visit(prices, levels, taker, q, limit).fills)
    ensures PaysAtLeast(prices, take, taker, Visit(prices, levels, taker, q, limit).fills, base)
    decreases |prices|
  {
    if prices != [] && q > 0 && Acceptable(taker, prices[0], limit) {
      var c := Dearness(taker, prices[0]);
      var g := Min(q, levels[prices[0]]);
      var rest := Visit(prices[1..], levels, taker, q - g, limit).fills;
      VisitTakesFirst(prices, levels, taker, q, limit);
      RestIsDearer(prices, taker);
      if q == g {
        EveryUnitCostsAtLeast(prices[1..], levels, take, taker, limit, c);
      } else {
        WalkIsCheapestOverBase(prices[1..], levels, take, taker, q - g, limit, c);
      }
      FirstLevelKeepsBound(prices, take, taker, rest, g, base);
    } else {
      EveryUnitCostsAtLeast(prices, levels, take, taker, limit, base);
    }
  }

  /**
   The walk, over any book whose levels are positive: it accounts for the whole request, fills
   exactly the smaller of the request and the depth within the limit, takes best prices first
   and never more than a level shows.
   */
  lemma WalkIsConservative(b: BookState, taker: Side, q: nat, limit: Option<int>)
    requires ValidBook(b)
    ensures var levels := Facing(b, taker);
            var w := Walk(b, taker, q, limit);
            && SoundFills(w.fills, levels, taker, limit)
            && Total(w.fills) + w.unfilled == q
            && Total(w.fills) == Min(q, DepthWithin(Reach(levels, taker), levels, taker, limit))
  {
    var levels := Facing(b, taker);
    var prices := Reach(levels, taker);
    ReachIsBestFirst(levels, taker);
    var above := if prices == [] then 0 else Dearness(taker, prices[0]) - 1;
    VisitIsSound(prices, levels, taker, q, limit, above);
    SoundFromIsSound(Walk(b, taker, q, limit).fills, levels, taker, limit, above);
    VisitAccountsForRequest(prices, levels, taker, q, limit);
    VisitTakesAllItCan(prices, levels, taker, q, limit);
  }

  /**
   Nobody taking that quantity from those levels, in whatever pieces, pays less (a buyer) or
   earns more (a seller) than the walk does.
   */
  lemma WalkIsOptimal(b: BookState, taker: Side, q: nat, limit: Option<int>, take: map<int, int>)
    requires ValidBook(b) && Feasible(take, Facing(b, taker), taker, limit)
    requires Taken(Reach(Facing(b, taker), taker), take) == Total(Walk(b, taker, q, limit).fills)
    ensures Cost(Reach(Facing(b, taker), taker), take, taker) >= CostOf(Walk(b, taker, q, limit).fills, taker)
  {
    var levels := Facing(b, taker);
    var prices := Reach(levels, taker);
    ReachIsBestFirst(levels, taker);
    if prices != [] {
      WalkIsCheapestOverBase(prices, levels, take, taker, q, limit, Dearness(taker, prices[0]));
    }
  }

  /** The first price reached is the best one on that side. */
  lemma ReachStartsAtBest(b: BookState, taker: Side)
    ensures var prices := Reach(Facing(b, taker), taker);
            var best := if taker.Buy? then BestAsk(b) else BestBid(b);
            && (prices == [] <==> best.None?)
            && (prices != [] ==> prices[0] == best.value)
  {
    var levels := Facing(b, taker);
    var prices := Reach(levels, taker);
    ReachIsBestFirst(levels, taker);
    var best := if taker.Buy? then BestAsk(b) else BestBid(b);
    assert best.Some? ==> best.value in prices;
    assert prices != [] ==> prices[0] in levels;
  }

  /** A walk comes back empty exactly when the best opposite price is beyond the limit. */
  lemma WalkIsEmptyUnlessCrossing(b: BookState, taker: Side, q: int, limit: int)
    requires ValidBook(b) && q > 0
    ensures Walk(b, taker, q, Some(limit)).fills == []
       <==> if taker.Buy? then BestAsk(b).None? || BestAsk(b).value > limit
            else BestBid(b).None? || BestBid(b).value < limit
  {
    var levels := Facing(b, taker);
    var prices := Reach(levels, taker);
    ReachIsBestFirst(levels, taker);
    ReachStartsAtBest(b, taker);
    if prices != [] && Acceptable(taker, prices[0], Some(limit)) {
      VisitTakesFirst(prices, levels, taker, q, Some(limit));
    }
  }
}
