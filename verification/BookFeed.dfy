/**
 How the feed builds a book: snapshots, increments, declared gaps and splits.

 A declared gap makes the book stale, and nothing but a fresh snapshot makes it usable again.
 */
module BookFeed {
  import opened FixedPoint
  import opened Sorting
  import opened Sums
  import opened Orders
  import opened Corporate
  import opened Book

  datatype BookAction = Set | Delete | Clear

  datatype BookDelta = BookDelta(action: BookAction, side: Side, price: int, size: int)

  const EMPTY: BookState := BookState(map[], map[], NeverSeen)

  // ----- Snapshots -----

  function SnapshotSide(levels: seq<(int, int)>): (m: Levels)
    ensures Positive(m)
  {
    if levels == [] then map[]
    else
      var rest := SnapshotSide(levels[..|levels| - 1]);
      var (price, size) := levels[|levels| - 1];
      if size > 0 then rest[price := size] else rest
  }

  /** A level shows the last positive size the snapshot quotes at its price, and no other price is shown. */
  lemma {:induction false} SnapshotShowsLastPositive(levels: seq<(int, int)>, price: int)
    ensures price in SnapshotSide(levels) <==> exists i :: 0 <= i < |levels| && levels[i].0 == price && levels[i].1 > 0
    ensures price in SnapshotSide(levels) ==>
              exists i :: 0 <= i < |levels| && levels[i] == (price, SnapshotSide(levels)[price])
                && forall j :: i < j < |levels| && levels[j].0 == price ==> levels[j].1 <= 0
    decreases |levels|
  {
    if levels != [] {
      var n := |levels| - 1;
      var front := levels[..n];
      SnapshotShowsLastPositive(front, price);
      assert forall i :: 0 <= i < n ==> front[i] == levels[i];
      if levels[n].0 == price && levels[n].1 > 0 {
        assert levels[n] == (price, SnapshotSide(levels)[price]);
      } else if price in SnapshotSide(levels) {
        var i :| 0 <= i < n && front[i] == (price, SnapshotSide(front)[price])
                 && forall j :: i < j < n && front[j].0 == price ==> front[j].1 <= 0;
        assert levels[i] == (price, SnapshotSide(levels)[price]);
      }
    }
  }

  // ----- Increments -----

  function DeltaSide(m: Levels, d: BookDelta): (m': Levels) {
    match d.action
    case Set => if d.size > 0 then m[d.price := d.size] else m - {d.price}
    case Delete => m - {d.price}
    case Clear => map[]
  }

  /** The book after an increment, or nothing when the book has no base to apply it to. */
  function DeltaApplied(b: BookState, d: BookDelta): (r: Option<BookState>)
    ensures r.None? <==> b.status != Fresh
  {
    if b.status != Fresh then None
    else if d.side.Buy? then Some(b.(bids := DeltaSide(b.bids, d)))
    else Some(b.(asks := DeltaSide(b.asks, d)))
  }

  // ----- Splits -----

  function AddLevel(m: Levels, price: int, size: int): Levels {
    if size <= 0 then m else m[price := ValueOr(m, price, 0) + size]
  }

  /** Requote levels one by one; two that round onto one price are added together. */
  function SplitFold(prices: seq<int>, levels: Levels, ratio: int, acc: Levels): (m: Levels)
    requires ratio > 0 && Among(prices, levels)
    decreases |prices|
  {
    if prices == [] then acc
    else
      SplitFold(prices[1..], levels, ratio,
                AddLevel(acc, SplitPrice(ratio, prices[0]), SplitQuantity(ratio, levels[prices[0]])))
  }

  function SplitSide(levels: Levels, ratio: int): (m: Levels)
    requires ratio > 0
  {
    SplitFold(Ascending(levels.Keys), levels, ratio, map[])
  }

  /** Displayed size, after truncation, of every level that keeps any. */
  function SplitTotal(prices: seq<int>, levels: Levels, ratio: int): int
    requires ratio > 0 && Among(prices, levels)
  {
    if prices == [] then 0
    else Max(SplitQuantity(ratio, levels[prices[0]]), 0) + SplitTotal(prices[1..], levels, ratio)
  }

  lemma {:induction false} SplitFoldKeepsSize(prices: seq<int>, levels: Levels, ratio: int, acc: Levels)
    requires ratio > 0 && Positive(acc) && Among(prices, levels)
    ensures var m := SplitFold(prices, levels, ratio, acc);
            && Positive(m)
            && MapSum(m) == MapSum(acc) + SplitTotal(prices, levels, ratio)
            && (forall x :: x in m ==> x in acc || exists p :: p in prices && SplitPrice(ratio, p) == x)
    decreases |prices|
  {
    if prices != [] {
      var price, size := SplitPrice(ratio, prices[0]), SplitQuantity(ratio, levels[prices[0]]);
      var acc' := AddLevel(acc, price, size);
      MapSumUpdate(acc, price, ValueOr(acc, price, 0) + size);
      SplitFoldKeepsSize(prices[1..], levels, ratio, acc');
      var m := SplitFold(prices, levels, ratio, acc);
      forall x | x in m && x !in acc ensures exists p :: p in prices && SplitPrice(ratio, p) == x {
        if x != price {
          var p :| p in prices[1..] && SplitPrice(ratio, p) == x;
          assert p in prices;
        } else {
          assert prices[0] in prices;
        }
      }
    }
  }

  /** Split size of the levels that round onto one price. */
  function SplitTotalAt(prices: seq<int>, levels: Levels, ratio: int, x: int): int
    requires ratio > 0 && Among(prices, levels)
  {
    if prices == [] then 0
    else
      (if SplitPrice(ratio, prices[0]) == x then Max(SplitQuantity(ratio, levels[prices[0]]), 0) else 0)
        + SplitTotalAt(prices[1..], levels, ratio, x)
  }

  lemma {:induction false} SplitFoldAt(prices: seq<int>, levels: Levels, ratio: int, acc: Levels, x: int)
    requires ratio > 0 && Among(prices, levels)
    ensures ValueOr(SplitFold(prices, levels, ratio, acc), x, 0)
         == ValueOr(acc, x, 0) + SplitTotalAt(prices, levels, ratio, x)
    decreases |prices|
  {
    hide SplitPrice, SplitQuantity;
    if prices != [] {
      SplitFoldAt(prices[1..], levels, ratio,
                  AddLevel(acc, SplitPrice(ratio, prices[0]), SplitQuantity(ratio, levels[prices[0]])), x);
    }
  }

  /** Each requoted price shows exactly the split sizes of the levels that round onto it. */
  lemma SplitSideShowsEachLevel(levels: Levels, ratio: int, x: int)
    requires ratio > 0
    ensures ValueOr(SplitSide(levels, ratio), x, 0) == SplitTotalAt(Ascending(levels.Keys), levels, ratio, x)
  {
    SplitFoldAt(Ascending(levels.Keys), levels, ratio, map[], x);
  }

  /**
   Requoting a side merges colliding levels instead of dropping one: the depth shown after a
   split is the sum of every level's own split size, and sizes stay positive.
   */
  lemma SplitSideKeepsDepth(levels: Levels, ratio: int)
    requires ratio > 0
    ensures Positive(SplitSide(levels, ratio))
    ensures MapSum(SplitSide(levels, ratio)) == SplitTotal(Ascending(levels.Keys), levels, ratio)
    ensures forall x :: x in SplitSide(levels, ratio) ==>
              exists p :: p in levels && SplitPrice(ratio, p) == x
  {
    SplitFoldKeepsSize(Ascending(levels.Keys), levels, ratio, map[]);
    var m := SplitSide(levels, ratio);
    forall x | x in m ensures exists p :: p in levels && SplitPrice(ratio, p) == x {
      var p :| p in Ascending(levels.Keys) && SplitPrice(ratio, p) == x;
      assert p in levels;
    }
  }

  // ----- Any feed -----

  datatype FeedOp =
    | Snapshot(bids: seq<(int, int)>, asks: seq<(int, int)>)
    | Increment(delta: BookDelta)
    | Gap(ts: int)
    | Split(ratio: int)

  function SplitBook(b: BookState, ratio: int): BookState
    requires ratio > 0
  {
    b.(bids := SplitSide(b.bids, ratio), asks := SplitSide(b.asks, ratio))
  }

  /** A refused increment, and a ratio no split may have, leave the book as it was. */
  function Fed(b: BookState, op: FeedOp): (b': BookState) {
    match op
    case Snapshot(bids, asks) => BookState(SnapshotSide(bids), SnapshotSide(asks), Fresh)
    case Increment(d) => (match DeltaApplied(b, d) case Some(b') => b' case None => b)
    case Gap(ts) => BookState(map[], map[], Stale(ts))
    case Split(ratio) => if ratio > 0 then SplitBook(b, ratio) else b
  }

  function FedAll(b: BookState, ops: seq<FeedOp>): (b': BookState) {
    if ops == [] then b else Fed(FedAll(b, ops[..|ops| - 1]), ops[|ops| - 1])
  }

  /** Whether the latest snapshot or gap in the feed is a snapshot. */
  predicate SnapshotSinceGap(ops: seq<FeedOp>) {
    if ops == [] then false
    else
      var last := ops[|ops| - 1];
      last.Snapshot? || (!last.Gap? && SnapshotSinceGap(ops[..|ops| - 1]))
  }

  /** A book as a feed leaves it: sizes positive, and nothing shown unless it is fresh. */
  predicate WellFed(b: BookState) {
    ValidBook(b) && (b.status != Fresh ==> b.bids == map[] && b.asks == map[])
  }

  lemma SplitOfNothing(ratio: int)
    requires ratio > 0
    ensures SplitSide(map[], ratio) == map[]
  {
  }

  lemma SplitKeepsWellFed(b: BookState, ratio: int)
    requires WellFed(b) && ratio > 0
    ensures WellFed(SplitBook(b, ratio)) && SplitBook(b, ratio).status == b.status
  {
    hide SplitSide;
    SplitSideKeepsDepth(b.bids, ratio);
    SplitSideKeepsDepth(b.asks, ratio);
    SplitOfNothing(ratio);
  }

  lemma DeltaKeepsWellFed(b: BookState, d: BookDelta)
    requires WellFed(b) && b.status == Fresh
    ensures WellFed(DeltaApplied(b, d).value) && DeltaApplied(b, d).value.status == Fresh
  {
  }

  /** One message: what it does to freshness, and that the book stays well formed. */
  lemma FedKeepsWellFed(b: BookState, op: FeedOp)
    requires WellFed(b)
    ensures WellFed(Fed(b, op))
    ensures Fed(b, op).status == Fresh <==> op.Snapshot? || (!op.Gap? && b.status == Fresh)
  {
    hide SplitBook, DeltaSide;
    if op.Split? && op.ratio > 0 {
      SplitKeepsWellFed(b, op.ratio);
    }
    if op.Increment? && b.status == Fresh {
      DeltaKeepsWellFed(b, op.delta);
    }
  }

  /**
   Whatever a feed sends, in whatever order: every level keeps a positive size, an increment is
   taken exactly when a snapshot has arrived since the last declared gap, and a stale book
   shows nothing to trade against.
   */
  lemma {:induction false} FeedKeepsBook(ops: seq<FeedOp>)
    ensures var b := FedAll(EMPTY, ops);
            && ValidBook(b)
            && (b.status == Fresh <==> SnapshotSinceGap(ops))
            && (b.status != Fresh ==> b.bids == map[] && b.asks == map[])
    decreases |ops|
  {
    hide Fed;
    if ops != [] {
      var n := |ops| - 1;
      FeedKeepsBook(ops[..n]);
      FedKeepsWellFed(FedAll(EMPTY, ops[..n]), ops[n]);
    }
  }

  /** When the latest declared gap was. */
  function LastGap(ops: seq<FeedOp>): Option<int> {
    if ops == [] then None
    else match ops[|ops| - 1]
      case Gap(ts) => Some(ts)
      case _ => LastGap(ops[..|ops| - 1])
  }

  /** A book that is not fresh is stale since the latest gap, or has never been seen. */
  lemma {:induction false} StaleSinceLastGap(ops: seq<FeedOp>)
    ensures !SnapshotSinceGap(ops) ==>
              FedAll(EMPTY, ops).status == match LastGap(ops) { case None => NeverSeen case Some(ts) => Stale(ts) }
    decreases |ops|
  {
    hide SplitSide, DeltaSide, SnapshotSide;
    if ops != [] {
      StaleSinceLastGap(ops[..|ops| - 1]);
    }
  }

  // ----- What a level shows -----

  /** Size shown at a price on the bid side for `Buy`, on the offer side for `Sell`; none is zero. */
  function Shown(b: BookState, side: Side, price: int): int {
    if side == Buy then ValueOr(b.bids, price, 0) else ValueOr(b.asks, price, 0)
  }

  /** The last positive size a list of levels quotes at a price; none is zero. */
  function LastQuoted(levels: seq<(int, int)>, price: int): int {
    if levels == [] then 0
    else
      var (p, size) := levels[|levels| - 1];
      if p == price && size > 0 then size else LastQuoted(levels[..|levels| - 1], price)
  }

  lemma {:induction false} SnapshotShowsLastQuoted(levels: seq<(int, int)>, price: int)
    ensures ValueOr(SnapshotSide(levels), price, 0) == LastQuoted(levels, price)
    decreases |levels|
  {
    if levels != [] {
      SnapshotShowsLastQuoted(levels[..|levels| - 1], price);
    }
  }

  /**
   A taken increment, level by level: the named side shows the size sent at that price, or nothing
   for a deletion or a size that is not positive; a clear empties that side; every other level of
   both sides shows what it showed.
   */
  lemma IncrementShows(b: BookState, d: BookDelta, side: Side, price: int)
    requires b.status == Fresh
    ensures var shown := Shown(DeltaApplied(b, d).value, side, price);
            if side != d.side || (!d.action.Clear? && price != d.price) then shown == Shown(b, side, price)
            else if d.action.Set? && d.size > 0 then shown == d.size
            else shown == 0
    ensures DeltaApplied(b, d).value.status == Fresh
  {
  }

  /** A message that says something about one level of one side. */
  predicate Concerns(op: FeedOp, side: Side, price: int) {
    match op
    case Snapshot(_, _) => true
    case Gap(_) => true
    case Split(ratio) => ratio > 0
    case Increment(d) => d.side == side && (d.action.Clear? || d.price == price)
  }

  lemma OthersSayNothing(b: BookState, op: FeedOp, side: Side, price: int)
    requires !Concerns(op, side, price)
    ensures Shown(Fed(b, op), side, price) == Shown(b, side, price)
  {
    hide Shown, SplitBook, DeltaApplied;
    if op.Increment? && b.status == Fresh {
      IncrementShows(b, op.delta, side, price);
    }
  }

  /** What a message says about a level it concerns, given the book it arrives at. */
  function Said(b: BookState, op: FeedOp, side: Side, price: int): int {
    match op
    case Snapshot(bids, asks) => LastQuoted(if side == Buy then bids else asks, price)
    case Increment(d) => if b.status == Fresh && d.action.Set? && d.size > 0 then d.size else 0
    case Gap(_) => 0
    case Split(ratio) =>
      if ratio <= 0 then 0
      else
        var levels := if side == Buy then b.bids else b.asks;
        SplitTotalAt(Ascending(levels.Keys), levels, ratio, price)
  }

  lemma ConcernedIsSaid(b: BookState, op: FeedOp, side: Side, price: int)
    requires WellFed(b) && Concerns(op, side, price)
    ensures Shown(Fed(b, op), side, price) == Said(b, op, side, price)
  {
    hide SplitSide, DeltaApplied, SplitTotalAt, SnapshotSide, LastQuoted;
    match op
    case Snapshot(bids, asks) =>
      SnapshotShowsLastQuoted(bids, price);
      SnapshotShowsLastQuoted(asks, price);
    case Split(ratio) =>
      SplitSideShowsEachLevel(b.bids, ratio, price);
      SplitSideShowsEachLevel(b.asks, ratio, price);
    case Increment(d) =>
      if b.status == Fresh {
        IncrementShows(b, d, side, price);
      }
    case Gap(_) =>
  }

  lemma FeedIsWellFed(ops: seq<FeedOp>)
    ensures WellFed(FedAll(EMPTY, ops))
  {
    hide FedAll;
    FeedKeepsBook(ops);
  }

  /** A level no message said anything about shows nothing. */
  lemma {:induction false} SilentLevelIsEmpty(ops: seq<FeedOp>, side: Side, price: int)
    requires forall k :: 0 <= k < |ops| ==> !Concerns(ops[k], side, price)
    ensures Shown(FedAll(EMPTY, ops), side, price) == 0
    decreases |ops|
  {
    hide Fed, Shown, Concerns;
    if ops == [] {
      NothingShown(side, price);
    } else {
      var n := |ops| - 1;
      SilentLevelIsEmpty(ops[..n], side, price);
      OthersSayNothing(FedAll(EMPTY, ops[..n]), ops[n], side, price);
    }
  }

  /**
   Under any feed a level shows what the last message about it said: the last positive quote of a
   snapshot, the size an increment set, nothing after a deletion, a clear, a gap or an increment
   without a base, and the merged sizes after a split.
   */
  lemma {:induction false} FeedShowsLastSaid(ops: seq<FeedOp>, side: Side, price: int, k: nat)
    requires k < |ops| && Concerns(ops[k], side, price)
    requires forall j :: k < j < |ops| ==> !Concerns(ops[j], side, price)
    ensures Shown(FedAll(EMPTY, ops), side, price) == Said(FedAll(EMPTY, ops[..k]), ops[k], side, price)
    decreases |ops|
  {
    hide Fed, Shown, Said, Concerns;
    var n := |ops| - 1;
    if k == n {
      FeedIsWellFed(ops[..n]);
      ConcernedIsSaid(FedAll(EMPTY, ops[..n]), ops[n], side, price);
    } else {
      FeedShowsLastSaid(ops[..n], side, price, k);
      OthersSayNothing(FedAll(EMPTY, ops[..n]), ops[n], side, price);
      assert ops[..n][..k] == ops[..k] && ops[..n][k] == ops[k];
    }
  }

  lemma NothingShown(side: Side, price: int)
    ensures Shown(EMPTY, side, price) == 0
  {
  }

  /** The two-sided book of one market. */
  class OrderBook {
    var bids: Levels
    var asks: Levels
    var status: Freshness

    function State(): BookState
      reads this
    {
      BookState(bids, asks, status)
    }

    constructor ()
      ensures State() == EMPTY
    {
      bids, asks, status := map[], map[], NeverSeen;
    }

    method ApplySnapshot(newBids: seq<(int, int)>, newAsks: seq<(int, int)>)
      modifies this
      ensures State() == Fed(old(State()), Snapshot(newBids, newAsks))
    {
      bids := ReadSide(newBids);
      asks := ReadSide(newAsks);
      status := Fresh;
    }

    static method ReadSide(levels: seq<(int, int)>) returns (m: Levels)
      ensures m == SnapshotSide(levels)
    {
      m := map[];
      for i := 0 to |levels|
        invariant m == SnapshotSide(levels[..i])
      {
        assert levels[..i + 1][..i] == levels[..i];
        var (price, size) := levels[i];
        if size > 0 {
          m := m[price := size];
        }
      }
      assert levels[..|levels|] == levels;
    }

    method MarkGap(ts: int)
      modifies this
      ensures State() == Fed(old(State()), Gap(ts))
    {
      bids, asks, status := map[], map[], Stale(ts);
    }

    /** Reports whether the increment was taken; a refusal changes nothing. */
    method ApplyDelta(d: BookDelta) returns (taken: bool)
      modifies this
      ensures taken <==> old(status) == Fresh
      ensures State() == Fed(old(State()), Increment(d))
    {
      taken := status == Fresh;
      if taken {
        var side := if d.side.Buy? then bids else asks;
        match d.action {
          case Set =>
            if d.size > 0 {
              side := side[d.price := d.size];
            } else {
              side := side - {d.price};
            }
          case Delete =>
            side := side - {d.price};
          case Clear =>
            side := map[];
        }
        if d.side.Buy? {
          bids := side;
        } else {
          asks := side;
        }
      }
    }

    method ApplySplit(ratio: int)
      requires ratio > 0
      modifies this
      ensures State() == SplitBook(old(State()), ratio)
    {
      bids := RequoteSide(bids, ratio);
      asks := RequoteSide(asks, ratio);
    }

    static method RequoteSide(levels: Levels, ratio: int) returns (m: Levels)
      requires ratio > 0
      ensures m == SplitSide(levels, ratio)
    {
      m := RequoteLevels(Ascending(levels.Keys), levels, ratio);
    }

    static method RequoteLevels(prices: seq<int>, levels: Levels, ratio: int) returns (m: Levels)
      requires ratio > 0 && Among(prices, levels)
      ensures m == SplitFold(prices, levels, ratio, map[])
    {
      m := map[];
      var rest := prices;
      while rest != []
        invariant Among(rest, levels)
        invariant SplitFold(rest, levels, ratio, m) == SplitFold(prices, levels, ratio, map[])
        decreases |rest|
      {
        var size := SplitQuantity(ratio, levels[rest[0]]);
        var price := SplitPrice(ratio, rest[0]);
        if size > 0 {
          m := m[price := ValueOr(m, price, 0) + size];
        }
        rest := rest[1..];
      }
    }

    /** Consume up to `qty` as a taker would, level by level. */
    method WalkBook(taker: Side, qty: int, limit: Option<int>) returns (fills: seq<(int, int)>, unfilled: int)
      ensures Walked(fills, unfilled) == Walk(State(), taker, qty, limit)
    {
      var levels := Facing(State(), taker);
      fills, unfilled := VisitLevels(Reach(levels, taker), levels, taker, qty, limit);
    }

    static method VisitLevels(prices: seq<int>, levels: Levels, taker: Side, qty: int, limit: Option<int>)
      returns (fills: seq<(int, int)>, unfilled: int)
      requires Among(prices, levels)
      ensures Walked(fills, unfilled) == Visit(prices, levels, taker, qty, limit)
    {
      fills, unfilled := [], qty;
      var rest := prices;
      while rest != [] && unfilled > 0 && Acceptable(taker, rest[0], limit)
        invariant Among(rest, levels)
        invariant After(fills, Visit(rest, levels, taker, unfilled, limit)) == Visit(prices, levels, taker, qty, limit)
        decreases |rest|
      {
        var take := Min(unfilled, levels[rest[0]]);
        VisitOneLevel(fills, rest, levels, taker, unfilled, limit);
        if take > 0 {
          fills := fills + [(rest[0], take)];
          unfilled := unfilled - take;
        }
        rest := rest[1..];
      }
      assert fills + [] == fills;
    }
  }

  function After(fills: seq<(int, int)>, w: Walked): Walked {
    Walked(fills + w.fills, w.unfilled)
  }

  lemma VisitOneLevel(fills: seq<(int, int)>, prices: seq<int>, levels: Levels, taker: Side, q: int, limit: Option<int>)
    requires Among(prices, levels)
    requires prices != [] && q > 0 && Acceptable(taker, prices[0], limit)
    ensures var take := Min(q, levels[prices[0]]);
            After(fills, Visit(prices, levels, taker, q, limit))
              == if take > 0 then After(fills + [(prices[0], take)], Visit(prices[1..], levels, taker, q - take, limit))
                 else After(fills, Visit(prices[1..], levels, taker, q, limit))
  {
    var take := Min(q, levels[prices[0]]);
    if take > 0 {
      var rest := Visit(prices[1..], levels, taker, q - take, limit);
      assert fills + ([(prices[0], take)] + rest.fills) == (fills + [(prices[0], take)]) + rest.fills;
    }
  }
}
