/**
 Positions and profit against the record of fills, over whole runs.

 The profit a position reports is what its own fills paid, to within the rounding of each fill
 and each split.  The position itself can be rebuilt from its fills alone until a split moves it.
 */
module EngineProfit {
  import opened FixedPoint
  import opened Orders
  import opened Positions
  import opened Corporate
  import opened Engine
  import opened EngineRuns
  import opened EngineAccount

  // ----- One slot's holding through a history -----

  predicate Splits(e: Event, slot: Slot) {
    e.Rescaled? && e.ratio > 0 && e.instrument == slot.instrument
  }

  predicate TradesIn(e: Event, slot: Slot) {
    e.Traded? && e.fill.slot == slot
  }

  function HeldThrough(events: seq<Event>, slot: Slot): Holding {
    if events == [] then FLAT
    else
      var h, last := HeldThrough(events[..|events| - 1], slot), events[|events| - 1];
      if TradesIn(last, slot) then Applied(h, last.fill)
      else if Splits(last, slot) then SplitHolding(last.ratio, h)
      else h
  }

  lemma {:induction false} FoldedAt(events: seq<Event>, slot: Slot)
    ensures At(Folded(map[], events), slot) == HeldThrough(events, slot)
    ensures slot in Folded(map[], events) <==> FillsOf(FillsIn(events), slot) != []
    decreases |events|
  {
    hide Applied, SplitQuantity, SplitPrice;
    if events != [] {
      var n := |events| - 1;
      FoldedAt(events[..n], slot);
      if events[n].Traded? {
        FillsOfAppend(FillsIn(events[..n]), events[n].fill, slot);
      }
    }
  }

  lemma FillsOfAppend(fills: seq<Fill>, f: Fill, slot: Slot)
    ensures FillsOf(fills + [f], slot) == FillsOf(fills, slot) + (if f.slot == slot then [f] else [])
  {
    assert (fills + [f])[..|fills|] == fills;
  }

  // ----- Profit, splits included -----

  /** How far one split may move the basis: a raw unit of price and of size, at what is held after. */
  function SplitSlack(h': Holding): nat {
    Abs(h'.quantity) + Abs(h'.averagePrice)
  }

  /** The slack of every fill and every split of one slot. */
  function HistorySlack(events: seq<Event>, slot: Slot): nat {
    if events == [] then 0
    else
      var last, h' := events[|events| - 1], HeldThrough(events, slot);
      HistorySlack(events[..|events| - 1], slot)
        + if TradesIn(last, slot) then Slack(h'.quantity)
          else if Splits(last, slot) then SplitSlack(h')
          else 0
  }

  lemma SameSign(x: int, y: int, x': int, y': int)
    requires (x >= 0 ==> x' >= 0) && (x <= 0 ==> x' <= 0) && (y >= 0 ==> y' >= 0) && (y <= 0 ==> y' <= 0)
    ensures Abs(x' * y' - x * y) == Abs(Abs(x) * Abs(y) - Abs(x') * Abs(y'))
  {
    AbsOfProduct(x, y);
    AbsOfProduct(x', y');
  }

  lemma SplitKeepsSigns(ratio: int, x: int)
    requires ratio > 0
    ensures x >= 0 ==> SplitQuantity(ratio, x) >= 0 && SplitPrice(ratio, x) >= 0
    ensures x <= 0 ==> SplitQuantity(ratio, x) <= 0 && SplitPrice(ratio, x) <= 0
  {
    TruncDivBounds(x * ratio, SCALE);
    TruncDivBounds(x * SCALE, ratio);
    if x >= 0 {
      ProductSign(x, ratio);
    } else {
      ProductSign(-x, ratio);
      assert -x * ratio == -(x * ratio);
    }
  }

  /** A split moves no profit, and the basis by less than a raw unit on each leg. */
  lemma SplitDrift(ratio: int, h: Holding)
    requires ratio > 0
    ensures var h' := SplitHolding(ratio, h);
            Gross(h') == Gross(h) && Abs(Basis(h') - Basis(h)) <= SplitSlack(h')
  {
    hide SplitQuantity, SplitPrice;
    if h.quantity != 0 {
      var h' := SplitHolding(ratio, h);
      SplitLosesLittleValue(ratio, h.quantity, h.averagePrice);
      SplitKeepsSigns(ratio, h.quantity);
      SplitKeepsSigns(ratio, h.averagePrice);
      SameSign(h.averagePrice, h.quantity, h'.averagePrice, h'.quantity);
      assert Abs(h.averagePrice) * Abs(h.quantity) == Abs(h.quantity) * Abs(h.averagePrice);
      assert Abs(h'.averagePrice) * Abs(h'.quantity) == Abs(h'.quantity) * Abs(h'.averagePrice);
    }
  }

  lemma {:induction false} CashFlowAppend(fills: seq<Fill>, f: Fill)
    ensures TotalCashFlow(fills + [f]) == TotalCashFlow(fills) + CashFlow(f)
    decreases |fills|
  {
    hide CashFlow;
    if fills == [] {
      assert fills + [f] == [f] && [f][1..] == [];
    } else {
      assert (fills + [f])[1..] == fills[1..] + [f];
      CashFlowAppend(fills[1..], f);
    }
  }

  /** What the record says a slot's fills paid, with what is held, less what is reported. */
  function Gap(flow: int, h: Holding): int {
    flow + Basis(h) - SCALE * Gross(h)
  }

  lemma FillMovesGap(flow: int, h: Holding, f: Fill)
    ensures Gap(flow + CashFlow(f), Applied(h, f)) == Gap(flow, h) + Drift(h, f)
  {
    hide Applied, CashFlow, Basis, Gross;
    Distribute(Gross(Applied(h, f)), Gross(h));
  }

  lemma Distribute(x: int, y: int)
    ensures SCALE * (x - y) == SCALE * x - SCALE * y
  {
  }

  lemma HeldAfterFill(events: seq<Event>, slot: Slot)
    requires events != [] && TradesIn(events[|events| - 1], slot)
    ensures HeldThrough(events, slot).quantity
         == HeldThrough(events[..|events| - 1], slot).quantity + events[|events| - 1].fill.Signed()
  {
  }

  lemma {:induction false} EarnedThrough(events: seq<Event>, slot: Slot)
    ensures Abs(Gap(TotalCashFlow(FillsOf(FillsIn(events), slot)), HeldThrough(events, slot))) <= HistorySlack(events, slot)
    decreases |events|
  {
    hide Applied, SplitHolding, Drift, Slack, SplitSlack, TotalCashFlow, CashFlow, FillsOf;
    if events == [] {
      NothingEarned(slot);
    } else {
      var n := |events| - 1;
      var e := events[n];
      var h := HeldThrough(events[..n], slot);
      var own := FillsOf(FillsIn(events[..n]), slot);
      EarnedThrough(events[..n], slot);
      if e.Traded? {
        FillsOfAppend(FillsIn(events[..n]), e.fill, slot);
        assert own + [] == own;
        if e.fill.slot == slot {
          HeldAfterFill(events, slot);
        }
        CashFlowAppend(own, e.fill);
        FillMovesGap(TotalCashFlow(own), h, e.fill);
        FillDrift(h, e.fill);
      } else if Splits(e, slot) {
        SplitDrift(e.ratio, h);
      }
    }
  }

  lemma NothingEarned(slot: Slot)
    ensures Gap(TotalCashFlow(FillsOf([], slot)), FLAT) == 0
  {
  }

  /**
   What the account reports as profit on a position is what the run's own fills paid, to within
   the slack of each fill and of each split of it: the bound on one event, carried over every run.
   */
  lemma ReportedProfitIsEarned(c: Config, ops: seq<Op>, slot: Slot)
    ensures var a := Run(c, ops).account;
            Abs(TotalCashFlow(FillsOf(a.fills, slot)) + Basis(At(a.positions, slot)) - SCALE * Gross(At(a.positions, slot)))
              <= HistorySlack(History(c, ops), slot)
    ensures var events := History(c, ops);
            (forall k :: 0 <= k < |events| ==> !Splits(events[k], slot)) ==>
              HistorySlack(events, slot) == TotalSlack(0, FillsOf(Run(c, ops).account.fills, slot))
  {
    hide Run, History, HistorySlack, HeldThrough, Folded, FillsIn, Basis, Gross, TotalCashFlow, FillsOf, Abs, Splits;
    var events := History(c, ops);
    PositionsFoldTheHistory(c, ops);
    FoldedAt(events, slot);
    EarnedThrough(events, slot);
    if forall k :: 0 <= k < |events| ==> !Splits(events[k], slot) {
      SlackWithoutSplits(events, slot);
    }
  }

  // ----- Rebuilding a position from its fills -----

  /** No split so far moved what the slot held. */
  predicate Unsplit(events: seq<Event>, slot: Slot) {
    forall k :: 0 <= k < |events| && Splits(events[k], slot) ==>
      SplitHolding(events[k].ratio, HeldThrough(events[..k], slot)) == HeldThrough(events[..k], slot)
  }

  lemma {:induction false} HeldIsReplayed(events: seq<Event>, slot: Slot)
    requires Unsplit(events, slot)
    ensures HeldThrough(events, slot) == Replayed(FLAT, FillsOf(FillsIn(events), slot))
    decreases |events|
  {
    hide Applied, SplitHolding, FillsOf, Replayed;
    if events == [] {
      NothingReplayed(slot);
    } else {
      var n := |events| - 1;
      forall k | 0 <= k < n && Splits(events[..n][k], slot)
        ensures SplitHolding(events[..n][k].ratio, HeldThrough(events[..n][..k], slot)) == HeldThrough(events[..n][..k], slot)
      {
        assert events[..n][k] == events[k] && events[..n][..k] == events[..k];
      }
      HeldIsReplayed(events[..n], slot);
      if events[n].Traded? {
        FillsOfAppend(FillsIn(events[..n]), events[n].fill, slot);
        assert FillsOf(FillsIn(events[..n]), slot) + [] == FillsOf(FillsIn(events[..n]), slot);
        ReplayedAppend(FLAT, FillsOf(FillsIn(events[..n]), slot), events[n].fill);
      }
    }
  }

  lemma NothingReplayed(slot: Slot)
    ensures Replayed(FLAT, FillsOf([], slot)) == FLAT
  {
  }

  lemma {:induction false} SlackAppend(h: Holding, fills: seq<Fill>, f: Fill)
    ensures TotalSlack(h.quantity, fills + [f]) == TotalSlack(h.quantity, fills) + Slack(Replayed(h, fills).quantity + f.Signed())
    decreases |fills|
  {
    hide Slack;
    if fills == [] {
      assert (fills + [f])[1..] == [];
    } else {
      assert (fills + [f])[1..] == fills[1..] + [f];
      SlackAppend(Applied(h, fills[0]), fills[1..], f);
    }
  }

  /** With no split of the slot's instrument, the slack is that of the fills alone. */
  lemma {:induction false} SlackWithoutSplits(events: seq<Event>, slot: Slot)
    requires forall k :: 0 <= k < |events| ==> !Splits(events[k], slot)
    ensures HistorySlack(events, slot) == TotalSlack(0, FillsOf(FillsIn(events), slot))
    decreases |events|
  {
    hide Applied, FillsOf, Replayed, Slack, HeldThrough;
    if events == [] {
      NoFillsOf(slot);
    } else {
      var n := |events| - 1;
      var own := FillsOf(FillsIn(events[..n]), slot);
      SlackWithoutSplits(events[..n], slot);
      if events[n].Traded? {
        FillsOfAppend(FillsIn(events[..n]), events[n].fill, slot);
        assert own + [] == own;
        if events[n].fill.slot == slot {
          HeldIsReplayed(events[..n], slot);
          SlackAppend(FLAT, own, events[n].fill);
          HeldAfterFill(events, slot);
        }
      }
    }
  }

  lemma NoFillsOf(slot: Slot)
    ensures FillsOf([], slot) == []
  {
  }

  /**
   What makes a stored run checkable: after any run in which no split moved what the slot held,
   replaying its recorded fills gives its position, and the slot is on the books exactly when it
   has a fill on record.
   */
  lemma PositionIsReplayed(c: Config, ops: seq<Op>, slot: Slot)
    requires Unsplit(History(c, ops), slot)
    ensures var a := Run(c, ops).account;
            && At(a.positions, slot) == Replayed(FLAT, FillsOf(a.fills, slot))
            && (slot in a.positions <==> FillsOf(a.fills, slot) != [])
  {
    hide Run, History, HeldThrough, Folded, FillsIn, FillsOf, Replayed, Unsplit;
    PositionsFoldTheHistory(c, ops);
    FoldedAt(History(c, ops), slot);
    HeldIsReplayed(History(c, ops), slot);
  }

  /** The first split that moves the holding is where the record stops explaining it. */
  lemma SplitBreaksReplay(c: Config, ops: seq<Op>, ratio: int, slot: Slot)
    requires Unsplit(History(c, ops), slot) && Run(c, ops).fault.None? && ratio > 0
    ensures var h := At(Run(c, ops).account.positions, slot);
            var a := Run(c, ops + [SplitAction(slot.instrument, ratio)]).account;
            At(a.positions, slot) == Replayed(FLAT, FillsOf(a.fills, slot)) <==> SplitHolding(ratio, h) == h
  {
    hide Run, History, FillsOf, Replayed, Unsplit, SplitHolding, Step;
    var split := SplitAction(slot.instrument, ratio);
    var s := Run(c, ops);
    RunSnoc(c, ops, split);
    PositionIsReplayed(c, ops, slot);
    SplitFolds(c, s, split);
    SplitOfFlat(ratio);
  }

  lemma SplitOfFlat(ratio: int)
    requires ratio > 0
    ensures SplitHolding(ratio, FLAT) == FLAT
  {
  }

  /** A run that never splits the slot's instrument has no split of it on record. */
  lemma {:induction false} NeverSplit(c: Config, ops: seq<Op>, slot: Slot)
    requires forall k :: 0 <= k < |ops| && ops[k].SplitAction? ==> ops[k].instrument != slot.instrument || ops[k].ratio <= 0
    ensures forall k :: 0 <= k < |History(c, ops)| ==> !Splits(History(c, ops)[k], slot)
    ensures Unsplit(History(c, ops), slot)
    decreases |ops|
  {
    hide Run, HeldThrough, SplitHolding;
    if ops != [] {
      NeverSplit(c, ops[..|ops| - 1], slot);
    }
  }
}
