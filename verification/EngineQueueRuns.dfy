/** The queue bound and the order lifecycle, over whole runs. */
module EngineQueueRuns {
  import opened FixedPoint
  import opened Sums
  import opened Orders
  import opened RestingIndex
  import opened Engine
  import opened EngineCoherence
  import opened EngineRuns
  import opened EngineQueue
  import opened EngineLifecycle
  import EngineAccount
  import BookFeed
  import Book

  // ----- One side of a print -----

  function FilledOf(d: Desk, id: OrderId): int {
    if id in d.orders then d.orders[id].filled else 0
  }

  /** An order the print does not hit is left alone. */
  lemma SideMisses(c: Config, s: State, slot: Slot, price: int, size: int, passive: Side, id: OrderId)
    requires Coherent(s.desk) && s.fault.None? && !Hit(s.desk, slot, passive, price, id)
    ensures SamePlace(s.desk, ConsumeSide(c, s, slot, price, size, passive).desk, id)
  {
    hide Structure, Consume, ReachedByTrade, SamePlace, Hit;
    var eligible := ReachedByTrade(s.desk.index, slot, passive, price);
    ReachedByTradeIsExact(s.desk, slot, passive, price);
    ReachedIsReachable(s.desk, slot, passive, price);
    ConsumeCoherent(c, s, eligible, size);
    PrunedIsIdle(Consume(c, s, eligible, size).state);
    forall i | 0 <= i < |eligible| ensures eligible[i].1 != id {
      assert Hit(s.desk, slot, passive, price, eligible[i].1);
    }
    ConsumeSamePlace(c, s, eligible, size, id);
  }

  /** A hit order gets its share of some part of the print, and its queue shrinks by the rest of it. */
  predicate GotShare(s: State, s': State, id: OrderId, reaching: int) {
    && id in s.desk.orders && id in s'.desk.orders
    && FilledBetween(s, s', id) == Share(reaching, Ahead(s, id), Room(s, id))
    && (StillOpen(s'.desk, id) ==>
          && id in s'.desk.resting
          && ValueOr(s'.desk.queueAhead, id, 0) == ValueOr(s.desk.queueAhead, id, 0) - Share(reaching, 0, Ahead(s, id)))
  }

  lemma SideHits(c: Config, s: State, slot: Slot, price: int, size: int, passive: Side, id: OrderId) returns (reaching: int)
    requires Coherent(s.desk) && s.fault.None? && Hit(s.desk, slot, passive, price, id)
    ensures reaching <= size && GotShare(s, ConsumeSide(c, s, slot, price, size, passive), id, reaching)
  {
    hide Structure, Consume, ReachedByTrade, Hit, Share, Ahead, Room;
    var eligible := ReachedByTrade(s.desk.index, slot, passive, price);
    ReachedByTradeIsExact(s.desk, slot, passive, price);
    ReachedIsReachable(s.desk, slot, passive, price);
    ConsumeCoherent(c, s, eligible, size);
    PrunedIsIdle(Consume(c, s, eligible, size).state);
    var i :| 0 <= i < |eligible| && eligible[i].1 == id;
    HitIsResting(s.desk, slot, passive, price, id);
    PrintIsAWaterfall(c, s, eligible, size, i);
    reaching := size - DepthBefore(s, eligible, i);
  }

  lemma HitIsResting(d: Desk, slot: Slot, passive: Side, price: int, id: OrderId)
    requires Hit(d, slot, passive, price, id)
    ensures id in d.resting && id in d.orders && d.orders[id].side == passive
  {
  }

  // ----- A whole print -----

  /** Does this step bring printed volume to this order? */
  predicate Reaches(c: Config, s: State, op: Op, id: OrderId) {
    && op.Print? && c.usesQueue && id in s.desk.orders
    && Hit(s.desk, op.slot, s.desk.orders[id].side, op.price, id)
    && match op.aggressor
       case Some(side) => s.desk.orders[id].side == side.Opposite()
       case None => c.fillsOnUnknownAggressor
  }

  lemma MissedSide(d: Desk, slot: Slot, passive: Side, price: int, id: OrderId)
    requires id in d.orders ==> d.orders[id].side != passive
    ensures !Hit(d, slot, passive, price, id)
  {
  }

  /** What a step brings an order: nothing, or its share of a part of one print. */
  ghost predicate Tracked(s: State, s': State, id: OrderId, volume: int) {
    || SamePlace(s.desk, s'.desk, id)
    || exists reaching :: reaching <= volume && GotShare(s, s', id, reaching)
  }

  lemma SideTracked(c: Config, s: State, slot: Slot, price: int, size: int, passive: Side, id: OrderId)
    requires Coherent(s.desk) && s.fault.None?
    ensures var s' := ConsumeSide(c, s, slot, price, size, passive);
            && Tracked(s, s', id, size) && Coherent(s'.desk) && s'.fault.None?
            && (!Hit(s.desk, slot, passive, price, id) ==> SamePlace(s.desk, s'.desk, id))
  {
    hide Coherent, ConsumeSide, Hit, SamePlace, GotShare;
    ConsumeSideCoherent(c, s, slot, price, size, passive);
    if Hit(s.desk, slot, passive, price, id) {
      var reaching := SideHits(c, s, slot, price, size, passive, id);
    } else {
      SideMisses(c, s, slot, price, size, passive, id);
    }
  }

  lemma SamePlaceThenGot(s: State, s1: State, s': State, id: OrderId, reaching: int)
    requires id in s.desk.orders && SamePlace(s.desk, s1.desk, id) && GotShare(s1, s', id, reaching)
    ensures GotShare(s, s', id, reaching)
  {
  }

  lemma GotThenSamePlace(s: State, s1: State, s': State, id: OrderId, reaching: int)
    requires GotShare(s, s1, id, reaching) && SamePlace(s1.desk, s'.desk, id)
    ensures GotShare(s, s', id, reaching)
  {
    hide Share, Ahead, Room;
  }

  lemma SamePlaceTrans(d: Desk, d1: Desk, d2: Desk, id: OrderId)
    requires SamePlace(d, d1, id) && SamePlace(d1, d2, id)
    ensures SamePlace(d, d2, id)
  {
  }

  lemma SideIsKept(d: Desk, d': Desk, id: OrderId)
    requires SamePlace(d, d', id) && id in d.orders
    ensures id in d'.orders && d'.orders[id] == d.orders[id]
  {
  }

  /** A sell order is not moved by the buy side of a print, nor a buy order by the sell side. */
  lemma BothSidesTracked(c: Config, s: State, slot: Slot, price: int, size: int, id: OrderId)
    requires Coherent(s.desk) && s.fault.None? && id in s.desk.orders
    ensures var s1 := ConsumeSide(c, s, slot, price, size, Buy);
            var s2 := ConsumeSide(c, s1, slot, price, size, Sell);
            && s1.fault.None? && Coherent(s2.desk)
            && (!Hit(s.desk, slot, s.desk.orders[id].side, price, id) ==> SamePlace(s.desk, s2.desk, id))
            && Tracked(s, s2, id, size)
  {
    hide Coherent, ConsumeSide, Hit, SamePlace, GotShare;
    var s1 := ConsumeSide(c, s, slot, price, size, Buy);
    var s2 := ConsumeSide(c, s1, slot, price, size, Sell);
    SideTracked(c, s, slot, price, size, Buy, id);
    SideTracked(c, s1, slot, price, size, Sell, id);
    if s.desk.orders[id].side.Buy? {
      BuyMissesSellSide(c, s, slot, price, size, id);
      if Hit(s.desk, slot, Buy, price, id) {
        var reaching := SideHits(c, s, slot, price, size, Buy, id);
        GotThenSamePlace(s, s1, s2, id, reaching);
      } else {
        SamePlaceTrans(s.desk, s1.desk, s2.desk, id);
      }
    } else {
      MissedSide(s.desk, slot, Buy, price, id);
      SideIsKept(s.desk, s1.desk, id);
      SellHitAfter(s, s1, slot, price, id);
      if Hit(s1.desk, slot, Sell, price, id) {
        var reaching := SideHits(c, s1, slot, price, size, Sell, id);
        SamePlaceThenGot(s, s1, s2, id, reaching);
      } else {
        SamePlaceTrans(s.desk, s1.desk, s2.desk, id);
      }
    }
  }

  lemma SellHitAfter(s: State, s1: State, slot: Slot, price: int, id: OrderId)
    requires SamePlace(s.desk, s1.desk, id) && id in s.desk.orders
    ensures Hit(s1.desk, slot, Sell, price, id) ==> Hit(s.desk, slot, Sell, price, id)
  {
  }

  lemma BuyMissesSellSide(c: Config, s: State, slot: Slot, price: int, size: int, id: OrderId)
    requires Coherent(s.desk) && s.fault.None? && id in s.desk.orders && s.desk.orders[id].side.Buy?
    ensures var s1 := ConsumeSide(c, s, slot, price, size, Buy);
            !Hit(s1.desk, slot, Sell, price, id)
  {
    hide Coherent, ConsumeSide;
    ConsumeSideTerms(c, s, slot, price, size, Buy, id);
  }

  /** Printing never changes what an order is for. */
  lemma {:induction false} ConsumeTerms(c: Config, s: State, eligible: seq<(int, OrderId)>, remaining: int, id: OrderId)
    requires id in s.desk.orders
    ensures KeepsTerms(s.desk, Consume(c, s, eligible, remaining).state.desk, id)
    decreases |eligible|
  {
    hide ConsumeOne;
    if eligible != [] && remaining > 0 && s.fault.None? {
      var one := ConsumeOne(c, s, eligible[0].0, eligible[0].1, remaining);
      ConsumeOneTerms(c, s, eligible[0].0, eligible[0].1, remaining, id);
      ConsumeTerms(c, one.state, eligible[1..], one.left, id);
    }
  }

  lemma ExecuteTerms(c: Config, s: State, x: OrderId, price: int, fill: int, id: OrderId)
    requires id in s.desk.orders && x in s.desk.orders
    ensures KeepsTerms(s.desk, Execute(c, s, x, price, fill, false).desk, id)
  {
    hide AfterFill, Remove, Sorting.Without;
  }

  lemma ConsumeOneTerms(c: Config, s: State, limit: int, x: OrderId, remaining: int, id: OrderId)
    requires id in s.desk.orders
    ensures KeepsTerms(s.desk, ConsumeOne(c, s, limit, x, remaining).state.desk, id)
  {
    hide Execute, Eaten;
    var eaten := Eaten(s, x, remaining);
    var s1 := SetAhead(s, x, ValueOr(s.desk.queueAhead, x, 0) - eaten);
    if x in s.desk.orders {
      ExecuteTerms(c, s1, x, limit, Min(remaining - eaten, WantedBy(s1.desk, x)), id);
    }
  }

  lemma ConsumeSideTerms(c: Config, s: State, slot: Slot, price: int, size: int, passive: Side, id: OrderId)
    requires Coherent(s.desk) && s.fault.None? && id in s.desk.orders
    ensures KeepsTerms(s.desk, ConsumeSide(c, s, slot, price, size, passive).desk, id)
  {
    hide Coherent, Consume, ReachedByTrade, KeepsTerms;
    var eligible := ReachedByTrade(s.desk.index, slot, passive, price);
    ReachedIsReachable(s.desk, slot, passive, price);
    ConsumeTerms(c, s, eligible, size, id);
    ConsumeCoherent(c, s, eligible, size);
    PrunedIsIdle(Consume(c, s, eligible, size).state);
  }

  lemma PrintTerms(c: Config, s: State, op: Op, id: OrderId)
    requires Coherent(s.desk) && s.fault.None? && op.Print? && id in s.desk.orders
    ensures KeepsTerms(s.desk, Step(c, s, op).desk, id)
  {
    hide Coherent, ConsumeSide;
    if c.usesQueue {
      match op.aggressor
      case Some(side) => ConsumeSideTerms(c, s, op.slot, op.price, op.size, side.Opposite(), id);
      case None =>
        ConsumeSideTerms(c, s, op.slot, op.price, op.size, Buy, id);
        ConsumeSideCoherent(c, s, op.slot, op.price, op.size, Buy);
        ConsumeSideTerms(c, ConsumeSide(c, s, op.slot, op.price, op.size, Buy), op.slot, op.price, op.size, Sell, id);
    }
  }

  /** A print, seen from one order. */
  lemma PrintTracked(c: Config, s: State, op: Op, id: OrderId)
    requires Coherent(s.desk) && s.fault.None? && op.Print? && id in s.desk.orders
    ensures var s' := Step(c, s, op);
            && (!Reaches(c, s, op, id) ==> SamePlace(s.desk, s'.desk, id))
            && Tracked(s, s', id, op.size)
  {
    hide Coherent, ConsumeSide, Hit, GotShare;
    if c.usesQueue {
      match op.aggressor
      case Some(side) =>
        SideTracked(c, s, op.slot, op.price, op.size, side.Opposite(), id);
        if s.desk.orders[id].side != side.Opposite() {
          MissedSide(s.desk, op.slot, side.Opposite(), op.price, id);
        }
      case None =>
        BothSidesTracked(c, s, op.slot, op.price, op.size, id);
    }
  }

  // ----- Runs from a state -----

  function RunFrom(c: Config, s: State, ops: seq<Op>): State {
    if ops == [] then s else Step(c, RunFrom(c, s, ops[..|ops| - 1]), ops[|ops| - 1])
  }

  /** Printed volume that reached an order along the way. */
  function VolumeReaching(c: Config, s: State, ops: seq<Op>, id: OrderId): nat {
    if ops == [] then 0
    else
      var n := |ops| - 1;
      VolumeReaching(c, s, ops[..n], id)
        + (if Reaches(c, RunFrom(c, s, ops[..n]), ops[n], id) then Max(ops[n].size, 0) else 0)
  }

  /** What prints filled of an order along the way. */
  function PrintFills(c: Config, s: State, ops: seq<Op>, id: OrderId): int {
    if ops == [] then 0
    else
      var n := |ops| - 1;
      PrintFills(c, s, ops[..n], id)
        + (if ops[n].Print? then FilledOf(RunFrom(c, s, ops).desk, id) - FilledOf(RunFrom(c, s, ops[..n]).desk, id) else 0)
  }

  /** Where the order stands against the volume that reached it. */
  predicate WithinVolume(d: Desk, id: OrderId, ahead: nat, volume: nat, fills: int) {
    if Queued(d, id) then
      var left := Max(ValueOr(d.queueAhead, id, 0), 0);
      && left <= ahead
      && fills + ahead - left <= volume
      && (fills > 0 ==> left == 0)
    else Done(d, id) && (fills > 0 ==> fills + ahead <= volume)
  }

  lemma OtherStepWithinVolume(c: Config, s: State, op: Op, id: OrderId, ahead: nat, volume: nat, fills: int)
    requires Coherent(s.desk) && !op.Print? && Gentle(s.desk, op, id)
    requires WithinVolume(s.desk, id, ahead, volume, fills)
    ensures WithinVolume(Step(c, s, op).desk, id, ahead, volume, fills)
  {
    hide Step, Coherent, Gentle;
    StepKept(c, s, op, id);
    StepIsCoherent(c, s, op);
    DoneIsOffBook(Step(c, s, op).desk, id);
  }

  lemma DoneIsOffBook(d: Desk, id: OrderId)
    requires Coherent(d)
    ensures Done(d, id) ==> !Queued(d, id)
  {
  }

  lemma StepIsCoherent(c: Config, s: State, op: Op)
    requires Coherent(s.desk)
    ensures Coherent(Step(c, s, op).desk)
  {
    hide Coherent;
    if s.fault.None? {
      StepIsSane(c, s, op);
    }
  }

  lemma SamePlaceWithinVolume(d: Desk, d': Desk, id: OrderId, ahead: nat, volume: nat, fills: int)
    requires WithinVolume(d, id, ahead, volume, fills) && SamePlace(d, d', id)
    ensures WithinVolume(d', id, ahead, volume, fills)
    ensures FilledOf(d', id) == FilledOf(d, id)
  {
  }

  lemma ShareWithinVolume(s: State, s': State, id: OrderId, ahead: nat, volume: nat, fills: int, reaching: int, size: int)
    requires WithinVolume(s.desk, id, ahead, volume, fills) && GotShare(s, s', id, reaching) && reaching <= size
    requires Queued(s.desk, id)
    ensures WithinVolume(s'.desk, id, ahead, volume + Max(size, 0), fills + FilledOf(s'.desk, id) - FilledOf(s.desk, id))
  {
  }

  lemma ReachedIsQueued(c: Config, s: State, op: Op, id: OrderId)
    requires Coherent(s.desk)
    ensures Reaches(c, s, op, id) ==> Queued(s.desk, id)
    ensures Done(s.desk, id) ==> !Reaches(c, s, op, id)
  {
  }

  lemma PrintWithinVolume(c: Config, s: State, op: Op, id: OrderId, ahead: nat, volume: nat, fills: int)
    requires Coherent(s.desk) && op.Print? && WithinVolume(s.desk, id, ahead, volume, fills)
    ensures var d' := Step(c, s, op).desk;
            WithinVolume(d', id, ahead, volume + (if Reaches(c, s, op, id) then Max(op.size, 0) else 0),
                         fills + FilledOf(d', id) - FilledOf(s.desk, id))
  {
    hide Step, Coherent, WithinVolume, GotShare, SamePlace, Reaches;
    var s' := Step(c, s, op);
    if s.fault.Some? {
      FaultStops(c, s, op);
      FaultVolume(c, s, op, id, ahead, volume, fills);
    } else {
      TrackedIsKnown(s.desk, id, ahead, volume, fills);
      PrintTracked(c, s, op, id);
      ReachedIsQueued(c, s, op, id);
      if !Reaches(c, s, op, id) || SamePlace(s.desk, s'.desk, id) {
        SamePlaceWithinVolume(s.desk, s'.desk, id, ahead, volume, fills);
        MoreVolume(s'.desk, id, ahead, volume, fills, Max(op.size, 0));
      } else {
        var reaching :| reaching <= op.size && GotShare(s, s', id, reaching);
        ShareWithinVolume(s, s', id, ahead, volume, fills, reaching, op.size);
      }
    }
  }

  lemma TrackedIsKnown(d: Desk, id: OrderId, ahead: nat, volume: nat, fills: int)
    requires WithinVolume(d, id, ahead, volume, fills)
    ensures id in d.orders
  {
  }

  lemma FaultVolume(c: Config, s: State, op: Op, id: OrderId, ahead: nat, volume: nat, fills: int)
    requires WithinVolume(s.desk, id, ahead, volume, fills) && op.Print?
    ensures WithinVolume(s.desk, id, ahead, volume + (if Reaches(c, s, op, id) then Max(op.size, 0) else 0), fills)
  {
    MoreVolume(s.desk, id, ahead, volume, fills, Max(op.size, 0));
  }

  lemma MoreVolume(d: Desk, id: OrderId, ahead: nat, volume: nat, fills: int, more: nat)
    requires WithinVolume(d, id, ahead, volume, fills)
    ensures WithinVolume(d, id, ahead, volume + more, fills)
  {
  }

  lemma {:induction false} RunWithinVolume(c: Config, s: State, ops: seq<Op>, id: OrderId)
    requires Coherent(s.desk) && Queued(s.desk, id)
    requires forall i :: 0 <= i < |ops| ==> Gentle(RunFrom(c, s, ops[..i]).desk, ops[i], id)
    ensures Coherent(RunFrom(c, s, ops).desk)
    ensures WithinVolume(RunFrom(c, s, ops).desk, id, Ahead(s, id),
                         VolumeReaching(c, s, ops, id), PrintFills(c, s, ops, id))
    decreases |ops|
  {
    hide Step, Coherent, Reaches, Gentle;
    if ops != [] {
      var n := |ops| - 1;
      var before := RunFrom(c, s, ops[..n]);
      forall i | 0 <= i < n ensures Gentle(RunFrom(c, s, ops[..n][..i]).desk, ops[..n][i], id) {
        assert ops[..n][..i] == ops[..i] && ops[..n][i] == ops[i];
      }
      RunWithinVolume(c, s, ops[..n], id);
      RunStepWithinVolume(c, before, ops[n], id, Ahead(s, id),
                          VolumeReaching(c, s, ops[..n], id), PrintFills(c, s, ops[..n], id));
    }
  }

  lemma RunStepWithinVolume(c: Config, s: State, op: Op, id: OrderId, ahead: nat, volume: nat, fills: int)
    requires Coherent(s.desk) && WithinVolume(s.desk, id, ahead, volume, fills) && Gentle(s.desk, op, id)
    ensures var d' := Step(c, s, op).desk;
            && Coherent(d')
            && WithinVolume(d', id, ahead, volume + (if Reaches(c, s, op, id) then Max(op.size, 0) else 0),
                            fills + (if op.Print? then FilledOf(d', id) - FilledOf(s.desk, id) else 0))
  {
    hide Step, Coherent, WithinVolume, Gentle;
    StepIsCoherent(c, s, op);
    if op.Print? {
      PrintWithinVolume(c, s, op, id, ahead, volume, fills);
    } else {
      OtherStepWithinVolume(c, s, op, id, ahead, volume, fills);
    }
  }

  lemma {:induction false} RunFromRun(c: Config, before: seq<Op>, after: seq<Op>)
    ensures RunFrom(c, Run(c, before), after) == Run(c, before + after)
    decreases |after|
  {
    hide Step;
    if after == [] {
      assert before + after == before;
    } else {
      var n := |after| - 1;
      var all := before + after;
      assert all[..|all| - 1] == before + after[..n] && all[|all| - 1] == after[n];
      RunFromRun(c, before, after[..n]);
    }
  }

  /**
   The queue model's promise.  From any moment an order rests with some size ahead of it, through
   every later step but its own amendment to another limit or a larger size, prints fill it by no
   more than the printed volume that reached it beyond that size.
   */
  lemma PrintFillsAreBehindTheQueue(c: Config, before: seq<Op>, after: seq<Op>, id: OrderId)
    requires Queued(Run(c, before).desk, id)
    requires forall i :: 0 <= i < |after| ==> Gentle(Run(c, before + after[..i]).desk, after[i], id)
    ensures var s := Run(c, before);
            PrintFills(c, s, after, id) <= Max(0, VolumeReaching(c, s, after, id) - Ahead(s, id))
  {
    hide Run, RunFrom, Coherent, VolumeReaching, PrintFills, Gentle;
    RunIsSane(c, before);
    forall i | 0 <= i < |after| ensures Gentle(RunFrom(c, Run(c, before), after[..i]).desk, after[i], id) {
      RunFromRun(c, before, after[..i]);
    }
    RunWithinVolume(c, Run(c, before), after, id);
  }

  /**
   In every reachable state a print reaches resting orders in priority order, its volume is
   accounted for, and an order gets anything only once everything of higher priority is filled.
   */
  lemma PrintsAreAccountedFor(c: Config, ops: seq<Op>, slot: Slot, passive: Side, price: int, volume: nat)
    requires Run(c, ops).fault.None?
    ensures var s := Run(c, ops);
            var eligible := ReachedByTrade(s.desk.index, slot, passive, price);
            var one := Consume(c, s, eligible, volume);
            && Printable(s, eligible) && Ranked(passive, eligible)
            && ConsumeSide(c, s, slot, price, volume, passive) == one.state
            && Served(s, eligible, volume, |eligible|) + one.left == volume
            && (one.left > 0 ==> forall i :: 0 <= i < |eligible| ==> Exhausted(s, one.state, eligible[i].1))
            && (forall i, j :: 0 <= i < j < |eligible| && GotSome(s, one.state, eligible[j].1) ==>
                  Exhausted(s, one.state, eligible[i].1))
  {
    hide Run, Consume, Served, Exhausted, Ranked, ReachedByTrade, Pruned, Hit, Structure, RestingIsOpen, ParkedApart, LiveOnce;
    var s := Run(c, ops);
    var eligible := ReachedByTrade(s.desk.index, slot, passive, price);
    RunIsSane(c, ops);
    ReachedByTradeIsExact(s.desk, slot, passive, price);
    ReachedIsReachable(s.desk, slot, passive, price);
    ConsumeCoherent(c, s, eligible, volume);
    PrunedIsIdle(Consume(c, s, eligible, volume).state);
    PrintVolumeIsAccountedFor(c, s, eligible, volume);
    var s' := Consume(c, s, eligible, volume).state;
    forall i, j | 0 <= i < j < |eligible| && GotSome(s, s', eligible[j].1) ensures Exhausted(s, s', eligible[i].1) {
      FillsRespectPriority(c, s, eligible, volume, i, j);
    }
  }

  /** The order got something. */
  predicate GotSome(s: State, s': State, id: OrderId) {
    id in s.desk.orders && id in s'.desk.orders && FilledBetween(s, s', id) > 0
  }

  // ----- Endings are final -----

  lemma PrintForward(c: Config, s: State, op: Op, id: OrderId)
    requires Coherent(s.desk) && op.Print?
    ensures Forward(s.desk, Step(c, s, op).desk, id)
  {
    hide Step, Coherent, Reaches;
    FaultStops(c, s, op);
    if s.fault.None? && id in s.desk.orders {
      PrintTracked(c, s, op, id);
      ReachedIsQueued(c, s, op, id);
    }
  }

  lemma StepForward(c: Config, s: State, op: Op, id: OrderId)
    requires Coherent(s.desk)
    ensures Forward(s.desk, Step(c, s, op).desk, id)
  {
    hide Coherent, Forward, KeepsPlace, Step;
    if op.Print? {
      PrintForward(c, s, op, id);
    } else if op.Amend? {
      AmendForward(c, s, op, id);
    } else {
      StepKept(c, s, op, id);
    }
  }

  lemma AmendForward(c: Config, s: State, op: Op, id: OrderId)
    requires Coherent(s.desk) && op.Amend?
    ensures Forward(s.desk, Step(c, s, op).desk, id)
  {
    hide Coherent, Amended;
    AmendedForward(c, s, op.id, op.newQuantity, op.newLimit, id);
  }

  lemma {:induction false} RunForward(c: Config, s: State, ops: seq<Op>, id: OrderId)
    requires Coherent(s.desk)
    ensures Coherent(RunFrom(c, s, ops).desk) && Forward(s.desk, RunFrom(c, s, ops).desk, id)
    decreases |ops|
  {
    hide Step, Coherent;
    if ops != [] {
      var n := |ops| - 1;
      RunForward(c, s, ops[..n], id);
      StepForward(c, RunFrom(c, s, ops[..n]), ops[n], id);
      StepIsCoherent(c, RunFrom(c, s, ops[..n]), ops[n]);
    }
  }

  /**
   An order that was filled, cancelled or rejected stays exactly so however the run goes on, and
   what an order was filled is never taken back.
   */
  lemma EndingsAreFinal(c: Config, before: seq<Op>, after: seq<Op>, id: OrderId)
    requires id in Run(c, before).desk.orders
    ensures id in Run(c, before + after).desk.orders
    ensures var o, o' := Run(c, before).desk.orders[id], Run(c, before + after).desk.orders[id];
            && o'.filled >= o.filled
            && (o.status == Filled || o.status == Cancelled || o.status == Rejected ==> o'.status == o.status && o'.filled == o.filled)
  {
    hide Run, RunFrom, Coherent;
    RunIsSane(c, before);
    RunForward(c, Run(c, before), after, id);
    RunFromRun(c, before, after);
  }

  // ----- What puts an order within reach -----

  /** The step neither changes the order's limit nor touches the book it stands against. */
  predicate LeavesReach(op: Op, id: OrderId, slot: Slot) {
    && !(op.Feed? && op.slot == slot)
    && !(op.SplitAction? && op.instrument == slot.instrument)
    && !(op.Amend? && op.id == id && op.newLimit.Some?)
  }

  lemma StepTerms(c: Config, s: State, op: Op, id: OrderId)
    requires Coherent(s.desk) && id in s.desk.orders && LeavesReach(op, id, s.desk.orders[id].slot)
    ensures KeepsTerms(s.desk, Step(c, s, op).desk, id)
  {
    hide Coherent, Carried, Step;
    FaultStops(c, s, op);
    if s.fault.None? {
      if op.Print? {
        PrintTerms(c, s, op, id);
      } else if op.Amend? {
        AmendTerms(c, s, op, id);
      } else if op.SplitAction? {
        SplitTerms(c, s, op, id);
      } else {
        StepKept(c, s, op, id);
      }
    }
  }

  lemma AmendTerms(c: Config, s: State, op: Op, id: OrderId)
    requires Coherent(s.desk) && op.Amend? && (op.id != id || op.newLimit.None?)
    ensures KeepsTerms(s.desk, Step(c, s, op).desk, id)
  {
    hide Coherent, Amended;
    AmendedTerms(c, s, op.id, op.newQuantity, op.newLimit, id);
  }

  lemma SplitTerms(c: Config, s: State, op: Op, id: OrderId)
    requires op.SplitAction? && (id in s.desk.orders ==> s.desk.orders[id].slot.instrument != op.instrument)
    ensures KeepsTerms(s.desk, Step(c, s, op).desk, id)
  {
    hide SplitShares;
    SplitElsewhereTerms(s, op.instrument, op.ratio, id);
  }

  predicate SameBook(m: MarketData, m': MarketData, slot: Slot) {
    && (slot in m.books <==> slot in m'.books)
    && (slot in m.books ==> m'.books[slot] == m.books[slot])
  }

  lemma StepSameBook(c: Config, s: State, op: Op, id: OrderId, slot: Slot)
    requires LeavesReach(op, id, slot)
    ensures SameBook(s.market, Step(c, s, op).market, slot)
  {
    if s.fault.None? {
      if op.Feed? {
        FeedElsewhere(s, op.slot, op.feed, slot);
      } else if op.SplitAction? {
        SplitElsewhere(s, op.instrument, op.ratio, slot);
      } else if !EngineAccount.MovesAccountDirectly(op) {
        EngineAccount.StepSameBooks(c, s, op);
      }
    }
  }

  lemma FeedElsewhere(s: State, fed: Slot, feed: BookFeed.FeedOp, slot: Slot)
    requires fed != slot
    ensures SameBook(s.market, FedBook(s, fed, feed).market, slot)
  {
    hide BookFeed.Fed, BookFeed.DeltaApplied;
  }

  lemma SplitElsewhere(s: State, instrument: nat, ratio: int, slot: Slot)
    requires slot.instrument != instrument
    ensures SameBook(s.market, SplitShares(s, instrument, ratio).market, slot)
  {
    hide SplitOrdersOf, SplitPositions, SplitPrices, BookFeed.SplitBook;
  }

  lemma ReachReadsTerms(m: MarketData, m': MarketData, o: Order, o': Order)
    requires SameTerms(o, o') && SameBook(m, m', o.slot)
    ensures WouldCross(m', o') <==> WouldCross(m, o)
  {
    hide Book.BestAsk, Book.BestBid;
  }

  lemma {:induction false} RunKeepsReach(c: Config, s: State, ops: seq<Op>, id: OrderId)
    requires Coherent(s.desk) && id in s.desk.orders
    requires forall i :: 0 <= i < |ops| ==> LeavesReach(ops[i], id, s.desk.orders[id].slot)
    ensures var s' := RunFrom(c, s, ops);
            && Coherent(s'.desk) && KeepsTerms(s.desk, s'.desk, id)
            && SameBook(s.market, s'.market, s.desk.orders[id].slot)
    decreases |ops|
  {
    hide Step, Coherent, LeavesReach;
    if ops != [] {
      var n := |ops| - 1;
      var s1 := RunFrom(c, s, ops[..n]);
      RunKeepsReach(c, s, ops[..n], id);
      StepTerms(c, s1, ops[n], id);
      StepSameBook(c, s1, ops[n], id, s.desk.orders[id].slot);
      StepIsCoherent(c, s1, ops[n]);
    }
  }

  /**
   Whether the market is within an order's limit changes only when its own book is fed, its
   instrument splits, or its limit is amended: through everything else a run can do, an order out
   of reach stays out of reach, and one within reach stays within it.
   */
  lemma OnlyFeedSplitOrAmendMovesReach(c: Config, before: seq<Op>, after: seq<Op>, id: OrderId)
    requires id in Run(c, before).desk.orders
    requires forall i :: 0 <= i < |after| ==> LeavesReach(after[i], id, Run(c, before).desk.orders[id].slot)
    ensures id in Run(c, before + after).desk.orders
    ensures var s, s' := Run(c, before), Run(c, before + after);
            WouldCross(s'.market, s'.desk.orders[id]) <==> WouldCross(s.market, s.desk.orders[id])
  {
    hide Run, RunFrom, Coherent, LeavesReach, WouldCross;
    var s := Run(c, before);
    RunIsSane(c, before);
    RunKeepsReach(c, s, after, id);
    RunFromRun(c, before, after);
    var s' := Run(c, before + after);
    ReachReadsTerms(s.market, s'.market, s.desk.orders[id], s'.desk.orders[id]);
  }
}
