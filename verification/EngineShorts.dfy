/**
 Who can go short where shorts need a holding.

 The gate leaves reduce-only sells out of what is pending, and lets them through, because matching
 clamps them.  But clamped sells use up the holding that plain sells were admitted against.  What
 keeps a position from going short is that all open sells together, reduce-only ones included, fit
 in the holding, or that no plain sell is open; and where neither holds, some continuation goes
 short.
 */
module EngineShorts {
  import opened Orders
  import opened Engine
  import opened EngineCoherence
  import opened EngineAccount
  import opened EngineRisk

  // ----- Runs that never go short -----

  /** Nothing open may be able to take a prediction-market position below flat. */
  function NoShorts(c: Config): Bounds {
    Bounds(_ => None, (slot: Slot) => if c.prediction(slot.instrument) then Some(0) else None, !c.usesQueue, false)
  }

  predicate IsReduceOnlySell(o: Order, slot: Slot) {
    o.IsOpen() && o.slot == slot && o.side.Sell? && o.reduceOnly
  }

  predicate ReduceOnlySellOpen(d: Desk, slot: Slot) {
    exists id :: id in d.orders && IsReduceOnlySell(d.orders[id], slot)
  }

  /**
   What a sender can check: the sell fits in the holding beside every open sell; or it is
   reduce-only, no print fills orders, and no plain sell is open; or it is plain, and no
   reduce-only sell is open, so that the gate has counted everything.
   */
  predicate SellIsCovered(c: Config, s: State, r: Request) {
    || Held(s.account, r.slot) - Open(s.desk, r.slot, Sell) - r.quantity >= 0
    || (r.reduceOnly && !c.usesQueue && !PlainSellOpen(s.desk, r.slot))
    || (!r.reduceOnly && !ReduceOnlySellOpen(s.desk, r.slot))
  }

  predicate CoveredRun(c: Config, ops: seq<Op>) {
    ops == [] ||
    (CoveredRun(c, ops[..|ops| - 1])
     && var op := ops[|ops| - 1];
        (op.Submit? && op.request.side.Sell? && c.prediction(op.request.slot.instrument) ==>
           SellIsCovered(c, Run(c, ops[..|ops| - 1]), op.request)))
  }

  lemma OpenIfOne(d: Desk, id: OrderId, slot: Slot)
    ensures id in d.orders && IsReduceOnlySell(d.orders[id], slot) ==> ReduceOnlySellOpen(d, slot)
  {
  }

  lemma {:induction false} NothingSkipped(d: Desk, ids: seq<OrderId>, slot: Slot)
    requires !ReduceOnlySellOpen(d, slot)
    ensures Pending(d, ids, slot, Sell, true) == Pending(d, ids, slot, Sell, false)
    decreases |ids|
  {
    hide ReduceOnlySellOpen;
    if ids != [] {
      NothingSkipped(d, ids[1..], slot);
      OpenIfOne(d, ids[0], slot);
    }
  }

  /** The gate's own sum, over the pruned list. */
  lemma GateCounts(d: Desk, slot: Slot)
    ensures var d1 := d.(nextId := d.nextId + 1, live := LiveOnly(d, d.live));
            && Pending(d1, d1.live, slot, Sell, false) == Open(d, slot, Sell)
            && (!ReduceOnlySellOpen(d, slot) ==> Pending(d1, d1.live, slot, Sell, true) == Open(d, slot, Sell))
  {
    hide Pending, LiveOnly, ReduceOnlySellOpen;
    var d1 := d.(nextId := d.nextId + 1, live := LiveOnly(d, d.live));
    CheckedOpen(d, d1, slot, Sell);
    if !ReduceOnlySellOpen(d, slot) {
      NothingSkipped(d, d1.live, slot);
      PendingReadsOrders(d, d1, d1.live, slot, Sell, true);
      PendingReadsOrders(d, d1, d1.live, slot, Sell, false);
    }
  }

  lemma CoveredIsAdmitted(c: Config, s: State, r: Request)
    requires !c.allowNakedShorts
    requires r.side.Sell? && c.prediction(r.slot.instrument) ==> SellIsCovered(c, s, r)
    ensures Admits(NoShorts(c), c, s, r)
  {
    hide RiskRejected, Coherent, LiveOnly, Pending, Held, Ledger, PlainSellOpen, ReduceOnlySellOpen;
    GateCounts(s.desk, r.slot);
    HeldIsQuantity(s.account, r.slot);
    if Guarded(NoShorts(c), s) {
      assert WithinAt(NoShorts(c), s, r.slot);
      OpenIsNotNegative(NoShorts(c), s.desk, s.desk.live, r.slot, Sell);
    }
  }

  lemma {:induction false} CoveredRunIsAdmitted(c: Config, ops: seq<Op>)
    requires !c.allowNakedShorts && CoveredRun(c, ops)
    ensures AdmittedRun(NoShorts(c), c, ops)
    decreases |ops|
  {
    hide Admits, Run, SellIsCovered;
    if ops != [] {
      CoveredRunIsAdmitted(c, ops[..|ops| - 1]);
      if ops[|ops| - 1].Submit? {
        CoveredIsAdmitted(c, Run(c, ops[..|ops| - 1]), ops[|ops| - 1].request);
      }
    }
  }

  /**
   Where shorts need a holding, no run of ordinary steps whose sells are covered when they are sent
   ever takes a position short, with reduce-only orders and without.
   */
  lemma NobodyGoesShort(c: Config, ops: seq<Op>, slot: Slot)
    requires !c.allowNakedShorts && c.prediction(slot.instrument) && OrdinaryRun(c, ops) && CoveredRun(c, ops)
    ensures var s := Run(c, ops);
            Held(s.account, slot) >= 0
            && (Held(s.account, slot) >= Open(s.desk, slot, Sell) || !PlainSellOpen(s.desk, slot))
  {
    hide Run, AdmittedRun, Coherent, Ledger, OrdinaryRun, CoveredRun, Pending, PlainSellOpen;
    CoveredRunIsAdmitted(c, ops);
    StartsWithin(NoShorts(c), c);
    RunGuarded(NoShorts(c), c, ops);
    assert WithinAt(NoShorts(c), Run(c, ops), slot);
    OpenIsNotNegative(NoShorts(c), Run(c, ops).desk, Run(c, ops).desk.live, slot, Sell);
  }

  // ----- Runs without reduce-only orders -----

  function NoShortsPlain(c: Config): Bounds {
    NoShorts(c).(clamped := false, plain := true)
  }

  predicate SendsNoReduceOnly(ops: seq<Op>) {
    forall i :: 0 <= i < |ops| && ops[i].Submit? ==> !ops[i].request.reduceOnly
  }

  lemma PlainIsAdmitted(c: Config, s: State, r: Request)
    requires !c.allowNakedShorts && !r.reduceOnly
    ensures Admits(NoShortsPlain(c), c, s, r)
  {
    hide RiskRejected, Coherent, LiveOnly, Pending, Held, PlainSellOpen;
    GateCounts(s.desk, r.slot);
    HeldIsQuantity(s.account, r.slot);
    if Guarded(NoShortsPlain(c), s) {
      assert WithinAt(NoShortsPlain(c), s, r.slot);
      assert !ReduceOnlySellOpen(s.desk, r.slot);
    }
  }

  lemma {:induction false} PlainRunIsAdmitted(c: Config, ops: seq<Op>)
    requires !c.allowNakedShorts && SendsNoReduceOnly(ops)
    ensures AdmittedRun(NoShortsPlain(c), c, ops)
    decreases |ops|
  {
    hide Admits, Run;
    if ops != [] {
      PlainRunIsAdmitted(c, ops[..|ops| - 1]);
      if ops[|ops| - 1].Submit? {
        PlainIsAdmitted(c, Run(c, ops[..|ops| - 1]), ops[|ops| - 1].request);
      }
    }
  }

  /** With no reduce-only order sent, the gate alone is enough, prints or not. */
  lemma PlainSellersNeverGoShort(c: Config, ops: seq<Op>, slot: Slot)
    requires !c.allowNakedShorts && c.prediction(slot.instrument) && OrdinaryRun(c, ops) && SendsNoReduceOnly(ops)
    ensures var s := Run(c, ops);
            Held(s.account, slot) >= Open(s.desk, slot, Sell) >= 0
  {
    hide Run, AdmittedRun, Coherent, Ledger, OrdinaryRun, Pending, PlainSellOpen;
    var b := NoShortsPlain(c);
    PlainRunIsAdmitted(c, ops);
    StartsWithin(b, c);
    RunGuarded(b, c, ops);
    assert WithinAt(b, Run(c, ops), slot);
    OpenIsNotNegative(b, Run(c, ops).desk, Run(c, ops).desk.live, slot, Sell);
  }
}
