/**
 When indexed matching is the full scan, told from the state before it.

 The only order the scan treats differently is a skipped reduce-only order that, at its turn, has
 nothing left to reduce.  What is held at its turn is what was held before, moved by what each
 earlier order within reach takes; and that is a matter of sizes, limits and one book.
 */
module EngineScan {
  import opened FixedPoint
  import opened Orders
  import opened Book
  import opened Engine
  import opened EngineCoherence
  import opened EngineRuns
  import opened EngineAccount
  import opened EngineMatching
  import opened EngineOffers
  import opened EngineShortRuns
  import EngineRisk

  /** What an order would want with this much held. */
  function WantedAt(o: Order, held: int): int {
    if !o.reduceOnly then o.Remaining() else Min(o.Remaining(), Max(if o.side.Buy? then -held else held, 0))
  }

  /** What it would take from the book as it stands. */
  function TakesAt(c: Config, s: State, o: Order, held: int): int
    requires o.slot in s.market.books
  {
    Max(0, Min(WantedAt(o, held), DepthFor(c, s, o)))
  }

  predicate OnBook(s: State, id: OrderId) {
    id in s.desk.orders && s.desk.orders[id].slot in s.market.books
  }

  /**
   No skipped reduce-only order finds nothing to reduce, given what is held and what each order
   within reach before it takes.
   */
  predicate NoneStranded(c: Config, s: State, ids: seq<OrderId>, held: int)
    requires forall i :: 0 <= i < |ids| ==> OnBook(s, ids[i])
    decreases |ids|
  {
    ids == [] ||
      assert OnBook(s, ids[0]);
      var o := s.desk.orders[ids[0]];
      if WouldCross(s.market, o) then NoneStranded(c, s, ids[1..], held + TakesAt(c, s, o, held) * o.side.Signum())
      else !(o.reduceOnly && WantedAt(o, held) <= 0) && NoneStranded(c, s, ids[1..], held)
  }

  lemma WantedIsAt(a: Account, o: Order)
    ensures Wanted(a, o) == WantedAt(o, Held(a, o.slot))
  {
    hide Held;
    EngineRisk.HeldIsQuantity(a, o.slot);
  }

  lemma WaitingIsOffered(c: Config, s: State, id: OrderId)
    requires Coherent(s.desk) && s.fault.None? && KeepsPrices(c) && BooksValid(s.market) && Waiting(c, s, id)
    ensures Offered(c, s, id) && OnBook(s, id)
  {
    hide Structure, KeepsPrices, BooksValid, Stopped;
    WaitingIsOfferable(c, s, id);
  }

  /** A resting order's turn moves the holding by what it takes. */
  lemma TurnMovesHeld(c: Config, s: State, id: OrderId)
    requires Coherent(s.desk) && s.fault.None? && KeepsPrices(c) && BooksValid(s.market) && Waiting(c, s, id)
    ensures OnBook(s, id)
    ensures var o := s.desk.orders[id];
            var held := Held(s.account, o.slot);
            Held(TryFill(c, s, id).account, o.slot) == held + TakesAt(c, s, o, held) * o.side.Signum()
  {
    hide Coherent, KeepsPrices, BooksValid, Stopped, TryFill, DepthFor, Held, Wanted, Outcome, Recorded, SoundFills;
    WaitingIsOffered(c, s, id);
    var o := s.desk.orders[id];
    WantedIsAt(s.account, o);
    if Killed(c, s, o) {
      OfferTradesTheBook(c, s, id);
    } else {
      OfferMovesHeld(c, s, id);
    }
  }

  lemma {:induction false} StrandedReadsOrders(c: Config, s: State, s': State, ids: seq<OrderId>, held: int)
    requires s'.market == s.market
    requires forall i :: 0 <= i < |ids| ==> OnBook(s, ids[i]) && OnBook(s', ids[i]) && s'.desk.orders[ids[i]] == s.desk.orders[ids[i]]
    ensures NoneStranded(c, s', ids, held) == NoneStranded(c, s, ids, held)
    decreases |ids|
  {
    hide DepthFor, WouldCross;
    if ids != [] {
      var o := s.desk.orders[ids[0]];
      assert OnBook(s, ids[0]);
      DepthReadsMarket(c, s, s', o);
      StrandedReadsOrders(c, s, s', ids[1..], held + TakesAt(c, s, o, held) * o.side.Signum());
      StrandedReadsOrders(c, s, s', ids[1..], held);
    }
  }

  /** Every listed order waits in this slot. */
  ghost predicate Queue(c: Config, s: State, ids: seq<OrderId>, slot: Slot) {
    Matchable(c, s, ids) && forall i :: 0 <= i < |ids| ==> OnBook(s, ids[i]) && s.desk.orders[ids[i]].slot == slot
  }

  lemma QueueTail(c: Config, s: State, ids: seq<OrderId>, slot: Slot)
    requires Queue(c, s, ids, slot) && ids != []
    ensures Queue(c, s, ids[1..], slot)
  {
    hide Matchable;
    MatchableTail(c, s, ids);
  }

  lemma QueueAfterOffer(c: Config, s: State, ids: seq<OrderId>, slot: Slot)
    requires Queue(c, s, ids, slot) && ids != []
    ensures var s1 := TryFill(c, s, ids[0]);
            && Queue(c, s1, ids[1..], slot) && s1.market == s.market
            && (forall i :: 0 <= i < |ids[1..]| ==>
                  OnBook(s, ids[1..][i]) && OnBook(s1, ids[1..][i]) && s1.desk.orders[ids[1..][i]] == s.desk.orders[ids[1..][i]])
  {
    hide Matchable, TryFill;
    var s1 := TryFill(c, s, ids[0]);
    MatchableAfterOffer(c, s, ids);
    SameOrdersAfterOffer(c, s, ids);
    TurnKeepsMarket(c, s, ids);
    forall i | 0 <= i < |ids[1..]|
      ensures OnBook(s, ids[1..][i]) && OnBook(s1, ids[1..][i]) && s1.desk.orders[ids[1..][i]] == s.desk.orders[ids[1..][i]]
    {
      assert ids[1..][i] == ids[i + 1] && OnBook(s, ids[i + 1]);
    }
  }

  lemma TurnKeepsMarket(c: Config, s: State, ids: seq<OrderId>)
    requires Matchable(c, s, ids) && ids != []
    ensures TryFill(c, s, ids[0]).market == s.market
  {
    hide Structure, KeepsPrices, BooksValid, TryFill;
    HeadIsWaiting(c, s, ids);
    WaitingIsOfferable(c, s, ids[0]);
    TryFillCoherent(c, s, ids[0]);
  }

  /** Following sizes is following the match. */
  lemma {:induction false} StrandedIsEmptyHandedAtItsTurn(c: Config, s: State, ids: seq<OrderId>, slot: Slot)
    requires Queue(c, s, ids, slot)
    ensures NoneEmptyHanded(c, s, ids) <==> NoneStranded(c, s, ids, Held(s.account, slot))
    decreases |ids|
  {
    hide Matchable, WouldCross, TryFill, TakesAt, WantedAt, Held, Wanted;
    if ids != [] {
      HeadIsWaiting(c, s, ids);
      MatchableParts(c, s, ids);
      var o := s.desk.orders[ids[0]];
      assert OnBook(s, ids[0]);
      WantedIsAt(s.account, o);
      if WouldCross(s.market, o) {
        var s1 := TryFill(c, s, ids[0]);
        QueueAfterOffer(c, s, ids, slot);
        TurnMovesHeld(c, s, ids[0]);
        StrandedIsEmptyHandedAtItsTurn(c, s1, ids[1..], slot);
        StrandedReadsOrders(c, s, s1, ids[1..], Held(s1.account, slot));
      } else {
        QueueTail(c, s, ids, slot);
        StrandedIsEmptyHandedAtItsTurn(c, s, ids[1..], slot);
      }
    }
  }

  lemma ScanIsQueue(c: Config, s: State, slot: Slot)
    requires Coherent(s.desk) && s.fault.None? && KeepsPrices(c) && BooksValid(s.market)
    requires slot in s.market.books && !Stopped(c, s.market, slot.instrument)
    ensures Queue(c, s, Scan(s.desk, slot), slot)
  {
    hide Structure, Matchable, KeepsPrices, BooksValid, Scan, Stopped;
    var ids := Scan(s.desk, slot);
    ScanIsWaiting(c, s, slot);
    ScanHolds(s.desk, slot);
    forall i | 0 <= i < |ids| ensures OnBook(s, ids[i]) && s.desk.orders[ids[i]].slot == slot {
      var id := ids[i];
      assert id in ids;
    }
  }

  lemma EveryListedIsOnBook(c: Config, s: State, ids: seq<OrderId>, slot: Slot)
    requires Queue(c, s, ids, slot)
    ensures forall i :: 0 <= i < |ids| ==> OnBook(s, ids[i])
  {
    hide Matchable;
  }

  /**
   The refinement, told beforehand: in every reachable state of a market that trades, matching
   through the index is offering every resting order in submission order if and only if no skipped
   reduce-only order is stranded by what is held and what the orders within reach before it take.
   */
  lemma IndexedMatchingIsTheScanBeforehand(c: Config, ops: seq<Op>, slot: Slot)
    requires KeepsPrices(c) && c.preservesPrices
    requires var s := Run(c, ops);
             s.fault.None? && slot in s.market.books && !Stopped(c, s.market, slot.instrument)
    ensures var s := Run(c, ops);
            forall i :: 0 <= i < |Scan(s.desk, slot)| ==> OnBook(s, Scan(s.desk, slot)[i])
    ensures var s := Run(c, ops);
            (MatchResting(c, s, slot, false) == Offer(c, s, Scan(s.desk, slot)))
              <==> NoneStranded(c, s, Scan(s.desk, slot), Held(s.account, slot))
  {
    hide Run, MatchResting, Offer, Coherent, KeepsPrices, BooksValid, Stopped, NoneEmptyHanded, NoneStranded, Scan, Queue, Held;
    var s := Run(c, ops);
    RunIsSane(c, ops);
    RunKeepsBooks(c, ops);
    ScanIsQueue(c, s, slot);
    EveryListedIsOnBook(c, s, Scan(s.desk, slot), slot);
    StrandedIsEmptyHandedAtItsTurn(c, s, Scan(s.desk, slot), slot);
    IndexedMatchingIsTheScan(c, ops, slot);
  }
}
