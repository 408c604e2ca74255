/**
 What a print books: the fills it records, with their orders, prices and sizes.

 A resting order a print reaches is filled at its own limit, as a maker, for its share of the
 volume; the fills are on record in the order the print reached them, and there are no others.
 */
module EnginePrints {
  import opened FixedPoint
  import opened Sums
  import opened Orders
  import opened RestingIndex
  import opened Engine
  import opened EngineCoherence
  import opened EngineRuns
  import opened EngineQueue
  import opened EngineAccount

  /** One fill a print owes: an order as it rested, and how much of it. */
  datatype Ticket = Ticket(order: Order, quantity: int)

  predicate AllKnown(d: Desk, eligible: seq<(int, OrderId)>) {
    forall k :: 0 <= k < |eligible| ==> eligible[k].1 in d.orders
  }

  /**
   What a volume owes the reached orders, read from the state before it: each order in turn gets
   what is left after the queue ahead of it, up to what it wants, and passes on the rest.
   */
  function Tickets(s: State, eligible: seq<(int, OrderId)>, volume: int): seq<Ticket>
    requires AllKnown(s.desk, eligible)
    decreases |eligible|
  {
    if eligible == [] then []
    else
      var id := eligible[0].1;
      var share := Share(volume, Ahead(s, id), Room(s, id));
      (if share > 0 then [Ticket(s.desk.orders[id], share)] else [])
        + Tickets(s, eligible[1..], volume - Ahead(s, id) - Room(s, id))
  }

  /** A maker's fill: at the order's own limit, for the ticket's size, charged by the fee model. */
  predicate IsMakerFill(c: Config, before: seq<Fill>, t: Ticket, f: Fill) {
    && t.order.kind == Limit(f.price) && f.quantity == t.quantity && !f.isTaker
    && f.orderId == t.order.id && f.slot == t.order.slot && f.side == t.order.side
    && f.commission == c.fee(before, t.order, f.price, f.quantity, false)
  }

  /** One fill for each ticket, in order, each charged after the ones before it. */
  predicate AreMakerFills(c: Config, before: seq<Fill>, tickets: seq<Ticket>, fills: seq<Fill>) {
    && |fills| == |tickets|
    && (forall k :: 0 <= k < |fills| ==> IsMakerFill(c, before + fills[..k], tickets[k], fills[k]))
  }

  lemma NoMakerFills(c: Config, before: seq<Fill>)
    ensures AreMakerFills(c, before, [], [])
  {
  }

  lemma MakerFillFirst(c: Config, before: seq<Fill>, t: Ticket, tickets: seq<Ticket>, f: Fill, fills: seq<Fill>)
    requires IsMakerFill(c, before, t, f) && AreMakerFills(c, before + [f], tickets, fills)
    ensures AreMakerFills(c, before, [t] + tickets, [f] + fills)
  {
    hide IsMakerFill;
    var all := [f] + fills;
    forall k | 0 <= k < |all| ensures IsMakerFill(c, before + all[..k], ([t] + tickets)[k], all[k]) {
      if k == 0 {
        assert before + all[..0] == before;
      } else {
        assert before + all[..k] == (before + [f]) + fills[..k - 1];
        assert IsMakerFill(c, (before + [f]) + fills[..k - 1], tickets[k - 1], fills[k - 1]);
      }
    }
  }

  // ----- Tickets against the waterfall -----

  /** No ticket is for anything but a reached order. */
  lemma {:induction false} TicketIds(s: State, eligible: seq<(int, OrderId)>, volume: int, t: Ticket)
    requires AllKnown(s.desk, eligible) && t in Tickets(s, eligible, volume)
    ensures exists i :: 0 <= i < |eligible| && s.desk.orders[eligible[i].1] == t.order
    decreases |eligible|
  {
    hide Share, Ahead, Room;
    if eligible != [] {
      var id := eligible[0].1;
      var rest := volume - Ahead(s, id) - Room(s, id);
      if t in Tickets(s, eligible[1..], rest) {
        TicketIds(s, eligible[1..], rest, t);
        var i :| 0 <= i < |eligible[1..]| && s.desk.orders[eligible[1..][i].1] == t.order;
        assert eligible[i + 1] == eligible[1..][i];
      }
    }
  }

  lemma NotAhead(s: State, eligible: seq<(int, OrderId)>, volume: int, o: Order, q: int)
    requires AllKnown(s.desk, eligible) && forall i :: 0 <= i < |eligible| ==> s.desk.orders[eligible[i].1] != o
    ensures Ticket(o, q) !in Tickets(s, eligible, volume)
  {
    hide Tickets;
    if Ticket(o, q) in Tickets(s, eligible, volume) {
      TicketIds(s, eligible, volume, Ticket(o, q));
    }
  }

  /** A reached order gets a ticket exactly when its share is positive, and the ticket is for that share. */
  lemma {:induction false} TicketsAreShares(s: State, eligible: seq<(int, OrderId)>, volume: int, i: nat)
    requires i < |eligible| && DistinctIds(eligible) && AllKnown(s.desk, eligible) && Keyed(s.desk)
    ensures var id := eligible[i].1;
            var share := Share(volume - DepthBefore(s, eligible, i), Ahead(s, id), Room(s, id));
            forall q :: Ticket(s.desk.orders[id], q) in Tickets(s, eligible, volume) <==> share > 0 && q == share
    decreases |eligible|
  {
    hide Share, Ahead, Room;
    var first := eligible[0].1;
    var rest := volume - Ahead(s, first) - Room(s, first);
    var o := s.desk.orders[eligible[i].1];
    assert eligible[i].1 in s.desk.orders && o.id == eligible[i].1;
    forall k | 0 <= k < |eligible| && k != i ensures s.desk.orders[eligible[k].1] != o {
      assert eligible[k].1 in s.desk.orders && s.desk.orders[eligible[k].1].id == eligible[k].1;
    }
    if i == 0 {
      forall q ensures Ticket(o, q) !in Tickets(s, eligible[1..], rest) {
        NotAhead(s, eligible[1..], rest, o, q);
      }
    } else {
      forall j, k | 0 <= j < k < |eligible[1..]| ensures eligible[1..][j].1 != eligible[1..][k].1 {
        assert eligible[j + 1].1 != eligible[k + 1].1;
      }
      TicketsAreShares(s, eligible[1..], rest, i - 1);
      assert eligible[1..][i - 1] == eligible[i];
    }
  }

  lemma {:induction false} NothingLeftNoTickets(s: State, eligible: seq<(int, OrderId)>, volume: int)
    requires volume <= 0 && AllKnown(s.desk, eligible)
    ensures Tickets(s, eligible, volume) == []
    decreases |eligible|
  {
    if eligible != [] {
      NothingLeftNoTickets(s, eligible[1..], volume - Ahead(s, eligible[0].1) - Room(s, eligible[0].1));
    }
  }

  lemma SameOrder(d: Desk, d': Desk, j: OrderId)
    requires j in d.orders && SamePlace(d, d', j)
    ensures j in d'.orders && d'.orders[j] == d.orders[j]
  {
  }

  lemma {:induction false} SameTickets(s: State, s': State, eligible: seq<(int, OrderId)>, volume: int)
    requires forall k :: 0 <= k < |eligible| ==> Reachable(s.desk, eligible[k].1) && SamePlace(s.desk, s'.desk, eligible[k].1)
    ensures AllKnown(s.desk, eligible) && AllKnown(s'.desk, eligible)
    ensures Tickets(s', eligible, volume) == Tickets(s, eligible, volume)
    decreases |eligible|
  {
    hide Share, Ahead, Room, SamePlace;
    forall k | 0 <= k < |eligible| ensures eligible[k].1 in s.desk.orders && eligible[k].1 in s'.desk.orders {
      assert Reachable(s.desk, eligible[k].1);
      SameOrder(s.desk, s'.desk, eligible[k].1);
    }
    if eligible != [] {
      SameDemand(s, s', eligible[0].1);
      SameOrder(s.desk, s'.desk, eligible[0].1);
      SameTickets(s, s', eligible[1..], volume - Ahead(s, eligible[0].1) - Room(s, eligible[0].1));
    }
  }

  /** The rest of a volume, spent or not, owes the same. */
  lemma SpentTickets(s: State, eligible: seq<(int, OrderId)>, left: int)
    requires AllKnown(s.desk, eligible)
    ensures Tickets(s, eligible, Max(0, left)) == Tickets(s, eligible, left)
  {
    hide Tickets;
    if left <= 0 {
      NothingLeftNoTickets(s, eligible, left);
      NothingLeftNoTickets(s, eligible, 0);
    }
  }

  // ----- One reached order -----

  /** Every reached order rests at the limit it was reached at. */
  predicate AtLimits(d: Desk, eligible: seq<(int, OrderId)>) {
    forall k :: 0 <= k < |eligible| ==> IsLimit(d, eligible[k].1) && d.orders[eligible[k].1].kind.limit == eligible[k].0
  }

  lemma ExecuteBooksMaker(c: Config, s: State, id: OrderId, limit: int, fill: int) returns (f: Fill)
    requires IsLimit(s.desk, id) && s.desk.orders[id].kind.limit == limit && s.desk.orders[id].id == id
    requires fill <= s.desk.orders[id].Remaining()
    ensures IsMakerFill(c, s.account.fills, Ticket(s.desk.orders[id], fill), f)
    ensures Execute(c, s, id, limit, fill, false).account == AfterFill(c, s.account, f)
  {
    hide AfterFill, RemoveResting;
    var o := s.desk.orders[id];
    assert o.(id := id) == o;
    f := Fill(id, o.slot, o.side, limit, fill, c.fee(s.account.fills, o, limit, fill, false), false);
  }

  ghost predicate BooksMaker(c: Config, a: Account, a': Account, t: Ticket) {
    exists f :: IsMakerFill(c, a.fills, t, f) && a' == AfterFill(c, a, f)
  }

  lemma ConsumeOneBooksShare(c: Config, s: State, limit: int, id: OrderId, volume: int)
    requires IsLimit(s.desk, id) && s.desk.orders[id].kind.limit == limit && s.desk.orders[id].id == id && volume > 0
    ensures var share := Share(volume, Ahead(s, id), Room(s, id));
            var a' := ConsumeOne(c, s, limit, id, volume).state.account;
            if share > 0 then BooksMaker(c, s.account, a', Ticket(s.desk.orders[id], share)) else a' == s.account
  {
    hide Execute, AfterFill, IsMakerFill;
    var eaten := Eaten(s, id, volume);
    var s1 := SetAhead(s, id, ValueOr(s.desk.queueAhead, id, 0) - eaten);
    var fill := Min(volume - eaten, WantedBy(s1.desk, id));
    if volume - eaten > 0 && fill > 0 {
      var f := ExecuteBooksMaker(c, s1, id, limit, fill);
    }
  }

  // ----- The whole print -----

  /** The account is the old one with these tickets' fills booked, and nothing else. */
  ghost predicate Books(c: Config, a: Account, a': Account, tickets: seq<Ticket>) {
    exists added :: AreMakerFills(c, a.fills, tickets, added) && a' == FilledAll(c, a, added)
  }

  lemma BooksNothing(c: Config, a: Account)
    ensures Books(c, a, a, [])
  {
    NoMakerFills(c, a.fills);
    assert a == FilledAll(c, a, []);
  }

  lemma BookedFirst(c: Config, a: Account, f: Fill, rest: seq<Fill>)
    ensures FilledAll(c, AfterFill(c, a, f), rest) == FilledAll(c, a, [f] + rest)
    ensures AfterFill(c, a, f).fills == a.fills + [f]
  {
    hide AfterFill;
    assert [f][..0] == [];
    assert FilledAll(c, a, [f]) == AfterFill(c, a, f);
    FilledAllAppend(c, a, [f], rest);
    FilledAllFills(c, a, [f]);
  }

  lemma BooksFirst(c: Config, a: Account, a1: Account, a2: Account, t: Ticket, tickets: seq<Ticket>)
    requires BooksMaker(c, a, a1, t) && Books(c, a1, a2, tickets)
    ensures Books(c, a, a2, [t] + tickets)
  {
    hide AfterFill, IsMakerFill, AreMakerFills, FilledAll;
    var f :| IsMakerFill(c, a.fills, t, f) && a1 == AfterFill(c, a, f);
    var rest :| AreMakerFills(c, a1.fills, tickets, rest) && a2 == FilledAll(c, a1, rest);
    BookedFirst(c, a, f, rest);
    MakerFillFirst(c, a.fills, t, tickets, f, rest);
  }

  lemma AtLimitsTail(d: Desk, d': Desk, eligible: seq<(int, OrderId)>)
    requires AtLimits(d, eligible) && eligible != []
    requires forall k :: 0 <= k < |eligible| - 1 ==> Reachable(d, eligible[1..][k].1) && SamePlace(d, d', eligible[1..][k].1)
    ensures AtLimits(d', eligible[1..])
  {
    forall k | 0 <= k < |eligible[1..]|
      ensures IsLimit(d', eligible[1..][k].1) && d'.orders[eligible[1..][k].1].kind.limit == eligible[1..][k].0
    {
      assert eligible[1..][k] == eligible[k + 1] && IsLimit(d, eligible[k + 1].1);
    }
  }

  lemma PrintableIsKnown(s: State, eligible: seq<(int, OrderId)>)
    requires Printable(s, eligible)
    ensures AllKnown(s.desk, eligible) && Keyed(s.desk)
  {
    hide NothingElseIndexed, EveryRestingIndexed, LevelsAscend;
    forall k | 0 <= k < |eligible| ensures eligible[k].1 in s.desk.orders {
      assert Reachable(s.desk, eligible[k].1);
    }
  }

  /**
   Consuming a volume books one maker's fill for each ticket, at the order's own limit and in the
   order reached, and changes the account in no other way.
   */
  lemma {:induction false} ConsumeBooksTickets(c: Config, s: State, eligible: seq<(int, OrderId)>, volume: int)
    requires Printable(s, eligible) && AtLimits(s.desk, eligible)
    ensures AllKnown(s.desk, eligible)
    ensures Books(c, s.account, Consume(c, s, eligible, volume).state.account, Tickets(s, eligible, volume))
    decreases |eligible|
  {
    hide Printable, Books, BooksMaker, ConsumeOne, Share, Ahead, Room, AtLimits;
    PrintableIsKnown(s, eligible);
    BooksNothing(c, s.account);
    if volume <= 0 {
      NothingLeftNoTickets(s, eligible, volume);
    } else if eligible != [] {
      ConsumeFirstTicket(c, s, eligible, volume);
      var one := ConsumeOne(c, s, eligible[0].0, eligible[0].1, volume);
      ConsumeBooksTickets(c, one.state, eligible[1..], one.left);
      var tail := Tickets(one.state, eligible[1..], one.left);
      var id := eligible[0].1;
      var share := Share(volume, Ahead(s, id), Room(s, id));
      if share > 0 {
        BooksFirst(c, s.account, one.state.account, Consume(c, s, eligible, volume).state.account,
                   Ticket(s.desk.orders[id], share), tail);
      } else {
        assert Tickets(s, eligible, volume) == tail;
      }
    }
  }

  /** The first reached order, and what it leaves for the others. */
  lemma ConsumeFirstTicket(c: Config, s: State, eligible: seq<(int, OrderId)>, volume: int)
    requires Printable(s, eligible) && AtLimits(s.desk, eligible) && eligible != [] && volume > 0
    requires AllKnown(s.desk, eligible)
    ensures var id := eligible[0].1;
            var one := ConsumeOne(c, s, eligible[0].0, id, volume);
            var share := Share(volume, Ahead(s, id), Room(s, id));
            && s.fault.None? && Printable(one.state, eligible[1..]) && AtLimits(one.state.desk, eligible[1..])
            && AllKnown(one.state.desk, eligible[1..])
            && Tickets(one.state, eligible[1..], one.left)
                 == Tickets(s, eligible[1..], volume - Ahead(s, id) - Room(s, id))
            && (if share > 0 then BooksMaker(c, s.account, one.state.account, Ticket(s.desk.orders[id], share))
                else one.state.account == s.account)
  {
    hide Coherent, ConsumeOne, Share, Ahead, Room, BooksMaker, Tickets, SamePlace;
    var id := eligible[0].1;
    var one := ConsumeOne(c, s, eligible[0].0, id, volume);
    PrintableIsKnown(s, eligible);
    assert Reachable(s.desk, id) && IsLimit(s.desk, id);
    PrintableTail(c, s, eligible, volume);
    AtLimitsTail(s.desk, one.state.desk, eligible);
    ConsumeOneShares(c, s, eligible[0].0, id, volume);
    ConsumeOneBooksShare(c, s, eligible[0].0, id, volume);
    SameTickets(s, one.state, eligible[1..], one.left);
    SpentTickets(s, eligible[1..], volume - Ahead(s, id) - Room(s, id));
  }

  /** A resting order of one side of a market that a print at this price reaches. */
  predicate ReachedAt(slot: Slot, passive: Side, price: int, o: Order) {
    && o.slot == slot && o.side == passive && o.kind.Limit?
    && (if passive.Buy? then o.kind.limit >= price else o.kind.limit <= price)
  }

  /** One side of a print: the account gains a maker's fill per ticket, all of them that side's. */
  ghost predicate SideBooked(c: Config, s: State, a': Account, slot: Slot, price: int, size: int, passive: Side) {
    var eligible := ReachedByTrade(s.desk.index, slot, passive, price);
    && AllKnown(s.desk, eligible)
    && Books(c, s.account, a', Tickets(s, eligible, size))
    && (forall t :: t in Tickets(s, eligible, size) ==> ReachedAt(slot, passive, price, t.order))
  }

  lemma SideBooksTickets(c: Config, s: State, slot: Slot, price: int, size: int, passive: Side)
    requires Coherent(s.desk) && s.fault.None?
    ensures SideBooked(c, s, ConsumeSide(c, s, slot, price, size, passive).account, slot, price, size, passive)
  {
    hide Structure, Consume, ReachedByTrade, Tickets, Books, Pruned;
    var eligible := ReachedByTrade(s.desk.index, slot, passive, price);
    ReachedByTradeIsExact(s.desk, slot, passive, price);
    ReachedIsReachable(s.desk, slot, passive, price);
    forall k | 0 <= k < |eligible| ensures IsLimit(s.desk, eligible[k].1) && s.desk.orders[eligible[k].1].kind.limit == eligible[k].0 {
      assert Hit(s.desk, slot, passive, price, eligible[k].1);
    }
    ConsumeBooksTickets(c, s, eligible, size);
    ConsumeCoherent(c, s, eligible, size);
    PrunedIsIdle(Consume(c, s, eligible, size).state);
    forall t | t in Tickets(s, eligible, size) ensures ReachedAt(slot, passive, price, t.order) {
      TicketIds(s, eligible, size, t);
      var i :| 0 <= i < |eligible| && s.desk.orders[eligible[i].1] == t.order;
      assert Hit(s.desk, slot, passive, price, eligible[i].1);
    }
  }

  /**
   In every reachable state a print whose aggressor bought fills resting sells, one whose aggressor
   sold fills resting bids, and one of unknown side fills both or neither as the model says; each
   reached order with a positive share is filled once, at its own limit, and nothing else is booked.
   */
  lemma PrintBooksMakerFills(c: Config, ops: seq<Op>, slot: Slot, price: int, size: int, aggressor: Option<Side>)
    requires Run(c, ops).fault.None?
    ensures var s := Run(c, ops);
            var a' := Step(c, s, Print(slot, price, size, aggressor)).account;
            && (!c.usesQueue || (aggressor.None? && !c.fillsOnUnknownAggressor) ==> a' == s.account)
            && (c.usesQueue && aggressor == Some(Buy) ==> SideBooked(c, s, a', slot, price, size, Sell))
            && (c.usesQueue && aggressor == Some(Sell) ==> SideBooked(c, s, a', slot, price, size, Buy))
            && (c.usesQueue && aggressor.None? && c.fillsOnUnknownAggressor ==>
                  var s1 := Step(c, s, Print(slot, price, size, Some(Sell)));
                  SideBooked(c, s, s1.account, slot, price, size, Buy) && SideBooked(c, s1, a', slot, price, size, Sell))
  {
    hide Run, Coherent, ConsumeSide, SideBooked;
    var s := Run(c, ops);
    RunIsSane(c, ops);
    SideBooksTickets(c, s, slot, price, size, Buy);
    SideBooksTickets(c, s, slot, price, size, Sell);
    var s1 := ConsumeSide(c, s, slot, price, size, Buy);
    ConsumeSideCoherent(c, s, slot, price, size, Buy);
    SideBooksTickets(c, s1, slot, price, size, Sell);
  }
}
