/**
 Order-by-order books: which orders sit at a price, in what order they arrived.

 With every add, cancel and execution in the stream, how much is ahead of an order is a fact.
 It falls by exactly the size that left in front of it, and rises only where a feed executes a
 negative size.
 */
module L3 {
  import opened FixedPoint
  import opened Sorting
  import opened Sums
  import opened Orders

  datatype Resting = Resting(side: Side, price: int, size: int)

  datatype LevelKey = LevelKey(side: Side, price: int)

  datatype BookL3 = BookL3(orders: map<int, Resting>, levels: map<LevelKey, seq<int>>)

  datatype Message =
    | Add(id: int, side: Side, price: int, size: int)
    | Cancel(id: int)
    | Execute(id: int, size: int)
    | Reduce(id: int, newSize: int)

  function LevelOf(r: Resting): LevelKey {
    LevelKey(r.side, r.price)
  }

  // ----- Messages -----

  function QueueAt(b: BookL3, key: LevelKey): seq<int> {
    if key in b.levels then b.levels[key] else []
  }

  /** Refused, leaving the book alone: no size, or an id already on the book. */
  predicate AddRefused(b: BookL3, id: int, size: int) {
    size <= 0 || id in b.orders
  }

  function AfterAdd(b: BookL3, id: int, r: Resting): BookL3 {
    BookL3(b.orders[id := r], b.levels[LevelOf(r) := QueueAt(b, LevelOf(r)) + [id]])
  }

  /** An unknown order is not an error: feeds name orders that predate the snapshot. */
  function AfterCancel(b: BookL3, id: int): BookL3 {
    if id !in b.orders then b
    else
      var key := LevelOf(b.orders[id]);
      var queue := Without(QueueAt(b, key), id);
      BookL3(b.orders - {id},
             if key !in b.levels then b.levels
             else if queue == [] then b.levels - {key}
             else b.levels[key := queue])
  }

  function AfterResize(b: BookL3, id: int, size: int): BookL3
    requires id in b.orders
  {
    b.(orders := b.orders[id := b.orders[id].(size := size)])
  }

  function ExecutedSize(b: BookL3, id: int, size: int): int {
    if id in b.orders then Min(size, b.orders[id].size) else 0
  }

  function AfterExecute(b: BookL3, id: int, size: int): BookL3 {
    if id !in b.orders then b
    else
      var left := b.orders[id].size - ExecutedSize(b, id, size);
      if left <= 0 then AfterCancel(AfterResize(b, id, left), id) else AfterResize(b, id, left)
  }

  predicate ReduceRefused(b: BookL3, id: int, newSize: int) {
    id in b.orders && newSize > b.orders[id].size
  }

  function AfterReduce(b: BookL3, id: int, newSize: int): BookL3 {
    if id !in b.orders then b
    else if newSize <= 0 then AfterCancel(b, id)
    else AfterResize(b, id, newSize)
  }

  function Applied(b: BookL3, m: Message): (b': BookL3) {
    match m
    case Add(id, side, price, size) =>
      if AddRefused(b, id, size) then b else AfterAdd(b, id, Resting(side, price, size))
    case Cancel(id) => AfterCancel(b, id)
    case Execute(id, size) => AfterExecute(b, id, size)
    case Reduce(id, newSize) => if ReduceRefused(b, id, newSize) then b else AfterReduce(b, id, newSize)
  }

  // ----- Orders and queues in bijection -----

  predicate OrdersQueued(b: BookL3) {
    forall id :: id in b.orders ==>
      b.orders[id].size > 0 && LevelOf(b.orders[id]) in b.levels && id in b.levels[LevelOf(b.orders[id])]
  }

  predicate QueuesHoldOrders(b: BookL3) {
    forall key :: key in b.levels ==>
      && b.levels[key] != [] && NoDuplicates(b.levels[key])
      && forall id :: id in b.levels[key] ==> id in b.orders && LevelOf(b.orders[id]) == key
  }

  predicate Valid(b: BookL3) {
    OrdersQueued(b) && QueuesHoldOrders(b)
  }

  lemma AddedKeepsValid(b: BookL3, id: int, r: Resting)
    requires Valid(b) && id !in b.orders && r.size > 0
    ensures Valid(AfterAdd(b, id, r))
  {
    var b' := AfterAdd(b, id, r);
    var key := LevelOf(r);
    assert id !in QueueAt(b, key);
    forall i | i in b'.orders
      ensures b'.orders[i].size > 0 && LevelOf(b'.orders[i]) in b'.levels && i in b'.levels[LevelOf(b'.orders[i])]
    {
      assert i != id ==> LevelOf(b.orders[i]) in b.levels && i in b.levels[LevelOf(b.orders[i])];
    }
  }

  lemma CancelledKeepsValid(b: BookL3, id: int)
    requires QueuesHoldOrders(b)
    requires forall i :: i in b.orders && i != id ==>
               b.orders[i].size > 0 && LevelOf(b.orders[i]) in b.levels && i in b.levels[LevelOf(b.orders[i])]
    requires id in b.orders
    ensures Valid(AfterCancel(b, id))
  {
    var b' := AfterCancel(b, id);
    var key := LevelOf(b.orders[id]);
    WithoutProperties(QueueAt(b, key), id);
    forall i | i in b'.orders
      ensures b'.orders[i].size > 0 && LevelOf(b'.orders[i]) in b'.levels && i in b'.levels[LevelOf(b'.orders[i])]
    {
      assert i in b.levels[LevelOf(b.orders[i])];
      if LevelOf(b.orders[i]) == key {
        assert i in Without(QueueAt(b, key), id);
      }
    }
  }

  lemma AppliedKeepsValid(b: BookL3, m: Message)
    requires Valid(b)
    ensures Valid(Applied(b, m))
  {
    match m
    case Add(id, side, price, size) =>
      if !AddRefused(b, id, size) {
        AddedKeepsValid(b, id, Resting(side, price, size));
      }
    case Cancel(id) =>
      if id in b.orders {
        CancelledKeepsValid(b, id);
      }
    case Execute(id, size) =>
      if id in b.orders {
        var left := b.orders[id].size - ExecutedSize(b, id, size);
        if left <= 0 {
          CancelledKeepsValid(AfterResize(b, id, left), id);
        }
      }
    case Reduce(id, newSize) =>
      if id in b.orders && newSize <= 0 {
        CancelledKeepsValid(b, id);
      }
  }

  // ----- Conservation of size -----

  ghost function Displayed(b: BookL3): int {
    MapSum(Sizes(b.orders))
  }

  function Sizes(orders: map<int, Resting>): map<int, int> {
    map id | id in orders :: orders[id].size
  }

  lemma DisplayedAfterAdd(b: BookL3, id: int, r: Resting)
    ensures Displayed(b.(orders := b.orders[id := r]))
         == Displayed(b) - (if id in b.orders then b.orders[id].size else 0) + r.size
  {
    assert Sizes(b.orders[id := r]) == Sizes(b.orders)[id := r.size];
    MapSumUpdate(Sizes(b.orders), id, r.size);
  }

  lemma DisplayedAfterRemove(b: BookL3, id: int, levels: map<LevelKey, seq<int>>)
    requires id in b.orders
    ensures Displayed(BookL3(b.orders - {id}, levels)) == Displayed(b) - b.orders[id].size
  {
    assert Sizes(b.orders - {id}) == Sizes(b.orders) - {id};
    MapSumRemove(Sizes(b.orders), id);
  }

  /** What a message adds to each side of the account. */
  datatype Ledger = Ledger(added: int, executed: int, cancelled: int, reduced: int)

  function Booked(b: BookL3, m: Message): Ledger {
    match m
    case Add(id, _, _, size) => if AddRefused(b, id, size) then Ledger(0, 0, 0, 0) else Ledger(size, 0, 0, 0)
    case Cancel(id) => Ledger(0, 0, if id in b.orders then b.orders[id].size else 0, 0)
    case Execute(id, size) => Ledger(0, ExecutedSize(b, id, size), 0, 0)
    case Reduce(id, newSize) =>
      if id !in b.orders || ReduceRefused(b, id, newSize) then Ledger(0, 0, 0, 0)
      else Ledger(0, 0, 0, b.orders[id].size - Max(newSize, 0))
  }

  function Plus(a: Ledger, b: Ledger): Ledger {
    Ledger(a.added + b.added, a.executed + b.executed, a.cancelled + b.cancelled, a.reduced + b.reduced)
  }

  lemma MessageConservesSize(b: BookL3, m: Message)
    requires Valid(b)
    ensures var l := Booked(b, m);
            Displayed(Applied(b, m)) == Displayed(b) + l.added - l.executed - l.cancelled - l.reduced
  {
    match m
    case Add(id, side, price, size) =>
      if !AddRefused(b, id, size) {
        var r := Resting(side, price, size);
        DisplayedAfterAdd(b, id, r);
        assert Displayed(AfterAdd(b, id, r)) == Displayed(b.(orders := b.orders[id := r]));
      }
    case Cancel(id) =>
      if id in b.orders {
        DisplayedAfterRemove(b, id, AfterCancel(b, id).levels);
      }
    case Execute(id, size) =>
      if id in b.orders {
        var left := b.orders[id].size - ExecutedSize(b, id, size);
        var b1 := AfterResize(b, id, left);
        DisplayedAfterAdd(b, id, b.orders[id].(size := left));
        if left <= 0 {
          DisplayedAfterRemove(b1, id, AfterCancel(b1, id).levels);
        }
      }
    case Reduce(id, newSize) =>
      if id in b.orders && !ReduceRefused(b, id, newSize) {
        if newSize <= 0 {
          DisplayedAfterRemove(b, id, AfterCancel(b, id).levels);
        } else {
          DisplayedAfterAdd(b, id, b.orders[id].(size := newSize));
        }
      }
  }

  const EMPTY: BookL3 := BookL3(map[], map[])

  function Fed(ms: seq<Message>): (b: BookL3) {
    if ms == [] then EMPTY else Applied(Fed(ms[..|ms| - 1]), ms[|ms| - 1])
  }

  function Account(ms: seq<Message>): Ledger {
    if ms == [] then Ledger(0, 0, 0, 0)
    else
      var n := |ms| - 1;
      Plus(Account(ms[..n]), Booked(Fed(ms[..n]), ms[n]))
  }

  /**
   Under any message sequence: orders and queues stay in bijection with positive sizes, and
   everything ever added was executed, cancelled, reduced away, or is still showing.
   */
  lemma {:induction false} FeedConservesSize(ms: seq<Message>)
    ensures Valid(Fed(ms))
    ensures var l := Account(ms);
            l.added == l.executed + l.cancelled + l.reduced + Displayed(Fed(ms))
    decreases |ms|
  {
    if ms == [] {
      assert Sizes(EMPTY.orders) == map[];
    } else {
      var n := |ms| - 1;
      FeedConservesSize(ms[..n]);
      AppliedKeepsValid(Fed(ms[..n]), ms[n]);
      MessageConservesSize(Fed(ms[..n]), ms[n]);
    }
  }

  // ----- Message by message -----

  /** What a message makes of the order it names: its size afterwards, nothing when it is off the book. */
  function SizeAfter(b: BookL3, m: Message): int {
    var size := if m.id in b.orders then b.orders[m.id].size else 0;
    match m
    case Add(_, _, _, q) => if m.id in b.orders then size else Max(q, 0)
    case Cancel(_) => 0
    case Execute(_, q) => if m.id in b.orders then size - Min(q, size) else 0
    case Reduce(_, q) => if q > size then size else Max(q, 0)
  }

  /** The queue of a level after a message: a new order at the back, one that left gone, the rest in order. */
  function QueueAfter(b: BookL3, m: Message, key: LevelKey): seq<int> {
    if m.Add? && m.id !in b.orders && m.size > 0 && key == LevelKey(m.side, m.price) then QueueAt(b, key) + [m.id]
    else if m.id in b.orders && SizeAfter(b, m) <= 0 then Without(QueueAt(b, key), m.id)
    else QueueAt(b, key)
  }

  lemma {:induction false} WithoutAbsent(queue: seq<int>, id: int)
    requires id !in queue
    ensures Without(queue, id) == queue
    decreases |queue|
  {
    if queue != [] {
      assert queue == [queue[0]] + queue[1..];
      WithoutAbsent(queue[1..], id);
    }
  }

  lemma OnOneLevel(b: BookL3, id: int, key: LevelKey)
    requires Valid(b) && id in b.orders && key != LevelOf(b.orders[id])
    ensures id !in QueueAt(b, key)
  {
  }

  /**
   Each message, order by order and level by level: the named order has the size the message leaves
   it, at the side and price it was added at, and is off the book when that is nothing; every other
   order is as it was; a new order goes to the back of its level's queue, one that leaves is taken
   out of its own, and no queue is reordered.
   */
  lemma MessageIsExact(b: BookL3, m: Message)
    requires Valid(b)
    ensures var b' := Applied(b, m);
            && (m.id in b'.orders <==> SizeAfter(b, m) > 0)
            && (m.id in b'.orders ==>
                  && b'.orders[m.id].size == SizeAfter(b, m)
                  && (m.id in b.orders ==> LevelOf(b'.orders[m.id]) == LevelOf(b.orders[m.id]))
                  && (m.id !in b.orders ==> m.Add? && LevelOf(b'.orders[m.id]) == LevelKey(m.side, m.price)))
            && (forall x :: x != m.id ==> (x in b'.orders <==> x in b.orders) && (x in b.orders ==> b'.orders[x] == b.orders[x]))
            && (forall key :: QueueAt(b', key) == QueueAfter(b, m, key))
  {
    var b' := Applied(b, m);
    if m.id in b.orders {
      var home := LevelOf(b.orders[m.id]);
      forall key ensures QueueAt(b', key) == QueueAfter(b, m, key) {
        if key != home {
          OnOneLevel(b, m.id, key);
          WithoutAbsent(QueueAt(b, key), m.id);
        }
      }
    }
  }

  // ----- Queue position -----

  function SizeOf(orders: map<int, Resting>, id: int): int {
    if id in orders then orders[id].size else 0
  }

  /** Size queued in front of `id`; none when `id` is not queued here. */
  function AheadIn(queue: seq<int>, orders: map<int, Resting>, id: int): (ahead: Option<int>) {
    if queue == [] then None
    else if queue[0] == id then Some(0)
    else match AheadIn(queue[1..], orders, id)
      case None => None
      case Some(rest) => Some(SizeOf(orders, queue[0]) + rest)
  }

  function SizeAheadOf(b: BookL3, id: int): (ahead: Option<int>) {
    if id !in b.orders then None else AheadIn(QueueAt(b, LevelOf(b.orders[id])), b.orders, id)
  }

  /** Is `x` queued in front of `id`? */
  predicate InFront(queue: seq<int>, x: int, id: int) {
    queue != [] && queue[0] != id && (queue[0] == x || InFront(queue[1..], x, id))
  }

  lemma {:induction false} AheadIsKnown(queue: seq<int>, orders: map<int, Resting>, id: int)
    ensures AheadIn(queue, orders, id).Some? <==> id in queue
    decreases |queue|
  {
    if queue != [] {
      assert queue == [queue[0]] + queue[1..];
      AheadIsKnown(queue[1..], orders, id);
    }
  }

  lemma {:induction false} AheadAfterResize(queue: seq<int>, orders: map<int, Resting>, orders': map<int, Resting>, x: int, id: int)
    requires NoDuplicates(queue) && id in queue && x != id
    requires forall i :: i != x ==> SizeOf(orders', i) == SizeOf(orders, i)
    ensures AheadIn(queue, orders, id).Some? && AheadIn(queue, orders', id).Some?
    ensures AheadIn(queue, orders', id).value
         == AheadIn(queue, orders, id).value
            - (if InFront(queue, x, id) then SizeOf(orders, x) - SizeOf(orders', x) else 0)
    decreases |queue|
  {
    assert queue == [queue[0]] + queue[1..];
    if queue[0] != id {
      if queue[0] == x {
        assert x !in queue[1..];
        NotInFront(queue[1..], x, id);
      }
      AheadAfterResize(queue[1..], orders, orders', x, id);
    }
  }

  lemma {:induction false} NotInFront(queue: seq<int>, x: int, id: int)
    requires x !in queue
    ensures !InFront(queue, x, id)
    decreases |queue|
  {
    if queue != [] {
      assert queue == [queue[0]] + queue[1..];
      NotInFront(queue[1..], x, id);
    }
  }

  lemma {:induction false} AheadAfterRemove(queue: seq<int>, orders: map<int, Resting>, x: int, id: int)
    requires id in queue && x != id && SizeOf(orders, x) == 0
    ensures AheadIn(Without(queue, x), orders, id) == AheadIn(queue, orders, id)
    decreases |queue|
  {
    assert queue == [queue[0]] + queue[1..];
    if queue[0] != id {
      AheadAfterRemove(queue[1..], orders, x, id);
      AheadIsKnown(queue[1..], orders, id);
    }
    if queue[0] != x {
      assert Without(queue, x)[1..] == Without(queue[1..], x);
    }
  }

  lemma {:induction false} AheadAfterAppend(queue: seq<int>, orders: map<int, Resting>, x: int, id: int)
    requires id in queue
    ensures AheadIn(queue + [x], orders, id) == AheadIn(queue, orders, id)
    decreases |queue|
  {
    assert queue == [queue[0]] + queue[1..];
    assert (queue + [x])[1..] == queue[1..] + [x];
    if queue[0] != id {
      AheadAfterAppend(queue[1..], orders, x, id);
    }
  }

  /** The order a message names. */
  function Named(m: Message): int {
    m.id
  }

  /** Does the message name an order queued in front of `id`? */
  predicate NamesInFront(b: BookL3, m: Message, id: int)
    requires id in b.orders
  {
    Named(m) in b.orders && InFront(QueueAt(b, LevelOf(b.orders[id])), Named(m), id)
  }

  /** Size executed, cancelled or reduced away in front of `id`. */
  function LeftInFront(b: BookL3, m: Message, id: int): int
    requires id in b.orders
  {
    if NamesInFront(b, m, id) then
      var l := Booked(b, m);
      l.executed + l.cancelled + l.reduced
    else 0
  }

  /** What is booked as leaving an order is what it shows less afterwards. */
  lemma BookedIsWhatLeft(b: BookL3, m: Message)
    requires Valid(b) && Named(m) in b.orders
    ensures var l, x := Booked(b, m), Named(m);
            SizeOf(b.orders, x) - SizeOf(Applied(b, m).orders, x) == l.executed + l.cancelled + l.reduced
  {
  }

  lemma AheadAfterCancelled(b: BookL3, b0: BookL3, x: int, id: int)
    requires Valid(b0) && x in b.orders && id in b0.orders && x != id
    requires b.levels == b0.levels && b.orders.Keys == b0.orders.Keys
    requires forall i :: i in b.orders && i != x ==> b.orders[i] == b0.orders[i]
    requires LevelOf(b.orders[x]) == LevelOf(b0.orders[x])
    ensures id in AfterCancel(b, x).orders
    ensures SizeAheadOf(b0, id).Some? && SizeAheadOf(AfterCancel(b, x), id).Some?
    ensures SizeAheadOf(AfterCancel(b, x), id).value
         == SizeAheadOf(b0, id).value
            - (if InFront(QueueAt(b0, LevelOf(b0.orders[id])), x, id) then SizeOf(b0.orders, x) else 0)
  {
    var b' := AfterCancel(b, x);
    var key := LevelOf(b0.orders[id]);
    var queue := QueueAt(b0, key);
    assert id in queue;
    AheadAfterResize(queue, b0.orders, b'.orders, x, id);
    if LevelOf(b.orders[x]) == key {
      assert QueueAt(b', key) == Without(queue, x);
      AheadAfterRemove(queue, b'.orders, x, id);
    } else {
      assert QueueAt(b', key) == queue;
    }
  }

  /** The named order shrank, or grew, where it stands. */
  lemma ResizedAhead(b: BookL3, b': BookL3, x: int, id: int)
    requires Valid(b) && x in b.orders && id in b.orders && x != id && b'.levels == b.levels
    requires x in b'.orders && b'.orders == b.orders[x := b.orders[x].(size := b'.orders[x].size)]
    ensures SizeAheadOf(b, id).Some? && SizeAheadOf(b', id).Some?
    ensures SizeAheadOf(b', id).value
         == SizeAheadOf(b, id).value
            - (if InFront(QueueAt(b, LevelOf(b.orders[id])), x, id) then SizeOf(b.orders, x) - SizeOf(b'.orders, x) else 0)
  {
    var queue := QueueAt(b, LevelOf(b.orders[id]));
    assert id in queue && NoDuplicates(queue);
    AheadAfterResize(queue, b.orders, b'.orders, x, id);
  }

  lemma GoneHasNoSize(b: BookL3, x: int)
    requires x !in b.orders
    ensures SizeOf(b.orders, x) == 0
  {
  }

  /** An order a message leaves on the book only changed size. */
  lemma SurvivorIsResized(b: BookL3, m: Message)
    requires Named(m) in b.orders && !m.Add?
    ensures var b', x := Applied(b, m), Named(m);
            x in b'.orders ==> b'.levels == b.levels && b'.orders == b.orders[x := b.orders[x].(size := b'.orders[x].size)]
  {
    var b', x := Applied(b, m), Named(m);
    if x in b'.orders {
      assert b.orders == b.orders[x := b.orders[x].(size := b.orders[x].size)];
    }
  }

  /** And one it takes off the book was cancelled, at whatever size was left of it. */
  lemma LeaverIsCancelled(b: BookL3, m: Message, id: int)
    requires Valid(b) && id in b.orders && Named(m) != id && Named(m) in b.orders && !m.Add?
    requires Named(m) !in Applied(b, m).orders
    ensures SizeAheadOf(b, id).Some? && SizeAheadOf(Applied(b, m), id).Some?
    ensures SizeAheadOf(Applied(b, m), id).value
         == SizeAheadOf(b, id).value
            - (if InFront(QueueAt(b, LevelOf(b.orders[id])), Named(m), id) then SizeOf(b.orders, Named(m)) else 0)
  {
    hide Valid, SizeAheadOf, InFront, AfterCancel, SizeOf;
    var x := Named(m);
    if m.Execute? {
      AheadAfterCancelled(AfterResize(b, x, b.orders[x].size - ExecutedSize(b, x, m.size)), b, x, id);
    } else {
      AheadAfterCancelled(b, b, x, id);
    }
  }

  /** A message about another order that is on the book and that the book does not refuse. */
  lemma ForeignMessage(b: BookL3, m: Message, id: int)
    requires Valid(b) && id in b.orders && Named(m) != id && Named(m) in b.orders && !m.Add?
    ensures SizeAheadOf(b, id).Some? && SizeAheadOf(Applied(b, m), id).Some?
    ensures SizeAheadOf(Applied(b, m), id).value == SizeAheadOf(b, id).value - LeftInFront(b, m, id)
  {
    hide Valid, SizeAheadOf, InFront, AfterCancel, SizeOf;
    var b' := Applied(b, m);
    var x := Named(m);
    BookedIsWhatLeft(b, m);
    SurvivorIsResized(b, m);
    if x in b'.orders {
      ResizedAhead(b, b', x, id);
    } else {
      GoneHasNoSize(b', x);
      LeaverIsCancelled(b, m, id);
    }
  }

  /** Something joins in front exactly when an execution there has a negative size. */
  lemma JoinsInFrontExactlyWhen(b: BookL3, m: Message, id: int)
    requires Valid(b) && id in b.orders
    ensures LeftInFront(b, m, id) < 0 <==> m.Execute? && m.size < 0 && NamesInFront(b, m, id)
  {
    assert Named(m) in b.orders ==> b.orders[Named(m)].size > 0;
  }

  /**
   While an order stays on the book, what is ahead of it falls by exactly the size the message
   took out in front of it.  It rises exactly when the message executes a negative size of an
   order in front.
   */
  lemma QueueOnlyAdvances(b: BookL3, m: Message, id: int)
    requires Valid(b) && id in b.orders && id in Applied(b, m).orders
    ensures SizeAheadOf(b, id).Some? && SizeAheadOf(Applied(b, m), id).Some?
    ensures SizeAheadOf(Applied(b, m), id).value == SizeAheadOf(b, id).value - LeftInFront(b, m, id)
    ensures SizeAheadOf(Applied(b, m), id).value > SizeAheadOf(b, id).value
       <==> m.Execute? && m.size < 0 && NamesInFront(b, m, id)
  {
    AheadIsKnown(QueueAt(b, LevelOf(b.orders[id])), b.orders, id);
    JoinsInFrontExactlyWhen(b, m, id);
    var x := Named(m);
    if x == id {
      OwnMessageKeepsPosition(b, m, id);
    } else if m.Add? {
      AddBehind(b, m, id);
    } else if x in b.orders {
      ForeignMessage(b, m, id);
    } else {
      assert Applied(b, m) == b;
    }
  }

  // ----- Queue position over a whole feed -----

  function FedFrom(b: BookL3, ms: seq<Message>): (b': BookL3)
    decreases |ms|
  {
    if ms == [] then b else FedFrom(Applied(b, ms[0]), ms[1..])
  }

  /** The order is on the book before the feed and after each of its messages. */
  predicate StaysOn(b: BookL3, ms: seq<Message>, id: int)
    decreases |ms|
  {
    id in b.orders && (ms != [] ==> StaysOn(Applied(b, ms[0]), ms[1..], id))
  }

  /** Everything that left in front of the order along the way. */
  function TotalLeftInFront(b: BookL3, ms: seq<Message>, id: int): int
    requires StaysOn(b, ms, id)
    decreases |ms|
  {
    if ms == [] then 0
    else LeftInFront(b, ms[0], id) + TotalLeftInFront(Applied(b, ms[0]), ms[1..], id)
  }

  predicate NoNegativeExecution(ms: seq<Message>) {
    forall i :: 0 <= i < |ms| && ms[i].Execute? ==> ms[i].size >= 0
  }

  /**
   Over any message sequence through which an order stays on the book, the size ahead of it falls
   by exactly the sum of what left in front of it, and never rises unless some execution has a
   negative size.
   */
  lemma {:induction false} QueueOnlyAdvancesOverFeed(b: BookL3, ms: seq<Message>, id: int)
    requires Valid(b) && StaysOn(b, ms, id)
    ensures SizeAheadOf(b, id).Some? && SizeAheadOf(FedFrom(b, ms), id).Some?
    ensures SizeAheadOf(FedFrom(b, ms), id).value == SizeAheadOf(b, id).value - TotalLeftInFront(b, ms, id)
    ensures NoNegativeExecution(ms) ==> SizeAheadOf(FedFrom(b, ms), id).value <= SizeAheadOf(b, id).value
    decreases |ms|
  {
    hide Applied, Valid, SizeAheadOf, LeftInFront;
    if ms == [] {
      QueuedIsKnown(b, id);
    } else {
      QueueOnlyAdvances(b, ms[0], id);
      AppliedKeepsValid(b, ms[0]);
      QueueOnlyAdvancesOverFeed(Applied(b, ms[0]), ms[1..], id);
    }
  }

  lemma QueuedIsKnown(b: BookL3, id: int)
    requires Valid(b) && id in b.orders
    ensures SizeAheadOf(b, id).Some?
  {
    AheadIsKnown(QueueAt(b, LevelOf(b.orders[id])), b.orders, id);
  }

  lemma AddBehind(b: BookL3, m: Message, id: int)
    requires Valid(b) && id in b.orders && m.Add? && m.id != id
    ensures SizeAheadOf(Applied(b, m), id) == SizeAheadOf(b, id)
    ensures LeftInFront(b, m, id) == 0
  {
    var queue := QueueAt(b, LevelOf(b.orders[id]));
    AheadIsKnown(queue, b.orders, id);
    if !AddRefused(b, m.id, m.size) {
      var b' := Applied(b, m);
      assert m.id !in queue;
      NotInFront(queue, m.id, id);
      AheadAfterResize(queue, b.orders, b'.orders, m.id, id);
      AheadAfterAppend(queue, b'.orders, m.id, id);
    }
  }

  lemma OwnMessageKeepsPosition(b: BookL3, m: Message, id: int)
    requires Valid(b) && id in b.orders && Named(m) == id && id in Applied(b, m).orders
    ensures SizeAheadOf(Applied(b, m), id) == SizeAheadOf(b, id)
    ensures LeftInFront(b, m, id) == 0
  {
    var queue := QueueAt(b, LevelOf(b.orders[id]));
    SelfNotInFront(queue, id);
    OwnSizeDoesNotMatter(queue, b.orders, Applied(b, m).orders, id);
  }

  lemma {:induction false} SelfNotInFront(queue: seq<int>, id: int)
    ensures !InFront(queue, id, id)
    decreases |queue|
  {
    if queue != [] {
      SelfNotInFront(queue[1..], id);
    }
  }

  lemma {:induction false} OwnSizeDoesNotMatter(queue: seq<int>, orders: map<int, Resting>, orders': map<int, Resting>, id: int)
    requires forall i :: i != id ==> SizeOf(orders', i) == SizeOf(orders, i)
    ensures AheadIn(queue, orders', id) == AheadIn(queue, orders, id)
    decreases |queue|
  {
    if queue != [] {
      OwnSizeDoesNotMatter(queue[1..], orders, orders', id);
    }
  }

  /** A negative execution grows the order it names, and pushes back everyone behind it. */
  lemma NegativeExecutionPushesBack()
    ensures var queue := [1, 2];
            var b := BookL3(map[1 := Resting(Buy, 100, 5), 2 := Resting(Buy, 100, 5)], map[LevelKey(Buy, 100) := queue]);
            && Valid(b)
            && SizeAheadOf(b, 2) == Some(5)
            && SizeAheadOf(Applied(b, Execute(1, -3)), 2) == Some(8)
  {
    var queue := [1, 2];
    var b := BookL3(map[1 := Resting(Buy, 100, 5), 2 := Resting(Buy, 100, 5)], map[LevelKey(Buy, 100) := queue]);
    assert queue[1..] == [2];
    assert 1 in queue && 2 in queue;
    assert AheadIn(queue[1..], b.orders, 2) == Some(0);
    var b' := Applied(b, Execute(1, -3));
    assert b' == AfterResize(b, 1, 8);
    assert AheadIn(queue[1..], b'.orders, 2) == Some(0);
  }

  /** An order-by-order book, front of each queue first. */
  class L3Book {
    var orders: map<int, Resting>
    var levels: map<LevelKey, seq<int>>

    function State(): BookL3
      reads this
    {
      BookL3(orders, levels)
    }

    constructor ()
      ensures State() == EMPTY
    {
      orders, levels := map[], map[];
    }

    method AddOrder(id: int, side: Side, price: int, size: int) returns (ok: bool)
      modifies this
      ensures ok <==> !AddRefused(old(State()), id, size)
      ensures State() == Applied(old(State()), Add(id, side, price, size))
    {
      ok := size > 0 && id !in orders;
      if ok {
        var key := LevelKey(side, price);
        var queue := if key in levels then levels[key] else [];
        orders := orders[id := Resting(side, price, size)];
        levels := levels[key := queue + [id]];
      }
    }

    /** Returns the size that left the book. */
    method CancelOrder(id: int) returns (size: int)
      modifies this
      ensures size == SizeOf(old(orders), id)
      ensures State() == AfterCancel(old(State()), id)
    {
      if id !in orders {
        return 0;
      }
      var resting := orders[id];
      size := resting.size;
      orders := orders - {id};
      var key := LevelKey(resting.side, resting.price);
      if key in levels {
        var queue := Without(levels[key], id);
        if queue == [] {
          levels := levels - {key};
        } else {
          levels := levels[key := queue];
        }
      }
    }

    /** Returns how much actually executed. */
    method ExecuteOrder(id: int, size: int) returns (executed: int)
      modifies this
      ensures executed == ExecutedSize(old(State()), id, size)
      ensures State() == Applied(old(State()), Execute(id, size))
    {
      if id !in orders {
        return 0;
      }
      executed := Min(size, orders[id].size);
      var left := orders[id].size - executed;
      orders := orders[id := orders[id].(size := left)];
      if left <= 0 {
        var _ := CancelOrder(id);
      }
    }

    method ReduceOrder(id: int, newSize: int) returns (ok: bool)
      modifies this
      ensures ok <==> !ReduceRefused(old(State()), id, newSize)
      ensures State() == Applied(old(State()), Reduce(id, newSize))
    {
      if id !in orders {
        return true;
      }
      if newSize > orders[id].size {
        return false;
      }
      ok := true;
      if newSize <= 0 {
        var _ := CancelOrder(id);
      } else {
        orders := orders[id := orders[id].(size := newSize)];
      }
    }

    /** Total size queued ahead of an order at its own level. */
    method Ahead(id: int) returns (ahead: Option<int>)
      ensures ahead == SizeAheadOf(State(), id)
    {
      if id !in orders {
        return None;
      }
      var queue := QueueAt(State(), LevelOf(orders[id]));
      var total := 0;
      while queue != []
        invariant AddTo(total, AheadIn(queue, orders, id)) == SizeAheadOf(State(), id)
        decreases |queue|
      {
        if queue[0] == id {
          return Some(total);
        }
        total := total + SizeOf(orders, queue[0]);
        queue := queue[1..];
      }
      return None;
    }
  }

  function AddTo(total: int, rest: Option<int>): Option<int> {
    match rest
    case None => None
    case Some(v) => Some(total + v)
  }
}
