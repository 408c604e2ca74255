/**
 The replay clock and its timers.

 Pending timers are a priority queue ordered by (fire time, name, sequence), listed here in
 that order.  A name stands for its rank among names.  Times are 64-bit nanoseconds, and a
 repeating timer's next instant saturates at the largest of them, which is the one place
 where the otherwise simple story of `AdvanceTo` breaks.
 */
module Clocks {
  import opened FixedPoint
  import opened Orders

  datatype Timer = Timer(at: int, name: int, sequence: nat, interval: Option<int>)

  datatype TimeEvent = TimeEvent(name: int, scheduledFor: int, sequence: nat)

  datatype ClockState = ClockState(now: int, timers: seq<Timer>, sequence: nat)

  /** The heap order. */
  predicate Before(a: Timer, b: Timer) {
    || a.at < b.at
    || (a.at == b.at && a.name < b.name)
    || (a.at == b.at && a.name == b.name && a.sequence < b.sequence)
  }

  predicate InOrder(timers: seq<Timer>) {
    forall i, j :: 0 <= i < j < |timers| ==> Before(timers[i], timers[j])
  }

  function Insert(timers: seq<Timer>, t: Timer): seq<Timer> {
    if timers == [] || Before(t, timers[0]) then [t] + timers
    else [timers[0]] + Insert(timers[1..], t)
  }

  predicate ValidTimer(t: Timer, sequence: nat) {
    t.at <= I64_MAX && t.sequence <= sequence && (t.interval.Some? ==> t.interval.value > 0)
  }

  predicate Valid(c: ClockState) {
    && InOrder(c.timers)
    && (forall i :: 0 <= i < |c.timers| ==> ValidTimer(c.timers[i], c.sequence))
  }

  lemma {:induction false} InsertKeepsOrder(timers: seq<Timer>, t: Timer)
    requires InOrder(timers) && forall i :: 0 <= i < |timers| ==> timers[i].sequence != t.sequence
    ensures InOrder(Insert(timers, t))
    ensures forall i :: 0 <= i < |Insert(timers, t)| ==>
              Insert(timers, t)[i] == t || Insert(timers, t)[i] in timers
    decreases |timers|
  {
    if timers != [] && !Before(t, timers[0]) {
      var rest := Insert(timers[1..], t);
      InsertKeepsOrder(timers[1..], t);
      forall j | 0 <= j < |rest| ensures Before(timers[0], rest[j]) && (rest[j] == t || rest[j] in timers) {
        if rest[j] != t {
          var k :| 0 <= k < |timers[1..]| && timers[1..][k] == rest[j];
          assert rest[j] == timers[k + 1];
        }
      }
    }
  }

  // ----- One turn of the loop -----

  /** Is the earliest timer due by `ts`? */
  predicate IsDue(c: ClockState, ts: int) {
    c.timers != [] && c.timers[0].at <= ts
  }

  function SaturatingAdd(a: int, b: int): int {
    Min(a + b, I64_MAX)
  }

  /** Pop the earliest timer and, when it repeats, schedule its next instant. */
  function FireFirst(c: ClockState): (c': ClockState)
    requires c.timers != []
  {
    var t, rest := c.timers[0], c.timers[1..];
    match t.interval
    case None => ClockState(t.at, rest, c.sequence)
    case Some(interval) =>
      ClockState(t.at, Insert(rest, Timer(SaturatingAdd(t.at, interval), t.name, c.sequence + 1, t.interval)),
                 c.sequence + 1)
  }

  lemma FireFirstKeepsValid(c: ClockState)
    requires Valid(c) && c.timers != []
    ensures Valid(FireFirst(c))
  {
    var t, rest := c.timers[0], c.timers[1..];
    assert forall i :: 0 <= i < |rest| ==> rest[i] == c.timers[i + 1];
    if t.interval.Some? {
      var next := Timer(SaturatingAdd(t.at, t.interval.value), t.name, c.sequence + 1, t.interval);
      InsertKeepsOrder(rest, next);
      var timers := FireFirst(c).timers;
      forall i | 0 <= i < |timers| ensures ValidTimer(timers[i], c.sequence + 1) {
        if timers[i] != next {
          var k :| 0 <= k < |rest| && rest[k] == timers[i];
        }
      }
    }
  }

  // ----- Termination -----

  predicate NoneRepeats(timers: seq<Timer>) {
    forall i :: 0 <= i < |timers| ==> timers[i].interval.None?
  }

  /** When the loop can end: short of the last instant, or with nothing that repeats. */
  predicate Ends(c: ClockState, ts: int) {
    ts < I64_MAX || NoneRepeats(c.timers)
  }

  /** How many instants of one timer fall due by `ts`. */
  function DueCount(t: Timer, ts: int): nat
    requires t.interval.Some? ==> t.interval.value > 0
  {
    if t.at > ts then 0
    else match t.interval
      case None => 1
      case Some(interval) => (ts - t.at) / interval + 1
  }

  predicate PositiveIntervals(timers: seq<Timer>) {
    forall i :: 0 <= i < |timers| ==> timers[i].interval.Some? ==> timers[i].interval.value > 0
  }

  function Outstanding(timers: seq<Timer>, ts: int): nat
    requires PositiveIntervals(timers)
  {
    if timers == [] then 0 else DueCount(timers[0], ts) + Outstanding(timers[1..], ts)
  }

  lemma {:induction false} OutstandingInsert(timers: seq<Timer>, t: Timer, ts: int)
    requires PositiveIntervals(timers) && (t.interval.Some? ==> t.interval.value > 0)
    ensures PositiveIntervals(Insert(timers, t))
    ensures Outstanding(Insert(timers, t), ts) == Outstanding(timers, ts) + DueCount(t, ts)
    decreases |timers|
  {
    if timers == [] || Before(t, timers[0]) {
      assert ([t] + timers)[1..] == timers;
    } else {
      OutstandingInsert(timers[1..], t, ts);
      assert ([timers[0]] + Insert(timers[1..], t))[1..] == Insert(timers[1..], t);
    }
  }

  lemma DivStepsDown(n: nat, d: int)
    requires d > 0 && n >= d
    ensures (n - d) / d == n / d - 1
  {
    QuotientShift(1, n - d, d);
  }

  lemma NextInstantCount(t: Timer, ts: int, sequence: nat)
    requires t.interval.Some? && t.interval.value > 0 && t.at <= ts < I64_MAX
    ensures DueCount(Timer(SaturatingAdd(t.at, t.interval.value), t.name, sequence, t.interval), ts)
         == DueCount(t, ts) - 1
  {
    var d := t.interval.value;
    if t.at + d <= ts {
      DivStepsDown(ts - t.at, d);
    } else {
      QuotientIsUnique(ts - t.at, d, 0, ts - t.at);
    }
  }

  /** Each turn consumes exactly one outstanding instant. */
  lemma FireFirstConsumesOne(c: ClockState, ts: int)
    requires Valid(c) && IsDue(c, ts) && Ends(c, ts)
    ensures PositiveIntervals(c.timers) && PositiveIntervals(FireFirst(c).timers)
    ensures Outstanding(FireFirst(c).timers, ts) == Outstanding(c.timers, ts) - 1
    ensures Ends(FireFirst(c), ts)
  {
    var t, rest := c.timers[0], c.timers[1..];
    assert PositiveIntervals(c.timers) by {
      forall i | 0 <= i < |c.timers| && c.timers[i].interval.Some? ensures c.timers[i].interval.value > 0 {
        assert ValidTimer(c.timers[i], c.sequence);
      }
    }
    assert forall i :: 0 <= i < |rest| ==> rest[i] == c.timers[i + 1];
    if t.interval.Some? {
      NextInstantCount(t, ts, c.sequence + 1);
      OutstandingInsert(rest, Timer(SaturatingAdd(t.at, t.interval.value), t.name, c.sequence + 1, t.interval), ts);
    }
  }

  // ----- Advancing -----

  datatype Advanced = Advanced(clock: ClockState, fired: seq<TimeEvent>)

  function EventOf(t: Timer): TimeEvent {
    TimeEvent(t.name, t.at, t.sequence)
  }

  function Advance(c: ClockState, ts: int): (r: Advanced)
    requires Valid(c) && Ends(c, ts)
    decreases if IsDue(c, ts) then (FireFirstConsumesOne(c, ts); Outstanding(c.timers, ts)) else 0
  {
    if !IsDue(c, ts) then Advanced(c.(now := ts), [])
    else
      FireFirstKeepsValid(c);
      FireFirstConsumesOne(c, ts);
      var rest := Advance(FireFirst(c), ts);
      Advanced(rest.clock, [EventOf(c.timers[0])] + rest.fired)
  }

  /** Nothing due is left, and the clock reads the target. */
  lemma {:induction false} AdvanceLeavesOnlyLater(c: ClockState, ts: int)
    requires Valid(c) && Ends(c, ts)
    ensures var r := Advance(c, ts);
            && Valid(r.clock) && r.clock.now == ts
            && (forall i :: 0 <= i < |r.clock.timers| ==> r.clock.timers[i].at > ts)
    decreases if IsDue(c, ts) then (FireFirstConsumesOne(c, ts); Outstanding(c.timers, ts)) else 0
  {
    if IsDue(c, ts) {
      FireFirstKeepsValid(c);
      FireFirstConsumesOne(c, ts);
      AdvanceLeavesOnlyLater(FireFirst(c), ts);
    } else {
      forall i | 0 <= i < |c.timers| ensures c.timers[i].at > ts {
        assert i > 0 ==> Before(c.timers[0], c.timers[i]);
      }
    }
  }

  // ----- Exactly the due instants -----

  /** Every instant `at + k * interval` up to `ts`, once each. */
  function DueInstants(name: int, at: int, interval: Option<int>, ts: int): (m: multiset<(int, int)>)
    requires interval.Some? ==> interval.value > 0
    decreases if at <= ts then ts - at + 1 else 0
  {
    if at > ts then multiset{}
    else match interval
      case None => multiset{(name, at)}
      case Some(d) => multiset{(name, at)} + DueInstants(name, at + d, interval, ts)
  }

  /** On the grid of a timer, between its first instant and the target? */
  predicate OnGrid(at: int, interval: Option<int>, ts: int, x: int)
    requires interval.Some? ==> interval.value > 0
  {
    at <= x <= ts && (if interval.Some? then (x - at) % interval.value == 0 else x == at)
  }

  lemma GridStep(at: int, d: int, ts: int, x: int)
    requires d > 0 && at <= ts
    ensures OnGrid(at, Some(d), ts, x) <==> x == at || OnGrid(at + d, Some(d), ts, x)
  {
    if x >= at + d {
      QuotientShift(1, x - at - d, d);
      assert (x - at) % d == (x - at) - d * ((x - at) / d);
      assert (x - at - d) % d == (x - at - d) - d * ((x - at - d) / d);
    } else if at <= x {
      QuotientIsUnique(x - at, d, 0, x - at);
    }
  }

  /** The definition says what it should: an instant counts once exactly when it is on the grid. */
  lemma {:induction false} DueInstantsAreTheGrid(name: int, at: int, interval: Option<int>, ts: int, x: int)
    requires interval.Some? ==> interval.value > 0
    ensures DueInstants(name, at, interval, ts)[(name, x)] == if OnGrid(at, interval, ts, x) then 1 else 0
    decreases if at <= ts then ts - at + 1 else 0
  {
    if at <= ts && interval.Some? {
      DueInstantsAreTheGrid(name, at + interval.value, interval, ts, x);
      GridStep(at, interval.value, ts, x);
    }
  }

  function TimerInstants(t: Timer, ts: int): multiset<(int, int)>
    requires t.interval.Some? ==> t.interval.value > 0
  {
    DueInstants(t.name, t.at, t.interval, ts)
  }

  function AllDue(timers: seq<Timer>, ts: int): multiset<(int, int)>
    requires PositiveIntervals(timers)
  {
    if timers == [] then multiset{} else TimerInstants(timers[0], ts) + AllDue(timers[1..], ts)
  }

  function Instants(fired: seq<TimeEvent>): multiset<(int, int)> {
    if fired == [] then multiset{}
    else multiset{(fired[0].name, fired[0].scheduledFor)} + Instants(fired[1..])
  }

  lemma {:induction false} AllDueInsert(timers: seq<Timer>, t: Timer, ts: int)
    requires PositiveIntervals(timers) && (t.interval.Some? ==> t.interval.value > 0)
    ensures PositiveIntervals(Insert(timers, t))
    ensures AllDue(Insert(timers, t), ts) == AllDue(timers, ts) + TimerInstants(t, ts)
    decreases |timers|
  {
    if timers == [] || Before(t, timers[0]) {
      assert ([t] + timers)[1..] == timers;
    } else {
      AllDueInsert(timers[1..], t, ts);
      assert ([timers[0]] + Insert(timers[1..], t))[1..] == Insert(timers[1..], t);
    }
  }

  /** Saturation only ever postpones past the target. */
  lemma NextInstants(t: Timer, ts: int, sequence: nat)
    requires t.interval.Some? && t.interval.value > 0 && t.at <= ts < I64_MAX
    ensures TimerInstants(t, ts)
         == multiset{(t.name, t.at)}
            + TimerInstants(Timer(SaturatingAdd(t.at, t.interval.value), t.name, sequence, t.interval), ts)
  {
    var at := t.at + t.interval.value;
    if at > I64_MAX {
      assert DueInstants(t.name, at, t.interval, ts) == multiset{};
      assert DueInstants(t.name, I64_MAX, t.interval, ts) == multiset{};
    }
  }

  lemma Regroup(x: multiset<(int, int)>, n: multiset<(int, int)>, r: multiset<(int, int)>)
    ensures (x + n) + r == x + (r + n)
  {
  }

  /** Replacing a due repeating timer by its next instant takes out exactly the one that fired. */
  lemma RescheduleTakesInstant(t: Timer, rest: seq<Timer>, ts: int, sequence: nat)
    requires PositiveIntervals(rest)
    requires t.interval.Some? && t.interval.value > 0 && t.at <= ts < I64_MAX
    ensures var next := Timer(SaturatingAdd(t.at, t.interval.value), t.name, sequence, t.interval);
            && PositiveIntervals(Insert(rest, next))
            && TimerInstants(t, ts) + AllDue(rest, ts)
               == multiset{(t.name, t.at)} + AllDue(Insert(rest, next), ts)
  {
    var next := Timer(SaturatingAdd(t.at, t.interval.value), t.name, sequence, t.interval);
    NextInstants(t, ts, sequence);
    AllDueInsert(rest, next, ts);
    Regroup(multiset{(t.name, t.at)}, TimerInstants(next, ts), AllDue(rest, ts));
  }

  lemma OneShotInstant(t: Timer, ts: int)
    requires t.interval.None? && t.at <= ts
    ensures TimerInstants(t, ts) == multiset{(t.name, t.at)}
  {
  }

  lemma AllDueHead(timers: seq<Timer>, ts: int)
    requires PositiveIntervals(timers) && timers != []
    ensures PositiveIntervals(timers[1..])
    ensures AllDue(timers, ts) == TimerInstants(timers[0], ts) + AllDue(timers[1..], ts)
  {
  }

  /** Firing a timer takes its own instant out of what is due, and nothing else. */
  lemma FireFirstTakesItsInstant(c: ClockState, ts: int)
    requires PositiveIntervals(c.timers) && IsDue(c, ts) && Ends(c, ts)
    ensures PositiveIntervals(FireFirst(c).timers)
    ensures AllDue(c.timers, ts)
         == multiset{(c.timers[0].name, c.timers[0].at)} + AllDue(FireFirst(c).timers, ts)
  {
    var t, rest := c.timers[0], c.timers[1..];
    AllDueHead(c.timers, ts);
    if t.interval.Some? {
      RescheduleTakesInstant(t, rest, ts, c.sequence + 1);
      assert FireFirst(c).timers
          == Insert(rest, Timer(SaturatingAdd(t.at, t.interval.value), t.name, c.sequence + 1, t.interval));
    } else {
      OneShotInstant(t, ts);
      assert FireFirst(c).timers == rest;
    }
  }

  /** What fires is what is due: every grid instant of every timer, each as often as it is pending. */
  lemma {:induction false} AdvanceFiresExactlyTheDue(c: ClockState, ts: int)
    requires Valid(c) && Ends(c, ts)
    ensures PositiveIntervals(c.timers)
    ensures Instants(Advance(c, ts).fired) == AllDue(c.timers, ts)
    decreases if IsDue(c, ts) then (FireFirstConsumesOne(c, ts); Outstanding(c.timers, ts)) else 0
  {
    ValidHasPositiveIntervals(c);
    if IsDue(c, ts) {
      FireFirstKeepsValid(c);
      FireFirstConsumesOne(c, ts);
      FireFirstTakesItsInstant(c, ts);
      AdvanceFiresExactlyTheDue(FireFirst(c), ts);
      var r := Advance(c, ts);
      assert r.fired[1..] == Advance(FireFirst(c), ts).fired;
    } else {
      NothingDue(c.timers, ts);
    }
  }

  lemma ValidHasPositiveIntervals(c: ClockState)
    requires Valid(c)
    ensures PositiveIntervals(c.timers)
  {
    forall i | 0 <= i < |c.timers| && c.timers[i].interval.Some? ensures c.timers[i].interval.value > 0 {
      assert ValidTimer(c.timers[i], c.sequence);
    }
  }

  lemma {:induction false} NothingDue(timers: seq<Timer>, ts: int)
    requires PositiveIntervals(timers) && InOrder(timers) && (timers != [] ==> timers[0].at > ts)
    ensures AllDue(timers, ts) == multiset{}
    decreases |timers|
  {
    if |timers| > 1 {
      assert Before(timers[0], timers[1]);
      NothingDue(timers[1..], ts);
    }
  }

  // ----- In order -----

  /** By the instant scheduled, then by name, then in the order they were scheduled. */
  predicate EventBefore(a: TimeEvent, b: TimeEvent) {
    && a.scheduledFor <= b.scheduledFor
    && (a.scheduledFor == b.scheduledFor ==>
          a.name <= b.name && (a.name == b.name ==> a.sequence < b.sequence))
  }

  /** Every event comes before every later one. */
  predicate EventsInOrder(fired: seq<TimeEvent>) {
    forall i, j :: 0 <= i < j < |fired| ==> EventBefore(fired[i], fired[j])
  }

  lemma EventsFollow(first: TimeEvent, rest: seq<TimeEvent>)
    requires EventsInOrder(rest) && (rest != [] ==> EventBefore(first, rest[0]))
    ensures EventsInOrder([first] + rest)
  {
    var all := [first] + rest;
    forall i, j | 0 <= i < j < |all| ensures EventBefore(all[i], all[j]) {
      assert all[j] == rest[j - 1];
      assert j > 1 ==> EventBefore(rest[0], rest[j - 1]);
      assert i > 0 ==> all[i] == rest[i - 1];
    }
  }

  /** What fires next comes strictly later in (time, name, sequence). */
  lemma NextFiresLater(c: ClockState, ts: int)
    requires Valid(c) && IsDue(c, ts) && Ends(c, ts) && FireFirst(c).timers != []
    ensures EventBefore(EventOf(c.timers[0]), EventOf(FireFirst(c).timers[0]))
  {
    var t, rest := c.timers[0], c.timers[1..];
    assert ValidTimer(t, c.sequence);
    assert rest != [] ==> rest[0] == c.timers[1] && Before(t, rest[0]);
    if t.interval.Some? {
      var next := Timer(SaturatingAdd(t.at, t.interval.value), t.name, c.sequence + 1, t.interval);
      assert Before(t, next);
      assert FireFirst(c).timers[0] == next || FireFirst(c).timers[0] == rest[0];
    }
  }

  /** Events come out in (time, name, sequence) order, the same on every run. */
  lemma {:induction false} AdvanceFiresInOrder(c: ClockState, ts: int)
    requires Valid(c) && Ends(c, ts)
    ensures EventsInOrder(Advance(c, ts).fired)
    ensures Advance(c, ts).fired != [] ==> IsDue(c, ts) && Advance(c, ts).fired[0] == EventOf(c.timers[0])
    decreases if IsDue(c, ts) then (FireFirstConsumesOne(c, ts); Outstanding(c.timers, ts)) else 0
  {
    if IsDue(c, ts) {
      FireFirstKeepsValid(c);
      FireFirstConsumesOne(c, ts);
      AdvanceFiresInOrder(FireFirst(c), ts);
      var rest := Advance(FireFirst(c), ts).fired;
      assert Advance(c, ts).fired == [EventOf(c.timers[0])] + rest;
      if rest != [] {
        NextFiresLater(c, ts);
      }
      EventsFollow(EventOf(c.timers[0]), rest);
    }
  }

  // ----- Stopping on the way changes nothing -----

  lemma AdvanceOneTurn(c: ClockState, ts: int)
    requires Valid(c) && Ends(c, ts) && IsDue(c, ts)
    ensures Valid(FireFirst(c)) && Ends(FireFirst(c), ts)
    ensures var rest := Advance(FireFirst(c), ts);
            Advance(c, ts) == Advanced(rest.clock, [EventOf(c.timers[0])] + rest.fired)
  {
    FireFirstKeepsValid(c);
    FireFirstConsumesOne(c, ts);
  }

  lemma DueSooner(c: ClockState, t1: int, t2: int)
    requires t1 <= t2 && IsDue(c, t1)
    ensures IsDue(c, t2) && (Ends(c, t2) ==> Ends(c, t1))
  {
  }

  /** A timer due on the first hop fires first either way. */
  lemma TwoHopsTurn(c: ClockState, t1: int, t2: int)
    requires Valid(c) && t1 <= t2 && Ends(c, t2) && Ends(c, t1) && IsDue(c, t1) && IsDue(c, t2)
    requires Valid(FireFirst(c)) && Ends(FireFirst(c), t1) && Ends(FireFirst(c), t2)
    requires var first := Advance(FireFirst(c), t1);
             && Valid(first.clock) && Ends(first.clock, t2)
             && var second := Advance(first.clock, t2);
                Advance(FireFirst(c), t2) == Advanced(second.clock, first.fired + second.fired)
    ensures Valid(Advance(c, t1).clock) && Ends(Advance(c, t1).clock, t2)
    ensures var first := Advance(c, t1);
            var second := Advance(first.clock, t2);
            Advance(c, t2) == Advanced(second.clock, first.fired + second.fired)
  {
    hide Advance, FireFirst;
    AdvanceOneTurn(c, t1);
    AdvanceOneTurn(c, t2);
    var first := Advance(FireFirst(c), t1);
    var second := Advance(first.clock, t2);
    var e := [EventOf(c.timers[0])];
    assert e + (first.fired + second.fired) == (e + first.fired) + second.fired;
  }

  /** Advancing in two hops fires the same events and leaves the same clock as one. */
  lemma {:induction false} AdvanceInTwoHops(c: ClockState, t1: int, t2: int)
    requires Valid(c) && t1 <= t2 && Ends(c, t2)
    ensures Ends(c, t1) && Valid(Advance(c, t1).clock) && Ends(Advance(c, t1).clock, t2)
    ensures var first := Advance(c, t1);
            var second := Advance(first.clock, t2);
            Advance(c, t2) == Advanced(second.clock, first.fired + second.fired)
    decreases if IsDue(c, t1) then (FireFirstConsumesOne(c, t1); Outstanding(c.timers, t1)) else 0
  {
    if IsDue(c, t1) {
      hide Advance, Valid, FireFirst, Outstanding;
      AdvanceOneTurn(c, t1);
      FireFirstConsumesOne(c, t1);
      DueSooner(c, t1, t2);
      AdvanceInTwoHops(FireFirst(c), t1, t2);
      TwoHopsTurn(c, t1, t2);
    } else {
      NowDoesNotMatter(c, t1, t2);
      assert [] + Advance(c, t2).fired == Advance(c, t2).fired;
    }
  }

  lemma NowDoesNotMatter(c: ClockState, now: int, ts: int)
    requires Valid(c) && Ends(c, ts)
    ensures Valid(c.(now := now)) && Ends(c.(now := now), ts)
    ensures Advance(c.(now := now), ts) == Advance(c, ts)
  {
    if IsDue(c, ts) {
      assert FireFirst(c.(now := now)) == FireFirst(c);
    }
  }

  // ----- Exactly when it ends -----

  function Turns(c: ClockState, n: nat): (c': ClockState)
    decreases n
  {
    if n == 0 || c.timers == [] then c else Turns(FireFirst(c), n - 1)
  }

  predicate SomeRepeats(timers: seq<Timer>) {
    exists i :: 0 <= i < |timers| && timers[i].interval.Some?
  }

  lemma {:induction false} InsertIsFound(timers: seq<Timer>, t: Timer)
    ensures t in Insert(timers, t)
    ensures forall u :: u in timers ==> u in Insert(timers, t)
    decreases |timers|
  {
    if timers != [] && !Before(t, timers[0]) {
      InsertIsFound(timers[1..], t);
      assert timers == [timers[0]] + timers[1..];
      assert Insert(timers, t) == [timers[0]] + Insert(timers[1..], t);
    }
  }

  lemma RepeatingTimerStays(c: ClockState)
    requires SomeRepeats(c.timers)
    ensures SomeRepeats(FireFirst(c).timers)
  {
    var t, rest := c.timers[0], c.timers[1..];
    var timers := FireFirst(c).timers;
    if t.interval.Some? {
      var next := Timer(SaturatingAdd(t.at, t.interval.value), t.name, c.sequence + 1, t.interval);
      InsertIsFound(rest, next);
      var k :| 0 <= k < |timers| && timers[k] == next;
    } else {
      var i :| 0 <= i < |c.timers| && c.timers[i].interval.Some?;
      assert rest[i - 1].interval.Some?;
    }
  }

  /**
   The loop ends exactly when the target is short of the last representable instant or nothing
   repeats: otherwise a repeating timer saturates there and the loop is still busy after any
   number of turns.
   */
  lemma {:induction false} AdvanceEndsExactlyWhen(c: ClockState, ts: int)
    requires Valid(c) && ts <= I64_MAX
    ensures Ends(c, ts) <==> exists n: nat :: !IsDue(Turns(c, n), ts)
  {
    if Ends(c, ts) {
      var n := TurnsToEnd(c, ts);
    } else {
      assert SomeRepeats(c.timers);
      forall n: nat ensures IsDue(Turns(c, n), ts) {
        BusyForever(c, n);
      }
    }
  }

  lemma {:induction false} TurnsToEnd(c: ClockState, ts: int) returns (n: nat)
    requires Valid(c) && Ends(c, ts)
    ensures !IsDue(Turns(c, n), ts)
    decreases if IsDue(c, ts) then (FireFirstConsumesOne(c, ts); Outstanding(c.timers, ts)) else 0
  {
    n := 0;
    if IsDue(c, ts) {
      FireFirstKeepsValid(c);
      FireFirstConsumesOne(c, ts);
      var m := TurnsToEnd(FireFirst(c), ts);
      n := m + 1;
    }
  }

  lemma {:induction false} BusyForever(c: ClockState, n: nat)
    requires Valid(c) && SomeRepeats(c.timers)
    ensures IsDue(Turns(c, n), I64_MAX)
    decreases n
  {
    if n == 0 {
      assert ValidTimer(c.timers[0], c.sequence);
    } else {
      FireFirstKeepsValid(c);
      RepeatingTimerStays(c);
      BusyForever(FireFirst(c), n - 1);
    }
  }

  /** The run's clock. */
  class Clock {
    var now: int
    var timers: seq<Timer>
    var sequence: nat

    function State(): ClockState
      reads this
    {
      ClockState(now, timers, sequence)
    }

    constructor (start: int)
      ensures State() == ClockState(start, [], 0) && Valid(State())
    {
      now, timers, sequence := start, [], 0;
    }

    /** Schedule a timer; the past, and an interval that is not positive, are refused. */
    method Push(name: int, at: int, interval: Option<int>) returns (scheduled: bool)
      requires Valid(State()) && at <= I64_MAX
      modifies this
      ensures Valid(State())
      ensures scheduled <==> at >= old(now) && (interval.Some? ==> interval.value > 0)
      ensures State() == if scheduled
                         then ClockState(old(now), Insert(old(timers), Timer(at, name, old(sequence) + 1, interval)),
                                         old(sequence) + 1)
                         else old(State())
    {
      scheduled := at >= now && (interval.Some? ==> interval.value > 0);
      if scheduled {
        var t := Timer(at, name, sequence + 1, interval);
        forall i | 0 <= i < |timers| ensures timers[i].sequence != t.sequence {
          assert ValidTimer(timers[i], sequence);
        }
        InsertKeepsOrder(timers, t);
        ghost var before := State();
        timers := Insert(timers, t);
        sequence := sequence + 1;
        forall i | 0 <= i < |timers| ensures ValidTimer(timers[i], sequence) {
          if timers[i] != t {
            var k :| 0 <= k < |before.timers| && before.timers[k] == timers[i];
            assert ValidTimer(before.timers[k], before.sequence);
          }
        }
      }
    }

    /** Move to `ts`, firing every timer due by then; moving backwards is refused. */
    method AdvanceTo(ts: int) returns (moved: bool, fired: seq<TimeEvent>)
      requires Valid(State()) && Ends(State(), ts)
      modifies this
      ensures moved <==> ts >= old(now)
      ensures moved ==> Advanced(State(), fired) == Advance(old(State()), ts)
      ensures !moved ==> fired == [] && State() == old(State())
    {
      moved, fired := ts >= now, [];
      if !moved {
        return;
      }
      ghost var target := Advance(State(), ts);
      ValidHasPositiveIntervals(State());
      while timers != [] && timers[0].at <= ts
        invariant Valid(State()) && Ends(State(), ts) && PositiveIntervals(timers)
        invariant target == Advanced(Advance(State(), ts).clock, fired + Advance(State(), ts).fired)
        decreases Outstanding(timers, ts)
      {
        FireFirstKeepsValid(State());
        FireFirstConsumesOne(State(), ts);
        ghost var rest := Advance(FireFirst(State()), ts);
        var t := timers[0];
        assert fired + ([EventOf(t)] + rest.fired) == (fired + [EventOf(t)]) + rest.fired;
        timers := timers[1..];
        now := t.at;
        fired := fired + [TimeEvent(t.name, t.at, t.sequence)];
        if t.interval.Some? {
          sequence := sequence + 1;
          timers := Insert(timers, Timer(SaturatingAdd(t.at, t.interval.value), t.name, sequence, t.interval));
        }
      }
      now := ts;
      assert fired + [] == fired;
    }
  }
}
