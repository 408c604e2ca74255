/**
 Merging sorted record streams into one replay order.

 The order is total on explicit fields: (timestamp, stream priority, stream index, arrival).
 Streams are pulled lazily and checked as they are pulled, so a stream that goes backwards is
 only discovered when the merge reaches it; draining discovers every one of them.
 */
module Replays {
  import opened Orders

  /** What a source yields: a record, or an error of its own. */
  datatype Item = Record(ts: int, payload: int) | Broken

  datatype Stream = Stream(priority: nat, items: seq<Item>)

  datatype Key = Key(ts: int, priority: nat, stream: nat, arrival: nat)

  predicate Before(a: Key, b: Key) {
    || a.ts < b.ts
    || (a.ts == b.ts && a.priority < b.priority)
    || (a.ts == b.ts && a.priority == b.priority && a.stream < b.stream)
    || (a.ts == b.ts && a.priority == b.priority && a.stream == b.stream && a.arrival < b.arrival)
  }

  /** One record's place: stream and position within it. */
  datatype Ref = Ref(stream: nat, index: nat)

  predicate Refers(ss: seq<Stream>, r: Ref) {
    r.stream < |ss| && r.index < |ss[r.stream].items| && ss[r.stream].items[r.index].Record?
  }

  function KeyOf(ss: seq<Stream>, r: Ref): Key
    requires Refers(ss, r)
  {
    Key(ss[r.stream].items[r.index].ts, ss[r.stream].priority, r.stream, r.index)
  }

  // ----- The merge, as positions into the streams -----

  /** Where each stream's head is; a head past the end means the stream is exhausted. */
  predicate Heads(ss: seq<Stream>, next: seq<nat>) {
    && |next| == |ss|
    && (forall i :: 0 <= i < |ss| ==> next[i] <= |ss[i].items|)
    && (forall i :: 0 <= i < |ss| && next[i] < |ss[i].items| ==> ss[i].items[next[i]].Record?)
  }

  predicate HasHead(ss: seq<Stream>, next: seq<nat>, i: nat)
    requires Heads(ss, next) && i < |ss|
  {
    next[i] < |ss[i].items|
  }

  function HeadKey(ss: seq<Stream>, next: seq<nat>, i: nat): Key
    requires Heads(ss, next) && i < |ss| && HasHead(ss, next, i)
  {
    KeyOf(ss, Ref(i, next[i]))
  }

  /** The stream, among the first `n`, whose head comes first. */
  function Earliest(ss: seq<Stream>, next: seq<nat>, n: nat): (e: Option<nat>)
    requires Heads(ss, next) && n <= |ss|
    ensures e.Some? ==> e.value < n && HasHead(ss, next, e.value)
    ensures forall i :: 0 <= i < n && HasHead(ss, next, i) ==>
              e.Some? && (i == e.value || Before(HeadKey(ss, next, e.value), HeadKey(ss, next, i)))
  {
    if n == 0 then None
    else
      var e := Earliest(ss, next, n - 1);
      if !HasHead(ss, next, n - 1) then e
      else if e.None? || Before(HeadKey(ss, next, n - 1), HeadKey(ss, next, e.value)) then Some(n - 1)
      else e
  }

  /** Pulling item `k` fails on a broken item and on one earlier than its predecessor. */
  predicate PullFails(s: Stream, k: nat) {
    && k < |s.items|
    && (s.items[k].Broken? || (k > 0 && s.items[k - 1].Record? && s.items[k].ts < s.items[k - 1].ts))
  }

  function Left(ss: seq<Stream>, next: seq<nat>): nat
    requires |next| == |ss| && forall i :: 0 <= i < |ss| ==> next[i] <= |ss[i].items|
  {
    if ss == [] then 0 else |ss[0].items| - next[0] + Left(ss[1..], next[1..])
  }

  lemma {:induction false} LeftStep(ss: seq<Stream>, next: seq<nat>, i: nat)
    requires |next| == |ss| && i < |ss| && (forall j :: 0 <= j < |ss| ==> next[j] <= |ss[j].items|)
    requires next[i] < |ss[i].items|
    ensures Left(ss, next[i := next[i] + 1]) == Left(ss, next) - 1
    decreases |ss|
  {
    var next' := next[i := next[i] + 1];
    if i == 0 {
      assert next'[1..] == next[1..];
    } else {
      assert next'[1..] == next[1..][i - 1 := next[i] + 1];
      LeftStep(ss[1..], next[1..], i - 1);
    }
  }

  datatype Drained = Emitted(out: seq<Ref>) | Failed

  /** Emit the earliest head, pull its stream, and go on until nothing is left or a pull fails. */
  function Drain(ss: seq<Stream>, next: seq<nat>): (d: Drained)
    requires Heads(ss, next)
    decreases Left(ss, next)
  {
    var e := Earliest(ss, next, |ss|);
    if e.None? then Emitted([])
    else
      var i := e.value;
      if PullFails(ss[i], next[i] + 1) then Failed
      else
        LeftStep(ss, next, i);
        match Drain(ss, next[i := next[i] + 1])
        case Failed => Failed
        case Emitted(out) => Emitted([Ref(i, next[i])] + out)
  }

  /** One call: the record emitted, the end, or a pull that failed. */
  datatype Pulled = Next(ref: Ref) | Exhausted | PullFailed

  function Turn(ss: seq<Stream>, next: seq<nat>): (r: Pulled)
    requires Heads(ss, next)
  {
    match Earliest(ss, next, |ss|)
    case None => Exhausted
    case Some(i) => if PullFails(ss[i], next[i] + 1) then PullFailed else Next(Ref(i, next[i]))
  }

  function AfterTurn(ss: seq<Stream>, next: seq<nat>): seq<nat>
    requires Heads(ss, next)
  {
    match Earliest(ss, next, |ss|)
    case None => next
    case Some(i) => next[i := next[i] + 1]
  }

  // ----- Failing exactly on unsorted or broken streams -----

  /** No pull after position `k` fails. */
  predicate GoodFrom(s: Stream, k: nat) {
    forall m :: k < m < |s.items| ==> !PullFails(s, m)
  }

  predicate AllGoodFrom(ss: seq<Stream>, next: seq<nat>)
    requires |next| == |ss|
  {
    forall i :: 0 <= i < |ss| ==> GoodFrom(ss[i], next[i])
  }

  lemma {:induction false} DrainFailsExactlyOnBadStreams(ss: seq<Stream>, next: seq<nat>)
    requires Heads(ss, next)
    ensures Drain(ss, next).Emitted? <==> AllGoodFrom(ss, next)
    decreases Left(ss, next)
  {
    var e := Earliest(ss, next, |ss|);
    if e.None? {
      forall i | 0 <= i < |ss| ensures GoodFrom(ss[i], next[i]) {
        assert !HasHead(ss, next, i);
      }
    } else {
      var i := e.value;
      if !PullFails(ss[i], next[i] + 1) {
        var next' := next[i := next[i] + 1];
        LeftStep(ss, next, i);
        DrainFailsExactlyOnBadStreams(ss, next');
        AdvancePreservesGood(ss, next, i);
      } else {
        assert !GoodFrom(ss[i], next[i]);
      }
    }
  }

  lemma AdvancePreservesGood(ss: seq<Stream>, next: seq<nat>, i: nat)
    requires Heads(ss, next) && i < |ss| && HasHead(ss, next, i) && !PullFails(ss[i], next[i] + 1)
    ensures AllGoodFrom(ss, next[i := next[i] + 1]) <==> AllGoodFrom(ss, next)
  {
    var next' := next[i := next[i] + 1];
    assert GoodFrom(ss[i], next[i]) <==> GoodFrom(ss[i], next'[i]);
    assert forall j :: 0 <= j < |ss| && j != i ==> next'[j] == next[j];
    if AllGoodFrom(ss, next') {
      forall j | 0 <= j < |ss| ensures GoodFrom(ss[j], next[j]) {
        assert GoodFrom(ss[j], next'[j]);
      }
    }
    if AllGoodFrom(ss, next) {
      forall j | 0 <= j < |ss| ensures GoodFrom(ss[j], next'[j]) {
        assert GoodFrom(ss[j], next[j]);
      }
    }
  }

  // ----- The unique sorted interleaving -----

  /** Still to come. */
  predicate Pending(ss: seq<Stream>, next: seq<nat>, r: Ref)
    requires |next| == |ss|
  {
    r.stream < |ss| && next[r.stream] <= r.index < |ss[r.stream].items|
  }

  predicate AllRefer(ss: seq<Stream>, out: seq<Ref>) {
    forall i :: 0 <= i < |out| ==> Refers(ss, out[i])
  }

  predicate InKeyOrder(ss: seq<Stream>, out: seq<Ref>)
    requires AllRefer(ss, out)
  {
    forall i, j :: 0 <= i < j < |out| ==> Before(KeyOf(ss, out[i]), KeyOf(ss, out[j]))
  }

  /** In a stream good from its head, every later record is a record and comes after the head. */
  lemma {:induction false} LaterInStream(ss: seq<Stream>, next: seq<nat>, i: nat, m: nat)
    requires Heads(ss, next) && i < |ss| && HasHead(ss, next, i) && GoodFrom(ss[i], next[i])
    requires next[i] <= m < |ss[i].items|
    ensures Refers(ss, Ref(i, m))
    ensures m == next[i] || Before(HeadKey(ss, next, i), KeyOf(ss, Ref(i, m)))
    ensures ss[i].items[next[i]].ts <= ss[i].items[m].ts
    decreases m
  {
    if m > next[i] {
      LaterInStream(ss, next, i, m - 1);
      assert !PullFails(ss[i], m);
    }
  }

  /** The head emitted comes before everything else still to come. */
  lemma EarliestIsFirst(ss: seq<Stream>, next: seq<nat>, r: Ref)
    requires Heads(ss, next) && AllGoodFrom(ss, next) && Pending(ss, next, r)
    ensures Refers(ss, r) && Earliest(ss, next, |ss|).Some?
    ensures var i := Earliest(ss, next, |ss|).value;
            r == Ref(i, next[i]) || Before(HeadKey(ss, next, i), KeyOf(ss, r))
  {
    assert GoodFrom(ss[r.stream], next[r.stream]) && HasHead(ss, next, r.stream);
    LaterInStream(ss, next, r.stream, r.index);
  }

  /** The output lists exactly what was pending, each record once, in key order. */
  ghost predicate IsMerge(ss: seq<Stream>, next: seq<nat>, out: seq<Ref>)
    requires |next| == |ss|
  {
    && AllRefer(ss, out)
    && InKeyOrder(ss, out)
    && (forall r :: r in out <==> Pending(ss, next, r))
  }

  lemma PrependHead(ss: seq<Stream>, next: seq<nat>, i: nat, rest: seq<Ref>)
    requires Heads(ss, next) && AllGoodFrom(ss, next)
    requires Earliest(ss, next, |ss|) == Some(i)
    requires IsMerge(ss, next[i := next[i] + 1], rest)
    ensures IsMerge(ss, next, [Ref(i, next[i])] + rest)
  {
    var head := Ref(i, next[i]);
    var out := [head] + rest;
    var next' := next[i := next[i] + 1];
    forall j | 1 <= j < |out|
      ensures Refers(ss, out[j]) && Before(KeyOf(ss, head), KeyOf(ss, out[j]))
    {
      assert out[j] == rest[j - 1] && rest[j - 1] in rest;
      assert Pending(ss, next', out[j]);
      EarliestIsFirst(ss, next, out[j]);
    }
    forall r ensures r in out <==> Pending(ss, next, r) {
      assert r in out <==> r == head || r in rest;
    }
  }

  lemma NothingToMerge(ss: seq<Stream>, next: seq<nat>)
    requires Heads(ss, next) && AllGoodFrom(ss, next) && Earliest(ss, next, |ss|).None?
    ensures IsMerge(ss, next, [])
  {
    forall r ensures !Pending(ss, next, r) {
      if Pending(ss, next, r) {
        EarliestIsFirst(ss, next, r);
      }
    }
  }

  lemma {:induction false} DrainMerges(ss: seq<Stream>, next: seq<nat>)
    requires Heads(ss, next) && AllGoodFrom(ss, next)
    ensures Drain(ss, next).Emitted? && IsMerge(ss, next, Drain(ss, next).out)
    decreases Left(ss, next)
  {
    hide IsMerge, AllGoodFrom;
    DrainFailsExactlyOnBadStreams(ss, next);
    var e := Earliest(ss, next, |ss|);
    if e.None? {
      NothingToMerge(ss, next);
    } else {
      var i := e.value;
      LeftStep(ss, next, i);
      AdvancePreservesGood(ss, next, i);
      DrainMerges(ss, next[i := next[i] + 1]);
      PrependHead(ss, next, i, Drain(ss, next[i := next[i] + 1]).out);
    }
  }

  lemma {:induction false} MergeIsUnique(ss: seq<Stream>, xs: seq<Ref>, ys: seq<Ref>)
    requires AllRefer(ss, xs) && AllRefer(ss, ys) && InKeyOrder(ss, xs) && InKeyOrder(ss, ys)
    requires forall r :: r in xs <==> r in ys
    ensures xs == ys
    decreases |xs|
  {
    FirstIsMember(xs);
    FirstIsMember(ys);
    if xs != [] && ys != [] {
      SplitHead(ss, xs);
      SplitHead(ss, ys);
      assert xs[0] == ys[0];
      MergeIsUnique(ss, xs[1..], ys[1..]);
      assert xs == [xs[0]] + xs[1..] && ys == [ys[0]] + ys[1..];
    }
  }

  lemma FirstIsMember(xs: seq<Ref>)
    ensures xs == [] || xs[0] in xs
  {
  }

  lemma SplitHead(ss: seq<Stream>, xs: seq<Ref>)
    requires xs != [] && AllRefer(ss, xs) && InKeyOrder(ss, xs)
    ensures AllRefer(ss, xs[1..]) && InKeyOrder(ss, xs[1..])
    ensures forall r :: r in xs[1..] <==> r in xs && r != xs[0]
    ensures forall r :: r in xs ==> Refers(ss, r) && (r == xs[0] || Before(KeyOf(ss, xs[0]), KeyOf(ss, r)))
  {
    assert xs == [xs[0]] + xs[1..];
    forall k | 0 <= k < |xs[1..]| ensures xs[1..][k] != xs[0] {
      assert Before(KeyOf(ss, xs[0]), KeyOf(ss, xs[k + 1]));
    }
  }

  // ----- The whole replay -----

  /** A source that never errs and never goes backwards. */
  predicate Sound(s: Stream) {
    && (forall m :: 0 <= m < |s.items| ==> s.items[m].Record?)
    && (forall m, n :: 0 <= m < n < |s.items| ==> s.items[m].ts <= s.items[n].ts)
  }

  lemma {:induction false} PulledInOrder(s: Stream, m: nat, n: nat)
    requires !PullFails(s, 0) && GoodFrom(s, 0) && m <= n < |s.items|
    ensures s.items[m].Record? && s.items[n].Record? && s.items[m].ts <= s.items[n].ts
    decreases n
  {
    assert n > 0 ==> !PullFails(s, n);
    if m < n {
      PulledInOrder(s, m, n - 1);
    } else if n > 0 {
      PulledInOrder(s, n - 1, n - 1);
    }
  }

  /** Checking each record against its predecessor checks the whole stream. */
  lemma SoundExactlyWhenPullsSucceed(s: Stream)
    ensures Sound(s) <==> !PullFails(s, 0) && GoodFrom(s, 0)
  {
    if !PullFails(s, 0) && GoodFrom(s, 0) {
      forall m | 0 <= m < |s.items| ensures s.items[m].Record? {
        PulledInOrder(s, m, m);
      }
      forall m, n | 0 <= m < n < |s.items| ensures s.items[m].ts <= s.items[n].ts {
        PulledInOrder(s, m, n);
      }
    }
  }

  function Start(ss: seq<Stream>): (next: seq<nat>)
    ensures |next| == |ss| && forall i :: 0 <= i < |ss| ==> next[i] == 0
  {
    seq(|ss|, _ => 0)
  }

  /** Building pulls every stream's first record; the rest are pulled while draining. */
  predicate Builds(ss: seq<Stream>) {
    forall i :: 0 <= i < |ss| ==> !PullFails(ss[i], 0)
  }

  function ReplayAll(ss: seq<Stream>): (d: Drained) {
    if !Builds(ss) then Failed
    else
      assert Heads(ss, Start(ss));
      Drain(ss, Start(ss))
  }

  /**
   Earlier in the replay: by timestamp, then by the stream's priority, then by the stream's place
   in the list, then by place within the stream.
   */
  predicate ComesBefore(ss: seq<Stream>, a: Ref, b: Ref)
    requires Refers(ss, a) && Refers(ss, b)
  {
    var at, bt := ss[a.stream].items[a.index].ts, ss[b.stream].items[b.index].ts;
    var ap, bp := ss[a.stream].priority, ss[b.stream].priority;
    at <= bt && (at == bt ==> ap <= bp && (ap == bp ==> a.stream <= b.stream && (a.stream == b.stream ==> a.index < b.index)))
  }

  /**
   A replay succeeds exactly when every stream is sound, and then emits every record of every
   stream once, in the one order sorted by (timestamp, priority, stream, arrival).  No two
   records compare equal, so the order is the same on every run; and since the key leads with
   the timestamp, time never goes backwards across streams.
   */
  lemma ReplayIsTheSortedInterleaving(ss: seq<Stream>)
    ensures ReplayAll(ss).Emitted? <==> forall i :: 0 <= i < |ss| ==> Sound(ss[i])
    ensures ReplayAll(ss).Emitted? ==>
              var out := ReplayAll(ss).out;
              && AllRefer(ss, out) && InKeyOrder(ss, out)
              && (forall r :: r in out <==> Refers(ss, r))
              && (forall i, j :: 0 <= i < j < |out| ==> ComesBefore(ss, out[i], out[j]))
              && (forall other :: AllRefer(ss, other) && InKeyOrder(ss, other) && (forall r :: r in other <==> Refers(ss, r))
                    ==> other == out)
  {
    forall i | 0 <= i < |ss| ensures Sound(ss[i]) <==> !PullFails(ss[i], 0) && GoodFrom(ss[i], 0) {
      SoundExactlyWhenPullsSucceed(ss[i]);
    }
    if Builds(ss) {
      var next := Start(ss);
      DrainFailsExactlyOnBadStreams(ss, next);
      if AllGoodFrom(ss, next) {
        DrainMerges(ss, next);
        var out := ReplayAll(ss).out;
        forall r ensures Refers(ss, r) <==> Pending(ss, next, r) {
          if r.stream < |ss| {
            assert Sound(ss[r.stream]);
          }
        }
        forall other | AllRefer(ss, other) && InKeyOrder(ss, other) && (forall r :: r in other <==> Refers(ss, r))
          ensures other == out
        {
          MergeIsUnique(ss, other, out);
        }
      }
    }
  }

  // ----- The heap -----

  predicate KeysInOrder(heap: seq<Key>) {
    forall i, j :: 0 <= i < j < |heap| ==> Before(heap[i], heap[j])
  }

  function PushKey(heap: seq<Key>, k: Key): seq<Key> {
    if heap == [] || Before(k, heap[0]) then [k] + heap else [heap[0]] + PushKey(heap[1..], k)
  }

  lemma {:induction false} PushKeepsOrder(heap: seq<Key>, k: Key)
    requires KeysInOrder(heap) && forall i :: 0 <= i < |heap| ==> heap[i] != k
    ensures KeysInOrder(PushKey(heap, k))
    ensures forall x :: x in PushKey(heap, k) <==> x == k || x in heap
    decreases |heap|
  {
    if heap != [] && !Before(k, heap[0]) {
      var rest := PushKey(heap[1..], k);
      PushKeepsOrder(heap[1..], k);
      assert heap == [heap[0]] + heap[1..];
      forall j | 0 <= j < |rest| ensures Before(heap[0], rest[j]) {
        assert rest[j] in rest;
        assert rest[j] == k || rest[j] in heap[1..];
      }
    }
  }

  /** The heap holds exactly the keys of the live heads. */
  ghost predicate HeapMatches(ss: seq<Stream>, next: seq<nat>, heap: seq<Key>)
    requires Heads(ss, next)
  {
    forall k :: k in heap <==>
      k.stream < |ss| && HasHead(ss, next, k.stream) && k == HeadKey(ss, next, k.stream)
  }

  lemma HeapTopIsEarliest(ss: seq<Stream>, next: seq<nat>, heap: seq<Key>)
    requires Heads(ss, next) && KeysInOrder(heap) && HeapMatches(ss, next, heap)
    ensures heap == [] <==> Earliest(ss, next, |ss|).None?
    ensures heap != [] ==> Earliest(ss, next, |ss|) == Some(heap[0].stream)
  {
    var e := Earliest(ss, next, |ss|);
    if e.Some? {
      assert HeadKey(ss, next, e.value) in heap;
    }
    if heap != [] {
      assert heap[0] in heap;
    }
  }

  /** A k-way merge over record streams. */
  class Replay {
    const streams: seq<Stream>
    var heads: seq<Option<Item>>
    var arrivals: seq<nat>
    var heap: seq<Key>
    ghost var next: seq<nat>

    ghost predicate Valid()
      reads this
    {
      && Heads(streams, next)
      && |heads| == |arrivals| == |streams|
      && (forall i :: 0 <= i < |streams| && HasHead(streams, next, i) ==>
            heads[i] == Some(streams[i].items[next[i]]) && arrivals[i] == next[i])
      && KeysInOrder(heap) && HeapMatches(streams, next, heap)
    }

    constructor (ss: seq<Stream>)
      requires Builds(ss)
      ensures Valid() && streams == ss && next == Start(ss)
    {
      streams := ss;
      next := Start(ss);
      heads := seq(|ss|, i requires 0 <= i < |ss| => if ss[i].items == [] then None else Some(ss[i].items[0]));
      arrivals := Start(ss);
      heap := [];
      new;
      for i := 0 to |ss|
        invariant streams == ss && next == Start(ss) && Heads(ss, next) && arrivals == next
        invariant |heads| == |ss|
        invariant forall j :: 0 <= j < |ss| && HasHead(ss, next, j) ==> heads[j] == Some(ss[j].items[0])
        invariant KeysInOrder(heap)
        invariant forall k :: k in heap <==>
                    k.stream < i && HasHead(ss, next, k.stream) && k == HeadKey(ss, next, k.stream)
      {
        if heads[i].Some? && ss[i].items != [] {
          var k := Key(ss[i].items[0].ts, ss[i].priority, i, 0);
          forall j | 0 <= j < |heap| ensures heap[j] != k {
            assert heap[j] in heap;
          }
          PushKeepsOrder(heap, k);
          heap := PushKey(heap, k);
        }
      }
    }

    /** File the stream's next record, if it has one, behind its popped head. */
    method Refill(i: nat, k: nat)
      requires i < |streams| && |heads| == |arrivals| == |streams| && (k < |streams[i].items| ==> streams[i].items[k].Record?)
      modifies this`heap, this`arrivals, this`heads
      ensures k < |streams[i].items| ==>
                && heap == PushKey(old(heap), Key(streams[i].items[k].ts, streams[i].priority, i, k))
                && arrivals == old(arrivals)[i := k] && heads == old(heads)[i := Some(streams[i].items[k])]
      ensures k >= |streams[i].items| ==> heap == old(heap) && arrivals == old(arrivals) && heads == old(heads)[i := None]
    {
      if k < |streams[i].items| {
        var item := streams[i].items[k];
        heap := PushKey(heap, Key(item.ts, streams[i].priority, i, k));
        arrivals := arrivals[i := k];
        heads := heads[i := Some(item)];
      } else {
        heads := heads[i := None];
      }
    }

    /**
     Emit the next record in replay order, and pull its successor.  When that pull fails the record
     already taken is lost, and its stream with it: nothing else moves.
     */
    method NextRecord() returns (r: Pulled)
      requires Valid()
      modifies this
      ensures r == Turn(streams, old(next))
      ensures !r.PullFailed? ==> Valid() && next == AfterTurn(streams, old(next))
      ensures r.PullFailed? ==>
                && old(heap) != [] && old(heap)[0].stream < |streams|
                && heap == old(heap)[1..] && heads == old(heads)[old(heap)[0].stream := None]
                && arrivals == old(arrivals) && next == old(next)
    {
      hide HeapMatches, KeysInOrder, PushKey;
      HeapTopIsEarliest(streams, next, heap);
      if heap == [] {
        return Exhausted;
      }
      HeapTopIsHead(streams, next, heap);
      var i := heap[0].stream;
      var k := arrivals[i] + 1;
      if PullFails(streams[i], k) {
        heap := heap[1..];
        heads := heads[i := None];
        return PullFailed;
      }
      r := Next(Ref(i, arrivals[i]));
      HeapAdvances(streams, next, heap);
      heap := heap[1..];
      Refill(i, k);
      next := next[i := next[i] + 1];
    }
  }

  lemma HeapTopIsHead(ss: seq<Stream>, next: seq<nat>, heap: seq<Key>)
    requires Heads(ss, next) && HeapMatches(ss, next, heap) && heap != []
    ensures heap[0].stream < |ss| && HasHead(ss, next, heap[0].stream)
  {
    assert heap[0] in heap;
  }

  /** Build a replay, or report that some stream's first record cannot be pulled. */
  method Build(ss: seq<Stream>) returns (r: Option<Replay>)
    ensures r.None? <==> !Builds(ss)
    ensures r.Some? ==> fresh(r.value) && r.value.Valid() && r.value.streams == ss && r.value.next == Start(ss)
  {
    for i := 0 to |ss|
      invariant forall j :: 0 <= j < i ==> !PullFails(ss[j], 0)
    {
      if PullFails(ss[i], 0) {
        return None;
      }
    }
    var replay := new Replay(ss);
    r := Some(replay);
  }

  lemma HeapPop(ss: seq<Stream>, next: seq<nat>, heap: seq<Key>)
    requires Heads(ss, next) && KeysInOrder(heap) && HeapMatches(ss, next, heap) && heap != []
    ensures KeysInOrder(heap[1..])
    ensures forall k :: k in heap[1..] <==>
              && k.stream < |ss| && k.stream != heap[0].stream
              && HasHead(ss, next, k.stream) && k == HeadKey(ss, next, k.stream)
  {
    assert heap == [heap[0]] + heap[1..];
    assert heap[0] in heap;
    forall j | 0 <= j < |heap[1..]| ensures heap[1..][j] != heap[0] {
      assert Before(heap[0], heap[j + 1]);
    }
  }

  /** The heap once its top has been popped and that stream's next record, if any, pushed. */
  function AdvancedHeap(ss: seq<Stream>, heap: seq<Key>, i: nat, k: nat): seq<Key>
    requires heap != [] && i < |ss| && (k < |ss[i].items| ==> ss[i].items[k].Record?)
  {
    if k < |ss[i].items| then PushKey(heap[1..], Key(ss[i].items[k].ts, ss[i].priority, i, k)) else heap[1..]
  }

  lemma HeapAdvances(ss: seq<Stream>, next: seq<nat>, heap: seq<Key>)
    requires Heads(ss, next) && KeysInOrder(heap) && HeapMatches(ss, next, heap) && heap != []
    requires heap[0].stream < |ss| && !PullFails(ss[heap[0].stream], next[heap[0].stream] + 1)
    requires HasHead(ss, next, heap[0].stream)
    ensures var i := heap[0].stream;
            var next' := next[i := next[i] + 1];
            && Heads(ss, next')
            && KeysInOrder(AdvancedHeap(ss, heap, i, next[i] + 1))
            && HeapMatches(ss, next', AdvancedHeap(ss, heap, i, next[i] + 1))
  {
    var i := heap[0].stream;
    var next' := next[i := next[i] + 1];
    HeapPop(ss, next, heap);
    if next'[i] < |ss[i].items| {
      var pushed := HeadKey(ss, next', i);
      forall j | 0 <= j < |heap[1..]| ensures heap[1..][j] != pushed {
        assert heap[1..][j] in heap[1..];
      }
      PushKeepsOrder(heap[1..], pushed);
    }
  }

  /** Drain the whole replay through the heap. */
  method CollectAll(ss: seq<Stream>) returns (d: Drained)
    ensures d == ReplayAll(ss)
  {
    var built := Build(ss);
    if built.None? {
      return Failed;
    }
    var replay := built.value;
    var out: seq<Ref> := [];
    while true
      invariant replay.Valid() && replay.streams == ss && fresh(replay)
      invariant ReplayAll(ss) == Prepend(out, Drain(ss, replay.next))
      decreases Left(ss, replay.next)
    {
      ghost var next := replay.next;
      DrainOneTurn(ss, next);
      var r := replay.NextRecord();
      match r {
        case PullFailed =>
          return Failed;
        case Exhausted =>
          assert out + [] == out;
          return Emitted(out);
        case Next(ref) =>
          PrependStep(out, ref, Drain(ss, replay.next));
          out := out + [ref];
      }
    }
  }

  lemma DrainOneTurn(ss: seq<Stream>, next: seq<nat>)
    requires Heads(ss, next)
    ensures match Turn(ss, next)
            case Exhausted => Drain(ss, next) == Emitted([])
            case PullFailed => Drain(ss, next) == Failed
            case Next(ref) =>
              && Heads(ss, AfterTurn(ss, next))
              && Left(ss, AfterTurn(ss, next)) < Left(ss, next)
              && Drain(ss, next) == Prepend([ref], Drain(ss, AfterTurn(ss, next)))
  {
    var e := Earliest(ss, next, |ss|);
    if e.Some? {
      LeftStep(ss, next, e.value);
    }
  }

  function Prepend(out: seq<Ref>, d: Drained): Drained {
    match d
    case Failed => Failed
    case Emitted(rest) => Emitted(out + rest)
  }

  lemma PrependStep(out: seq<Ref>, r: Ref, d: Drained)
    ensures Prepend(out, Prepend([r], d)) == Prepend(out + [r], d)
  {
    if d.Emitted? {
      assert out + ([r] + d.out) == (out + [r]) + d.out;
    }
  }
}
