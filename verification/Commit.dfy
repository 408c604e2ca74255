/**
 The opaque tag a HEAD read hands back: the ETag, and a version id when the store has one,
 packed into a single string around a unit separator.
 */
module HeadTags {
  import opened Orders

  const SEPARATOR: char := '\U{1f}'

  function EncodeTag(etag: string, version: Option<string>): (tag: string) {
    match version
    case Some(v) => etag + [SEPARATOR] + v
    case None => etag
  }

  /** Where the first separator is, or the length when there is none. */
  function FirstSeparator(tag: string): (at: nat)
    ensures at <= |tag|
    ensures SEPARATOR !in tag[..at]
    ensures at < |tag| ==> tag[at] == SEPARATOR
  {
    if tag == [] || tag[0] == SEPARATOR then 0
    else
      var rest := FirstSeparator(tag[1..]);
      assert tag[..rest + 1] == [tag[0]] + tag[1..][..rest];
      rest + 1
  }

  function DecodeTag(tag: string): (parts: (string, Option<string>)) {
    var at := FirstSeparator(tag);
    if at < |tag| then (tag[..at], Some(tag[at + 1..])) else (tag, None)
  }

  lemma PrefixHolds(tag: string, i: nat, at: nat)
    requires i < |tag| && at <= |tag|
    ensures i < at ==> tag[i] in tag[..at]
  {
    if i < at {
      assert tag[..at][i] == tag[i];
    }
  }

  lemma FirstSeparatorIsUnique(tag: string, at: nat)
    requires at < |tag| && tag[at] == SEPARATOR && SEPARATOR !in tag[..at]
    ensures FirstSeparator(tag) == at
  {
    var first := FirstSeparator(tag);
    PrefixHolds(tag, at, first);
    if first < |tag| {
      PrefixHolds(tag, first, at);
    }
  }

  /**
   Decoding undoes encoding exactly when the ETag carries no separator of its own; the
   version id may hold anything.  With a separator inside, a conditional update would be
   sent with an ETag the store never issued.
   */
  lemma TagRoundTrip(etag: string, version: Option<string>)
    ensures DecodeTag(EncodeTag(etag, version)) == (etag, version) <==> SEPARATOR !in etag
  {
    var tag := EncodeTag(etag, version);
    var at := FirstSeparator(tag);
    if SEPARATOR in etag {
      var k :| 0 <= k < |etag| && etag[k] == SEPARATOR;
      PrefixHolds(tag, k, at);
      assert |DecodeTag(tag).0| == at < |etag|;
    } else if version.Some? {
      assert tag[..|etag|] == etag;
      FirstSeparatorIsUnique(tag, |etag|);
      assert tag[|etag| + 1..] == version.value;
    }
  }

  /** Distinct store versions never share a tag, as long as ETags carry no separator. */
  lemma TagIsInjective(etag: string, version: Option<string>, etag': string, version': Option<string>)
    requires SEPARATOR !in etag && SEPARATOR !in etag'
    requires EncodeTag(etag, version) == EncodeTag(etag', version')
    ensures etag == etag' && version == version'
  {
    TagRoundTrip(etag, version);
    TagRoundTrip(etag', version');
  }
}

/**
 The lock-free commit protocol over a store with conditional puts.

 A writer reads HEAD, revalidates it, creates the manifest slot of the next sequence with a
 create-if-absent put (`If-None-Match: *`, section 13.1.2 of RFC 9110), and swaps HEAD with
 a put conditional on the tag it read (`If-Match`, section 13.1.1 of RFC 9110).  Any number
 of writers interleave these four requests, and any of them may stop for good at any point.

 A `Writer` is one commit attempt; a process that retries is a new writer.  Assumptions,
 each of them an enabling condition of a step below: a writer's sequence is the one after
 the HEAD it read, two HEAD writes never share a tag, and a slot is cleared only when the
 writer that created it has stopped.
 */
module CommitProtocol {

  type Writer = nat
  type Tag = nat

  /** What a HEAD read returns. */
  datatype Base = NoHead | At(sequence: nat, tag: Tag)

  datatype Phase =
    | Idle
    | Holding(base: Base)
    | Validated(base: Base)
    | Published(base: Base)
    | Committed(base: Base)
    | Conflict(expected: nat, actual: nat)
    | Stopped(last: Phase)

  /** HEAD as stored: the sequence, the manifest it names, and the tag the store gave it. */
  datatype Head = Absent | Present(sequence: nat, manifest: Writer, tag: Tag)

  /** History only: one entry per successful swap, oldest first. */
  datatype Commit = Commit(writer: Writer, base: Base, tag: Tag)

  datatype State = State(
    head: Head,
    slots: map<nat, Writer>,
    phases: map<Writer, Phase>,
    log: seq<Commit>)

  datatype Step =
    | Read(w: Writer)
    | Revalidate(w: Writer)
    | CreateSlot(w: Writer)
    | SwapHead(w: Writer, tag: Tag)
    | Stop(w: Writer)
    | Clear

  function Init(): State {
    State(Absent, map[], map[], [])
  }

  function PhaseOf(s: State, w: Writer): Phase {
    if w in s.phases then s.phases[w] else Idle
  }

  function SetPhase(s: State, w: Writer, p: Phase): State {
    s.(phases := s.phases[w := p])
  }

  function BaseOf(h: Head): Base {
    match h
    case Absent => NoHead
    case Present(n, _, tag) => At(n, tag)
  }

  /** The condition both the revalidation and the conditional put check: tags, not contents. */
  predicate Matches(b: Base, h: Head) {
    match b
    case NoHead => h.Absent?
    case At(_, tag) => h.Present? && h.tag == tag
  }

  /** A table is created at sequence zero; every later version takes its predecessor plus one. */
  function NextSequence(b: Base): nat {
    match b
    case NoHead => 0
    case At(n, _) => n + 1
  }

  function ActualSequence(h: Head): nat {
    if h.Present? then h.sequence else 0
  }

  function Before(sequence: nat): nat {
    if sequence == 0 then 0 else sequence - 1
  }

  predicate TagIsUsed(s: State, tag: Tag) {
    exists k :: 0 <= k < |s.log| && s.log[k].tag == tag
  }

  /** The slot a commit on the current HEAD would need. */
  function OpenSlot(s: State): nat {
    NextSequence(BaseOf(s.head))
  }

  predicate Enabled(s: State, step: Step) {
    match step
    case Read(w) => PhaseOf(s, w).Idle?
    case Revalidate(w) => PhaseOf(s, w).Holding?
    case CreateSlot(w) => PhaseOf(s, w).Validated?
    case SwapHead(w, tag) => PhaseOf(s, w).Published? && !TagIsUsed(s, tag)
    case Stop(w) => !PhaseOf(s, w).Stopped?
    case Clear =>
      var n := OpenSlot(s);
      n in s.slots && PhaseOf(s, s.slots[n]).Stopped?
  }

  function Do(s: State, step: Step): State
    requires Enabled(s, step)
  {
    match step
    case Read(w) => SetPhase(s, w, Holding(BaseOf(s.head)))
    case Revalidate(w) =>
      var b := PhaseOf(s, w).base;
      if Matches(b, s.head) then SetPhase(s, w, Validated(b))
      else SetPhase(s, w, Conflict(Before(NextSequence(b)), ActualSequence(s.head)))
    case CreateSlot(w) =>
      var b := PhaseOf(s, w).base;
      var n := NextSequence(b);
      if n in s.slots then SetPhase(s, w, Conflict(Before(n), n))
      else SetPhase(s.(slots := s.slots[n := w]), w, Published(b))
    case SwapHead(w, tag) =>
      var b := PhaseOf(s, w).base;
      var n := NextSequence(b);
      if Matches(b, s.head) then
        SetPhase(s.(head := Present(n, w, tag), log := s.log + [Commit(w, b, tag)]), w, Committed(b))
      else SetPhase(s, w, Conflict(Before(n), ActualSequence(s.head)))
    case Stop(w) => SetPhase(s, w, Stopped(PhaseOf(s, w)))
    case Clear => s.(slots := s.slots - {OpenSlot(s)})
  }

  predicate Legal(s: State, steps: seq<Step>)
    decreases |steps|
  {
    steps == [] || (Enabled(s, steps[0]) && Legal(Do(s, steps[0]), steps[1..]))
  }

  function Exec(s: State, steps: seq<Step>): State
    requires Legal(s, steps)
    decreases |steps|
  {
    if steps == [] then s else Exec(Do(s, steps[0]), steps[1..])
  }

  // ----- The inductive invariant -----

  /** The base of the commit that follows the first `k`. */
  function BaseAt(log: seq<Commit>, k: nat): Base
    requires k <= |log|
  {
    if k == 0 then NoHead else At(k - 1, log[k - 1].tag)
  }

  predicate HeadIsLastCommit(s: State) {
    if s.log == [] then s.head == Absent
    else s.head == Present(|s.log| - 1, s.log[|s.log| - 1].writer, s.log[|s.log| - 1].tag)
  }

  predicate BasesChain(s: State) {
    forall k {:trigger BaseAt(s.log, k)} :: 0 <= k < |s.log| ==> s.log[k].base == BaseAt(s.log, k)
  }

  predicate TagsDiffer(s: State) {
    forall i, j :: 0 <= i < j < |s.log| ==> s.log[i].tag != s.log[j].tag
  }

  predicate SlotsMatchLog(s: State) {
    && (forall k :: 0 <= k < |s.log| ==> k in s.slots && s.slots[k] == s.log[k].writer)
    && (forall n :: n in s.slots ==> n <= |s.log|)
  }

  /** A base some HEAD read once returned. */
  predicate KnownBase(log: seq<Commit>, b: Base) {
    b.At? ==> b.sequence < |log| && log[b.sequence].tag == b.tag
  }

  predicate PhaseIsSound(s: State, w: Writer, p: Phase) {
    match p
    case Holding(b) => KnownBase(s.log, b)
    case Validated(b) => KnownBase(s.log, b)
    case Published(b) =>
      b == BaseAt(s.log, |s.log|) && |s.log| in s.slots && s.slots[|s.log|] == w
    case Committed(b) =>
      var k := NextSequence(b);
      k < |s.log| && s.log[k].writer == w && s.log[k].base == b
    case _ => true
  }

  predicate PhasesAreSound(s: State) {
    forall w :: w in s.phases ==> PhaseIsSound(s, w, s.phases[w])
  }

  predicate SlotOwnerIsPublished(s: State) {
    |s.log| in s.slots ==>
      var p := PhaseOf(s, s.slots[|s.log|]);
      p.Published? || (p.Stopped? && p.last.Published?)
  }

  predicate Inv(s: State) {
    && HeadIsLastCommit(s)
    && BasesChain(s)
    && TagsDiffer(s)
    && SlotsMatchLog(s)
    && SlotOwnerIsPublished(s)
    && PhasesAreSound(s)
  }

  lemma BaseOfHead(s: State)
    requires HeadIsLastCommit(s)
    ensures BaseOf(s.head) == BaseAt(s.log, |s.log|) && KnownBase(s.log, BaseOf(s.head))
    ensures OpenSlot(s) == |s.log|
  {
  }

  lemma CreateSlotKeepsInv(s: State, w: Writer)
    requires Inv(s) && PhaseOf(s, w).Validated?
    ensures Inv(Do(s, CreateSlot(w)))
    ensures Do(s, CreateSlot(w)).log == s.log && Do(s, CreateSlot(w)).head == s.head
    ensures forall n :: n in s.slots ==>
              n in Do(s, CreateSlot(w)).slots && Do(s, CreateSlot(w)).slots[n] == s.slots[n]
  {
    assert PhaseIsSound(s, w, s.phases[w]);
  }

  /** Creating the slot is winning the race: the base a published writer holds is still HEAD. */
  lemma PublishedMatches(s: State, w: Writer)
    requires Inv(s) && PhaseOf(s, w).Published?
    ensures PhaseOf(s, w).base == BaseOf(s.head) && Matches(PhaseOf(s, w).base, s.head)
    ensures |s.log| in s.slots && s.slots[|s.log|] == w
  {
    assert PhaseIsSound(s, w, s.phases[w]);
  }

  lemma SwapHeadKeepsInv(s: State, w: Writer, tag: Tag)
    requires Inv(s) && Enabled(s, SwapHead(w, tag))
    ensures var s' := Do(s, SwapHead(w, tag));
            && Inv(s')
            && PhaseOf(s', w).Committed?
            && s'.head == Present(|s.log|, w, tag)
            && s'.slots == s.slots
            && s'.log == s.log + [Commit(w, BaseOf(s.head), tag)]
  {
    BaseOfHead(s);
    PublishedMatches(s, w);
    var s' := Do(s, SwapHead(w, tag));
    assert s'.log == s.log + [Commit(w, BaseOf(s.head), tag)];
    assert BasesChain(s') by {
      forall k | 0 <= k < |s'.log| ensures s'.log[k].base == BaseAt(s'.log, k) {
        if k < |s.log| {
          assert s.log[k].base == BaseAt(s.log, k);
        }
      }
    }
    assert TagsDiffer(s');
    assert SlotsMatchLog(s');
    forall v | v in s'.phases ensures PhaseIsSound(s', v, s'.phases[v]) {
      if v != w {
        assert PhaseIsSound(s, v, s.phases[v]);
      }
    }
  }

  /** Clearing an orphan slot: no writer that could still swap owns it. */
  lemma ClearKeepsInv(s: State)
    requires Inv(s) && Enabled(s, Clear)
    ensures Inv(Do(s, Clear))
    ensures forall n :: n in s.slots && n < |s.log| ==>
              n in Do(s, Clear).slots && Do(s, Clear).slots[n] == s.slots[n]
  {
    BaseOfHead(s);
    var s' := Do(s, Clear);
    forall v | v in s'.phases ensures PhaseIsSound(s', v, s'.phases[v]) {
      assert PhaseIsSound(s, v, s.phases[v]);
    }
  }

  /** Reading, revalidating and stopping touch nothing but the writer itself. */
  lemma PhaseStepKeepsInv(s: State, step: Step)
    requires Inv(s) && Enabled(s, step) && (step.Read? || step.Revalidate? || step.Stop?)
    ensures Inv(Do(s, step))
    ensures Do(s, step).slots == s.slots
  {
    BaseOfHead(s);
    var s' := Do(s, step);
    if step.Revalidate? {
      assert PhaseIsSound(s, step.w, s.phases[step.w]);
    }
    forall v | v in s'.phases ensures PhaseIsSound(s', v, s'.phases[v]) {
      if v in s.phases && s'.phases[v] == s.phases[v] {
        assert PhaseIsSound(s, v, s.phases[v]);
      }
    }
  }

  lemma OtherStepsKeepInv(s: State, step: Step)
    requires Inv(s) && Enabled(s, step) && !step.CreateSlot? && !step.SwapHead?
    ensures Inv(Do(s, step))
    ensures Do(s, step).log == s.log && Do(s, step).head == s.head
    ensures forall n :: n in s.slots && n < |s.log| ==>
              n in Do(s, step).slots && Do(s, step).slots[n] == s.slots[n]
  {
    hide Inv;
    if step.Clear? {
      ClearKeepsInv(s);
    } else {
      PhaseStepKeepsInv(s, step);
    }
  }

  lemma StepKeepsInv(s: State, step: Step)
    requires Inv(s) && Enabled(s, step)
    ensures Inv(Do(s, step))
  {
    match step
    case CreateSlot(w) => CreateSlotKeepsInv(s, w);
    case SwapHead(w, tag) => SwapHeadKeepsInv(s, w, tag);
    case _ => OtherStepsKeepInv(s, step);
  }

  lemma {:induction false} ExecKeepsInv(s: State, steps: seq<Step>)
    requires Inv(s) && Legal(s, steps)
    ensures Inv(Exec(s, steps))
    decreases |steps|
  {
    if steps != [] {
      StepKeepsInv(s, steps[0]);
      ExecKeepsInv(Do(s, steps[0]), steps[1..]);
    }
  }

  // ----- Safety -----

  ghost predicate Reachable(s: State) {
    exists steps :: Legal(Init(), steps) && s == Exec(Init(), steps)
  }

  lemma ReachableIsInv(s: State)
    requires Reachable(s)
    ensures Inv(s)
  {
    var steps :| Legal(Init(), steps) && s == Exec(Init(), steps);
    ExecKeepsInv(Init(), steps);
  }

  /**
   In every reachable state of every interleaving: the slots up to HEAD are all filled, none
   exists beyond the one after HEAD, the manifest HEAD names is the one in its slot, and slot
   k holds the manifest of the very writer whose swap moved HEAD to k, which worked from
   exactly version k-1.  So no committed update is lost and none is based on a stale read.
   */
  lemma CommittedHistoryIsChain(s: State)
    requires Reachable(s)
    ensures s.head.Absent? <==> s.log == []
    ensures s.head.Present? ==>
              && s.head.sequence == |s.log| - 1
              && (forall n :: 0 <= n <= s.head.sequence ==> n in s.slots)
              && s.slots[s.head.sequence] == s.head.manifest
    ensures forall n :: n in s.slots ==> n <= OpenSlot(s)
    ensures forall k {:trigger BaseAt(s.log, k)} :: 0 <= k < |s.log| ==>
              k in s.slots && s.slots[k] == s.log[k].writer && s.log[k].base == BaseAt(s.log, k)
    ensures forall w :: w in s.phases && s.phases[w].Committed? ==>
              var k := NextSequence(s.phases[w].base);
              k < |s.log| && s.log[k].writer == w && s.log[k].base == s.phases[w].base
  {
    ReachableIsInv(s);
    forall w | w in s.phases && s.phases[w].Committed?
      ensures PhaseIsSound(s, w, s.phases[w])
    {
    }
  }

  /** The history grew by appending, and no committed slot was touched. */
  predicate Extends(s: State, s': State) {
    && |s.log| <= |s'.log|
    && s'.log[..|s.log|] == s.log
    && (forall n :: 0 <= n < |s.log| ==> n in s.slots && n in s'.slots && s'.slots[n] == s.slots[n])
  }

  /** One step moves HEAD by one sequence or not at all, and never touches a committed slot. */
  lemma StepAppends(s: State, step: Step)
    requires Inv(s) && Enabled(s, step)
    ensures Extends(s, Do(s, step))
    ensures Do(s, step).head == s.head
         || (Do(s, step).head.Present? && Do(s, step).head.sequence == OpenSlot(s))
  {
    BaseOfHead(s);
    match step
    case CreateSlot(w) => CreateSlotKeepsInv(s, w);
    case SwapHead(w, tag) => SwapHeadKeepsInv(s, w, tag);
    case _ => OtherStepsKeepInv(s, step);
  }

  lemma ExtendsIsTransitive(s: State, s1: State, s2: State)
    requires Extends(s, s1) && Extends(s1, s2)
    ensures Extends(s, s2)
  {
    assert s2.log[..|s.log|] == s2.log[..|s1.log|][..|s.log|];
  }

  /** Over any continuation, committed slots and the history they spell never change. */
  lemma {:induction false} CommittedSlotsAreImmutable(s: State, steps: seq<Step>)
    requires Inv(s) && Legal(s, steps)
    ensures Extends(s, Exec(s, steps))
    decreases |steps|
  {
    if steps != [] {
      var s1 := Do(s, steps[0]);
      StepAppends(s, steps[0]);
      StepKeepsInv(s, steps[0]);
      CommittedSlotsAreImmutable(s1, steps[1..]);
      ExtendsIsTransitive(s, s1, Exec(s, steps));
    }
  }

  // ----- Progress -----

  /** A writer that has created its slot cannot lose the HEAD swap to a precondition. */
  lemma PublishedWriterAlwaysCommits(s: State, w: Writer, tag: Tag)
    requires Reachable(s) && Enabled(s, SwapHead(w, tag))
    ensures var s' := Do(s, SwapHead(w, tag));
            PhaseOf(s', w).Committed? && s'.head == Present(OpenSlot(s), w, tag)
  {
    ReachableIsInv(s);
    SwapHeadKeepsInv(s, w, tag);
    BaseOfHead(s);
  }

  // ----- What a writer is told -----

  /** The base a writer works from, once it has read HEAD. */
  function BaseHeld(p: Phase): Base {
    match p
    case Holding(b) => b
    case Validated(b) => b
    case Published(b) => b
    case Committed(b) => b
    case _ => NoHead
  }

  predicate Working(p: Phase) {
    p.Holding? || p.Validated? || p.Published?
  }

  /** A writer never goes back, and keeps its base as long as it works. */
  predicate Follows(p: Phase, p': Phase) {
    && (p'.Holding? ==> p.Idle? || p == p')
    && (Working(p') ==> p.Idle? || (Working(p) && BaseHeld(p') == BaseHeld(p)))
    && (p.Conflict? ==> p' == p || p' == Stopped(p))
    && (p.Stopped? ==> p' == p)
  }

  lemma StepFollows(s: State, step: Step, w: Writer)
    requires Enabled(s, step)
    ensures Follows(PhaseOf(s, w), PhaseOf(Do(s, step), w))
  {
  }

  /** Since writer `w` read HEAD with `n` commits made, `s` has come about and it still works on that. */
  ghost predicate ReadAt(s: State, w: Writer, n: nat) {
    exists s0: State, steps ::
      && Reachable(s0) && PhaseOf(s0, w).Idle? && |s0.log| == n
      && Legal(s0, [Read(w)] + steps) && s == Exec(s0, [Read(w)] + steps)
  }

  lemma {:induction false} HoldsItsBase(s: State, steps: seq<Step>, w: Writer)
    requires Inv(s) && Legal(s, steps) && !PhaseOf(s, w).Idle?
    ensures var s' := Exec(s, steps);
            && Inv(s') && |s.log| <= |s'.log| && s'.log[..|s.log|] == s.log
            && !PhaseOf(s', w).Idle?
            && (Working(PhaseOf(s', w)) ==> Working(PhaseOf(s, w)) && BaseHeld(PhaseOf(s', w)) == BaseHeld(PhaseOf(s, w)))
    decreases |steps|
  {
    hide Inv;
    if steps != [] {
      var s1 := Do(s, steps[0]);
      StepFollows(s, steps[0], w);
      NeverIdleAgain(s, steps[0], w);
      StepAppends(s, steps[0]);
      StepKeepsInv(s, steps[0]);
      HoldsItsBase(s1, steps[1..], w);
      assert Exec(s, steps).log[..|s.log|] == Exec(s, steps).log[..|s1.log|][..|s.log|];
    }
  }

  lemma NeverIdleAgain(s: State, step: Step, w: Writer)
    requires Enabled(s, step) && !PhaseOf(s, w).Idle?
    ensures !PhaseOf(Do(s, step), w).Idle?
  {
  }

  lemma ReadIsBase(s: State, w: Writer, n: nat)
    requires ReadAt(s, w, n) && Working(PhaseOf(s, w))
    ensures Inv(s) && n <= |s.log| && BaseHeld(PhaseOf(s, w)) == BaseAt(s.log, n)
  {
    var s0: State, steps :|
      && Reachable(s0) && PhaseOf(s0, w).Idle? && |s0.log| == n
      && Legal(s0, [Read(w)] + steps) && s == Exec(s0, [Read(w)] + steps);
    ReachableIsInv(s0);
    BaseOfHead(s0);
    var all := [Read(w)] + steps;
    assert all[0] == Read(w) && all[1..] == steps;
    var s1 := Do(s0, Read(w));
    StepKeepsInv(s0, Read(w));
    HoldsItsBase(s1, steps, w);
  }

  /**
   What revalidation decides: a writer that read HEAD after `n` commits goes on exactly when no
   commit was made since, and is otherwise told the version it worked from and the one there is.
   */
  lemma RevalidationIsExact(s: State, w: Writer, n: nat)
    requires ReadAt(s, w, n) && PhaseOf(s, w).Holding?
    ensures var s' := Do(s, Revalidate(w));
            && (PhaseOf(s', w).Validated? <==> |s.log| == n)
            && (|s.log| != n ==>
                  |s.log| > n && PhaseOf(s', w) == Conflict(if n == 0 then 0 else n - 1, |s.log| - 1))
            && s'.head == s.head && s'.slots == s.slots && s'.log == s.log
  {
    ReadIsBase(s, w, n);
    if n < |s.log| && n > 0 {
      assert s.log[n - 1].tag != s.log[|s.log| - 1].tag;
    }
  }

  /**
   What creating the slot decides: it is taken exactly when slot `n` is free, which it can be only
   while no commit was made since; otherwise nothing is written and both numbers are the slot's.
   */
  lemma SlotCreationIsExact(s: State, w: Writer, n: nat)
    requires ReadAt(s, w, n) && PhaseOf(s, w).Validated?
    ensures var s' := Do(s, CreateSlot(w));
            && (n !in s.slots ==> |s.log| == n)
            && (n !in s.slots ==> s'.slots == s.slots[n := w] && PhaseOf(s', w).Published?)
            && (n in s.slots ==> s'.slots == s.slots && PhaseOf(s', w) == Conflict(if n == 0 then 0 else n - 1, n))
            && s'.head == s.head && s'.log == s.log
  {
    hide BasesChain, TagsDiffer, PhasesAreSound, HeadIsLastCommit, ReadAt;
    ReadIsBase(s, w, n);
  }

  lemma {:induction false} ConflictIsFinal(s: State, steps: seq<Step>, w: Writer)
    requires Legal(s, steps) && (PhaseOf(s, w).Conflict? || PhaseOf(s, w).Stopped?)
    ensures var p := PhaseOf(Exec(s, steps), w);
            p.Conflict? || p.Stopped?
    ensures forall i :: 0 <= i < |steps| ==> steps[i] != CreateSlot(w) && !(steps[i].SwapHead? && steps[i].w == w)
    decreases |steps|
  {
    if steps != [] {
      StepFollows(s, steps[0], w);
      ConflictIsFinal(Do(s, steps[0]), steps[1..], w);
      forall i | 0 <= i < |steps| ensures steps[i] != CreateSlot(w) && !(steps[i].SwapHead? && steps[i].w == w) {
        assert i > 0 ==> steps[i] == steps[1..][i - 1];
      }
    }
  }

  /** So a writer overtaken before it revalidates publishes nothing, in that attempt or ever after. */
  lemma OvertakenPublishesNothing(s: State, w: Writer, n: nat, steps: seq<Step>)
    requires ReadAt(s, w, n) && PhaseOf(s, w).Holding? && |s.log| > n
    requires Legal(s, [Revalidate(w)] + steps)
    ensures forall i :: 0 <= i < |steps| ==> steps[i] != CreateSlot(w) && !(steps[i].SwapHead? && steps[i].w == w)
  {
    var all := [Revalidate(w)] + steps;
    assert all[0] == Revalidate(w) && all[1..] == steps;
    RevalidationIsExact(s, w, n);
    ConflictIsFinal(Do(s, Revalidate(w)), steps, w);
  }

  // ----- Orphans -----

  /** The slot after HEAD was created by a writer that stopped before its swap. */
  predicate Orphaned(s: State) {
    var n := OpenSlot(s);
    n in s.slots && PhaseOf(s, s.slots[n]).Stopped?
  }

  predicate NoClear(steps: seq<Step>) {
    forall i :: 0 <= i < |steps| ==> !steps[i].Clear?
  }

  /** Behind an orphan slot nothing commits: HEAD, slots and history all stand still. */
  lemma {:induction false} OrphanBlocksEveryCommit(s: State, steps: seq<Step>)
    requires Inv(s) && Orphaned(s) && Legal(s, steps) && NoClear(steps)
    ensures var s' := Exec(s, steps);
            && s'.head == s.head && s'.slots == s.slots && s'.log == s.log
            && Orphaned(s')
            && (forall w :: PhaseOf(s', w).Committed? ==> PhaseOf(s, w).Committed?)
    decreases |steps|
  {
    if steps != [] {
      var s1 := Do(s, steps[0]);
      assert !steps[0].Clear?;
      OrphanSurvivesStep(s, steps[0]);
      StepKeepsInv(s, steps[0]);
      assert NoClear(steps[1..]);
      OrphanBlocksEveryCommit(s1, steps[1..]);
    }
  }

  lemma OrphanSurvivesStep(s: State, step: Step)
    requires Inv(s) && Orphaned(s) && Enabled(s, step) && !step.Clear?
    ensures var s' := Do(s, step);
            && s'.head == s.head && s'.slots == s.slots && s'.log == s.log
            && Orphaned(s')
            && (forall w :: PhaseOf(s', w).Committed? ==> PhaseOf(s, w).Committed?)
  {
    BaseOfHead(s);
    match step
    case CreateSlot(w) => assert PhaseIsSound(s, w, s.phases[w]);
    case SwapHead(w, _) => PublishedMatches(s, w);
    case _ =>
  }

  lemma FreshNumber(used: set<nat>) returns (n: nat)
    ensures forall x :: x in used ==> x < n
  {
    n := 0;
    var rest := used;
    while rest != {}
      invariant rest <= used
      invariant forall x :: x in used && x !in rest ==> x < n
    {
      var x :| x in rest;
      rest := rest - {x};
      n := if x < n then n else x + 1;
    }
  }

  lemma FreshTag(s: State) returns (tag: Tag)
    ensures !TagIsUsed(s, tag)
  {
    var used := set k | 0 <= k < |s.log| :: s.log[k].tag;
    tag := FreshNumber(used);
    forall k | 0 <= k < |s.log| ensures s.log[k].tag != tag {
      assert s.log[k].tag in used;
    }
  }

  predicate Advances(s: State, steps: seq<Step>) {
    Legal(s, steps) && NoClear(steps) && |Exec(s, steps).log| > |s.log|
  }

  lemma ExecOne(s: State, step: Step, rest: seq<Step>)
    requires Enabled(s, step) && Legal(Do(s, step), rest)
    ensures Legal(s, [step] + rest) && Exec(s, [step] + rest) == Exec(Do(s, step), rest)
  {
    assert ([step] + rest)[1..] == rest;
  }

  lemma PublishedOwnerAdvances(s: State, w: Writer) returns (steps: seq<Step>)
    requires Inv(s) && PhaseOf(s, w).Published?
    ensures Advances(s, steps)
  {
    var tag := FreshTag(s);
    SwapHeadKeepsInv(s, w, tag);
    ExecOne(s, SwapHead(w, tag), []);
    steps := [SwapHead(w, tag)] + [];
  }

  lemma NewWriterAdvances(s: State) returns (steps: seq<Step>)
    requires Inv(s) && OpenSlot(s) !in s.slots
    ensures Advances(s, steps)
  {
    var w := FreshNumber(s.phases.Keys);
    assert w !in s.phases;
    var b := BaseOf(s.head);
    var s1 := Do(s, Read(w));
    StepKeepsInv(s, Read(w));
    var s2 := Do(s1, Revalidate(w));
    assert PhaseOf(s2, w) == Validated(b);
    StepKeepsInv(s1, Revalidate(w));
    var s3 := Do(s2, CreateSlot(w));
    assert PhaseOf(s3, w) == Published(b);
    StepKeepsInv(s2, CreateSlot(w));
    var last := PublishedOwnerAdvances(s3, w);
    ExecOne(s2, CreateSlot(w), last);
    ExecOne(s1, Revalidate(w), [CreateSlot(w)] + last);
    ExecOne(s, Read(w), [Revalidate(w)] + ([CreateSlot(w)] + last));
    steps := [Read(w)] + ([Revalidate(w)] + ([CreateSlot(w)] + last));
  }

  /**
   Exactly when the protocol is stuck: some continuation without a vacuum commits another
   version if and only if the slot after HEAD is not an orphan.
   */
  lemma CanCommitUnlessOrphaned(s: State)
    requires Reachable(s)
    ensures (exists steps :: Advances(s, steps)) <==> !Orphaned(s)
  {
    ReachableIsInv(s);
    BaseOfHead(s);
    if Orphaned(s) {
      forall steps ensures !Advances(s, steps) {
        if Legal(s, steps) && NoClear(steps) {
          OrphanBlocksEveryCommit(s, steps);
        }
      }
    } else {
      var steps := AdvanceUnlessOrphaned(s);
    }
  }

  lemma AdvanceUnlessOrphaned(s: State) returns (steps: seq<Step>)
    requires Inv(s) && !Orphaned(s)
    ensures Advances(s, steps)
  {
    BaseOfHead(s);
    var n := OpenSlot(s);
    if n in s.slots {
      steps := PublishedOwnerAdvances(s, s.slots[n]);
    } else {
      steps := NewWriterAdvances(s);
    }
  }

  /** Clearing the orphan is all the recovery there is: the next commit goes through. */
  lemma ClearUnblocks(s: State)
    requires Reachable(s) && Orphaned(s)
    ensures Enabled(s, Clear)
    ensures var s' := Do(s, Clear);
            s'.head == s.head && s'.log == s.log && exists steps :: Advances(s', steps)
  {
    ReachableIsInv(s);
    StepKeepsInv(s, Clear);
    var steps := NewWriterAdvances(Do(s, Clear));
  }

  /**
   Why a slot may be cleared only when its writer has stopped: clearing the slot of a writer
   that is still running lets a second one fill it, after which the first still wins the HEAD
   swap and HEAD names a manifest that its slot does not hold.
   */
  lemma ClearingLiveSlotBreaksHead()
    ensures var s := State(Absent, map[0 := 1], map[1 := Published(NoHead), 2 := Validated(NoHead)], []);
            var cleared := s.(slots := map[]);
            var s' := Do(Do(cleared, CreateSlot(2)), SwapHead(1, 7));
            && Exec(Init(), [Read(1), Read(2), Revalidate(2), Revalidate(1), CreateSlot(1)]) == s
            && s'.head == Present(0, 1, 7) && s'.slots == map[0 := 2]
  {
    var i0 := Init();
    var i1 := Do(i0, Read(1));
    var i2 := Do(i1, Read(2));
    var i3 := Do(i2, Revalidate(2));
    var i4 := Do(i3, Revalidate(1));
    ExecOne(i4, CreateSlot(1), []);
    ExecOne(i3, Revalidate(1), [CreateSlot(1)]);
    ExecOne(i2, Revalidate(2), [Revalidate(1), CreateSlot(1)]);
    ExecOne(i1, Read(2), [Revalidate(2), Revalidate(1), CreateSlot(1)]);
    ExecOne(i0, Read(1), [Read(2), Revalidate(2), Revalidate(1), CreateSlot(1)]);
  }
}
