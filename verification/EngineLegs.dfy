/**
 The legs of a set operation: how the marks divide the set's unit of cash, what is booked outcome
 by outcome, and exactly when the venue takes the operation.
 */
module EngineLegs {
  import opened FixedPoint
  import opened Orders
  import opened Instruments
  import opened Engine
  import opened EngineAccount
  import opened EngineSets

  // ----- The division -----

  /** Every outcome has a positive mark. */
  predicate AllQuoted(m: MarketData, instrument: nat, outcomes: nat) {
    forall k :: 0 <= k < outcomes ==> Slot(instrument, k) in m.marks && m.marks[Slot(instrument, k)] > 0
  }

  function MarksOf(m: MarketData, instrument: nat, outcomes: nat): seq<int>
    requires AllQuoted(m, instrument, outcomes)
  {
    seq(outcomes, k requires 0 <= k < outcomes => m.marks[Slot(instrument, k)])
  }

  lemma {:induction false} QuotedIsAll(m: MarketData, instrument: nat, outcomes: nat)
    ensures QuotedMarks(m, instrument, outcomes).Some? <==> AllQuoted(m, instrument, outcomes)
    ensures AllQuoted(m, instrument, outcomes) ==> QuotedMarks(m, instrument, outcomes).value == MarksOf(m, instrument, outcomes)
    decreases outcomes
  {
    if outcomes > 0 {
      QuotedIsAll(m, instrument, outcomes - 1);
      assert AllQuoted(m, instrument, outcomes) ==> AllQuoted(m, instrument, outcomes - 1);
    }
  }

  /** A part of one in proportion to a price, rounded down. */
  predicate IsFloorShare(part: int, price: int, total: int) {
    total * part <= price * SCALE < total * part + total
  }

  /** Where every outcome is quoted the legs follow the marks: each its share rounded down, but for one of the largest. */
  predicate FollowsMarks(basis: seq<int>, marks: seq<int>) {
    && |basis| == |marks| && Sum(basis) == SCALE
    && exists at :: 0 <= at < |basis|
         && (forall k :: 0 <= k < |basis| && k != at ==> IsFloorShare(basis[k], marks[k], Sum(marks)))
         && (forall k :: 0 <= k < |basis| ==> basis[k] <= basis[at])
         && marks[at] * SCALE < Sum(marks) * basis[at] + Sum(marks)
         && basis[at] * Sum(marks) < marks[at] * SCALE + Sum(marks) * |marks|
  }

  lemma LargestCarries(total: int, share: int, extra: int, n: int, price: int)
    requires total > 0 && 0 <= extra < n && total * share <= price * SCALE < total * share + total
    ensures price * SCALE < total * (share + extra) + total
    ensures (share + extra) * total < price * SCALE + total * n
  {
    assert total * (share + extra) == total * share + total * extra;
    assert total * extra <= total * (n - 1) && 0 <= total * extra;
    assert total * (n - 1) == total * n - total;
  }

  lemma NormalisedFollows(marks: seq<int>)
    requires marks != [] && forall k :: 0 <= k < |marks| ==> marks[k] > 0
    ensures Normalised(marks).Some? && FollowsMarks(Normalised(marks).value, marks)
  {
    hide Normalised, Largest, Sum;
    PositivePricesSum(marks);
    NormalisedSumsToOne(marks);
    var total := Sum(marks);
    var basis, shares := Normalised(marks).value, Shares(marks, total);
    var at := Largest(shares);
    forall k | 0 <= k < |marks| ensures total * shares[k] <= marks[k] * SCALE < total * shares[k] + total {
      ShareBounds(marks[k], total);
    }
    LargestCarries(total, shares[at], basis[at] - shares[at], |marks|, marks[at]);
  }

  /**
   However a set is divided, the legs sum to one; they follow the marks when every outcome is
   quoted, and are even to one raw unit when any is not.
   */
  lemma BasisFollowsMarks(c: Config, m: MarketData, instrument: nat)
    requires c.outcomes(instrument) > 0
    ensures SetBasis(c, m, instrument).Some?
    ensures var n := c.outcomes(instrument);
            var basis := SetBasis(c, m, instrument).value;
            if AllQuoted(m, instrument, n) then FollowsMarks(basis, MarksOf(m, instrument, n)) else IsEvenSplit(basis, n)
  {
    hide Normalised, Uniform, FollowsMarks, IsEvenSplit;
    var n := c.outcomes(instrument);
    QuotedIsAll(m, instrument, n);
    if AllQuoted(m, instrument, n) {
      NormalisedFollows(MarksOf(m, instrument, n));
    } else {
      UniformIsEvenSplit(n);
    }
  }

  // ----- What is booked -----

  /** One outcome's leg: the whole count at its own part of the unit; the first carries the flat cost. */
  predicate IsLeg(f: Fill, instrument: nat, k: nat, side: Side, sets: int, price: int, cost: int) {
    && f.slot == Slot(instrument, k) && f.side == side && f.quantity == sets && f.price == price && !f.isTaker
    && f.commission == if k == 0 then cost else 0
  }

  predicate AreLegs(fills: seq<Fill>, instrument: nat, side: Side, sets: int, basis: seq<int>, n: nat, cost: int)
    requires n <= |basis|
  {
    |fills| == n && forall k :: 0 <= k < n ==> IsLeg(fills[k], instrument, k, side, sets, basis[k], cost)
  }

  /** The account with these legs booked, outcome after outcome, and nothing else. */
  ghost predicate BooksLegs(c: Config, a: Account, a': Account, instrument: nat, side: Side, sets: int, basis: seq<int>, n: nat, cost: int)
    requires n <= |basis|
  {
    exists fills :: AreLegs(fills, instrument, side, sets, basis, n, cost) && a' == FilledAll(c, a, fills)
  }

  lemma LegBooks(c: Config, s: State, slot: Slot, side: Side, sets: int, price: int, commission: int)
    requires s.fault.None?
    ensures var id := s.desk.nextId + 1;
            var s' := BookLeg(c, s, slot, side, sets, price, commission);
            s'.account == AfterFill(c, s.account, Fill(id, slot, side, price, sets, commission, false)) && s'.fault.None?
  {
    hide AfterFill, RemoveResting;
  }

  lemma OneMoreLeg(c: Config, a: Account, a1: Account, instrument: nat, side: Side, sets: int, basis: seq<int>, n: nat, cost: int, f: Fill)
    requires n < |basis| && BooksLegs(c, a, a1, instrument, side, sets, basis, n, cost)
    requires IsLeg(f, instrument, n, side, sets, basis[n], cost)
    ensures BooksLegs(c, a, AfterFill(c, a1, f), instrument, side, sets, basis, n + 1, cost)
  {
    hide AfterFill;
    var fills :| AreLegs(fills, instrument, side, sets, basis, n, cost) && a1 == FilledAll(c, a, fills);
    assert (fills + [f])[..n] == fills;
    assert AreLegs(fills + [f], instrument, side, sets, basis, n + 1, cost);
  }

  lemma {:induction false} LegsBook(c: Config, s: State, a: Account, instrument: nat, side: Side, sets: int, basis: seq<int>, k: nat, cost: int)
    requires s.fault.None? && k <= |basis| && BooksLegs(c, a, s.account, instrument, side, sets, basis, k, cost)
    ensures BooksLegs(c, a, BookLegs(c, s, instrument, side, sets, basis, k, cost).account, instrument, side, sets, basis, |basis|, cost)
    decreases |basis| - k
  {
    hide BooksLegs, BookLeg, AfterFill;
    if k < |basis| {
      var commission := if k == 0 then cost else 0;
      LegBooks(c, s, Slot(instrument, k), side, sets, basis[k], commission);
      OneMoreLeg(c, a, s.account, instrument, side, sets, basis, k, cost,
                 Fill(s.desk.nextId + 1, Slot(instrument, k), side, basis[k], sets, commission, false));
      LegsBook(c, BookLeg(c, s, Slot(instrument, k), side, sets, basis[k], commission), a, instrument, side, sets, basis, k + 1, cost);
    }
  }

  lemma NoLegsYet(c: Config, a: Account, instrument: nat, side: Side, sets: int, basis: seq<int>, cost: int)
    ensures BooksLegs(c, a, a, instrument, side, sets, basis, 0, cost)
  {
    assert AreLegs([], instrument, side, sets, basis, 0, cost) && a == FilledAll(c, a, []);
  }

  /** What each kind of operation does: how many sets, which way, at what flat cost. */
  function SetsMoved(kind: SetKind, quantity: int): int {
    match kind
    case Mint => quantity
    case Redeem => quantity
    case Convert(held) => quantity * (|held| - 1)
  }

  function FlatCost(c: Config, kind: SetKind): int {
    match kind
    case Mint => c.mintCost
    case Redeem => c.redeemCost
    case Convert(_) => c.convertCost
  }

  /** A basket to convert names two or more different outcomes, and leaves at least one out. */
  predicate ProperBasket(c: Config, instrument: nat, held: seq<nat>) {
    && c.negRisk(instrument) && 2 <= |held| < c.outcomes(instrument)
    && (forall i, j :: 0 <= i < j < |held| ==> held[i] != held[j])
    && (forall i :: 0 <= i < |held| ==> held[i] < c.outcomes(instrument))
  }

  /**
   The venue takes an operation exactly when the market trades as a set and still trades, the count
   is positive, a basket to convert is proper, and it can be paid: cash for the sets and the flat
   cost when minting, enough of every outcome to give up otherwise.
   */
  lemma PermittedExactlyWhen(c: Config, s: State, instrument: nat, kind: SetKind, quantity: int)
    ensures Permitted(c, s, instrument, kind, quantity) <==>
              && c.completeSet(instrument) && quantity > 0 && !Stopped(c, s.market, instrument)
              && (kind.Convert? ==> ProperBasket(c, instrument, kind.held))
              && (if kind.Mint? then Notional(SCALE, quantity) + c.mintCost <= s.account.cash
                  else forall k :: 0 <= k < c.outcomes(instrument) ==> Held(s.account, Slot(instrument, k)) >= SetsMoved(kind, quantity))
  {
    hide Notional, Stopped;
    if kind.Convert? {
      BasketIsProper(c, instrument, kind.held);
    }
  }

  lemma BasketIsProper(c: Config, instrument: nat, held: seq<nat>)
    ensures forall q: int :: SetCount(c, instrument, Convert(held), q).Some? <==> ProperBasket(c, instrument, held)
  {
  }

  /**
   A permitted operation books one fill for every outcome, in order: a mint buys, a redemption or a
   conversion sells, each the whole number of sets at that outcome's part of the unit, with the flat
   cost on the first; and the account changes in no other way.
   */
  lemma SetOperationBooksLegs(c: Config, s: State, instrument: nat, kind: SetKind, quantity: int)
    requires s.fault.None? && Permitted(c, s, instrument, kind, quantity) && c.outcomes(instrument) > 0
    ensures SetBasis(c, s.market, instrument).Some?
    ensures var basis := SetBasis(c, s.market, instrument).value;
            && |basis| == c.outcomes(instrument)
            && BooksLegs(c, s.account, SetOperation(c, s, instrument, kind, quantity).account, instrument,
                         if kind.Mint? then Buy else Sell, SetsMoved(kind, quantity), basis, |basis|, FlatCost(c, kind))
  {
    hide BookLegs, SetBasis, SetRefused, BooksLegs;
    BasisSumsToOne(c, s.market, instrument);
    var basis := SetBasis(c, s.market, instrument).value;
    var side := if kind.Mint? then Buy else Sell;
    NoLegsYet(c, s.account, instrument, side, SetsMoved(kind, quantity), basis, FlatCost(c, kind));
    LegsBook(c, s, s.account, instrument, side, SetsMoved(kind, quantity), basis, 0, FlatCost(c, kind));
  }

  /**
   An operation that cannot be, on a market that is no set, for a count that is not positive or with
   an improper basket, ends the run; one that can be and is refused does nothing.
   */
  lemma RefusalIsExact(c: Config, s: State, instrument: nat, kind: SetKind, quantity: int)
    requires s.fault.None? && c.outcomes(instrument) > 0
    ensures var s' := SetOperation(c, s, instrument, kind, quantity);
            var proper := c.completeSet(instrument) && quantity > 0 && (kind.Convert? ==> ProperBasket(c, instrument, kind.held));
            && (!proper ==> s' == s.(fault := Some(BadRequest)))
            && (proper && !Permitted(c, s, instrument, kind, quantity) ==> s' == s)
            && (Permitted(c, s, instrument, kind, quantity) ==> s'.fault.None?)
  {
    hide BookLegs, SetBasis, SetRefused;
    if kind.Convert? {
      BasketIsProper(c, instrument, kind.held);
    }
    BasisSumsToOne(c, s.market, instrument);
    match SetCount(c, instrument, kind, quantity)
    case None =>
    case Some((sets, side)) => LegsDoNotFault(c, s, instrument, side, sets, SetBasis(c, s.market, instrument).value, 0, SetCost(c, kind));
  }

  lemma {:induction false} LegsDoNotFault(c: Config, s: State, instrument: nat, side: Side, sets: int, basis: seq<int>, k: nat, cost: int)
    requires s.fault.None? && k <= |basis|
    ensures BookLegs(c, s, instrument, side, sets, basis, k, cost).fault.None?
    decreases |basis| - k
  {
    hide BookLeg;
    if k < |basis| {
      var commission := if k == 0 then cost else 0;
      LegBooks(c, s, Slot(instrument, k), side, sets, basis[k], commission);
      LegsDoNotFault(c, BookLeg(c, s, Slot(instrument, k), side, sets, basis[k], commission), instrument, side, sets, basis, k + 1, cost);
    }
  }
}
