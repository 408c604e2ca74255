/**
 Dividing one unit of cash across the outcomes of a complete set.

 Both divisions sum to exactly one, so a set of whole contracts is minted and redeemed for
 exactly its count, whatever the market thinks the legs are worth.
 */
module Instruments {
  import opened FixedPoint
  import opened Orders

  function Sum(s: seq<int>): int {
    if s == [] then 0 else s[0] + Sum(s[1..])
  }

  lemma {:induction false} SumAppend(s: seq<int>, x: int)
    ensures Sum(s + [x]) == Sum(s) + x
    decreases |s|
  {
    if s == [] {
      assert (s + [x])[1..] == [];
    } else {
      assert (s + [x])[1..] == s[1..] + [x];
      SumAppend(s[1..], x);
    }
  }

  lemma {:induction false} SumUpdate(s: seq<int>, i: nat, x: int)
    requires i < |s|
    ensures Sum(s[i := x]) == Sum(s) - s[i] + x
    decreases |s|
  {
    if i == 0 {
      assert s[0 := x][1..] == s[1..];
    } else {
      assert s[i := x][1..] == s[1..][i - 1 := x];
      SumUpdate(s[1..], i - 1, x);
    }
  }

  // ----- Even division -----

  predicate IsEvenSplit(prices: seq<int>, outcomes: nat) {
    && |prices| == outcomes
    && Sum(prices) == SCALE
    && (forall i :: 0 <= i < outcomes ==> prices[i] == SCALE / outcomes || prices[i] == SCALE / outcomes + 1)
    && (forall i, j :: 0 <= i < j < outcomes ==> prices[i] >= prices[j])
  }

  function Even(base: int, outcomes: nat, extra: nat): seq<int>
    requires extra <= outcomes
  {
    seq(outcomes, i => if i < extra then base + 1 else base)
  }

  lemma {:induction false} EvenSum(base: int, outcomes: nat, extra: nat)
    requires extra <= outcomes
    ensures Sum(Even(base, outcomes, extra)) == base * outcomes + extra
    decreases outcomes
  {
    if outcomes > 0 {
      var fewer := if extra == outcomes then extra - 1 else extra;
      EvenSum(base, outcomes - 1, fewer);
      var last := if extra == outcomes then base + 1 else base;
      assert Even(base, outcomes, extra) == Even(base, outcomes - 1, fewer) + [last];
      SumAppend(Even(base, outcomes - 1, fewer), last);
      assert base * outcomes == base * (outcomes - 1) + base;
    }
  }

  function Uniform(outcomes: nat): (prices: Option<seq<int>>)
    ensures prices.None? <==> outcomes == 0
  {
    if outcomes == 0 then None else Some(Even(SCALE / outcomes, outcomes, SCALE % outcomes))
  }

  /** The remainder goes out one raw unit at a time, so the legs are even to one unit and sum to one. */
  lemma UniformIsEvenSplit(outcomes: nat)
    requires outcomes > 0
    ensures IsEvenSplit(Uniform(outcomes).value, outcomes)
  {
    EvenSum(SCALE / outcomes, outcomes, SCALE % outcomes);
    assert SCALE == outcomes * (SCALE / outcomes) + SCALE % outcomes;
    assert SCALE / outcomes * outcomes == outcomes * (SCALE / outcomes);
    assert SCALE / outcomes >= 0;
  }

  /** The loop that hands out the remainder. */
  method UniformPrices(outcomes: nat) returns (prices: Option<seq<int>>)
    ensures prices == Uniform(outcomes)
  {
    if outcomes == 0 {
      return None;
    }
    var base, remainder := SCALE / outcomes, SCALE % outcomes;
    var a := new int[outcomes](_ => base);
    for i := 0 to remainder
      invariant forall j :: 0 <= j < outcomes ==> a[j] == if j < i then base + 1 else base
    {
      a[i] := base + 1;
    }
    prices := Some(a[..]);
    assert a[..] == Even(base, outcomes, remainder);
  }

  // ----- Division in proportion to prices -----

  predicate Normalisable(prices: seq<int>) {
    prices != [] && Sum(prices) > 0 && forall i :: 0 <= i < |prices| ==> prices[i] >= 0
  }

  function Share(price: int, total: int): int
    requires total > 0
  {
    TruncDiv(price * SCALE, total)
  }

  function Shares(prices: seq<int>, total: int): seq<int>
    requires total > 0
  {
    seq(|prices|, i requires 0 <= i < |prices| => Share(prices[i], total))
  }

  /** The first of the largest components. */
  function Largest(s: seq<int>): (at: nat)
    requires s != []
    ensures at < |s|
    ensures forall i :: 0 <= i < |s| ==> s[i] <= s[at]
    ensures forall i :: 0 <= i < at ==> s[i] < s[at]
  {
    if |s| == 1 then 0
    else
      var front := Largest(s[..|s| - 1]);
      if s[|s| - 1] > s[front] then |s| - 1 else front
  }

  /** Proportional shares, with what truncation left over given to the largest. */
  function Normalised(prices: seq<int>): (r: Option<seq<int>>)
    ensures r.None? <==> !Normalisable(prices)
  {
    if !Normalisable(prices) then None
    else
      var shares := Shares(prices, Sum(prices));
      var at := Largest(shares);
      Some(shares[at := shares[at] + (SCALE - Sum(shares))])
  }

  lemma ShareBounds(price: nat, total: int)
    requires total > 0
    ensures 0 <= total * Share(price, total) <= price * SCALE
    ensures price * SCALE < total * Share(price, total) + total
    ensures Share(price, total) >= 0
  {
    TruncDivBounds(price * SCALE, total);
  }

  /** Truncation loses less than one raw unit per outcome, and never gains. */
  lemma {:induction false} SharesLoseLessThanOneEach(prices: seq<int>, total: int)
    requires total > 0 && forall i :: 0 <= i < |prices| ==> prices[i] >= 0
    ensures total * Sum(Shares(prices, total)) <= Sum(prices) * SCALE
    ensures prices != [] ==> Sum(prices) * SCALE < total * Sum(Shares(prices, total)) + total * |prices|
    decreases |prices|
  {
    if prices != [] {
      SharesLoseLessThanOneEach(prices[1..], total);
      ShareBounds(prices[0], total);
      var rest := Sum(Shares(prices[1..], total));
      assert Shares(prices, total)[1..] == Shares(prices[1..], total);
      assert total * (Share(prices[0], total) + rest) == total * Share(prices[0], total) + total * rest;
      assert (prices[0] + Sum(prices[1..])) * SCALE == prices[0] * SCALE + Sum(prices[1..]) * SCALE;
      assert total * |prices| == total * |prices[1..]| + total;
    }
  }

  lemma ResidualBounds(total: int, sum: int, n: nat)
    requires total > 0 && n > 0 && total * sum <= total * SCALE < total * sum + total * n
    ensures 0 <= SCALE - sum < n
  {
    assert (SCALE - sum) * total == total * SCALE - total * sum;
    assert (SCALE - sum - n) * total == total * SCALE - total * sum - total * n;
    MultipleGap(SCALE - sum, total);
    MultipleGap(SCALE - sum - n, total);
  }

  /**
   Normalised prices sum to exactly one; every leg is its proportional share rounded down, but
   for the largest, which carries a residual smaller than the number of outcomes.
   */
  lemma NormalisedSumsToOne(prices: seq<int>)
    requires Normalisable(prices)
    ensures var r, shares := Normalised(prices).value, Shares(prices, Sum(prices));
            && |r| == |prices|
            && Sum(r) == SCALE
            && (forall i :: 0 <= i < |r| ==> r[i] >= 0)
            && (forall i :: 0 <= i < |r| && i != Largest(shares) ==> r[i] == shares[i])
            && 0 <= r[Largest(shares)] - shares[Largest(shares)] < |prices|
  {
    var total := Sum(prices);
    var shares := Shares(prices, total);
    var at := Largest(shares);
    SharesLoseLessThanOneEach(prices, total);
    assert total * SCALE == Sum(prices) * SCALE;
    ResidualBounds(total, Sum(shares), |prices|);
    SumUpdate(shares, at, shares[at] + (SCALE - Sum(shares)));
    forall i | 0 <= i < |prices| ensures shares[i] >= 0 {
      ShareBounds(prices[i], total);
    }
  }

  method TotalPrice(prices: seq<int>) returns (total: int, negative: bool)
    ensures total == Sum(prices)
    ensures negative <==> exists j :: 0 <= j < |prices| && prices[j] < 0
  {
    total, negative := 0, false;
    for i := 0 to |prices|
      invariant total == Sum(prices[..i])
      invariant negative <==> exists j :: 0 <= j < i && prices[j] < 0
    {
      SumAppend(prices[..i], prices[i]);
      assert prices[..i + 1] == prices[..i] + [prices[i]];
      total := total + prices[i];
      negative := negative || prices[i] < 0;
    }
    assert prices[..|prices|] == prices;
  }

  /** Where the largest component is, scanning once; the lowest index wins a tie. */
  method FindLargest(s: seq<int>) returns (at: nat)
    requires s != []
    ensures at == Largest(s)
  {
    at := 0;
    for i := 1 to |s|
      invariant at < i && at == Largest(s[..i])
    {
      assert s[..i + 1][..i] == s[..i];
      if s[i] > s[at] {
        at := i;
      }
    }
    assert s[..|s|] == s;
  }

  /** The division as the engine performs it: share by share, then patch the largest. */
  method NormaliseToOne(prices: seq<int>) returns (r: Option<seq<int>>)
    ensures r == Normalised(prices)
  {
    var total, negative := TotalPrice(prices);
    if prices == [] || total <= 0 || negative {
      return None;
    }
    var scaled := new int[|prices|](i requires 0 <= i < |prices| => Share(prices[i], total));
    ghost var shares := Shares(prices, total);
    assert scaled[..] == shares;
    var sum, _ := TotalPrice(scaled[..]);
    var residual := SCALE - sum;
    if residual != 0 {
      var largest := FindLargest(scaled[..]);
      scaled[largest] := scaled[largest] + residual;
      assert scaled[..] == shares[largest := shares[largest] + residual];
    } else {
      assert shares == shares[Largest(shares) := shares[Largest(shares)] + residual];
    }
    r := Some(scaled[..]);
  }

  // ----- What a set costs -----

  /** The legs of `sets` complete sets, each rounded on its own. */
  function Legs(basis: seq<int>, sets: int): seq<int> {
    seq(|basis|, i requires 0 <= i < |basis| => Notional(basis[i], sets))
  }

  /** For whole contracts the legs of a set cost exactly the count. */
  lemma {:induction false} WholeSetsCostExactly(basis: seq<int>, contracts: int)
    ensures Sum(Legs(basis, contracts * SCALE)) == Sum(basis) * contracts
    decreases |basis|
  {
    if basis != [] {
      NotionalOfWhole(basis[0], contracts);
      WholeSetsCostExactly(basis[1..], contracts);
      assert Legs(basis, contracts * SCALE)[1..] == Legs(basis[1..], contracts * SCALE);
      assert (basis[0] + Sum(basis[1..])) * contracts == basis[0] * contracts + Sum(basis[1..]) * contracts;
    }
  }

  lemma {:induction false} LegsErrAtMostHalfEach(basis: seq<int>, sets: int)
    ensures 2 * Abs(SCALE * Sum(Legs(basis, sets)) - Sum(basis) * sets) <= |basis| * SCALE
    decreases |basis|
  {
    if basis != [] {
      NotionalError(basis[0], sets);
      LegsErrAtMostHalfEach(basis[1..], sets);
      assert Legs(basis, sets)[1..] == Legs(basis[1..], sets);
      assert (basis[0] + Sum(basis[1..])) * sets == basis[0] * sets + Sum(basis[1..]) * sets;
    }
  }

  lemma HalfEach(legs: int, sets: int, one: int, n: nat)
    requires one == SCALE && 2 * Abs(SCALE * legs - one * sets) <= n * SCALE
    ensures 2 * Abs(legs - sets) <= n
  {
    assert one * sets == SCALE * sets;
  }

  /** For fractional counts the legs of a set miss the count by at most half a raw unit each. */
  lemma {:induction false} FractionalSetsErrAtMostHalfEach(basis: seq<int>, sets: int)
    requires Sum(basis) == SCALE
    ensures 2 * Abs(Sum(Legs(basis, sets)) - sets) <= |basis|
  {
    LegsErrAtMostHalfEach(basis, sets);
    HalfEach(Sum(Legs(basis, sets)), sets, Sum(basis), |basis|);
  }

  lemma SumOfTwo(a: int, b: int)
    ensures Sum([a, b]) == a + b
  {
    assert [a, b][1..] == [b] && [b][1..] == [];
    assert Sum([b]) == b + Sum([]);
  }

  /** One raw set of a two-way market at even odds: both halves round up, and it costs two. */
  lemma FractionalSetCanCostMore()
    ensures Sum([SCALE / 2, SCALE / 2]) == SCALE
    ensures Sum(Legs([SCALE / 2, SCALE / 2], 1)) == 2
  {
    var basis := [SCALE / 2, SCALE / 2];
    SumOfTwo(SCALE / 2, SCALE / 2);
    assert Notional(SCALE / 2, 1) == 1;
    assert Legs(basis, 1) == [1, 1];
    SumOfTwo(1, 1);
  }

  // ----- Exactly which counts are always priced exactly -----

  /** A way to divide one unit of cash across outcomes. */
  predicate IsDivision(basis: seq<int>) {
    Sum(basis) == SCALE && forall i :: 0 <= i < |basis| ==> basis[i] >= 0
  }

  /** However the unit is divided, the legs come to the count. */
  ghost predicate AlwaysExact(sets: int) {
    forall basis :: IsDivision(basis) ==> Sum(Legs(basis, sets)) == sets
  }

  lemma SumOfThree(a: int, b: int, c: int)
    ensures Sum([a, b, c]) == a + b + c
  {
    assert [a, b, c][1..] == [b, c];
    SumOfTwo(b, c);
  }

  lemma LegsOfTwo(a: int, sets: int)
    requires AlwaysExact(sets) && 0 <= a <= SCALE
    ensures Notional(a, sets) + Notional(SCALE - a, sets) == sets
  {
    hide Notional, Sum;
    var basis := [a, SCALE - a];
    SumOfTwo(a, SCALE - a);
    assert IsDivision(basis);
    assert Legs(basis, sets) == [Notional(a, sets), Notional(SCALE - a, sets)];
    SumOfTwo(Notional(a, sets), Notional(SCALE - a, sets));
  }

  lemma LegsOfThree(a: int, b: int, sets: int)
    requires AlwaysExact(sets) && 0 <= a && 0 <= b && a + b <= SCALE
    ensures Notional(a, sets) + Notional(b, sets) + Notional(SCALE - a - b, sets) == sets
  {
    hide Notional, Sum;
    var c := SCALE - a - b;
    var basis := [a, b, c];
    SumOfThree(a, b, c);
    assert IsDivision(basis);
    assert Legs(basis, sets) == [Notional(a, sets), Notional(b, sets), Notional(c, sets)];
    SumOfThree(Notional(a, sets), Notional(b, sets), Notional(c, sets));
  }

  /** If every division is exact, legs add up like the prices they are made of. */
  lemma {:induction false} LegsAreLinear(k: nat, sets: int)
    requires AlwaysExact(sets) && k <= SCALE
    ensures Notional(k, sets) == k * Notional(1, sets)
    decreases k
  {
    if k == 0 {
      NotionalOfNothing(sets);
    } else {
      hide Notional, AlwaysExact;
      LegsAreLinear(k - 1, sets);
      LegsOfTwo(k, sets);
      LegsOfThree(k - 1, 1, sets);
      assert k * Notional(1, sets) == (k - 1) * Notional(1, sets) + Notional(1, sets);
    }
  }

  lemma NotionalOfNothing(sets: int)
    ensures Notional(0, sets) == 0
  {
  }

  lemma NotionalOfOne(sets: int)
    ensures Notional(SCALE, sets) == sets
  {
    assert SCALE * sets == sets * SCALE;
    RoundDivShift(sets, 0, SCALE);
  }

  /** Legs are exact for every division of the unit exactly when the count is of whole contracts. */
  lemma AlwaysExactOnlyForWhole(sets: int)
    ensures AlwaysExact(sets) <==> sets % SCALE == 0
  {
    if sets % SCALE == 0 {
      var contracts := sets / SCALE;
      forall basis | IsDivision(basis) ensures Sum(Legs(basis, sets)) == sets {
        WholeSetsCostExactly(basis, contracts);
      }
    }
    if AlwaysExact(sets) {
      LegsAreLinear(SCALE, sets);
      NotionalOfOne(sets);
      assert sets == SCALE * Notional(1, sets);
      MultipleIsWhole(sets, Notional(1, sets));
    }
  }

  lemma MultipleIsWhole(sets: int, k: int)
    requires sets == SCALE * k
    ensures sets % SCALE == 0
  {
  }
}
