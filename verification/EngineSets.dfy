/**
 Minting, redeeming and converting complete sets.

 A set is exchanged for cash leg by leg, each leg rounded on its own.  For whole contracts the
 legs come to exactly the number of sets whatever the marks say, so a permitted mint can always
 be paid and minting then redeeming costs the two flat fees and nothing else.
 */
module EngineSets {
  import opened FixedPoint
  import opened Sums
  import opened Orders
  import opened Instruments
  import Sorting
  import opened Engine
  import opened EngineAccount
  import P = Positions

  /** Free cash and posted collateral together. */
  ghost function Worth(a: Account): int {
    a.cash + MapSum(a.buckets)
  }

  /** What a side's notional does to cash. */
  function Paid(side: Side, amount: int): int {
    if side.Buy? then -amount else amount
  }

  predicate CollateralFree(c: Config, instrument: nat) {
    instrument !in c.isolated || c.margin.None?
  }

  /** Collateral posted for an instrument. */
  function Posted(a: Account, instrument: nat): int {
    ValueOr(a.buckets, instrument, 0)
  }

  /** What has to be posted once positions are these; nothing changes where none is called for. */
  function Owed(c: Config, a: Account, positions: map<Slot, P.Holding>, instrument: nat): int {
    if CollateralFree(c, instrument) then Posted(a, instrument)
    else Required(c, positions, instrument, c.outcomes(instrument))
  }

  /** Nothing but positions, cash, collateral, fills and the step's own new orders moved. */
  ghost predicate OnlyTrades(s: State, s': State) {
    && s'.market == s.market
    && s'.account.fundingPaid == s.account.fundingPaid && s'.account.dividends == s.account.dividends
    && s'.desk.nextId >= s.desk.nextId
    && s'.desk.live == s.desk.live && s'.desk.untriggered == s.desk.untriggered && s'.desk.inflight == s.desk.inflight
    && s'.desk.index == s.desk.index
    && (forall id :: id in s.desk.orders && id <= s.desk.nextId ==>
          id in s'.desk.orders && s'.desk.orders[id] == s.desk.orders[id])
    && (forall id :: id <= s.desk.nextId ==>
          && (id in s'.desk.resting <==> id in s.desk.resting)
          && (id in s.desk.queueAhead ==> id in s'.desk.queueAhead && s'.desk.queueAhead[id] == s.desk.queueAhead[id]))
  }

  lemma OnlyTradesTrans(s: State, s1: State, s2: State)
    requires OnlyTrades(s, s1) && OnlyTrades(s1, s2)
    ensures OnlyTrades(s, s2)
  {
  }

  lemma LegOnlyTrades(c: Config, s: State, slot: Slot, side: Side, sets: int, price: int, commission: int)
    requires s.fault.None?
    ensures OnlyTrades(s, BookLeg(c, s, slot, side, sets, price, commission))
  {
    hide AfterFill, Sorting.Without;
    var s1 := WithEngineOrder(s, slot, side, sets, false);
    var f := Fill(s1.desk.nextId, slot, side, price, sets, commission, false);
    Sorting.WithoutProperties(s.desk.resting, s1.desk.nextId);
    FillPaysNothingElse(c, s.account, f);
  }

  lemma FillPaysNothingElse(c: Config, a: Account, f: Fill)
    ensures AfterFill(c, a, f).fundingPaid == a.fundingPaid && AfterFill(c, a, f).dividends == a.dividends
  {
  }

  lemma FillMoves(c: Config, a: Account, f: Fill)
    requires c.funded(f.slot.instrument)
    ensures var a' := AfterFill(c, a, f);
            && Worth(a') == Worth(a) + Paid(f.side, Notional(f.price, f.quantity)) - f.commission
            && a'.cash + Posted(a', f.slot.instrument)
                 == a.cash + Posted(a, f.slot.instrument) + Paid(f.side, Notional(f.price, f.quantity)) - f.commission
            && Posted(a', f.slot.instrument) == Owed(c, a, a'.positions, f.slot.instrument)
            && a'.positions == P.PortfolioApplied(a.positions, f)
            && (forall slot :: Held(a', slot) == Held(a, slot) + if slot == f.slot then f.Signed() else 0)
  {
    hide Notional, Required;
    var a1 := a.(positions := P.PortfolioApplied(a.positions, f), cash := CashAfterFill(c, a, f), fills := a.fills + [f]);
    RebalancingMovesNothing(c, a1, f.slot.instrument);
  }

  /** The fill of one leg; positions do not read whose order it was. */
  function LegFill(slot: Slot, side: Side, sets: int, price: int, commission: int): Fill {
    Fill(0, slot, side, price, sets, commission, false)
  }

  lemma WhoseOrderDoesNotMatter(positions: map<Slot, P.Holding>, f: Fill, id: OrderId)
    ensures P.PortfolioApplied(positions, f) == P.PortfolioApplied(positions, f.(orderId := id))
  {
    var g := f.(orderId := id);
    assert g.Signed() == f.Signed();
  }

  /** Positions once the legs from the k-th outcome on are filled. */
  function AfterLegs(positions: map<Slot, P.Holding>, instrument: nat, side: Side, sets: int, basis: seq<int>, k: nat, cost: int): map<Slot, P.Holding>
    requires k <= |basis|
    decreases |basis| - k
  {
    if k == |basis| then positions
    else
      AfterLegs(P.PortfolioApplied(positions, LegFill(Slot(instrument, k), side, sets, basis[k], if k == 0 then cost else 0)),
                instrument, side, sets, basis, k + 1, cost)
  }

  /** One outcome's leg: its notional and its commission move, and its position, and nothing else. */
  lemma LegMoves(c: Config, s: State, slot: Slot, side: Side, sets: int, price: int, commission: int)
    requires s.fault.None? && c.funded(slot.instrument)
    ensures var s' := BookLeg(c, s, slot, side, sets, price, commission);
            && s'.fault.None? && s'.market == s.market
            && Worth(s'.account) == Worth(s.account) + Paid(side, Notional(price, sets)) - commission
            && s'.account.cash + Posted(s'.account, slot.instrument)
                 == s.account.cash + Posted(s.account, slot.instrument) + Paid(side, Notional(price, sets)) - commission
            && Posted(s'.account, slot.instrument) == Owed(c, s.account, s'.account.positions, slot.instrument)
            && s'.account.positions == P.PortfolioApplied(s.account.positions, LegFill(slot, side, sets, price, commission))
            && (forall x :: Held(s'.account, x) == Held(s.account, x) + if x == slot then sets * side.Signum() else 0)
  {
    hide AfterFill, Notional, RemoveResting, Held, Worth, Posted, Owed, P.PortfolioApplied;
    var s1 := WithEngineOrder(s, slot, side, sets, false);
    WhoseOrderDoesNotMatter(s.account.positions, Fill(s1.desk.nextId, slot, side, price, sets, commission, false), 0);
    FillMoves(c, s1.account, Fill(s1.desk.nextId, slot, side, price, sets, commission, false));
  }

  /** The legs from the k-th outcome on, each rounded on its own. */
  function LegsFrom(basis: seq<int>, k: nat, sets: int): int
    requires k <= |basis|
  {
    Sum(Legs(basis[k..], sets))
  }

  lemma LegsFromStep(basis: seq<int>, k: nat, sets: int)
    requires k < |basis|
    ensures LegsFrom(basis, k, sets) == Notional(basis[k], sets) + LegsFrom(basis, k + 1, sets)
  {
    hide Notional;
    var legs := Legs(basis[k..], sets);
    assert legs[1..] == Legs(basis[k + 1..], sets);
  }

  lemma {:induction false} LegsMove(c: Config, s: State, instrument: nat, side: Side, sets: int, basis: seq<int>, k: nat, cost: int)
    requires s.fault.None? && c.funded(instrument) && k <= |basis|
    ensures var s' := BookLegs(c, s, instrument, side, sets, basis, k, cost);
            var fee := if k == 0 && basis != [] then cost else 0;
            && s'.fault.None? && s'.market == s.market
            && Worth(s'.account) == Worth(s.account) + Paid(side, LegsFrom(basis, k, sets)) - fee
            && s'.account.cash + Posted(s'.account, instrument)
                 == s.account.cash + Posted(s.account, instrument) + Paid(side, LegsFrom(basis, k, sets)) - fee
            && s'.account.positions == AfterLegs(s.account.positions, instrument, side, sets, basis, k, cost)
            && (k < |basis| ==> Posted(s'.account, instrument) == Owed(c, s.account, s'.account.positions, instrument))
            && (forall x :: Held(s'.account, x)
                  == Held(s.account, x)
                     + if x.instrument == instrument && k <= x.outcome < |basis| then sets * side.Signum() else 0)
            && OnlyTrades(s, s')
    decreases |basis| - k
  {
    hide BookLeg, Notional, Held, Worth, LegsFrom, OnlyTrades, Posted, P.PortfolioApplied, Required;
    NothingTrades(s);
    if k < |basis| {
      var fee := if k == 0 then cost else 0;
      var s1 := BookLeg(c, s, Slot(instrument, k), side, sets, basis[k], fee);
      LegMoves(c, s, Slot(instrument, k), side, sets, basis[k], fee);
      LegsFromStep(basis, k, sets);
      LegsMove(c, s1, instrument, side, sets, basis, k + 1, cost);
      if k + 1 == |basis| {
        LastLeg(c, s1, instrument, side, sets, basis, k + 1, cost);
      }
      LegOnlyTrades(c, s, Slot(instrument, k), side, sets, basis[k], fee);
      OnlyTradesTrans(s, s1, BookLegs(c, s, instrument, side, sets, basis, k, cost));
    } else {
      NoLegsLeft(basis, sets);
    }
  }

  lemma LastLeg(c: Config, s: State, instrument: nat, side: Side, sets: int, basis: seq<int>, k: nat, cost: int)
    requires k == |basis|
    ensures BookLegs(c, s, instrument, side, sets, basis, k, cost) == s
  {
  }

  lemma NothingTrades(s: State)
    ensures OnlyTrades(s, s)
  {
  }

  lemma NoLegsLeft(basis: seq<int>, sets: int)
    ensures LegsFrom(basis, |basis|, sets) == 0
  {
  }

  // ----- How the set's unit of cash is divided -----

  lemma {:induction false} QuotedMarksArePositive(m: MarketData, instrument: nat, outcomes: nat)
    ensures QuotedMarks(m, instrument, outcomes).Some? ==>
              var prices := QuotedMarks(m, instrument, outcomes).value;
              |prices| == outcomes && forall i :: 0 <= i < outcomes ==> prices[i] > 0
    decreases outcomes
  {
    if outcomes > 0 {
      QuotedMarksArePositive(m, instrument, outcomes - 1);
    }
  }

  lemma {:induction false} PositivePricesSum(prices: seq<int>)
    requires forall i :: 0 <= i < |prices| ==> prices[i] > 0
    ensures prices != [] ==> Sum(prices) > 0
    ensures Sum(prices) >= 0
    decreases |prices|
  {
    if prices != [] {
      PositivePricesSum(prices[1..]);
    }
  }

  /** Whatever the marks, the division exists, covers every outcome and sums to exactly one. */
  lemma BasisSumsToOne(c: Config, m: MarketData, instrument: nat)
    requires c.outcomes(instrument) > 0
    ensures var basis := SetBasis(c, m, instrument);
            basis.Some? && |basis.value| == c.outcomes(instrument) && Sum(basis.value) == SCALE
  {
    hide Uniform, Normalised, Sum, Even, Largest, Shares;
    var n := c.outcomes(instrument);
    QuotedMarksArePositive(m, instrument, n);
    match QuotedMarks(m, instrument, n)
    case Some(prices) =>
      PositivePricesSum(prices);
      NormalisedSumsToOne(prices);
    case None =>
      UniformIsEvenSplit(n);
  }

  // ----- What an operation moves -----

  /** The venue takes the operation. */
  predicate Permitted(c: Config, s: State, instrument: nat, kind: SetKind, quantity: int) {
    && c.completeSet(instrument) && quantity > 0
    && SetCount(c, instrument, kind, quantity).Some?
    && var (sets, side) := SetCount(c, instrument, kind, quantity).value;
       !SetRefused(c, s, instrument, side, sets, SetCost(c, kind))
  }

  /** A market that trades as a set moves cash through its fills and has outcomes. */
  predicate TradesAsSet(c: Config, instrument: nat) {
    c.completeSet(instrument) && c.funded(instrument) && c.outcomes(instrument) > 0
  }

  /** What the sets cost, leg by leg, at the division in force. */
  function SetPrice(c: Config, m: MarketData, instrument: nat, sets: int): int
    requires SetBasis(c, m, instrument).Some?
  {
    Sum(Legs(SetBasis(c, m, instrument).value, sets))
  }

  /**
   The collateral an operation calls for, known before it is booked: what the positions it leaves
   require, less what is posted.
   */
  function CollateralCall(c: Config, s: State, instrument: nat, side: Side, sets: int, cost: int): int
    requires SetBasis(c, s.market, instrument).Some?
  {
    var basis := SetBasis(c, s.market, instrument).value;
    Owed(c, s.account, AfterLegs(s.account.positions, instrument, side, sets, basis, 0, cost), instrument)
      - Posted(s.account, instrument)
  }

  lemma NoneCalledFor(c: Config, s: State, instrument: nat, side: Side, sets: int, cost: int)
    requires CollateralFree(c, instrument) && SetBasis(c, s.market, instrument).Some?
    ensures CollateralCall(c, s, instrument, side, sets, cost) == 0
  {
  }

  lemma CallWhereFree(c: Config, s: State, instrument: nat, kind: SetKind)
    requires SetBasis(c, s.market, instrument).Some?
    ensures CollateralFree(c, instrument) ==>
              forall side, sets :: CollateralCall(c, s, instrument, side, sets, SetCost(c, kind)) == 0
  {
  }

  /**
   A permitted operation moves every outcome by the number of sets, and cash by the legs, the flat
   cost and the collateral it calls for; it leaves every other order, queue and payment alone.  A
   refused one moves nothing.
   */
  lemma SetOperationMoves(c: Config, s: State, instrument: nat, kind: SetKind, quantity: int)
    requires s.fault.None? && TradesAsSet(c, instrument)
    ensures SetBasis(c, s.market, instrument).Some?
    ensures var s' := SetOperation(c, s, instrument, kind, quantity);
            if Permitted(c, s, instrument, kind, quantity) then
              var (sets, side) := SetCount(c, instrument, kind, quantity).value;
              var price := SetPrice(c, s.market, instrument, sets);
              && s'.fault.None? && OnlyTrades(s, s')
              && Worth(s'.account) == Worth(s.account) + Paid(side, price) - SetCost(c, kind)
              && s'.account.cash
                   == s.account.cash + Paid(side, price) - SetCost(c, kind)
                      - CollateralCall(c, s, instrument, side, sets, SetCost(c, kind))
              && (CollateralFree(c, instrument) ==>
                    s'.account.cash == s.account.cash + Paid(side, price) - SetCost(c, kind))
              && s'.account.cash + Posted(s'.account, instrument)
                   == s.account.cash + Posted(s.account, instrument) + Paid(side, price) - SetCost(c, kind)
              && (forall x :: Held(s'.account, x)
                    == Held(s.account, x)
                       + if x.instrument == instrument && x.outcome < c.outcomes(instrument) then sets * side.Signum() else 0)
            else s'.account == s.account && s'.desk == s.desk && s'.market == s.market
  {
    hide BookLegs, SetBasis, SetRefused, SetCount, Worth, Held, Sum, Legs, OnlyTrades, Owed, Posted, AfterLegs;
    BasisSumsToOne(c, s.market, instrument);
    var basis := SetBasis(c, s.market, instrument).value;
    assert basis[0..] == basis;
    CallWhereFree(c, s, instrument, kind);
    match SetCount(c, instrument, kind, quantity)
    case None =>
    case Some((sets, side)) =>
      LegsMove(c, s, instrument, side, sets, basis, 0, SetCost(c, kind));
  }

  /** Whole contracts cost exactly their count, whatever the marks. */
  lemma WholeSetsPriceExactly(c: Config, m: MarketData, instrument: nat, contracts: int)
    requires c.outcomes(instrument) > 0
    ensures SetBasis(c, m, instrument).Some?
    ensures SetPrice(c, m, instrument, contracts * SCALE) == contracts * SCALE
  {
    hide SetBasis, Sum, Legs;
    BasisSumsToOne(c, m, instrument);
    WholeSetsCostExactly(SetBasis(c, m, instrument).value, contracts);
  }

  /** Any other count is priced within half a raw unit per outcome. */
  lemma FractionalSetsPriceClosely(c: Config, m: MarketData, instrument: nat, sets: int)
    requires c.outcomes(instrument) > 0
    ensures SetBasis(c, m, instrument).Some?
    ensures 2 * Abs(SetPrice(c, m, instrument, sets) - sets) <= c.outcomes(instrument)
  {
    hide SetBasis, Sum, Legs;
    BasisSumsToOne(c, m, instrument);
    FractionalSetsErrAtMostHalfEach(SetBasis(c, m, instrument).value, sets);
  }

  lemma UnitNotional(contracts: int)
    ensures Notional(SCALE, contracts * SCALE) == contracts * SCALE
  {
    NotionalOfWhole(SCALE, contracts);
  }

  /**
   A permitted mint of whole contracts costs its count and the flat cost.  The gate does not look at
   collateral, so it leaves cash negative exactly when the cash there was is short of those and the
   collateral called for; where none is called for, it can always be paid.
   */
  lemma MintIsAffordable(c: Config, s: State, instrument: nat, contracts: int)
    requires s.fault.None? && TradesAsSet(c, instrument)
    requires Permitted(c, s, instrument, Mint, contracts * SCALE)
    ensures SetBasis(c, s.market, instrument).Some?
    ensures var s' := SetOperation(c, s, instrument, Mint, contracts * SCALE);
            var call := CollateralCall(c, s, instrument, Buy, contracts * SCALE, c.mintCost);
            && Worth(s'.account) == Worth(s.account) - contracts * SCALE - c.mintCost
            && (s'.account.cash < 0 <==> s.account.cash < contracts * SCALE + c.mintCost + call)
            && (call <= 0 ==> s'.account.cash >= 0)
            && (CollateralFree(c, instrument) ==> call == 0)
  {
    hide SetOperation, SetBasis, SetPrice, OnlyTrades, Worth, Held, Notional, CollateralCall, Posted;
    SetOperationMoves(c, s, instrument, Mint, contracts * SCALE);
    WholeSetsPriceExactly(c, s.market, instrument, contracts);
    UnitNotional(contracts);
    if CollateralFree(c, instrument) {
      NoneCalledFor(c, s, instrument, Buy, contracts * SCALE, c.mintCost);
    }
  }

  /**
   A permitted mint of any count overdraws free cash by at most half a raw unit per outcome and the
   collateral it calls for, and overdraws exactly when the legs as divided now, the flat cost and
   that collateral come to more than the cash there is.
   */
  lemma MintOverdrawsLittle(c: Config, s: State, instrument: nat, sets: int)
    requires s.fault.None? && TradesAsSet(c, instrument) && Permitted(c, s, instrument, Mint, sets)
    ensures SetBasis(c, s.market, instrument).Some?
    ensures var s' := SetOperation(c, s, instrument, Mint, sets);
            var call := CollateralCall(c, s, instrument, Buy, sets, c.mintCost);
            && (s'.account.cash < 0 <==> s.account.cash < SetPrice(c, s.market, instrument, sets) + c.mintCost + call)
            && 2 * (s'.account.cash + call) + c.outcomes(instrument) >= 0
            && 2 * (Worth(s'.account) - MapSum(s.account.buckets)) + c.outcomes(instrument) >= 0
            && (CollateralFree(c, instrument) ==> call == 0)
  {
    hide SetOperation, SetBasis, SetPrice, Held, Notional, OnlyTrades, CollateralCall, Posted;
    SetOperationMoves(c, s, instrument, Mint, sets);
    FractionalSetsPriceClosely(c, s.market, instrument, sets);
    NotionalOfOne(sets);
    if CollateralFree(c, instrument) {
      NoneCalledFor(c, s, instrument, Buy, sets, c.mintCost);
    }
  }

  /** A two-way market held in isolation at one raw unit per open outcome, and cash for one set. */
  ghost predicate OneIsolatedSet(c: Config) {
    && TradesAsSet(c, 0) && c.outcomes(0) == 2 && c.startingCash == SCALE && c.mintCost == 0 && c.expiry(0).None?
    && 0 in c.isolated && c.margin.Some? && forall q, p :: c.margin.value(0, q, p) == 1
  }

  /** One whole set, bought with the last of the cash: permitted, and the collateral overdraws it. */
  lemma IsolatedMintOverdraws(c: Config)
    requires OneIsolatedSet(c)
    ensures Permitted(c, Init(c), 0, Mint, SCALE)
    ensures SetOperation(c, Init(c), 0, Mint, SCALE).account.cash == -2
  {
    hide SetOperation, Worth, OnlyTrades, Sum, Legs, Held, SetPrice, Notional, AfterLegs;
    var s := Init(c);
    UnitNotional(1);
    SetOperationMoves(c, s, 0, Mint, SCALE);
    WholeSetsPriceExactly(c, s.market, 0, 1);
    EvenBasis(c, s.market);
    TwoOpenOutcomes(c, [SCALE / 2, SCALE / 2]);
  }

  lemma TwoOpenOutcomes(c: Config, basis: seq<int>)
    requires OneIsolatedSet(c) && |basis| == 2
    ensures Required(c, AfterLegs(map[], 0, Buy, SCALE, basis, 0, 0), 0, 2) == 2
  {
    hide P.AddedPrice, P.RealizedBy, P.ReducedPrice;
    var p1 := P.PortfolioApplied(map[], LegFill(Slot(0, 0), Buy, SCALE, basis[0], 0));
    var p2 := P.PortfolioApplied(p1, LegFill(Slot(0, 1), Buy, SCALE, basis[1], 0));
    assert AfterLegs(p2, 0, Buy, SCALE, basis, 2, 0) == p2;
    assert AfterLegs(p1, 0, Buy, SCALE, basis, 1, 0) == p2;
    assert P.At(p2, Slot(0, 0)).quantity == SCALE && P.At(p2, Slot(0, 1)).quantity == SCALE;
    assert Required(c, p2, 0, 0) == 0;
    assert Required(c, p2, 0, 1) == 1;
  }

  /** A venue where a two-way set mints at no flat cost, and an account with one raw unit. */
  predicate OneRawUnit(c: Config) {
    && TradesAsSet(c, 0) && c.outcomes(0) == 2 && c.startingCash == 1 && c.mintCost == 0
    && CollateralFree(c, 0) && c.expiry(0).None?
  }

  /** One raw set at even odds: permitted, and it leaves the account overdrawn. */
  lemma FractionalMintOverdraws(c: Config)
    requires OneRawUnit(c)
    ensures Permitted(c, Init(c), 0, Mint, 1)
    ensures SetOperation(c, Init(c), 0, Mint, 1).account.cash == -1
  {
    hide SetOperation, Held, Worth, OnlyTrades, Sum, Legs, AfterLegs;
    var s := Init(c);
    NotionalOfOne(1);
    SetOperationMoves(c, s, 0, Mint, 1);
    EvenBasis(c, s.market);
    FractionalSetCanCostMore();
  }

  lemma EvenBasis(c: Config, m: MarketData)
    requires c.outcomes(0) == 2 && m.marks == map[]
    ensures SetBasis(c, m, 0) == Some([SCALE / 2, SCALE / 2])
  {
    assert QuotedMarks(m, 0, 1).None?;
    assert QuotedMarks(m, 0, 2).None?;
    assert Even(SCALE / 2, 2, 0) == [SCALE / 2, SCALE / 2];
  }

  /** A permitted redemption or conversion never leaves an outcome short. */
  lemma RedeemLeavesNothingShort(c: Config, s: State, instrument: nat, kind: SetKind, quantity: int, outcome: nat)
    requires s.fault.None? && TradesAsSet(c, instrument) && !kind.Mint? && outcome < c.outcomes(instrument)
    requires Permitted(c, s, instrument, kind, quantity)
    ensures Held(SetOperation(c, s, instrument, kind, quantity).account, Slot(instrument, outcome)) >= 0
  {
    hide SetOperation, SetBasis, SetPrice, OnlyTrades, Worth, Notional, Stopped, CollateralCall, Posted;
    SetOperationMoves(c, s, instrument, kind, quantity);
    var x := Slot(instrument, outcome);
  }

  /**
   Mint, let the market move, redeem: every position is back where it was, and the account is
   out exactly the two flat costs.
   */
  lemma MintThenRedeem(c: Config, s: State, instrument: nat, contracts: int, m: MarketData)
    requires s.fault.None? && TradesAsSet(c, instrument)
    requires Permitted(c, s, instrument, Mint, contracts * SCALE)
    requires forall k :: 0 <= k < c.outcomes(instrument) ==> Held(s.account, Slot(instrument, k)) >= 0
    requires !Stopped(c, m, instrument)
    ensures var minted := SetOperation(c, s, instrument, Mint, contracts * SCALE).(market := m);
            var s' := SetOperation(c, minted, instrument, Redeem, contracts * SCALE);
            && Permitted(c, minted, instrument, Redeem, contracts * SCALE)
            && Worth(s'.account) == Worth(s.account) - c.mintCost - c.redeemCost
            && s'.account.cash + Posted(s'.account, instrument)
                 == s.account.cash + Posted(s.account, instrument) - c.mintCost - c.redeemCost
            && (CollateralFree(c, instrument) ==> s'.account.cash == s.account.cash - c.mintCost - c.redeemCost)
            && (forall x :: Held(s'.account, x) == Held(s.account, x))
  {
    hide SetOperation, SetBasis, SetPrice, OnlyTrades, Worth, Notional, Stopped, P.At, CollateralCall, Posted;
    var sets := contracts * SCALE;
    var minted := SetOperation(c, s, instrument, Mint, sets).(market := m);
    SetOperationMoves(c, s, instrument, Mint, sets);
    WholeSetsPriceExactly(c, s.market, instrument, contracts);
    forall k | 0 <= k < c.outcomes(instrument) ensures Held(minted.account, Slot(instrument, k)) >= sets {
      assert Held(s.account, Slot(instrument, k)) >= 0;
    }
    SetOperationMoves(c, minted, instrument, Redeem, sets);
    WholeSetsPriceExactly(c, m, instrument, contracts);
    if CollateralFree(c, instrument) {
      NoneCalledFor(c, s, instrument, Buy, sets, c.mintCost);
      NoneCalledFor(c, minted, instrument, Sell, sets, c.redeemCost);
    }
  }

  // ----- Conversions -----

  /** Contracts a basket of NO holdings is worth, outcome by outcome: NO pays on every other outcome. */
  function BasketHolds(held: seq<nat>, outcome: nat): nat {
    if held == [] then 0 else (if held[0] != outcome then 1 else 0) + BasketHolds(held[1..], outcome)
  }

  lemma {:induction false} BasketCount(held: seq<nat>, outcome: nat)
    requires Sorting.NoDuplicates(held)
    ensures BasketHolds(held, outcome) == if outcome in held then |held| - 1 else |held|
    decreases |held|
  {
    if held != [] {
      assert held == [held[0]] + held[1..];
      assert forall i :: 0 <= i < |held[1..]| ==> held[1..][i] == held[i + 1];
      BasketCount(held[1..], outcome);
    }
  }

  /**
   Converting NO on `held` outcomes: the basket gives up exactly its common part, so what is left
   of it is one contract on each outcome that was not named and none on those that were, and the
   cash is one unit for each set given up, less the flat cost.
   */
  lemma ConversionLeavesTheResidual(c: Config, s: State, instrument: nat, held: seq<nat>, contracts: int, outcome: nat)
    requires s.fault.None? && TradesAsSet(c, instrument) && outcome < c.outcomes(instrument)
    requires Permitted(c, s, instrument, Convert(held), contracts * SCALE)
    ensures var s' := SetOperation(c, s, instrument, Convert(held), contracts * SCALE);
            && Worth(s'.account) == Worth(s.account) + contracts * SCALE * (|held| - 1) - c.convertCost
            && contracts * SCALE * BasketHolds(held, outcome)
                 + Held(s'.account, Slot(instrument, outcome)) - Held(s.account, Slot(instrument, outcome))
               == if outcome in held then 0 else contracts * SCALE
  {
    hide SetOperation, SetBasis, SetPrice, OnlyTrades, Worth, Held, Notional, Stopped, SetRefused, CollateralCall, Posted;
    var quantity := contracts * SCALE;
    SetOperationMoves(c, s, instrument, Convert(held), quantity);
    ConversionCount(c, instrument, held, contracts);
    WholeSetsPriceExactly(c, s.market, instrument, contracts * (|held| - 1));
    BasketCount(held, outcome);
    assert Slot(instrument, outcome).outcome == outcome;
    ResidualArithmetic(quantity, |held|);
  }

  lemma ConversionCount(c: Config, instrument: nat, held: seq<nat>, contracts: int)
    requires SetCount(c, instrument, Convert(held), contracts * SCALE).Some?
    ensures SetCount(c, instrument, Convert(held), contracts * SCALE).value
         == ((contracts * (|held| - 1)) * SCALE, Sell)
    ensures contracts * SCALE * (|held| - 1) == (contracts * (|held| - 1)) * SCALE
    ensures Sorting.NoDuplicates(held)
  {
  }

  lemma ResidualArithmetic(quantity: int, n: nat)
    ensures quantity * n - quantity * (n - 1) == quantity
  {
  }
}
