/**
 Cross-margin account engine: one pass over a trader's cross positions, and the
 equity, margin and liquidation figures read from it.
 */
module CrossMargin {
  import opened Fixed
  import opened Types
  import opened RiskMath

  /** The part of market storage the engine reads. */
  datatype Market = Market(
    positions: map<nat, Position>,
    crossPositionIds: map<Address, seq<nat>>,
    crossBalance: map<Address, int>,
    cumulativeFunding: map<Symbol, int>,
    assetRisk: map<Symbol, AssetRiskParams>,
    riskEpochTs: nat)
  {
    function IdsOf(trader: Address): seq<nat> {
      if trader in crossPositionIds then crossPositionIds[trader] else []
    }

    function BalanceOf(trader: Address): int {
      if trader in crossBalance then crossBalance[trader] else 0
    }

    function FundingIndex(asset: Symbol): int {
      if asset in cumulativeFunding then cumulativeFunding[asset] else 0
    }
  }

  datatype CrossAggregates = CrossAggregates(
    totalCollateral: int,
    unrealizedPnl: int,
    totalFunding: int,
    maintenanceMargin: int,
    usedMargin: int)

  const ZERO := CrossAggregates(0, 0, 0, 0, 0)

  /** Maintenance margin of one position: the ladder once it is live for the
      position and the asset, the legacy figure otherwise. */
  function MmBpsFor(m: Market, p: Position, fallbackBps: nat): nat {
    if m.riskEpochTs == 0 || p.timestamp < m.riskEpochTs then fallbackBps
    else if p.asset in m.assetRisk then m.assetRisk[p.asset].mmBps
    else fallbackBps
  }

  /** Profit of a leg at the given price; an unreadable price or a failed
      computation counts as the loss of the whole size. */
  function LegPnl(p: Position, price: int): Outcome<int> {
    if !InI128(-p.size) then Trap
    else if price <= 0 then Done(-p.size)
    else
      match CalculatePnl(p, price)
      case Done(pnl) => Done(pnl)
      case Fail(_) => Done(-p.size)
      case Trap => Trap
  }

  /** What one stored position adds to each total. */
  function LegOf(m: Market, p: Position, fallbackBps: nat, getPrice: Symbol -> int): Outcome<CrossAggregates> {
    var pnl :- LegPnl(p, getPrice(p.asset));
    var funding :- CalculateCumulativeFunding(p.size, p.direction, p.entryCumulativeFunding, m.FundingIndex(p.asset));
    var scaled :- Checked(p.size * MmBpsFor(m, p, fallbackBps));
    if p.leverage == 0 then Trap
    else
      Done(CrossAggregates(p.collateral, pnl, funding, TruncDiv(scaled, BASIS_POINTS), TruncDiv(p.size, p.leverage)))
  }

  /** An id without a row adds nothing. */
  function LegAt(m: Market, id: nat, fallbackBps: nat, getPrice: Symbol -> int): Outcome<CrossAggregates> {
    if id in m.positions then LegOf(m, m.positions[id], fallbackBps, getPrice) else Done(ZERO)
  }

  /** Adds a leg; a total that would overflow keeps its value instead. */
  function Accumulate(agg: CrossAggregates, leg: CrossAggregates): CrossAggregates {
    CrossAggregates(
      OrElse(agg.totalCollateral + leg.totalCollateral, agg.totalCollateral),
      OrElse(agg.unrealizedPnl + leg.unrealizedPnl, agg.unrealizedPnl),
      OrElse(agg.totalFunding + leg.totalFunding, agg.totalFunding),
      OrElse(agg.maintenanceMargin + leg.maintenanceMargin, agg.maintenanceMargin),
      OrElse(agg.usedMargin + leg.usedMargin, agg.usedMargin))
  }

  /** The legs of a list of position ids, in list order. */
  ghost predicate AreLegs(m: Market, ids: seq<nat>, fallbackBps: nat, getPrice: Symbol -> int, legs: seq<CrossAggregates>) {
    |legs| == |ids| &&
    forall k {:trigger LegAt(m, ids[k], fallbackBps, getPrice)} ::
      0 <= k < |ids| ==> LegAt(m, ids[k], fallbackBps, getPrice) == Done(legs[k])
  }

  /** Every leg of the pass; an abort in any of them aborts the pass. */
  ghost function LegsOf(m: Market, ids: seq<nat>, fallbackBps: nat, getPrice: Symbol -> int): (r: Outcome<seq<CrossAggregates>>)
    ensures r.Done? ==> AreLegs(m, ids, fallbackBps, getPrice, r.value)
  {
    if exists legs :: AreLegs(m, ids, fallbackBps, getPrice, legs)
    then
      var legs :| AreLegs(m, ids, fallbackBps, getPrice, legs);
      Done(legs)
    else Trap
  }

  function Fold(legs: seq<CrossAggregates>): CrossAggregates {
    if legs == [] then ZERO else Accumulate(Fold(legs[..|legs| - 1]), legs[|legs| - 1])
  }

  /** The account totals over a list of position ids. */
  ghost function Aggregate(m: Market, ids: seq<nat>, fallbackBps: nat, getPrice: Symbol -> int): Outcome<CrossAggregates> {
    var legs :- LegsOf(m, ids, fallbackBps, getPrice);
    Done(Fold(legs))
  }

  /** The single pass of the contract. */
  method AggregateCrossPositions(m: Market, trader: Address, fallbackBps: nat, getPrice: Symbol -> int)
    returns (r: Outcome<CrossAggregates>)
    ensures r == Aggregate(m, m.IdsOf(trader), fallbackBps, getPrice)
  {
    var ids := m.IdsOf(trader);
    var agg := ZERO;
    ghost var legs := [];
    for i := 0 to |ids|
      invariant AreLegs(m, ids[..i], fallbackBps, getPrice, legs)
      invariant agg == Fold(legs)
    {
      var leg := LegAt(m, ids[i], fallbackBps, getPrice);
      if !leg.Done? {
        LegOnlyTraps(m, ids[i], fallbackBps, getPrice);
        AbortedLeg(m, ids, fallbackBps, getPrice, i);
        return leg;
      }
      FoldNext(legs, leg.value);
      NextLeg(m, ids, i, fallbackBps, getPrice, legs, leg.value);
      agg := Accumulate(agg, leg.value);
      legs := legs + [leg.value];
    }
    assert ids[..|ids|] == ids;
    TheseAreTheLegs(m, ids, fallbackBps, getPrice, legs);
    return Done(agg);
  }

  lemma NextLeg(m: Market, ids: seq<nat>, i: nat, bps: nat, price: Symbol -> int, legs: seq<CrossAggregates>, leg: CrossAggregates)
    requires i < |ids| && AreLegs(m, ids[..i], bps, price, legs) && LegAt(m, ids[i], bps, price) == Done(leg)
    ensures AreLegs(m, ids[..i + 1], bps, price, legs + [leg])
  {
    forall k | 0 <= k < i
      ensures LegAt(m, ids[..i + 1][k], bps, price) == Done(legs[k])
    {
      assert LegAt(m, ids[..i][k], bps, price) == Done(legs[k]);
    }
  }

  lemma LegOnlyTraps(m: Market, id: nat, bps: nat, price: Symbol -> int)
    ensures LegAt(m, id, bps, price).Done? || LegAt(m, id, bps, price) == Trap
  {
  }

  lemma TheseAreTheLegs(m: Market, ids: seq<nat>, bps: nat, price: Symbol -> int, legs: seq<CrossAggregates>)
    requires AreLegs(m, ids, bps, price, legs)
    ensures LegsOf(m, ids, bps, price) == Done(legs)
  {
    var found := LegsOf(m, ids, bps, price).value;
    forall k | 0 <= k < |ids|
      ensures found[k] == legs[k]
    {
      assert LegAt(m, ids[k], bps, price) == Done(legs[k]);
    }
    assert found == legs;
  }

  /** Each leg of the list is the leg of its id. */
  lemma LegAtIndex(m: Market, ids: seq<nat>, bps: nat, price: Symbol -> int, k: nat)
    requires k < |ids| && LegsOf(m, ids, bps, price).Done?
    ensures LegAt(m, ids[k], bps, price) == Done(LegsOf(m, ids, bps, price).value[k])
  {
  }

  lemma AbortedLeg(m: Market, ids: seq<nat>, bps: nat, price: Symbol -> int, k: nat)
    requires k < |ids| && !LegAt(m, ids[k], bps, price).Done?
    ensures LegsOf(m, ids, bps, price) == Trap
  {
    forall legs
      ensures !AreLegs(m, ids, bps, price, legs)
    {
    }
  }

  lemma InitialLegs(m: Market, ids: seq<nat>, bps: nat, price: Symbol -> int)
    requires ids != [] && LegsOf(m, ids, bps, price).Done?
    ensures var legs := LegsOf(m, ids, bps, price).value;
            LegsOf(m, ids[..|ids| - 1], bps, price) == Done(legs[..|legs| - 1])
  {
    var init, legs := ids[..|ids| - 1], LegsOf(m, ids, bps, price).value;
    forall k | 0 <= k < |init|
      ensures LegAt(m, init[k], bps, price) == Done(legs[k])
    {
      LegAtIndex(m, ids, bps, price, k);
    }
    TheseAreTheLegs(m, init, bps, price, legs[..|init|]);
  }

  lemma FoldNext(legs: seq<CrossAggregates>, leg: CrossAggregates)
    ensures Fold(legs + [leg]) == Accumulate(Fold(legs), leg)
  {
    assert (legs + [leg])[..|legs|] == legs;
  }

  function EquityFrom(balance: int, agg: CrossAggregates): int {
    var withCollateral := OrElse(balance + agg.totalCollateral, balance);
    var withPnl := OrElse(withCollateral + agg.unrealizedPnl, balance);
    OrElse(withPnl - agg.totalFunding, 0)
  }

  ghost function CrossEquity(m: Market, trader: Address, getPrice: Symbol -> int): Outcome<int> {
    var agg :- Aggregate(m, m.IdsOf(trader), 0, getPrice);
    Done(EquityFrom(m.BalanceOf(trader), agg))
  }

  const NO_PRICE: Symbol -> int := _ => 0

  ghost function CrossMaintenanceMargin(m: Market, trader: Address, fallbackBps: nat): Outcome<int> {
    var agg :- Aggregate(m, m.IdsOf(trader), fallbackBps, NO_PRICE);
    Done(agg.maintenanceMargin)
  }

  ghost function CrossUsedMargin(m: Market, trader: Address): Outcome<int> {
    var agg :- Aggregate(m, m.IdsOf(trader), 0, NO_PRICE);
    Done(agg.usedMargin)
  }

  ghost function IsCrossAccountLiquidatable(m: Market, trader: Address, fallbackBps: nat, getPrice: Symbol -> int): Outcome<bool> {
    if m.IdsOf(trader) == [] then Done(false)
    else
      var agg :- Aggregate(m, m.IdsOf(trader), fallbackBps, getPrice);
      Done(EquityFrom(m.BalanceOf(trader), agg) < agg.maintenanceMargin)
  }

  // ------------------------------------------------------ separate passes agree

  /** Totals agree in every component in which the legs agree one by one. */
  lemma {:induction false} FoldAgrees(a: seq<CrossAggregates>, b: seq<CrossAggregates>)
    requires |a| == |b|
    ensures (forall k :: 0 <= k < |a| ==> a[k].totalCollateral == b[k].totalCollateral) ==>
              Fold(a).totalCollateral == Fold(b).totalCollateral
    ensures (forall k :: 0 <= k < |a| ==> a[k].unrealizedPnl == b[k].unrealizedPnl) ==>
              Fold(a).unrealizedPnl == Fold(b).unrealizedPnl
    ensures (forall k :: 0 <= k < |a| ==> a[k].totalFunding == b[k].totalFunding) ==>
              Fold(a).totalFunding == Fold(b).totalFunding
    ensures (forall k :: 0 <= k < |a| ==> a[k].maintenanceMargin == b[k].maintenanceMargin) ==>
              Fold(a).maintenanceMargin == Fold(b).maintenanceMargin
    ensures (forall k :: 0 <= k < |a| ==> a[k].usedMargin == b[k].usedMargin) ==>
              Fold(a).usedMargin == Fold(b).usedMargin
  {
    if a != [] {
      FoldAgrees(a[..|a| - 1], b[..|b| - 1]);
    }
  }

  /** Two passes over the same ids differ only where their inputs do: the price
      source reaches nothing but profit, the legacy margin nothing but
      maintenance margin. */
  lemma PassesAgree(m: Market, ids: seq<nat>, bps: nat, bps': nat, price: Symbol -> int, price': Symbol -> int)
    ensures var a := Aggregate(m, ids, bps, price);
            var b := Aggregate(m, ids, bps', price');
            a.Done? && b.Done? ==>
              && a.value.totalCollateral == b.value.totalCollateral
              && a.value.totalFunding == b.value.totalFunding
              && a.value.usedMargin == b.value.usedMargin
              && (bps == bps' ==> a.value.maintenanceMargin == b.value.maintenanceMargin)
              && (price == price' ==> a.value.unrealizedPnl == b.value.unrealizedPnl)
  {
    var a, b := LegsOf(m, ids, bps, price), LegsOf(m, ids, bps', price');
    if a.Done? && b.Done? {
      forall k | 0 <= k < |ids|
        ensures AgreeWhereInputsDo(a.value[k], b.value[k], bps == bps', price == price')
      {
        LegsAgree(m, ids[k], bps, bps', price, price');
      }
      FoldAgrees(a.value, b.value);
    }
  }

  predicate AgreeWhereInputsDo(a: CrossAggregates, b: CrossAggregates, sameBps: bool, samePrice: bool) {
    && a.totalCollateral == b.totalCollateral
    && a.totalFunding == b.totalFunding
    && a.usedMargin == b.usedMargin
    && (sameBps ==> a.maintenanceMargin == b.maintenanceMargin)
    && (samePrice ==> a.unrealizedPnl == b.unrealizedPnl)
  }

  lemma LegsAgree(m: Market, id: nat, bps: nat, bps': nat, price: Symbol -> int, price': Symbol -> int)
    ensures var a := LegAt(m, id, bps, price);
            var b := LegAt(m, id, bps', price');
            a.Done? && b.Done? ==> AgreeWhereInputsDo(a.value, b.value, bps == bps', price == price')
  {
    if id in m.positions {
      var p := m.positions[id];
      assert price == price' ==> LegPnl(p, price(p.asset)) == LegPnl(p, price'(p.asset));
    }
  }

  /** The liquidation test compares the equity with its own pass's maintenance margin. */
  lemma LiquidationTest(m: Market, trader: Address, bps: nat, price: Symbol -> int)
    requires m.IdsOf(trader) != []
    requires CrossEquity(m, trader, price).Done? && Aggregate(m, m.IdsOf(trader), bps, price).Done?
    ensures IsCrossAccountLiquidatable(m, trader, bps, price)
         == Done(CrossEquity(m, trader, price).value < Aggregate(m, m.IdsOf(trader), bps, price).value.maintenanceMargin)
  {
    PassesAgree(m, m.IdsOf(trader), bps, 0, price, price);
  }

  /** The four entry points together report what one pass would: the liquidation
      test compares exactly the equity and the maintenance margin that the other
      entry points return, and spares an account without positions, in debt or not. */
  lemma LiquidationComparesReportedFigures(m: Market, trader: Address, bps: nat, price: Symbol -> int)
    requires CrossEquity(m, trader, price).Done?
    requires CrossMaintenanceMargin(m, trader, bps).Done?
    requires IsCrossAccountLiquidatable(m, trader, bps, price).Done?
    ensures IsCrossAccountLiquidatable(m, trader, bps, price).value <==>
              && m.IdsOf(trader) != []
              && CrossEquity(m, trader, price).value < CrossMaintenanceMargin(m, trader, bps).value
  {
    PassesAgree(m, m.IdsOf(trader), bps, 0, price, price);
    PassesAgree(m, m.IdsOf(trader), bps, bps, price, NO_PRICE);
  }

  // ---------------------------------------------------------- margin-gate safety

  /** A position whose leverage times maintenance margin does not exceed one. */
  predicate Bounded(m: Market, p: Position, fallbackBps: nat) {
    p.size >= 0 && p.leverage >= 1 && p.leverage * MmBpsFor(m, p, fallbackBps) <= BASIS_POINTS
  }

  predicate AllBounded(m: Market, ids: seq<nat>, fallbackBps: nat) {
    forall id :: id in ids && id in m.positions ==> Bounded(m, m.positions[id], fallbackBps)
  }

  /** What the admin check lets through: an initial margin of at least 4%, leverage up to
      its inverse and so never above 25, half of it as maintenance margin. Anything that
      meets these, a lower close-out level and the bounds on size, clamp and scale passes. */
  lemma LadderLimits(risk: AssetRiskParams)
    ensures risk.IsValid() ==> risk.maxLeverage <= 25 && risk.mmBps >= 200
    ensures risk.IsValid() <==>
              && risk.imBps >= 400 && 1 <= risk.maxLeverage && risk.maxLeverage * risk.imBps <= 10_000
              && 0 <= risk.imBps - 2 * risk.mmBps <= 1 && risk.closeOutBps < risk.mmBps
              && risk.maxPositionSize > 0 && risk.fundingClampBps <= 1_000 && risk.skewScale >= 0
  {
    if risk.imBps >= 400 {
      LeverageCap(risk.maxLeverage, risk.imBps);
    }
  }

  lemma LeverageCap(leverage: nat, imBps: nat)
    requires imBps >= 400
    ensures leverage <= 10_000 / imBps <==> leverage * imBps <= 10_000
    ensures 10_000 / imBps <= 25
  {
    TruncDivBounds(10_000, imBps);
    TruncDivAtMost(10_000, imBps, 25);
    if leverage >= 1 {
      TruncDivAtLeast(10_000, imBps, leverage);
    }
  }

  /** A ladder entry that passed the admin check bounds every position opened under its leverage cap. */
  lemma LadderBounds(risk: AssetRiskParams, leverage: nat)
    requires risk.IsValid() && leverage <= risk.maxLeverage
    ensures leverage * risk.mmBps <= BASIS_POINTS / 2
  {
    var cap := BASIS_POINTS / risk.imBps;
    assert cap * risk.imBps <= BASIS_POINTS;
    CancelFactor(leverage, cap, risk.mmBps);
    CancelFactor(2 * risk.mmBps, risk.imBps, cap);
    assert (2 * risk.mmBps) * cap == 2 * (cap * risk.mmBps);
  }

  /** Exact sum of the initial margins; ids without a row count zero. */
  function InitialMargins(m: Market, ids: seq<nat>): int {
    if ids == [] then 0
    else
      var id := ids[|ids| - 1];
      InitialMargins(m, ids[..|ids| - 1]) +
      if id in m.positions && m.positions[id].leverage > 0
      then TruncDiv(m.positions[id].size, m.positions[id].leverage) else 0
  }

  /** Maintenance margin of a bounded position never exceeds its initial margin. */
  lemma MaintenanceWithinInitial(size: int, leverage: int, mmBps: int)
    requires size >= 0 && leverage >= 1 && mmBps >= 0 && leverage * mmBps <= BASIS_POINTS
    ensures 0 <= TruncDiv(size * mmBps, BASIS_POINTS) <= TruncDiv(size, leverage)
  {
    MulNonNegative(size, mmBps);
    TruncDivBounds(size * mmBps, BASIS_POINTS);
    TruncDivBounds(size, leverage);
    var mm, im := TruncDiv(size * mmBps, BASIS_POINTS), TruncDiv(size, leverage);
    CancelFactor(mm * BASIS_POINTS, size * mmBps, leverage);
    assert (size * mmBps) * leverage == (leverage * mmBps) * size;
    assert (mm * BASIS_POINTS) * leverage == (mm * leverage) * BASIS_POINTS;
    MulNonNegative(size, BASIS_POINTS - leverage * mmBps);
    assert size * (BASIS_POINTS - leverage * mmBps) == size * BASIS_POINTS - (leverage * mmBps) * size;
    CancelFactor(mm * leverage, size, BASIS_POINTS);
    assert (im + 1) * leverage == im * leverage + leverage > size;
    CancelFactor(mm, im + 1, leverage);
  }

  /** A leg's maintenance margin lies within its initial margin. */
  predicate CoveredLeg(leg: CrossAggregates) {
    0 <= leg.maintenanceMargin <= leg.usedMargin
  }

  function SumUsed(legs: seq<CrossAggregates>): int {
    if legs == [] then 0 else SumUsed(legs[..|legs| - 1]) + legs[|legs| - 1].usedMargin
  }

  lemma {:induction false} CoveredLegsAddUp(legs: seq<CrossAggregates>)
    requires forall k :: 0 <= k < |legs| ==> CoveredLeg(legs[k])
    requires SumUsed(legs) <= I128_MAX
    ensures SumUsed(legs) >= 0
    ensures Fold(legs).usedMargin == SumUsed(legs) && CoveredLeg(Fold(legs))
  {
    if legs != [] {
      var init := legs[..|legs| - 1];
      SumUsedNonNegative(init);
      CoveredLegsAddUp(init);
    }
  }

  lemma {:induction false} SumUsedNonNegative(legs: seq<CrossAggregates>)
    requires forall k :: 0 <= k < |legs| ==> CoveredLeg(legs[k])
    ensures SumUsed(legs) >= 0
  {
    if legs != [] {
      SumUsedNonNegative(legs[..|legs| - 1]);
    }
  }

  lemma LegIsCovered(m: Market, id: nat, bps: nat, price: Symbol -> int)
    requires id in m.positions ==> Bounded(m, m.positions[id], bps)
    ensures LegAt(m, id, bps, price).Done? ==>
              && CoveredLeg(LegAt(m, id, bps, price).value)
              && LegAt(m, id, bps, price).value.usedMargin == InitialMargins(m, [id])
  {
    assert [id][..0] == [];
    if id in m.positions {
      var p := m.positions[id];
      MaintenanceWithinInitial(p.size, p.leverage, MmBpsFor(m, p, bps));
    }
  }

  lemma {:induction false} InitialMarginsAreUsed(m: Market, ids: seq<nat>, bps: nat, price: Symbol -> int)
    requires AllBounded(m, ids, bps) && LegsOf(m, ids, bps, price).Done?
    ensures SumUsed(LegsOf(m, ids, bps, price).value) == InitialMargins(m, ids)
    ensures forall k :: 0 <= k < |ids| ==> CoveredLeg(LegsOf(m, ids, bps, price).value[k])
  {
    if ids != [] {
      var init, last := ids[..|ids| - 1], ids[|ids| - 1];
      InitialLegs(m, ids, bps, price);
      InitialMarginsAreUsed(m, init, bps, price);
      LegIsCovered(m, last, bps, price);
      InitialMarginsSplit(m, ids);
    }
  }

  lemma InitialMarginsSplit(m: Market, ids: seq<nat>)
    requires ids != []
    ensures InitialMargins(m, ids) == InitialMargins(m, ids[..|ids| - 1]) + InitialMargins(m, [ids[|ids| - 1]])
  {
    assert [ids[|ids| - 1]][..0] == [];
  }

  lemma UsedCoversMaintenance(m: Market, ids: seq<nat>, bps: nat, price: Symbol -> int)
    requires AllBounded(m, ids, bps)
    requires InitialMargins(m, ids) <= I128_MAX
    ensures var agg := Aggregate(m, ids, bps, price);
            agg.Done? ==>
              && agg.value.usedMargin == InitialMargins(m, ids)
              && 0 <= agg.value.maintenanceMargin <= agg.value.usedMargin
  {
    if LegsOf(m, ids, bps, price).Done? {
      InitialMarginsAreUsed(m, ids, bps, price);
      CoveredLegsAddUp(LegsOf(m, ids, bps, price).value);
    }
  }

  /** Margin-gate safety: when equity covers the initial margins, the account
      cannot be liquidated at the same prices. The one condition is that the
      initial margins add up within 128 bits. */
  lemma MarginGateSafe(m: Market, trader: Address, bps: nat, price: Symbol -> int)
    requires AllBounded(m, m.IdsOf(trader), bps)
    requires InitialMargins(m, m.IdsOf(trader)) <= I128_MAX
    requires CrossEquity(m, trader, price).Done? && CrossUsedMargin(m, trader).Done?
    requires CrossEquity(m, trader, price).value >= CrossUsedMargin(m, trader).value
    ensures IsCrossAccountLiquidatable(m, trader, bps, price) != Done(true)
  {
    var ids := m.IdsOf(trader);
    UsedCoversMaintenance(m, ids, bps, price);
    PassesAgree(m, ids, bps, 0, price, price);
    PassesAgree(m, ids, bps, 0, price, NO_PRICE);
  }

  /** Beyond 128 bits the claim fails: a leg whose initial margin no longer fits
      is left out of the used margin while its maintenance margin still counts. */
  lemma MarginGateFailsPastRange() returns (m: Market, price: Symbol -> int)
    ensures AllBounded(m, m.IdsOf("t"), 1)
    ensures InitialMargins(m, m.IdsOf("t")) > I128_MAX
    ensures CrossEquity(m, "t", price) == Done(2)
    ensures CrossUsedMargin(m, "t") == Done(1)
    ensures IsCrossAccountLiquidatable(m, "t", 1, price) == Done(true)
  {
    var small := Position(1, "t", "XLM", 1, 1, 1, Long, 1, 0, 0, 0, 1);
    var huge := Position(2, "t", "XLM", 1, I128_MAX, 1, Long, 1, 0, 0, 0, 1);
    m := Market(map[1 := small, 2 := huge], map["t" := [1, 2]], map[], map[], map[], 0);
    price := _ => 1;
    assert m.IdsOf("t") == [1, 2] && [1, 2][..1] == [1];
    FailureFigures(m, small, huge, 0, price);
    FailureFigures(m, small, huge, 0, NO_PRICE);
    FailureFigures(m, small, huge, 1, price);
    assert InitialMargins(m, [1]) == 1;
    assert InitialMargins(m, [1, 2]) == 1 + I128_MAX;
    assert CrossEquity(m, "t", price) == Done(2);
    assert CrossUsedMargin(m, "t") == Done(1);
    assert IsCrossAccountLiquidatable(m, "t", 1, price) == Done(true);
  }

  lemma FailureFigures(m: Market, small: Position, huge: Position, bps: nat, price: Symbol -> int)
    requires small == Position(1, "t", "XLM", 1, 1, 1, Long, 1, 0, 0, 0, 1)
    requires huge == Position(2, "t", "XLM", 1, I128_MAX, 1, Long, 1, 0, 0, 0, 1)
    requires m.positions == map[1 := small, 2 := huge] && m.riskEpochTs == 0 && m.cumulativeFunding == map[]
    requires bps <= 1 && (price("XLM") == 1 || price("XLM") == 0)
    ensures Aggregate(m, [1, 2], bps, price).Done?
    ensures var agg := Aggregate(m, [1, 2], bps, price).value;
            && agg.totalCollateral == 2
            && (price("XLM") == 1 ==> agg.unrealizedPnl == 0)
            && agg.totalFunding == 0
            && agg.maintenanceMargin == bps * (I128_MAX / BASIS_POINTS)
            && agg.usedMargin == 1
  {
    LegsOfFailure(m, small, huge, bps, price);
    var first, second := LegAt(m, 1, bps, price).value, LegAt(m, 2, bps, price).value;
    TheseAreTheLegs(m, [1, 2], bps, price, [first, second]);
    FoldOne(first);
    FoldNext([first], second);
    FailureTotals(price("XLM") - 1, bps);
    assert [first] + [second] == [first, second];
  }

  lemma FailureTotals(pnl: int, bps: nat)
    requires bps <= 1 && (pnl == 0 || pnl == -1)
    ensures var agg := Accumulate(Accumulate(ZERO, CrossAggregates(1, pnl, 0, 0, 1)),
                                  CrossAggregates(1, I128_MAX * pnl, 0, bps * (I128_MAX / BASIS_POINTS), I128_MAX));
            && agg.totalCollateral == 2
            && (pnl == 0 ==> agg.unrealizedPnl == 0)
            && agg.totalFunding == 0
            && agg.maintenanceMargin == bps * (I128_MAX / BASIS_POINTS)
            && agg.usedMargin == 1
  {
  }

  lemma FoldOne(leg: CrossAggregates)
    ensures Fold([leg]) == Accumulate(ZERO, leg)
  {
    assert [leg][..0] == [];
  }

  lemma EquityOfOne(m: Market, trader: Address, id: nat, price: Symbol -> int, leg: CrossAggregates)
    requires m.IdsOf(trader) == [id] && LegAt(m, id, 0, price) == Done(leg)
    ensures CrossEquity(m, trader, price) == Done(EquityFrom(m.BalanceOf(trader), Accumulate(ZERO, leg)))
  {
    TheseAreTheLegs(m, [id], 0, price, [leg]);
    FoldOne(leg);
  }

  lemma LegsOfFailure(m: Market, small: Position, huge: Position, bps: nat, price: Symbol -> int)
    requires small == Position(1, "t", "XLM", 1, 1, 1, Long, 1, 0, 0, 0, 1)
    requires huge == Position(2, "t", "XLM", 1, I128_MAX, 1, Long, 1, 0, 0, 0, 1)
    requires m.positions == map[1 := small, 2 := huge] && m.riskEpochTs == 0 && m.cumulativeFunding == map[]
    requires bps <= 1 && (price("XLM") == 1 || price("XLM") == 0)
    ensures var pnl := price("XLM") - 1;
            && LegAt(m, 1, bps, price) == Done(CrossAggregates(1, pnl, 0, 0, 1))
            && LegAt(m, 2, bps, price) == Done(CrossAggregates(1, I128_MAX * pnl, 0, bps * (I128_MAX / BASIS_POINTS), I128_MAX))
  {
  }

  // ------------------------------------------------------------- ladder upgrade

  /** Going live with the ladder after every open position was opened changes no
      account figure: the upgrade liquidates nobody. */
  lemma LadderUpgradeChangesNothing(m: Market, n: Market, ids: seq<nat>, bps: nat, price: Symbol -> int)
    requires m.riskEpochTs == 0 && n == m.(riskEpochTs := n.riskEpochTs, assetRisk := n.assetRisk)
    requires forall id :: id in ids && id in m.positions ==> m.positions[id].timestamp < n.riskEpochTs
    ensures LegsOf(n, ids, bps, price) == LegsOf(m, ids, bps, price)
    ensures Aggregate(n, ids, bps, price) == Aggregate(m, ids, bps, price)
  {
    forall k | 0 <= k < |ids|
      ensures LegAt(m, ids[k], bps, price) == LegAt(n, ids[k], bps, price)
    {
      OldLegUnchanged(m, n, ids[k], bps, price);
    }
    SameLegs(m, n, ids, bps, price);
  }

  lemma SameLegs(m: Market, n: Market, ids: seq<nat>, bps: nat, price: Symbol -> int)
    requires forall k :: 0 <= k < |ids| ==> LegAt(m, ids[k], bps, price) == LegAt(n, ids[k], bps, price)
    ensures LegsOf(m, ids, bps, price) == LegsOf(n, ids, bps, price)
  {
    if LegsOf(m, ids, bps, price).Done? {
      StillTheLegs(m, n, ids, bps, price, LegsOf(m, ids, bps, price).value);
    } else if LegsOf(n, ids, bps, price).Done? {
      StillTheLegs(n, m, ids, bps, price, LegsOf(n, ids, bps, price).value);
    }
  }

  lemma StillTheLegs(m: Market, n: Market, ids: seq<nat>, bps: nat, price: Symbol -> int, legs: seq<CrossAggregates>)
    requires forall k :: 0 <= k < |ids| ==> LegAt(m, ids[k], bps, price) == LegAt(n, ids[k], bps, price)
    requires AreLegs(m, ids, bps, price, legs)
    ensures LegsOf(n, ids, bps, price) == Done(legs)
  {
    TheseAreTheLegs(n, ids, bps, price, legs);
  }

  lemma OldLegUnchanged(m: Market, n: Market, id: nat, bps: nat, price: Symbol -> int)
    requires m.riskEpochTs == 0 && n == m.(riskEpochTs := n.riskEpochTs, assetRisk := n.assetRisk)
    requires id in m.positions ==> m.positions[id].timestamp < n.riskEpochTs
    ensures LegAt(n, id, bps, price) == LegAt(m, id, bps, price)
  {
    if id in m.positions {
      assert MmBpsFor(n, m.positions[id], bps) == bps == MmBpsFor(m, m.positions[id], bps);
    }
  }

  /** A position opened under a live ladder carries the ladder's maintenance
      margin, at most half of one over its leverage when the admin check held. */
  lemma LadderAppliesToNewPositions(m: Market, p: Position, bps: nat)
    requires m.riskEpochTs != 0 && p.timestamp >= m.riskEpochTs
    requires p.asset in m.assetRisk && m.assetRisk[p.asset].IsValid()
    requires 1 <= p.leverage <= m.assetRisk[p.asset].maxLeverage && p.size >= 0
    ensures MmBpsFor(m, p, bps) == m.assetRisk[p.asset].mmBps
    ensures Bounded(m, p, bps) && 2 * p.leverage * MmBpsFor(m, p, bps) <= BASIS_POINTS
  {
    LadderBounds(m.assetRisk[p.asset], p.leverage);
  }

  // ------------------------------------------------------------- exact equity

  /** What a leg, or a total, adds to the equity. */
  function Net(leg: CrossAggregates): int {
    leg.totalCollateral + leg.unrealizedPnl - leg.totalFunding
  }

  /** Past 128 bits the equity falls back, never aborting and never leaving the range:
      to the balance where collateral or profit do not fit, to zero where the funding
      does not. */
  lemma EquityFallsBack(balance: int, agg: CrossAggregates)
    requires InI128(balance)
    ensures InI128(EquityFrom(balance, agg))
    ensures var gross := balance + agg.totalCollateral + agg.unrealizedPnl;
            InI128(balance + agg.totalCollateral) ==>
              && (!InI128(gross) && InI128(balance - agg.totalFunding) ==> EquityFrom(balance, agg) == balance - agg.totalFunding)
              && (InI128(gross) && !InI128(gross - agg.totalFunding) ==> EquityFrom(balance, agg) == 0)
    ensures !InI128(balance + agg.totalCollateral) ==> EquityFrom(balance, agg) == EquityFrom(balance, agg.(totalCollateral := 0))
  {
  }

  function Weight(leg: CrossAggregates): nat {
    Abs(leg.totalCollateral) + Abs(leg.unrealizedPnl) + Abs(leg.totalFunding)
  }

  function SumNet(legs: seq<CrossAggregates>): int {
    if legs == [] then 0 else SumNet(legs[..|legs| - 1]) + Net(legs[|legs| - 1])
  }

  /** Sum of the magnitudes that enter the equity. */
  function Magnitude(legs: seq<CrossAggregates>): nat {
    if legs == [] then 0 else Magnitude(legs[..|legs| - 1]) + Weight(legs[|legs| - 1])
  }

  /** The account's amounts are far enough from the 128-bit range to add up in any order. */
  ghost predicate Fits(m: Market, trader: Address, price: Symbol -> int) {
    var legs := LegsOf(m, m.IdsOf(trader), 0, price);
    legs.Done? && Abs(m.BalanceOf(trader)) + Magnitude(legs.value) <= I128_MAX
  }

  /** The totals without any rounding to 128 bits. */
  function ExactTotals(legs: seq<CrossAggregates>): CrossAggregates {
    if legs == [] then ZERO
    else
      var t, leg := ExactTotals(legs[..|legs| - 1]), legs[|legs| - 1];
      CrossAggregates(
        t.totalCollateral + leg.totalCollateral,
        t.unrealizedPnl + leg.unrealizedPnl,
        t.totalFunding + leg.totalFunding,
        t.maintenanceMargin + leg.maintenanceMargin,
        t.usedMargin + leg.usedMargin)
  }

  /** Every running figure on the way to the equity stays within `bound`. */
  predicate Within(t: CrossAggregates, bound: int) {
    && -bound <= t.totalCollateral <= bound
    && -bound <= t.unrealizedPnl <= bound
    && -bound <= t.totalFunding <= bound
    && -bound <= t.totalCollateral + t.unrealizedPnl <= bound
    && -bound <= Net(t) <= bound
  }

  lemma WithinWeight(leg: CrossAggregates)
    ensures Within(leg, Weight(leg))
  {
  }

  lemma {:induction false} TotalsWithinMagnitude(legs: seq<CrossAggregates>)
    ensures Within(ExactTotals(legs), Magnitude(legs))
    ensures Net(ExactTotals(legs)) == SumNet(legs)
  {
    if legs != [] {
      TotalsWithinMagnitude(legs[..|legs| - 1]);
      WithinWeight(legs[|legs| - 1]);
    }
  }

  lemma {:induction false} FoldIsExact(legs: seq<CrossAggregates>)
    requires Magnitude(legs) <= I128_MAX
    ensures var agg, t := Fold(legs), ExactTotals(legs);
            && agg.totalCollateral == t.totalCollateral
            && agg.unrealizedPnl == t.unrealizedPnl
            && agg.totalFunding == t.totalFunding
  {
    if legs != [] {
      FoldIsExact(legs[..|legs| - 1]);
      TotalsWithinMagnitude(legs);
    }
  }

  /** Within range the reported equity is the exact one: balance plus every leg's net. */
  lemma EquityOfLegs(balance: int, legs: seq<CrossAggregates>)
    requires Abs(balance) + Magnitude(legs) <= I128_MAX
    ensures EquityFrom(balance, Fold(legs)) == balance + SumNet(legs)
  {
    FoldIsExact(legs);
    TotalsWithinMagnitude(legs);
    EquityInRange(balance, Fold(legs), ExactTotals(legs), Magnitude(legs));
  }

  lemma EquityInRange(balance: int, agg: CrossAggregates, t: CrossAggregates, bound: nat)
    requires agg.totalCollateral == t.totalCollateral && agg.unrealizedPnl == t.unrealizedPnl && agg.totalFunding == t.totalFunding
    requires Within(t, bound) && Abs(balance) + bound <= I128_MAX
    ensures EquityFrom(balance, agg) == balance + Net(t)
  {
  }

  lemma EquityIsExact(m: Market, trader: Address, price: Symbol -> int)
    requires Fits(m, trader, price)
    ensures CrossEquity(m, trader, price)
         == Done(m.BalanceOf(trader) + SumNet(LegsOf(m, m.IdsOf(trader), 0, price).value))
  {
    EquityOfKnownLegs(m, trader, price, LegsOf(m, m.IdsOf(trader), 0, price).value);
  }

  function WithBalance(m: Market, trader: Address, balance: int): Market {
    m.(crossBalance := m.crossBalance[trader := balance])
  }

  /** Balances and id lists do not enter the legs. */
  lemma SameRowsSameLegs(m: Market, n: Market, ids: seq<nat>, bps: nat, price: Symbol -> int)
    requires n == m.(crossBalance := n.crossBalance, crossPositionIds := n.crossPositionIds)
    ensures LegsOf(m, ids, bps, price) == LegsOf(n, ids, bps, price)
  {
    forall k | 0 <= k < |ids|
      ensures LegAt(m, ids[k], bps, price) == LegAt(n, ids[k], bps, price)
    {
      SameRowsSameLeg(m, n, ids[k], bps, price);
    }
    SameLegs(m, n, ids, bps, price);
  }

  lemma SameRowsSameLeg(m: Market, n: Market, id: nat, bps: nat, price: Symbol -> int)
    requires n == m.(crossBalance := n.crossBalance, crossPositionIds := n.crossPositionIds)
    ensures LegAt(m, id, bps, price) == LegAt(n, id, bps, price)
  {
  }

  lemma {:induction false} SameRowsSameMargins(m: Market, n: Market, ids: seq<nat>)
    requires n.positions == m.positions
    ensures InitialMargins(m, ids) == InitialMargins(n, ids)
  {
    if ids != [] {
      SameRowsSameMargins(m, n, ids[..|ids| - 1]);
    }
  }

  lemma StillBounded(m: Market, n: Market, ids: seq<nat>, bps: nat)
    requires n == m.(crossBalance := n.crossBalance) && AllBounded(m, ids, bps)
    ensures AllBounded(n, ids, bps)
  {
    forall id | id in ids && id in m.positions
      ensures Bounded(n, m.positions[id], bps)
    {
      assert Bounded(m, m.positions[id], bps);
    }
  }

  lemma EquityAfterWithdrawal(m: Market, trader: Address, amount: int, price: Symbol -> int)
    requires 0 <= amount <= m.BalanceOf(trader)
    requires Fits(m, trader, price)
    ensures CrossEquity(m, trader, price).Done?
    ensures CrossEquity(WithBalance(m, trader, m.BalanceOf(trader) - amount), trader, price)
         == Done(CrossEquity(m, trader, price).value - amount)
  {
    var balance, legs := m.BalanceOf(trader), LegsOf(m, m.IdsOf(trader), 0, price).value;
    EquityOfKnownLegs(m, trader, price, legs);
    SmallerBalanceFits(balance, amount, Magnitude(legs));
    EquityWithBalance(m, trader, balance - amount, price, legs);
  }

  lemma SmallerBalanceFits(balance: int, amount: int, magnitude: nat)
    requires 0 <= amount <= balance && Abs(balance) + magnitude <= I128_MAX
    ensures Abs(balance - amount) + magnitude <= I128_MAX
  {
  }

  /** Withdrawing down to the initial margin never leaves a liquidatable account. */
  lemma WithdrawGateSafe(m: Market, trader: Address, amount: int, bps: nat, price: Symbol -> int)
    requires 0 <= amount <= m.BalanceOf(trader)
    requires Fits(m, trader, price)
    requires AllBounded(m, m.IdsOf(trader), bps)
    requires InitialMargins(m, m.IdsOf(trader)) <= I128_MAX
    requires CrossEquity(m, trader, price).Done? && CrossUsedMargin(m, trader).Done?
    requires CrossEquity(m, trader, price).value - amount >= CrossUsedMargin(m, trader).value
    ensures var after := WithBalance(m, trader, m.BalanceOf(trader) - amount);
            && CrossEquity(after, trader, price) == Done(CrossEquity(m, trader, price).value - amount)
            && IsCrossAccountLiquidatable(after, trader, bps, price) != Done(true)
  {
    var after := WithBalance(m, trader, m.BalanceOf(trader) - amount);
    EquityAfterWithdrawal(m, trader, amount, price);
    SameRowsSameLegs(m, after, m.IdsOf(trader), 0, NO_PRICE);
    SameRowsSameMargins(m, after, m.IdsOf(trader));
    StillBounded(m, after, m.IdsOf(trader), bps);
    MarginGateSafe(after, trader, bps, price);
  }

  /** If the account passes the initial-margin gate it is not liquidatable. */
  ghost predicate GateProtects(m: Market, trader: Address, bps: nat, price: Symbol -> int) {
    CrossEquity(m, trader, price).Done? && CrossUsedMargin(m, trader).Done?
    && CrossEquity(m, trader, price).value >= CrossUsedMargin(m, trader).value
    ==> IsCrossAccountLiquidatable(m, trader, bps, price) != Done(true)
  }

  /** The gate protects an account at every balance exactly when the two
      price-free figures it reports are in the right order: below that, some
      balance passes the gate and is liquidatable at once. */
  lemma MarginGateExactly(m: Market, trader: Address, bps: nat, price: Symbol -> int)
    requires m.IdsOf(trader) != []
    requires CrossEquity(m, trader, price).Done? && CrossUsedMargin(m, trader).Done?
    requires CrossMaintenanceMargin(m, trader, bps).Done? && IsCrossAccountLiquidatable(m, trader, bps, price).Done?
    requires Abs(CrossUsedMargin(m, trader).value) + 2 * Magnitude(LegsOf(m, m.IdsOf(trader), 0, price).value) <= I128_MAX
    ensures (forall balance :: GateProtects(WithBalance(m, trader, balance), trader, bps, price))
       <==> CrossUsedMargin(m, trader).value >= CrossMaintenanceMargin(m, trader, bps).value
  {
    if CrossUsedMargin(m, trader).value >= CrossMaintenanceMargin(m, trader, bps).value {
      forall balance: int
        ensures GateProtects(WithBalance(m, trader, balance), trader, bps, price)
      {
        OtherBalance(m, trader, balance, bps, price);
      }
    } else {
      var balance := BalanceAtGate(m, trader, price);
      OtherBalance(m, trader, balance, bps, price);
      assert !GateProtects(WithBalance(m, trader, balance), trader, bps, price);
    }
  }

  /** A balance at which the equity just meets the used margin. */
  lemma BalanceAtGate(m: Market, trader: Address, price: Symbol -> int) returns (balance: int)
    requires CrossEquity(m, trader, price).Done? && CrossUsedMargin(m, trader).Done?
    requires Abs(CrossUsedMargin(m, trader).value) + 2 * Magnitude(LegsOf(m, m.IdsOf(trader), 0, price).value) <= I128_MAX
    ensures CrossEquity(WithBalance(m, trader, balance), trader, price) == CrossUsedMargin(m, trader)
  {
    var used := CrossUsedMargin(m, trader).value;
    var legs := LegsOf(m, m.IdsOf(trader), 0, price).value;
    balance := used - SumNet(legs);
    BalanceInRange(used, legs);
    EquityWithBalance(m, trader, balance, price, legs);
  }

  lemma BalanceInRange(used: int, legs: seq<CrossAggregates>)
    requires Abs(used) + 2 * Magnitude(legs) <= I128_MAX
    ensures Abs(used - SumNet(legs)) + Magnitude(legs) <= I128_MAX
  {
    NetWithinMagnitude(legs);
    Triangle(used, SumNet(legs), Magnitude(legs));
  }

  lemma {:induction false} NetWithinMagnitude(legs: seq<CrossAggregates>)
    ensures Abs(SumNet(legs)) <= Magnitude(legs)
  {
    if legs != [] {
      NetWithinMagnitude(legs[..|legs| - 1]);
      WithinWeight(legs[|legs| - 1]);
    }
  }

  lemma Triangle(used: int, net: int, bound: int)
    requires Abs(net) <= bound && Abs(used) + 2 * bound <= I128_MAX
    ensures Abs(used - net) + bound <= I128_MAX
  {
  }

  lemma EquityWithBalance(m: Market, trader: Address, balance: int, price: Symbol -> int, legs: seq<CrossAggregates>)
    requires LegsOf(m, m.IdsOf(trader), 0, price) == Done(legs)
    requires Abs(balance) + Magnitude(legs) <= I128_MAX
    ensures CrossEquity(WithBalance(m, trader, balance), trader, price) == Done(balance + SumNet(legs))
  {
    var n := WithBalance(m, trader, balance);
    assert LegsOf(n, n.IdsOf(trader), 0, price) == Done(legs) by {
      SameRowsSameLegs(m, n, m.IdsOf(trader), 0, price);
    }
    EquityOfKnownLegs(n, trader, price, legs);
  }

  lemma EquityOfKnownLegs(m: Market, trader: Address, price: Symbol -> int, legs: seq<CrossAggregates>)
    requires LegsOf(m, m.IdsOf(trader), 0, price) == Done(legs)
    requires Abs(m.BalanceOf(trader)) + Magnitude(legs) <= I128_MAX
    ensures CrossEquity(m, trader, price) == Done(m.BalanceOf(trader) + SumNet(legs))
  {
    assert CrossEquity(m, trader, price) == Done(EquityFrom(m.BalanceOf(trader), Fold(legs)));
    EquityOfLegs(m.BalanceOf(trader), legs);
  }

  /** Changing the balance moves the equity and nothing else. */
  lemma OtherBalance(m: Market, trader: Address, balance: int, bps: nat, price: Symbol -> int)
    requires m.IdsOf(trader) != []
    requires CrossEquity(m, trader, price).Done? && CrossUsedMargin(m, trader).Done?
    requires CrossMaintenanceMargin(m, trader, bps).Done? && IsCrossAccountLiquidatable(m, trader, bps, price).Done?
    ensures var n := WithBalance(m, trader, balance);
            && CrossEquity(n, trader, price).Done?
            && CrossUsedMargin(n, trader) == CrossUsedMargin(m, trader)
            && IsCrossAccountLiquidatable(n, trader, bps, price) ==
                 Done(CrossEquity(n, trader, price).value < CrossMaintenanceMargin(m, trader, bps).value)
  {
    var n := WithBalance(m, trader, balance);
    var ids := m.IdsOf(trader);
    SameRowsSameLegs(m, n, ids, 0, price);
    SameRowsSameLegs(m, n, ids, 0, NO_PRICE);
    SameRowsSameLegs(m, n, ids, bps, price);
    SameRowsSameLegs(m, n, ids, bps, NO_PRICE);
    LiquidationComparesReportedFigures(n, trader, bps, price);
  }

  // --------------------------------------------------------- order of the list

  lemma {:induction false} SumWithout(legs: seq<CrossAggregates>, k: nat)
    requires k < |legs|
    ensures SumNet(legs) == SumNet(legs[..k] + legs[k + 1..]) + Net(legs[k])
  {
    var rest := legs[..k] + legs[k + 1..];
    if k == |legs| - 1 {
      assert rest == legs[..|legs| - 1];
    } else {
      SumWithout(legs[..|legs| - 1], k);
      assert rest[..|rest| - 1] == legs[..|legs| - 1][..k] + legs[..|legs| - 1][k + 1..];
    }
  }

  lemma LegsWithout(m: Market, ids: seq<nat>, k: nat, price: Symbol -> int)
    requires k < |ids| && LegsOf(m, ids, 0, price).Done?
    ensures var legs := LegsOf(m, ids, 0, price).value;
            LegsOf(m, ids[..k] + ids[k + 1..], 0, price) == Done(legs[..k] + legs[k + 1..])
  {
    var legs := LegsOf(m, ids, 0, price).value;
    TheseAreTheLegs(m, ids[..k] + ids[k + 1..], 0, price, legs[..k] + legs[k + 1..]);
  }

  lemma {:induction false} SumIgnoresOrder(m: Market, ids: seq<nat>, ids': seq<nat>, price: Symbol -> int)
    requires multiset(ids) == multiset(ids')
    requires LegsOf(m, ids, 0, price).Done? && LegsOf(m, ids', 0, price).Done?
    ensures SumNet(LegsOf(m, ids, 0, price).value) == SumNet(LegsOf(m, ids', 0, price).value)
  {
    if ids == [] {
      assert |multiset(ids')| == 0;
    } else {
      var init, last := ids[..|ids| - 1], ids[|ids| - 1];
      var k := IndexOf(ids, ids');
      LegsWithout(m, ids', k, price);
      InitialLegs(m, ids, 0, price);
      SumIgnoresOrder(m, init, ids'[..k] + ids'[k + 1..], price);
      SumWithout(LegsOf(m, ids', 0, price).value, k);
      LegAtIndex(m, ids, 0, price, |ids| - 1);
      LegAtIndex(m, ids', 0, price, k);
    }
  }

  lemma DropAt(ids: seq<nat>, k: nat)
    requires k < |ids|
    ensures multiset(ids[..k] + ids[k + 1..]) == multiset(ids) - multiset{ids[k]}
  {
    assert ids == ids[..k] + [ids[k]] + ids[k + 1..];
  }

  /** Where the last id of one list sits in a rearrangement of it. */
  lemma IndexOf(ids: seq<nat>, ids': seq<nat>) returns (k: nat)
    requires ids != [] && multiset(ids) == multiset(ids')
    ensures k < |ids'| && ids'[k] == ids[|ids| - 1]
    ensures multiset(ids[..|ids| - 1]) == multiset(ids'[..k] + ids'[k + 1..])
  {
    var n := |ids| - 1;
    assert ids[n] in multiset(ids');
    k :| 0 <= k < |ids'| && ids'[k] == ids[n];
    DropAt(ids, n);
    assert ids[..n] + ids[n + 1..] == ids[..n];
    DropAt(ids', k);
  }

  /** Equity does not depend on the order of the position list. */
  lemma EquityIgnoresOrder(m: Market, n: Market, trader: Address, price: Symbol -> int)
    requires n == m.(crossPositionIds := n.crossPositionIds)
    requires multiset(m.IdsOf(trader)) == multiset(n.IdsOf(trader))
    requires Fits(m, trader, price) && Fits(n, trader, price)
    ensures CrossEquity(m, trader, price).Done? && CrossEquity(m, trader, price) == CrossEquity(n, trader, price)
  {
    EquityIsExact(m, trader, price);
    EquityIsExact(n, trader, price);
    SameRowsSameLegs(m, n, n.IdsOf(trader), 0, price);
    SumIgnoresOrder(m, m.IdsOf(trader), n.IdsOf(trader), price);
  }
}
