/**
 Opening a cross position: the initial-margin gate is checked before the trading
 fee is taken, and the account it leaves behind.
 */
module OpenGate {
  import opened Fixed
  import opened Types
  import opened RiskMath
  import opened CrossMargin
  import FeeTiers

  /** The account after an open: the collateral leaves the pool, and what the fee
      left of it backs the new position. */
  function Opened(m: Market, trader: Address, p: Position, collateral: int): Market {
    m.(positions := m.positions[p.id := p],
       crossPositionIds := m.crossPositionIds[trader := m.IdsOf(trader) + [p.id]],
       crossBalance := m.crossBalance[trader := m.BalanceOf(trader) - collateral])
  }

  /** The new row: entered at the current price and funding index, backed by the
      collateral less the fee. The collateral is the initial margin of the size: all
      of it for a plain open, rounded down for what netting left to open. */
  predicate NewRow(m: Market, trader: Address, p: Position, collateral: int, fee: int, bps: nat, price: Symbol -> int) {
    && p.id !in m.positions && p.id !in m.IdsOf(trader)
    && 0 <= fee < collateral && p.collateral == collateral - fee
    && p.leverage >= 1 && p.size > 0 && TruncDiv(p.size, p.leverage) == collateral
    && p.entryPrice == price(p.asset) > 0
    && p.entryCumulativeFunding == m.FundingIndex(p.asset)
    && p.size * BASIS_POINTS <= I128_MAX && MmBpsFor(m, p, bps) <= BASIS_POINTS
  }

  /** The pool holds the collateral, and with other positions open the equity
      covers their initial margins and the new one's. */
  ghost predicate GatePasses(m: Market, trader: Address, collateral: int, price: Symbol -> int) {
    && CrossEquity(m, trader, price).Done? && CrossUsedMargin(m, trader).Done?
    && m.BalanceOf(trader) >= collateral
    && InI128(CrossUsedMargin(m, trader).value + collateral)
    && (m.IdsOf(trader) != [] ==>
          CrossEquity(m, trader, price).value >= CrossUsedMargin(m, trader).value + collateral)
  }

  /** Room to add the account's amounts and the new collateral twice over in any order. */
  ghost predicate Roomy(m: Market, trader: Address, collateral: int, price: Symbol -> int) {
    var legs := LegsOf(m, m.IdsOf(trader), 0, price);
    legs.Done? && Abs(m.BalanceOf(trader)) + Magnitude(legs.value) + 2 * collateral <= I128_MAX
  }

  /** Maintenance margin of the new position. */
  function NewMaintenance(m: Market, p: Position, bps: nat): int {
    TruncDiv(p.size * MmBpsFor(m, p, bps), BASIS_POINTS)
  }

  // ------------------------------------------------------------ the new leg

  lemma NewLeg(m: Market, trader: Address, p: Position, collateral: int, fee: int, bps: nat, price: Symbol -> int)
    requires NewRow(m, trader, p, collateral, fee, bps, price)
    ensures LegAt(Opened(m, trader, p, collateral), p.id, bps, price)
         == Done(CrossAggregates(collateral - fee, 0, 0, NewMaintenance(m, p, bps), collateral))
  {
    ScaledInRange(p.size, MmBpsFor(m, p, bps));
    var n := Opened(m, trader, p, collateral);
    assert MmBpsFor(n, p, bps) == MmBpsFor(m, p, bps);
    assert LegPnl(p, price(p.asset)) == Done(0);
    assert CalculateCumulativeFunding(p.size, p.direction, p.entryCumulativeFunding, n.FundingIndex(p.asset)) == Done(0);
  }

  /** Without prices the new leg's profit is a loss of its size; the margins are the same. */
  lemma NewLegBlind(m: Market, trader: Address, p: Position, collateral: int, fee: int, bps: nat, price: Symbol -> int)
    requires NewRow(m, trader, p, collateral, fee, bps, price)
    ensures LegAt(Opened(m, trader, p, collateral), p.id, 0, NO_PRICE).Done?
    ensures LegAt(Opened(m, trader, p, collateral), p.id, 0, NO_PRICE).value.usedMargin == collateral
  {
    var n := Opened(m, trader, p, collateral);
    assert MmBpsFor(n, p, 0) <= BASIS_POINTS;
    ScaledInRange(p.size, MmBpsFor(n, p, 0));
    assert LegPnl(p, 0) == Done(-p.size);
    assert CalculateCumulativeFunding(p.size, p.direction, p.entryCumulativeFunding, n.FundingIndex(p.asset)) == Done(0);
  }

  lemma ScaledInRange(size: int, bps: nat)
    requires size >= 0 && size * BASIS_POINTS <= I128_MAX && bps <= BASIS_POINTS
    ensures 0 <= size * bps <= I128_MAX && size <= I128_MAX
    ensures 0 <= TruncDiv(size * bps, BASIS_POINTS)
  {
    MulNonNegative(size, bps);
    MulNonNegative(size, BASIS_POINTS - bps);
    assert size * (BASIS_POINTS - bps) == size * BASIS_POINTS - size * bps;
    TruncDivBounds(size * bps, BASIS_POINTS);
  }

  // ------------------------------------------------- where the collateral comes from

  /** What is opened after netting against `gross` of opposite size: the size that
      is left, and the collateral scaled down with it. */
  function Netted(collateral: int, size: int, gross: int): (int, int)
    requires size != 0
  {
    if gross == 0 then (collateral, size)
    else (TruncDiv(collateral * (size - gross), size), size - gross)
  }

  /** A plain open and a netted remainder alike open with the initial margin of their size. */
  lemma NettedIsMargin(collateral: int, leverage: nat, gross: int)
    requires collateral > 0 && leverage >= 1 && 0 <= gross < collateral * leverage
    ensures var (c, size) := Netted(collateral, collateral * leverage, gross);
            size == collateral * leverage - gross && size > 0 && TruncDiv(size, leverage) == c
  {
    WholeMargin(collateral, leverage);
    if gross > 0 {
      CommonFactor(collateral * leverage - gross, leverage, collateral);
    }
  }

  /** A common factor does not change a quotient. */
  lemma CommonFactor(x: int, d: int, k: int)
    requires x >= 0 && d > 0 && k > 0
    ensures k * d > 0 && TruncDiv(k * x, k * d) == TruncDiv(x, d)
  {
    CancelFactor(0, d, k);
    MulNonNegative(k, x);
    TruncDivBounds(x, d);
    var q := TruncDiv(x, d);
    CancelFactor(d * q, x, k);
    CancelFactor(x, d * q + d, k);
    Rescale(d, q, k);
    QuotientIs(k * x, k * d, q);
  }

  lemma Rescale(d: int, q: int, k: int)
    ensures (d * q) * k == (k * d) * q && (d * q + d) * k == (k * d) * q + k * d
  {
    assert (d * q) * k == (k * d) * q;
    assert (d * q + d) * k == (d * q) * k + d * k;
  }

  lemma QuotientIs(x: int, d: int, q: int)
    requires x >= 0 && d > 0 && d * q <= x < d * q + d
    ensures TruncDiv(x, d) == q
  {
    var r := TruncDiv(x, d);
    TruncDivBounds(x, d);
    assert (q + 1) * d == d * q + d && (r + 1) * d == d * r + d;
    CancelFactor(r, q + 1, d);
    CancelFactor(q, r + 1, d);
  }

  /** Size over leverage is the collateral again, to the unit. */
  lemma WholeMargin(collateral: int, leverage: nat)
    requires collateral >= 0 && leverage >= 1
    ensures TruncDiv(collateral * leverage, leverage) == collateral
  {
    MulNonNegative(collateral, leverage);
    var q := TruncDiv(collateral * leverage, leverage);
    TruncDivBounds(collateral * leverage, leverage);
    CancelFactor(q, collateral, leverage);
    assert (q + 1) * leverage == q * leverage + leverage;
    CancelFactor(collateral, q + 1, leverage);
  }

  /** The legs of the account are the old ones and the new one. */
  lemma LegsAfterOpen(m: Market, trader: Address, p: Position, collateral: int, bps: nat, price: Symbol -> int,
                      legs: seq<CrossAggregates>, leg: CrossAggregates)
    requires p.id !in m.IdsOf(trader)
    requires LegsOf(m, m.IdsOf(trader), bps, price) == Done(legs)
    requires LegAt(Opened(m, trader, p, collateral), p.id, bps, price) == Done(leg)
    ensures var n := Opened(m, trader, p, collateral);
            LegsOf(n, n.IdsOf(trader), bps, price) == Done(legs + [leg])
  {
    var n := Opened(m, trader, p, collateral);
    var ids := m.IdsOf(trader);
    forall k | 0 <= k < |ids| + 1
      ensures LegAt(n, (ids + [p.id])[k], bps, price) == Done((legs + [leg])[k])
    {
      if k < |ids| {
        LegAtIndex(m, ids, bps, price, k);
        OtherLeg(m, trader, p, collateral, ids[k], bps, price);
      }
    }
    TheseAreTheLegs(n, ids + [p.id], bps, price, legs + [leg]);
  }

  lemma OtherLeg(m: Market, trader: Address, p: Position, collateral: int, id: nat, bps: nat, price: Symbol -> int)
    requires id != p.id
    ensures LegAt(Opened(m, trader, p, collateral), id, bps, price) == LegAt(m, id, bps, price)
  {
    var n := Opened(m, trader, p, collateral);
    if id in m.positions {
      assert n.positions[id] == m.positions[id];
      assert MmBpsFor(n, m.positions[id], bps) == MmBpsFor(m, m.positions[id], bps);
    }
  }

  // -------------------------------------------------------- the account figures

  lemma EquityAfterOpen(m: Market, trader: Address, p: Position, collateral: int, fee: int, price: Symbol -> int,
                        legs: seq<CrossAggregates>, leg: CrossAggregates)
    requires LegsOf(m, m.IdsOf(trader), 0, price) == Done(legs)
    requires Abs(m.BalanceOf(trader)) + Magnitude(legs) + 2 * collateral <= I128_MAX
    requires 0 <= fee < collateral
    requires leg.totalCollateral == collateral - fee && leg.unrealizedPnl == 0 && leg.totalFunding == 0
    requires var n := Opened(m, trader, p, collateral); LegsOf(n, n.IdsOf(trader), 0, price) == Done(legs + [leg])
    ensures CrossEquity(m, trader, price).Done?
    ensures CrossEquity(Opened(m, trader, p, collateral), trader, price)
         == Done(CrossEquity(m, trader, price).value - fee)
  {
    var n := Opened(m, trader, p, collateral);
    AddedLeg(legs, leg, collateral - fee);
    StillInRange(m.BalanceOf(trader), Magnitude(legs), collateral, fee);
    assert n.BalanceOf(trader) == m.BalanceOf(trader) - collateral;
    EquityOfKnownLegs(m, trader, price, legs);
    EquityOfKnownLegs(n, trader, price, legs + [leg]);
  }

  lemma AddedLeg(legs: seq<CrossAggregates>, leg: CrossAggregates, backing: int)
    requires leg.totalCollateral == backing > 0 && leg.unrealizedPnl == 0 && leg.totalFunding == 0
    ensures SumNet(legs + [leg]) == SumNet(legs) + backing
    ensures Magnitude(legs + [leg]) == Magnitude(legs) + backing
  {
    assert (legs + [leg])[..|legs|] == legs;
  }

  lemma StillInRange(balance: int, magnitude: nat, collateral: int, fee: int)
    requires 0 <= fee < collateral && Abs(balance) + magnitude + 2 * collateral <= I128_MAX
    ensures Abs(balance) + magnitude <= I128_MAX
    ensures Abs(balance - collateral) + (magnitude + (collateral - fee)) <= I128_MAX
  {
  }

  lemma MarginsAfterOpen(legs: seq<CrossAggregates>, leg: CrossAggregates)
    requires InI128(Fold(legs).usedMargin + leg.usedMargin) && leg.maintenanceMargin >= 0
    ensures Fold(legs + [leg]).usedMargin == Fold(legs).usedMargin + leg.usedMargin
    ensures Fold(legs + [leg]).maintenanceMargin <= Fold(legs).maintenanceMargin + leg.maintenanceMargin
  {
    FoldNext(legs, leg);
  }

  /** The fee is not part of the gate: after an open the equity is lower by the
      fee and the used margin higher by the collateral. So the account meets the
      initial margin it was gated on exactly when it could have paid the fee on top. */
  lemma OpenIsGatedBeforeTheFee(m: Market, trader: Address, p: Position, collateral: int, fee: int, bps: nat, price: Symbol -> int)
    requires NewRow(m, trader, p, collateral, fee, bps, price) && Roomy(m, trader, collateral, price)
    requires CrossUsedMargin(m, trader).Done? && InI128(CrossUsedMargin(m, trader).value + collateral)
    ensures CrossEquity(m, trader, price).Done?
    ensures var n := Opened(m, trader, p, collateral);
            && CrossEquity(n, trader, price) == Done(CrossEquity(m, trader, price).value - fee)
            && CrossUsedMargin(n, trader) == Done(CrossUsedMargin(m, trader).value + collateral)
            && (CrossEquity(n, trader, price).value >= CrossUsedMargin(n, trader).value <==>
                CrossEquity(m, trader, price).value >= CrossUsedMargin(m, trader).value + collateral + fee)
  {
    EquityFalls(m, trader, p, collateral, fee, bps, price);
    UsedMarginRises(m, trader, p, collateral, fee, bps, price);
  }

  lemma EquityFalls(m: Market, trader: Address, p: Position, collateral: int, fee: int, bps: nat, price: Symbol -> int)
    requires NewRow(m, trader, p, collateral, fee, bps, price) && Roomy(m, trader, collateral, price)
    ensures CrossEquity(m, trader, price).Done?
    ensures CrossEquity(Opened(m, trader, p, collateral), trader, price) == Done(CrossEquity(m, trader, price).value - fee)
  {
    assert NewRow(m, trader, p, collateral, fee, 0, price);
    NewLeg(m, trader, p, collateral, fee, 0, price);
    var legs := LegsOf(m, m.IdsOf(trader), 0, price).value;
    var leg := CrossAggregates(collateral - fee, 0, 0, NewMaintenance(m, p, 0), collateral);
    LegsAfterOpen(m, trader, p, collateral, 0, price, legs, leg);
    EquityAfterOpen(m, trader, p, collateral, fee, price, legs, leg);
  }

  lemma UsedMarginRises(m: Market, trader: Address, p: Position, collateral: int, fee: int, bps: nat, price: Symbol -> int)
    requires NewRow(m, trader, p, collateral, fee, bps, price)
    requires CrossUsedMargin(m, trader).Done? && InI128(CrossUsedMargin(m, trader).value + collateral)
    ensures CrossUsedMargin(Opened(m, trader, p, collateral), trader) == Done(CrossUsedMargin(m, trader).value + collateral)
  {
    NewLegBlind(m, trader, p, collateral, fee, bps, price);
    var leg := LegAt(Opened(m, trader, p, collateral), p.id, 0, NO_PRICE).value;
    var legs := LegsOf(m, m.IdsOf(trader), 0, NO_PRICE).value;
    LegsAfterOpen(m, trader, p, collateral, 0, NO_PRICE, legs, leg);
    UsedOfKnownLegs(m, trader, legs);
    UsedOfKnownLegs(Opened(m, trader, p, collateral), trader, legs + [leg]);
    UsedAdds(legs, leg, collateral);
  }

  lemma UsedOfKnownLegs(m: Market, trader: Address, legs: seq<CrossAggregates>)
    requires LegsOf(m, m.IdsOf(trader), 0, NO_PRICE) == Done(legs)
    ensures CrossUsedMargin(m, trader) == Done(Fold(legs).usedMargin)
  {
  }

  lemma UsedAdds(legs: seq<CrossAggregates>, leg: CrossAggregates, collateral: int)
    requires leg.usedMargin == collateral && InI128(Fold(legs).usedMargin + collateral)
    ensures Fold(legs + [leg]).usedMargin == Fold(legs).usedMargin + collateral
  {
    FoldNext(legs, leg);
  }

  /** A first position opened with the whole pool never has its initial margin
      covered afterwards, unless the fee is zero. */
  lemma FirstOpenMissesInitial(m: Market, trader: Address, p: Position, collateral: int, fee: int, bps: nat, price: Symbol -> int)
    requires NewRow(m, trader, p, collateral, fee, bps, price)
    requires m.IdsOf(trader) == [] && m.BalanceOf(trader) == collateral && 3 * collateral <= I128_MAX
    ensures var n := Opened(m, trader, p, collateral);
            && CrossEquity(n, trader, price) == Done(collateral - fee)
            && CrossUsedMargin(n, trader) == Done(collateral)
  {
    FirstEquity(m, trader, p, collateral, fee, bps, price);
    TheseAreTheLegs(m, [], 0, NO_PRICE, []);
    UsedOfKnownLegs(m, trader, []);
    UsedMarginRises(m, trader, p, collateral, fee, bps, price);
  }

  /** For instance 100 units at leverage one with a fee of one: gated on 100, the
      account holds 99 against an initial margin of 100. */
  lemma OpenLeavesBelowInitial() returns (m: Market, p: Position, price: Symbol -> int)
    ensures NewRow(m, "t", p, 100, 1, 100, price) && GatePasses(m, "t", 100, price)
    ensures var n := Opened(m, "t", p, 100);
            CrossEquity(n, "t", price) == Done(99) && CrossUsedMargin(n, "t") == Done(100)
  {
    m := Market(map[], map[], map["t" := 100], map[], map[], 0);
    p := Position(1, "t", "XLM", 99, 100, 1, Long, 1, 0, 0, 0, 1);
    price := _ => 1;
    TheseAreTheLegs(m, [], 0, price, []);
    TheseAreTheLegs(m, [], 0, NO_PRICE, []);
    EquityOfKnownLegs(m, "t", price, []);
    UsedOfKnownLegs(m, "t", []);
    FirstOpenMissesInitial(m, "t", p, 100, 1, 100, price);
  }

  /** With another position open as well: an account just at the gate passes it and is
      left at 199 against an initial margin of 200. */
  lemma SecondOpenLeavesBelowInitial() returns (m: Market, p: Position, price: Symbol -> int)
    ensures m.IdsOf("t") != [] && NewRow(m, "t", p, 100, 1, 100, price) && GatePasses(m, "t", 100, price)
    ensures var n := Opened(m, "t", p, 100);
            CrossEquity(n, "t", price) == Done(199) && CrossUsedMargin(n, "t") == Done(200)
  {
    var q := Position(1, "t", "XLM", 100, 100, 1, Long, 1, 0, 0, 0, 1);
    m := Market(map[1 := q], map["t" := [1]], map["t" := 100], map[], map[], 0);
    p := Position(2, "t", "XLM", 99, 100, 1, Long, 1, 0, 0, 0, 1);
    price := _ => 1;
    OneOpen(m, q, price);
    SecondRow(m, q, p, price);
    AtTheGate(m, price);
    OneOpenIsRoomy(m, price);
    OpenIsGatedBeforeTheFee(m, "t", p, 100, 1, 100, price);
  }

  lemma AtTheGate(m: Market, price: Symbol -> int)
    requires m.BalanceOf("t") == 100 && CrossEquity(m, "t", price) == Done(200) && CrossUsedMargin(m, "t") == Done(100)
    ensures GatePasses(m, "t", 100, price)
  {
  }

  lemma SecondRow(m: Market, q: Position, p: Position, price: Symbol -> int)
    requires m == Market(map[1 := q], map["t" := [1]], map["t" := 100], map[], map[], 0) && price("XLM") == 1
    requires p == Position(2, "t", "XLM", 99, 100, 1, Long, 1, 0, 0, 0, 1)
    ensures NewRow(m, "t", p, 100, 1, 100, price) && m.IdsOf("t") == [1] && m.BalanceOf("t") == 100
  {
  }

  lemma OneOpenIsRoomy(m: Market, price: Symbol -> int)
    requires m.IdsOf("t") == [1] && m.BalanceOf("t") == 100
    requires LegsOf(m, [1], 0, price) == Done([CrossAggregates(100, 0, 0, 0, 100)])
    ensures Roomy(m, "t", 100, price)
  {
    var leg := CrossAggregates(100, 0, 0, 0, 100);
    assert [leg][..0] == [];
    assert Magnitude([leg]) == 100;
  }

  lemma OneOpen(m: Market, q: Position, price: Symbol -> int)
    requires q == Position(1, "t", "XLM", 100, 100, 1, Long, 1, 0, 0, 0, 1)
    requires m == Market(map[1 := q], map["t" := [1]], map["t" := 100], map[], map[], 0) && price("XLM") == 1
    ensures LegsOf(m, [1], 0, price) == Done([CrossAggregates(100, 0, 0, 0, 100)])
    ensures CrossEquity(m, "t", price) == Done(200) && CrossUsedMargin(m, "t") == Done(100)
  {
    assert LegAt(m, 1, 0, price) == Done(CrossAggregates(100, 0, 0, 0, 100));
    assert LegAt(m, 1, 0, NO_PRICE) == Done(CrossAggregates(100, -100, 0, 0, 100));
    TheseAreTheLegs(m, [1], 0, price, [CrossAggregates(100, 0, 0, 0, 100)]);
    TheseAreTheLegs(m, [1], 0, NO_PRICE, [CrossAggregates(100, -100, 0, 0, 100)]);
    FoldOne(CrossAggregates(100, 0, 0, 0, 100));
    FoldOne(CrossAggregates(100, -100, 0, 0, 100));
    UsedOfKnownLegs(m, "t", [CrossAggregates(100, -100, 0, 0, 100)]);
  }

  // ------------------------------------------------------------------- safety

  /** The gate's inequality also holds for the first position of an account. */
  lemma GateCovers(m: Market, trader: Address, collateral: int, price: Symbol -> int)
    requires GatePasses(m, trader, collateral, price) && Roomy(m, trader, collateral, price) && collateral >= 0
    ensures CrossEquity(m, trader, price).value >= CrossUsedMargin(m, trader).value + collateral
  {
    if m.IdsOf(trader) == [] {
      TheseAreTheLegs(m, [], 0, price, []);
      TheseAreTheLegs(m, [], 0, NO_PRICE, []);
    }
  }

  lemma OldLegsAfterOpen(m: Market, trader: Address, p: Position, collateral: int, bps: nat, price: Symbol -> int)
    requires p.id !in m.IdsOf(trader)
    requires var n := Opened(m, trader, p, collateral); LegsOf(n, n.IdsOf(trader), bps, price).Done?
    ensures LegsOf(m, m.IdsOf(trader), bps, price).Done?
  {
    var n, ids := Opened(m, trader, p, collateral), m.IdsOf(trader);
    assert (ids + [p.id])[..|ids|] == ids;
    InitialLegs(n, ids + [p.id], bps, price);
    forall k | 0 <= k < |ids|
      ensures LegAt(m, ids[k], bps, price) == LegAt(n, ids[k], bps, price)
    {
      OtherLeg(m, trader, p, collateral, ids[k], bps, price);
    }
    SameLegs(m, n, ids, bps, price);
  }

  /** The maintenance margin after an open is at most the old initial margins and the new position's own. */
  lemma MaintenanceAfterOpen(m: Market, trader: Address, p: Position, collateral: int, fee: int, bps: nat, price: Symbol -> int)
    requires NewRow(m, trader, p, collateral, fee, bps, price)
    requires AllBounded(m, m.IdsOf(trader), bps) && InitialMargins(m, m.IdsOf(trader)) <= I128_MAX
    requires CrossUsedMargin(m, trader).Done? && InI128(CrossUsedMargin(m, trader).value + collateral)
    ensures var n := Opened(m, trader, p, collateral);
            var agg := Aggregate(n, n.IdsOf(trader), bps, price);
            agg.Done? ==> agg.value.maintenanceMargin <= CrossUsedMargin(m, trader).value + NewMaintenance(m, p, bps)
  {
    var n, ids := Opened(m, trader, p, collateral), m.IdsOf(trader);
    if LegsOf(n, n.IdsOf(trader), bps, price).Done? {
      OldLegsAfterOpen(m, trader, p, collateral, bps, price);
      NewLeg(m, trader, p, collateral, fee, bps, price);
      NewMaintenanceInRange(m, p, bps);
      var legs := LegsOf(m, ids, bps, price).value;
      var leg := CrossAggregates(collateral - fee, 0, 0, NewMaintenance(m, p, bps), collateral);
      LegsAfterOpen(m, trader, p, collateral, bps, price, legs, leg);
      UsedCoversMaintenance(m, ids, bps, price);
      PassesAgree(m, ids, bps, 0, price, NO_PRICE);
      MarginsAfterOpen(legs, leg);
    }
  }

  /** An open that passes the gate leaves an account that cannot be liquidated at
      the same prices, as long as the fee and the new position's maintenance
      margin fit into its collateral. */
  lemma OpenGateSafe(m: Market, trader: Address, p: Position, collateral: int, fee: int, bps: nat, price: Symbol -> int)
    requires NewRow(m, trader, p, collateral, fee, bps, price) && Roomy(m, trader, collateral, price)
    requires GatePasses(m, trader, collateral, price)
    requires AllBounded(m, m.IdsOf(trader), bps) && InitialMargins(m, m.IdsOf(trader)) <= I128_MAX
    requires fee + NewMaintenance(m, p, bps) <= collateral
    ensures IsCrossAccountLiquidatable(Opened(m, trader, p, collateral), trader, bps, price) != Done(true)
  {
    var n := Opened(m, trader, p, collateral);
    GateCovers(m, trader, collateral, price);
    EquityFalls(m, trader, p, collateral, fee, bps, price);
    MaintenanceAfterOpen(m, trader, p, collateral, fee, bps, price);
    if Aggregate(n, n.IdsOf(trader), bps, price).Done? {
      LiquidationTest(n, trader, bps, price);
    }
  }

  /** For the first position of an account, opened with all that the pool holds,
      the condition is exact: without it the position is liquidatable at once. */
  lemma FirstOpenExactly(m: Market, trader: Address, p: Position, collateral: int, fee: int, bps: nat, price: Symbol -> int)
    requires NewRow(m, trader, p, collateral, fee, bps, price)
    requires m.IdsOf(trader) == [] && m.BalanceOf(trader) == collateral && 3 * collateral <= I128_MAX
    ensures IsCrossAccountLiquidatable(Opened(m, trader, p, collateral), trader, bps, price)
         == Done(fee + NewMaintenance(m, p, bps) > collateral)
  {
    FirstEquity(m, trader, p, collateral, fee, bps, price);
    FirstMaintenance(m, trader, p, collateral, fee, bps, price);
    LiquidationTest(Opened(m, trader, p, collateral), trader, bps, price);
  }

  lemma FirstEquity(m: Market, trader: Address, p: Position, collateral: int, fee: int, bps: nat, price: Symbol -> int)
    requires NewRow(m, trader, p, collateral, fee, bps, price)
    requires m.IdsOf(trader) == [] && m.BalanceOf(trader) == collateral && 3 * collateral <= I128_MAX
    ensures CrossEquity(Opened(m, trader, p, collateral), trader, price) == Done(collateral - fee)
  {
    TheseAreTheLegs(m, [], 0, price, []);
    EquityOfKnownLegs(m, trader, price, []);
    EquityFalls(m, trader, p, collateral, fee, bps, price);
  }

  lemma FirstMaintenance(m: Market, trader: Address, p: Position, collateral: int, fee: int, bps: nat, price: Symbol -> int)
    requires NewRow(m, trader, p, collateral, fee, bps, price) && m.IdsOf(trader) == []
    ensures var n := Opened(m, trader, p, collateral);
            var agg := Aggregate(n, n.IdsOf(trader), bps, price);
            agg.Done? && agg.value.maintenanceMargin == NewMaintenance(m, p, bps)
  {
    NewLeg(m, trader, p, collateral, fee, bps, price);
    NewMaintenanceInRange(m, p, bps);
    var leg := CrossAggregates(collateral - fee, 0, 0, NewMaintenance(m, p, bps), collateral);
    TheseAreTheLegs(m, [], bps, price, []);
    LegsAfterOpen(m, trader, p, collateral, bps, price, [], leg);
    assert [] + [leg] == [leg];
    FoldOne(leg);
  }

  lemma NewMaintenanceInRange(m: Market, p: Position, bps: nat)
    requires p.size > 0 && p.size * BASIS_POINTS <= I128_MAX && MmBpsFor(m, p, bps) <= BASIS_POINTS
    ensures 0 <= NewMaintenance(m, p, bps) <= I128_MAX
  {
    ScaledInRange(p.size, MmBpsFor(m, p, bps));
    TruncDivBounds(p.size * MmBpsFor(m, p, bps), BASIS_POINTS);
  }

  /** Under a valid ladder every open fits: the base taker rate and the ladder's
      leverage cap keep the fee near an eightieth of the collateral, and the
      maintenance margin is about half of it at most. */
  lemma LadderOpensFit(m: Market, p: Position, collateral: int, fee: int, bps: nat)
    requires m.riskEpochTs != 0 && p.timestamp >= m.riskEpochTs
    requires p.asset in m.assetRisk && m.assetRisk[p.asset].IsValid()
    requires 1 <= p.leverage <= m.assetRisk[p.asset].maxLeverage
    requires collateral > 0 && p.size > 0 && TruncDiv(p.size, p.leverage) == collateral
    requires FeeTiers.TieredFee(p.size, false, FeeTiers.BASE).Done?
    requires 0 <= fee <= FeeTiers.TieredFee(p.size, false, FeeTiers.BASE).value
    ensures fee + NewMaintenance(m, p, bps) <= collateral
  {
    var risk := m.assetRisk[p.asset];
    LadderAppliesToNewPositions(m, p.(size := 0), bps);
    CapAtMost25(risk.imBps);
    TruncDivBounds(p.size, p.leverage);
    TruncDivBounds(p.size * 50, FeeTiers.FEE_PRECISION);
    assert p.size < (collateral + 1) * p.leverage;
    FeeWithinEightieth(p.size, collateral, p.leverage, fee);
    HalfOfCollateral(p.size, collateral, p.leverage, risk.mmBps);
  }

  lemma CapAtMost25(imBps: nat)
    requires imBps >= 400
    ensures 10_000 / imBps <= 25
  {
  }

  lemma FeeWithinEightieth(size: int, collateral: int, leverage: nat, fee: int)
    requires collateral > 0 && leverage <= 25 && size < (collateral + 1) * leverage && 100_000 * fee <= size * 50
    ensures 80 * fee < collateral + 1
  {
    CancelFactor(leverage, 25, collateral + 1);
    assert leverage * (collateral + 1) == (collateral + 1) * leverage;
  }

  lemma HalfOfCollateral(size: int, collateral: int, leverage: nat, mmBps: nat)
    requires size > 0 && leverage >= 1 && size < (collateral + 1) * leverage && 2 * leverage * mmBps <= BASIS_POINTS
    ensures 2 * TruncDiv(size * mmBps, BASIS_POINTS) < collateral + 1
  {
    MulNonNegative(size, mmBps);
    TruncDivBounds(size * mmBps, BASIS_POINTS);
    CancelFactor(0, collateral + 1, leverage);
    if mmBps > 0 {
      TwiceMargin(size, collateral + 1, leverage, mmBps);
    }
  }

  lemma TwiceMargin(size: int, most: int, leverage: nat, mmBps: nat)
    requires most > 0 && mmBps > 0 && size < most * leverage && 2 * leverage * mmBps <= BASIS_POINTS
    ensures 2 * (size * mmBps) < most * BASIS_POINTS
  {
    CancelFactor(size, most * leverage, mmBps);
    Reorder(most, leverage, mmBps);
    CancelFactor(2 * leverage * mmBps, BASIS_POINTS, most);
  }

  lemma Reorder(most: int, leverage: int, mmBps: int)
    ensures 2 * (most * leverage * mmBps) == (2 * leverage * mmBps) * most
  {
  }
}
