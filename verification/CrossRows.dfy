/**
 The account's figures in terms of its stored rows alone: what each position is
 worth, and how the funding index moves it.
 */
module CrossRows {
  import opened Fixed
  import opened Types
  import opened RiskMath
  import opened CrossMargin

  // ---------------------------------------------------------------------- one row

  /** Signed size times relative price change, cut toward zero; the loss of the whole
      size where no profit can be computed. */
  function RowProfit(p: Position, price: int): int {
    var gain := Signed(p.direction, p.size) * (price - p.entryPrice);
    if price <= 0 || p.entryPrice == 0 || !InI128(gain) then -p.size else TruncDiv(gain, p.entryPrice)
  }

  /** What the row owes, times PRECISION: signed size times the index change since entry. */
  function Accrued(p: Position, index: int): int {
    Signed(p.direction, p.size) * (index - p.entryCumulativeFunding)
  }

  function RowNet(p: Position, price: int, index: int): int {
    p.collateral + RowProfit(p, price) - TruncDiv(Accrued(p, index), PRECISION)
  }

  lemma LegIsRow(m: Market, p: Position, bps: nat, price: Symbol -> int)
    requires LegOf(m, p, bps, price).Done?
    ensures Net(LegOf(m, p, bps, price).value) == RowNet(p, price(p.asset), m.FundingIndex(p.asset))
    ensures LegOf(m, p, bps, price).value.maintenanceMargin == TruncDiv(p.size * MmBpsFor(m, p, bps), BASIS_POINTS)
  {
    FundingIsRounded(p.size, p.direction, p.entryCumulativeFunding, m.FundingIndex(p.asset));
    ProfitIsSigned(p, price(p.asset));
  }

  lemma ProfitIsSigned(p: Position, price: int)
    requires LegPnl(p, price).Done?
    ensures LegPnl(p, price).value == RowProfit(p, price)
  {
    assert p.size * (p.entryPrice - price) == -p.size * (price - p.entryPrice);
  }

  /** A profit that overflows counts as the loss of the whole size and does not stop the
      pass; it stops exactly when the size cannot be negated, or the move or the final
      quotient leaves the 128-bit range. */
  lemma ProfitStopsExactly(p: Position, price: int)
    ensures LegPnl(p, price) == Trap <==>
            !InI128(-p.size) || (price > 0 && p.entryPrice != 0 && MoveStops(p, price))
  {
    assert Signed(p.direction, 1) * (price - p.entryPrice) == FavourableMove(p.direction, p.entryPrice, price);
    assert Signed(p.direction, p.size) * (price - p.entryPrice) == p.size * FavourableMove(p.direction, p.entryPrice, price);
  }

  predicate MoveStops(p: Position, price: int)
    requires p.entryPrice != 0
  {
    var move, gain := Signed(p.direction, 1) * (price - p.entryPrice), Signed(p.direction, p.size) * (price - p.entryPrice);
    !InI128(move) || (InI128(gain) && !InI128(TruncDiv(gain, p.entryPrice)))
  }

  // ------------------------------------------------------------------------- equity

  /** What all rows are worth; ids without a row count nothing. */
  function RowsWorth(m: Market, ids: seq<nat>, price: Symbol -> int): int {
    if ids == [] then 0 else RowsWorth(m, ids[..|ids| - 1], price) + WorthAt(m, ids[|ids| - 1], price)
  }

  function WorthAt(m: Market, id: nat, price: Symbol -> int): int {
    if id in m.positions
    then RowNet(m.positions[id], price(m.positions[id].asset), m.FundingIndex(m.positions[id].asset)) else 0
  }

  lemma {:induction false} LegsAreRows(m: Market, ids: seq<nat>, price: Symbol -> int)
    requires LegsOf(m, ids, 0, price).Done?
    ensures SumNet(LegsOf(m, ids, 0, price).value) == RowsWorth(m, ids, price)
  {
    if ids != [] {
      var n := |ids| - 1;
      InitialLegs(m, ids, 0, price);
      LegsAreRows(m, ids[..n], price);
      LegAtIndex(m, ids, 0, price, n);
      if ids[n] in m.positions {
        LegIsRow(m, m.positions[ids[n]], 0, price);
      }
    }
  }

  /** Within range the equity is the balance and what the stored rows are worth:
      collateral, signed profit, less funding owed. */
  lemma EquityFromRows(m: Market, trader: Address, price: Symbol -> int)
    requires Fits(m, trader, price)
    ensures CrossEquity(m, trader, price) == Done(m.BalanceOf(trader) + RowsWorth(m, m.IdsOf(trader), price))
  {
    EquityIsExact(m, trader, price);
    LegsAreRows(m, m.IdsOf(trader), price);
  }

  /** Collateral and profit of all rows. */
  function RowsGross(m: Market, ids: seq<nat>, price: Symbol -> int): int {
    if ids == [] then 0
    else
      var id := ids[|ids| - 1];
      RowsGross(m, ids[..|ids| - 1], price)
      + if id in m.positions then m.positions[id].collateral + RowProfit(m.positions[id], price(m.positions[id].asset)) else 0
  }

  /** The exact funding owed by all rows, times PRECISION. */
  function RowsAccrued(m: Market, ids: seq<nat>): int {
    if ids == [] then 0
    else
      var id := ids[|ids| - 1];
      RowsAccrued(m, ids[..|ids| - 1])
      + if id in m.positions then Accrued(m.positions[id], m.FundingIndex(m.positions[id].asset)) else 0
  }

  lemma RoundedOnce(x: int)
    ensures Abs(x - TruncDiv(x, PRECISION) * PRECISION) <= PRECISION - 1
  {
    TruncDivBounds(x, PRECISION);
  }

  lemma {:induction false} WorthUpToRounding(m: Market, ids: seq<nat>, price: Symbol -> int)
    ensures Abs((RowsGross(m, ids, price) - RowsWorth(m, ids, price)) * PRECISION - RowsAccrued(m, ids)) <= |ids| * (PRECISION - 1)
  {
    if ids != [] {
      var n := |ids| - 1;
      WorthUpToRounding(m, ids[..n], price);
      if ids[n] in m.positions {
        RoundedOnce(Accrued(m.positions[ids[n]], m.FundingIndex(m.positions[ids[n]].asset)));
      }
    }
  }

  /** Funding is subtracted exactly, up to less than one unit per leg: balance,
      collateral and profit exceed the equity by the sum of signed size times index
      change over PRECISION. */
  lemma EquityLessFunding(m: Market, trader: Address, price: Symbol -> int)
    requires Fits(m, trader, price)
    ensures CrossEquity(m, trader, price).Done?
    ensures var ids := m.IdsOf(trader);
            Abs((m.BalanceOf(trader) + RowsGross(m, ids, price) - CrossEquity(m, trader, price).value) * PRECISION - RowsAccrued(m, ids))
              <= |ids| * (PRECISION - 1)
  {
    EquityFromRows(m, trader, price);
    WorthUpToRounding(m, m.IdsOf(trader), price);
  }

  // ------------------------------------------------------------------------ margins

  function RowsMaintenance(m: Market, ids: seq<nat>, bps: nat): int {
    if ids == [] then 0
    else
      var id := ids[|ids| - 1];
      RowsMaintenance(m, ids[..|ids| - 1], bps)
      + if id in m.positions then TruncDiv(m.positions[id].size * MmBpsFor(m, m.positions[id], bps), BASIS_POINTS) else 0
  }

  function SumMaintenance(legs: seq<CrossAggregates>): int {
    if legs == [] then 0 else SumMaintenance(legs[..|legs| - 1]) + legs[|legs| - 1].maintenanceMargin
  }

  lemma {:induction false} CoveredMaintenanceAddsUp(legs: seq<CrossAggregates>)
    requires forall k :: 0 <= k < |legs| ==> CoveredLeg(legs[k])
    requires SumUsed(legs) <= I128_MAX
    ensures 0 <= SumMaintenance(legs) <= SumUsed(legs)
    ensures Fold(legs).maintenanceMargin == SumMaintenance(legs)
  {
    if legs != [] {
      SumUsedNonNegative(legs[..|legs| - 1]);
      CoveredMaintenanceAddsUp(legs[..|legs| - 1]);
    }
  }

  lemma {:induction false} MaintenanceOfLegs(m: Market, ids: seq<nat>, bps: nat, price: Symbol -> int)
    requires LegsOf(m, ids, bps, price).Done?
    ensures SumMaintenance(LegsOf(m, ids, bps, price).value) == RowsMaintenance(m, ids, bps)
  {
    if ids != [] {
      var n := |ids| - 1;
      InitialLegs(m, ids, bps, price);
      MaintenanceOfLegs(m, ids[..n], bps, price);
      LegAtIndex(m, ids, bps, price, n);
      if ids[n] in m.positions {
        LegIsRow(m, m.positions[ids[n]], bps, price);
      }
    }
  }

  /** For bounded positions the maintenance margin is the sum over the rows of size
      times the margin that applies to each, rounded down row by row. */
  lemma MaintenanceFromRows(m: Market, trader: Address, bps: nat)
    requires AllBounded(m, m.IdsOf(trader), bps) && InitialMargins(m, m.IdsOf(trader)) <= I128_MAX
    requires CrossMaintenanceMargin(m, trader, bps).Done?
    ensures CrossMaintenanceMargin(m, trader, bps).value == RowsMaintenance(m, m.IdsOf(trader), bps)
  {
    var ids := m.IdsOf(trader);
    InitialMarginsAreUsed(m, ids, bps, NO_PRICE);
    CoveredMaintenanceAddsUp(LegsOf(m, ids, bps, NO_PRICE).value);
    MaintenanceOfLegs(m, ids, bps, NO_PRICE);
  }

  // -------------------------------------------------------------- a moving index

  /** One asset's funding index raised by `d`. */
  function Raised(m: Market, asset: Symbol, d: int): Market {
    m.(cumulativeFunding := m.cumulativeFunding[asset := m.FundingIndex(asset) + d])
  }

  /** Signed size of the row, if it is on the asset. */
  function SignedOn(m: Market, id: nat, asset: Symbol): int {
    if id in m.positions && m.positions[id].asset == asset
    then Signed(m.positions[id].direction, m.positions[id].size) else 0
  }

  /** Net signed size on the asset. */
  function NetOn(m: Market, ids: seq<nat>, asset: Symbol): int {
    if ids == [] then 0 else NetOn(m, ids[..|ids| - 1], asset) + SignedOn(m, ids[|ids| - 1], asset)
  }

  /** What rounding may cost a row: once, or twice when it turns from paying to receiving. */
  function Slack(before: int, after: int): nat {
    if (before < 0 < after) || (after < 0 < before) then 2 * (PRECISION - 1) else PRECISION - 1
  }

  function RowSlack(m: Market, id: nat, asset: Symbol, d: int): nat {
    if id in m.positions && m.positions[id].asset == asset
    then Slack(Accrued(m.positions[id], m.FundingIndex(asset)), Accrued(m.positions[id], m.FundingIndex(asset) + d)) else 0
  }

  function RowsSlack(m: Market, ids: seq<nat>, asset: Symbol, d: int): nat {
    if ids == [] then 0 else RowsSlack(m, ids[..|ids| - 1], asset, d) + RowSlack(m, ids[|ids| - 1], asset, d)
  }

  lemma RoundedStep(before: int, after: int)
    ensures Abs((TruncDiv(after, PRECISION) - TruncDiv(before, PRECISION)) * PRECISION - (after - before)) <= Slack(before, after)
  {
    TruncDivBounds(before, PRECISION);
    TruncDivBounds(after, PRECISION);
  }

  lemma RowMoves(p: Position, price: int, index: int, d: int)
    ensures Accrued(p, index + d) - Accrued(p, index) == Signed(p.direction, p.size) * d
    ensures Abs((RowNet(p, price, index) - RowNet(p, price, index + d)) * PRECISION - Signed(p.direction, p.size) * d)
              <= Slack(Accrued(p, index), Accrued(p, index + d))
  {
    var signed, since := Signed(p.direction, p.size), index - p.entryCumulativeFunding;
    assert signed * (since + d) == signed * since + signed * d;
    RoundedStep(Accrued(p, index), Accrued(p, index + d));
  }

  lemma RowMovesAt(m: Market, id: nat, price: Symbol -> int, asset: Symbol, d: int)
    ensures Abs((WorthAt(m, id, price) - WorthAt(Raised(m, asset, d), id, price)) * PRECISION - SignedOn(m, id, asset) * d)
              <= RowSlack(m, id, asset, d)
  {
    if id in m.positions && m.positions[id].asset == asset {
      RowMoves(m.positions[id], price(asset), m.FundingIndex(asset), d);
    }
  }

  lemma {:induction false} RowsMove(m: Market, ids: seq<nat>, price: Symbol -> int, asset: Symbol, d: int)
    ensures Abs((RowsWorth(m, ids, price) - RowsWorth(Raised(m, asset, d), ids, price)) * PRECISION - NetOn(m, ids, asset) * d)
              <= RowsSlack(m, ids, asset, d)
  {
    if ids != [] {
      var init, id, n := ids[..|ids| - 1], ids[|ids| - 1], Raised(m, asset, d);
      RowsMove(m, init, price, asset, d);
      RowMovesAt(m, id, price, asset, d);
      AddMoves(RowsWorth(m, init, price), RowsWorth(n, init, price), NetOn(m, init, asset),
               WorthAt(m, id, price), WorthAt(n, id, price), SignedOn(m, id, asset), d);
    }
  }

  lemma AddMoves(a: int, a': int, net: int, b: int, b': int, signed: int, d: int)
    ensures Abs((a + b - (a' + b')) * PRECISION - (net + signed) * d)
              <= Abs((a - a') * PRECISION - net * d) + Abs((b - b') * PRECISION - signed * d)
  {
    assert (net + signed) * d == net * d + signed * d;
  }

  /** Raising one asset's index by `d` takes the net signed size on that asset, times
      `d / PRECISION`, from the equity, up to rounding: less than one unit per leg on
      the asset, less than two for a leg that turns from paying to receiving or back. */
  lemma IndexMovesEquity(m: Market, trader: Address, price: Symbol -> int, asset: Symbol, d: int)
    requires Fits(m, trader, price) && Fits(Raised(m, asset, d), trader, price)
    ensures CrossEquity(m, trader, price).Done? && CrossEquity(Raised(m, asset, d), trader, price).Done?
    ensures var ids := m.IdsOf(trader);
            Abs((CrossEquity(m, trader, price).value - CrossEquity(Raised(m, asset, d), trader, price).value) * PRECISION
                - NetOn(m, ids, asset) * d) <= RowsSlack(m, ids, asset, d)
  {
    EquityFromRows(m, trader, price);
    EquityFromRows(Raised(m, asset, d), trader, price);
    RowsMove(m, m.IdsOf(trader), price, asset, d);
  }

  /** The second unit is real: a long that turns from receiving to paying just short of
      one unit each way moves by nothing where the exact change is nearly two. */
  lemma TurningCostsTwo()
    ensures var p := Position(1, "t", "XLM", 1, 1, 1, Long, 1, 0, 0, PRECISION - 1, 1);
            && RowNet(p, 1, 0) == RowNet(p, 1, 2 * (PRECISION - 1))
            && Signed(p.direction, p.size) * (2 * (PRECISION - 1)) == 2 * (PRECISION - 1)
  {
  }
}
