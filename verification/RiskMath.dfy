/**
 The market's fixed-point formulas: profit and loss, liquidation price, funding.
 */
module RiskMath {
  import opened Fixed
  import opened Types

  /** One basis point in PRECISION units. */
  const BP: int := PRECISION / BASIS_POINTS

  // ---------------------------------------------------------------- formulas

  /** Price change in the position's favour. */
  function FavourableMove(direction: Direction, entryPrice: int, price: int): int {
    match direction
    case Long => price - entryPrice
    case Short => entryPrice - price
  }

  function CalculatePnl(p: Position, price: int): Outcome<int> {
    if p.entryPrice == 0 then Fail(DivisionByZero)
    else
      var move := FavourableMove(p.direction, p.entryPrice, price);
      if !InI128(move) then Trap
      else if !InI128(p.size * move) then Fail(Overflow)
      else Checked(TruncDiv(p.size * move, p.entryPrice))
  }

  function CalculatePositionValue(p: Position, price: int, funding: int): Outcome<int> {
    var pnl :- CalculatePnl(p, price);
    if !InI128(p.collateral + pnl) || !InI128(p.collateral + pnl - funding) then Fail(Overflow)
    else Done(p.collateral + pnl - funding)
  }

  function CalculateLiquidationPrice(entryPrice: int, leverage: nat, direction: Direction, mmBps: nat): Outcome<int> {
    if leverage == 0 then Trap
    else if !InI128(entryPrice * Adjustment(leverage, mmBps)) then Trap
    else
      match direction
      case Long => Checked(entryPrice - Distance(entryPrice, leverage, mmBps))
      case Short => Checked(entryPrice + Distance(entryPrice, leverage, mmBps))
  }

  /** `1 / leverage - maintenance margin`, in PRECISION units. */
  function Adjustment(leverage: nat, mmBps: nat): int
    requires leverage != 0
  {
    PRECISION / leverage - mmBps * PRECISION / BASIS_POINTS
  }

  /** The distance from entry price to liquidation price. */
  function Distance(entryPrice: int, leverage: nat, mmBps: nat): int
    requires leverage != 0
  {
    TruncDiv(entryPrice * Adjustment(leverage, mmBps), PRECISION)
  }

  predicate ShouldLiquidate(p: Position, price: int) {
    match p.direction
    case Long => price <= p.liquidationPrice
    case Short => price >= p.liquidationPrice
  }

  /** The market's liquidation test: the stored price, or a margin below maintenance. */
  function MarketLiquidates(p: Position, mmBps: nat, price: int, funding: int): Outcome<bool> {
    if ShouldLiquidate(p, price) then Done(true)
    else if CalculatePnl(p, price).Trap? then Trap
    else
      var pnl := match CalculatePnl(p, price) { case Done(v) => v case _ => 0 };
      if !InI128(p.collateral + pnl) then Trap
      else
        var margin :- Checked(p.collateral + pnl - funding);
        var scaled :- Checked(p.size * mmBps);
        Done(margin < TruncDiv(scaled, BASIS_POINTS))
  }

  function CalculateCumulativeFunding(size: int, direction: Direction, entry: int, current: int): Outcome<int> {
    var delta := current - entry;
    if !InI128(delta) then Trap
    else if delta == 0 then Done(0)
    else if !InI128(size * delta) then Trap
    else
      var raw := TruncDiv(size * delta, PRECISION);
      match direction
      case Long => Done(raw)
      case Short => Checked(-raw)
  }

  function FundingVelocity(netSkew: int, skewScale: int, maxVelocityBps: nat, elapsedSeconds: nat): Outcome<int> {
    if skewScale <= 0 || elapsedSeconds == 0 then Done(0)
    else if !InI128(maxVelocityBps * PRECISION * netSkew) then Trap
    else
      var perDay := TruncDiv(maxVelocityBps * PRECISION * netSkew, skewScale);
      if !InI128(perDay * elapsedSeconds) then Trap
      else Done(TruncDiv(perDay * elapsedSeconds, 86_400))
  }

  // ------------------------------------------------------- liquidation price

  /** A position as the market stores it on opening: `fee` has left the collateral,
      which before that was the initial margin of the size, rounded down when a
      netted remainder is opened. The liquidation price comes from the formula, and
      leverage times maintenance margin does not exceed one. */
  predicate OpenedWith(p: Position, fee: int, mmBps: nat) {
    && p.size > 0 && p.collateral > 0 && fee >= 0
    && p.leverage >= 1
    && p.entryPrice > 0
    && p.collateral + fee == TruncDiv(p.size, p.leverage)
    && p.leverage * mmBps <= BASIS_POINTS
    && CalculateLiquidationPrice(p.entryPrice, p.leverage, p.direction, mmBps) == Done(p.liquidationPrice)
  }

  /** What rounding took from the collateral, times leverage: zero for a plain open. */
  function Remainder(p: Position, fee: int): int {
    p.size - (p.collateral + fee) * p.leverage
  }

  lemma RemainderBounds(p: Position, fee: int, mmBps: nat)
    requires OpenedWith(p, fee, mmBps)
    ensures 0 <= Remainder(p, fee) < p.leverage
  {
    TruncDivBounds(p.size, p.leverage);
  }

  /** The liquidation test is a test on the favourable move alone, the same for both directions. */
  lemma LiquidationIsMoveAgainst(p: Position, mmBps: nat, price: int)
    requires p.leverage >= 1
    requires CalculateLiquidationPrice(p.entryPrice, p.leverage, p.direction, mmBps) == Done(p.liquidationPrice)
    ensures ShouldLiquidate(p, price) <==>
            FavourableMove(p.direction, p.entryPrice, price) <= -Distance(p.entryPrice, p.leverage, mmBps)
  {
    var distance := Distance(p.entryPrice, p.leverage, mmBps);
    match p.direction {
      case Long => assert p.liquidationPrice == p.entryPrice - distance;
      case Short => assert p.liquidationPrice == p.entryPrice + distance;
    }
  }

  /** A bounded position has a liquidation price between zero and twice its entry price,
      on the losing side, unless the product with the adjustment leaves the range. */
  lemma LiquidationPriceExists(entryPrice: int, leverage: nat, direction: Direction, mmBps: nat)
    requires entryPrice > 0 && leverage >= 1 && leverage * mmBps <= BASIS_POINTS && 2 * entryPrice <= I128_MAX
    ensures var r := CalculateLiquidationPrice(entryPrice, leverage, direction, mmBps);
            if entryPrice * Adjustment(leverage, mmBps) <= I128_MAX
            then r.Done? && if direction == Long then 0 <= r.value <= entryPrice else entryPrice <= r.value <= 2 * entryPrice
            else r == Trap
  {
    var adj := Adjustment(leverage, mmBps);
    AdjustmentBounds(1, leverage, mmBps);
    assert adj <= PRECISION;
    MulNonNegative(entryPrice, adj);
    CancelFactor(adj, PRECISION, entryPrice);
    TruncDivBounds(entryPrice * adj, PRECISION);
    TruncDivAtMost(entryPrice * adj, PRECISION, entryPrice);
  }

  lemma BpExact(mmBps: nat)
    ensures mmBps * PRECISION / BASIS_POINTS == mmBps * BP
  {
  }

  lemma FractionFloor(leverage: nat)
    requires leverage >= 1
    ensures PRECISION - leverage + 1 <= leverage * (PRECISION / leverage) <= PRECISION
  {
  }

  lemma AdjustmentBounds(size: int, leverage: nat, mmBps: nat)
    requires size > 0 && leverage >= 1 && leverage * mmBps <= BASIS_POINTS
    ensures var adj := Adjustment(leverage, mmBps);
            && adj >= 0
            && (size * leverage) * adj <= size * (PRECISION - BP * (leverage * mmBps))
            && size * PRECISION <= (size * leverage) * (adj + mmBps * BP + 1) - size
            && (leverage * mmBps == BASIS_POINTS ==> adj == 0)
  {
    BpExact(mmBps);
    FractionFloor(leverage);
    assert leverage * (mmBps * BP) == BP * (leverage * mmBps);
    AdjustmentScaled(size, leverage, PRECISION, PRECISION / leverage, mmBps * BP);
  }

  /** The same with one in any unit `one`, the fraction `1 / leverage` floored and the margin exact. */
  lemma AdjustmentScaled(size: int, leverage: int, one: int, fraction: int, margin: int)
    requires size > 0 && leverage >= 1 && leverage * margin <= one
    requires one - leverage + 1 <= leverage * fraction <= one
    ensures var adj := fraction - margin;
            && adj >= 0
            && (size * leverage) * adj <= size * (one - leverage * margin)
            && size * one <= (size * leverage) * (adj + margin + 1) - size
            && (leverage * margin == one ==> adj == 0)
  {
    var adj := fraction - margin;
    assert leverage * adj == leverage * fraction - leverage * margin;
    CancelFactor(-1, adj, leverage);
    CancelFactor(adj, 0, leverage);
    CancelFactor(leverage * adj, one - leverage * margin, size);
    assert (size * leverage) * adj == (leverage * adj) * size;
    CancelFactor(one, leverage * (fraction + 1) - 1, size);
    assert (leverage * (fraction + 1) - 1) * size == (size * leverage) * (fraction + 1) - size;
  }

  /** Short of the distance, `size / leverage` and the profit together cover
      `size * mm / 10000` (the inequality multiplied by `10000 * leverage`). */
  lemma SafeMove(size: int, leverage: nat, mmBps: nat, entry: int, move: int)
    requires size > 0 && leverage >= 1 && entry > 0 && leverage * mmBps <= BASIS_POINTS
    requires move > -Distance(entry, leverage, mmBps)
    ensures var backing := size + leverage * TruncDiv(size * move, entry);
            && backing * BASIS_POINTS >= size * (leverage * mmBps)
            && (backing * BASIS_POINTS > size * (leverage * mmBps) <==>
                !(leverage * mmBps == BASIS_POINTS && size * move < entry))
  {
    var adj := Adjustment(leverage, mmBps);
    AdjustmentBounds(size, leverage, mmBps);
    if move >= 0 {
      GainCovers(size, leverage, mmBps, entry, move);
    } else {
      var loss := -TruncDiv(size * move, entry);
      LossBelow(size, entry, adj, -move);
      assert -(size * -move) == size * move;
      LeveredLoss(size, leverage, adj, loss);
      LossCovers(size, leverage * mmBps, leverage * loss);
      assert leverage * TruncDiv(size * move, entry) == -(leverage * loss);
      assert leverage * mmBps != BASIS_POINTS;
    }
  }

  lemma LeveredLoss(size: int, leverage: nat, adj: int, loss: int)
    requires leverage >= 1 && loss * PRECISION < size * adj
    ensures (leverage * loss) * PRECISION < (size * leverage) * adj
  {
    CancelFactor(loss * PRECISION, size * adj, leverage);
    assert (loss * PRECISION) * leverage == (leverage * loss) * PRECISION;
    assert (size * adj) * leverage == (size * leverage) * adj;
  }

  lemma GainCovers(size: int, leverage: nat, mmBps: nat, entry: int, move: nat)
    requires size > 0 && leverage >= 1 && entry > 0 && leverage * mmBps <= BASIS_POINTS
    ensures var backing := size + leverage * TruncDiv(size * move, entry);
            && backing * BASIS_POINTS >= size * (leverage * mmBps)
            && (backing * BASIS_POINTS > size * (leverage * mmBps) <==>
                !(leverage * mmBps == BASIS_POINTS && size * move < entry))
  {
    var gain := TruncDiv(size * move, entry);
    MulNonNegative(size, move);
    TruncDivBounds(size * move, entry);
    TruncDivAtMost(size * move, entry, 0);
    MulNonNegative(leverage, gain);
    if gain >= 1 {
      CancelFactor(1, gain, leverage);
    }
    CancelFactor(leverage * mmBps, BASIS_POINTS, size);
  }

  lemma LossCovers(size: int, used: int, loss: int)
    requires loss * PRECISION < size * (PRECISION - BP * used)
    ensures (size - loss) * BASIS_POINTS > size * used
  {
    LossScaled(size, used, loss, BP, BASIS_POINTS);
  }

  lemma LossScaled(size: int, used: int, loss: int, unit: int, whole: int)
    requires unit > 0 && loss * (unit * whole) < size * (unit * whole - unit * used)
    ensures (size - loss) * whole > size * used
  {
    assert loss * (unit * whole) == (loss * whole) * unit;
    assert size * (unit * whole - unit * used) == (size * whole - size * used) * unit by {
      assert unit * whole - unit * used == unit * (whole - used);
      assert size * (whole - used) == size * whole - size * used;
    }
    CancelFactor(loss * whole, size * whole - size * used, unit);
    assert (size - loss) * whole == size * whole - loss * whole;
  }

  /** A move against the position that stops short of the distance loses less than `size * adj`. */
  lemma LossBelow(size: int, entry: int, adj: int, against: int)
    requires size > 0 && entry > 0 && adj >= 0
    requires 0 < against < TruncDiv(entry * adj, PRECISION)
    ensures TruncDiv(-(size * against), entry) <= 0
    ensures -TruncDiv(-(size * against), entry) * PRECISION < size * adj
  {
    MulNonNegative(entry, adj);
    TruncDivBounds(entry * adj, PRECISION);
    MulNonNegative(size, against);
    TruncDivBounds(-(size * against), entry);
    var loss := -TruncDiv(-(size * against), entry);
    assert loss * entry <= size * against;
    CancelFactor(against * PRECISION, entry * adj, size);
    assert (loss * entry) * PRECISION <= (size * against) * PRECISION == (against * PRECISION) * size;
    assert (loss * PRECISION) * entry == (loss * entry) * PRECISION < (entry * adj) * size == (size * adj) * entry;
    CancelFactor(loss * PRECISION, size * adj, entry);
  }

  /** At the distance or beyond, `size / leverage` and the profit together stay below
      `size * mm / 10000 + size / PRECISION + size / entry + 1`
      (the inequality multiplied by `PRECISION * entry * leverage`). */
  lemma ThroughMove(size: int, leverage: nat, mmBps: nat, entry: int, move: int)
    requires size > 0 && leverage >= 1 && entry > 0 && leverage * mmBps <= BASIS_POINTS
    requires move <= -Distance(entry, leverage, mmBps)
    ensures (size + leverage * (TruncDiv(size * move, entry) - 1)) * (PRECISION * entry)
              < leverage * (size * mmBps * (BP * entry) + size * entry + size * PRECISION)
  {
    var adj := Adjustment(leverage, mmBps);
    AdjustmentBounds(size, leverage, mmBps);
    LossBeyond(size, entry, adj, -move);
    assert size * move == -(size * -move);
    BackingAtMost(size, leverage, mmBps, entry, adj, -TruncDiv(size * move, entry));
  }

  lemma LossBeyond(size: int, entry: int, adj: int, against: int)
    requires size > 0 && entry > 0 && adj >= 0 && against >= TruncDiv(entry * adj, PRECISION)
    ensures (-TruncDiv(-(size * against), entry) + 1) * (PRECISION * entry) > size * entry * adj - size * PRECISION
  {
    MulNonNegative(entry, adj);
    TruncDivBounds(entry * adj, PRECISION);
    MulNonNegative(size, against);
    TruncDivBounds(-(size * against), entry);
    LossAtLeast(size, entry, adj, against, -TruncDiv(-(size * against), entry));
  }

  /** A move of at least the distance loses nearly `size * adj`. */
  lemma LossAtLeast(size: int, entry: int, adj: int, against: int, loss: int)
    requires size > 0 && entry > 0 && against >= 0
    requires against * PRECISION >= entry * adj - (PRECISION - 1)
    requires size * against <= loss * entry + entry - 1
    ensures (loss + 1) * (PRECISION * entry) > size * entry * adj - size * PRECISION
  {
    assert (loss + 1) * entry == loss * entry + entry >= size * against + 1;
    assert ((loss + 1) * entry) * PRECISION >= (size * against + 1) * PRECISION;
    assert ((loss + 1) * entry) * PRECISION == (loss + 1) * (PRECISION * entry);
    assert (size * against) * PRECISION == (against * PRECISION) * size;
    CancelFactor(entry * adj - PRECISION, against * PRECISION, size);
    assert (entry * adj - PRECISION) * size == size * entry * adj - size * PRECISION;
  }

  lemma BackingAtMost(size: int, leverage: int, mmBps: int, entry: int, adj: int, loss: int)
    requires size > 0 && leverage >= 1 && entry > 0
    requires size * PRECISION <= (size * leverage) * (adj + mmBps * BP + 1) - size
    requires (loss + 1) * (PRECISION * entry) > size * entry * adj - size * PRECISION
    ensures (size + leverage * (-loss - 1)) * (PRECISION * entry)
              < leverage * (size * mmBps * (BP * entry) + size * entry + size * PRECISION)
  {
    var bound := size * (adj + mmBps * BP + 1);
    assert (size * leverage) * (adj + mmBps * BP + 1) == leverage * bound;
    CancelFactor(size * PRECISION, leverage * bound, entry);
    assert (size * PRECISION) * entry == size * (PRECISION * entry);
    assert (leverage * bound) * entry == leverage * (bound * entry);
    assert bound * entry == size * entry * adj + size * mmBps * (BP * entry) + size * entry by {
      assert bound == size * adj + size * mmBps * BP + size;
    }
    CancelFactor(size * entry * adj - size * PRECISION, (loss + 1) * (PRECISION * entry), leverage);
    Spread(size, leverage, loss, PRECISION * entry);
  }

  lemma Spread(size: int, leverage: int, loss: int, unit: int)
    ensures (size + leverage * (-loss - 1)) * unit == size * unit - (loss + 1) * unit * leverage
  {
    assert leverage * (-loss - 1) == -(leverage * (loss + 1));
    assert (leverage * (loss + 1)) * unit == (loss + 1) * unit * leverage;
  }

  /** Equity, fee and rounding remainder are `size / leverage` and the profit, times leverage. */
  lemma BackingIsEquity(p: Position, fee: int, pnl: int)
    ensures (p.collateral + pnl + fee) * p.leverage + Remainder(p, fee) == p.size + p.leverage * pnl
  {
  }

  /** Short of its liquidation price, equity and the fee paid on opening together
      cover maintenance margin, `size * mm / 10000`, exactly, up to the rounding
      remainder of a netted open (both sides multiplied by `10000 * leverage`). They
      are strictly more except on the boundary `leverage * mm == 10000` while the
      gain is still below one unit. */
  lemma SafeSideCoversMaintenance(p: Position, fee: int, mmBps: nat, price: int)
    requires OpenedWith(p, fee, mmBps)
    requires !ShouldLiquidate(p, price)
    ensures CalculatePositionValue(p, price, 0).Done? ==>
              var equity := CalculatePositionValue(p, price, 0).value;
              var backing := (equity + fee) * p.leverage + Remainder(p, fee);
              && backing * BASIS_POINTS >= p.size * (p.leverage * mmBps)
              && (backing * BASIS_POINTS > p.size * (p.leverage * mmBps) <==>
                  !(p.leverage * mmBps == BASIS_POINTS
                    && p.size * FavourableMove(p.direction, p.entryPrice, price) < p.entryPrice))
              && (Remainder(p, fee) == 0 ==> (equity + fee) * BASIS_POINTS >= p.size * mmBps)
  {
    var move := FavourableMove(p.direction, p.entryPrice, price);
    LiquidationIsMoveAgainst(p, mmBps, price);
    SafeMove(p.size, p.leverage, mmBps, p.entryPrice, move);
    if CalculatePositionValue(p, price, 0).Done? {
      var equity := CalculatePositionValue(p, price, 0).value;
      BackingIsEquity(p, fee, TruncDiv(p.size * move, p.entryPrice));
      if Remainder(p, fee) == 0 {
        PlainOpen(equity + fee, p.leverage, p.size, mmBps);
      }
    }
  }

  lemma PlainOpen(equity: int, leverage: nat, size: int, mmBps: nat)
    requires leverage >= 1 && equity * leverage * BASIS_POINTS >= size * (leverage * mmBps)
    ensures equity * BASIS_POINTS >= size * mmBps
  {
    assert size * (leverage * mmBps) == (size * mmBps) * leverage;
    assert equity * leverage * BASIS_POINTS == (equity * BASIS_POINTS) * leverage;
    CancelFactor(size * mmBps, equity * BASIS_POINTS, leverage);
  }

  /** At or through the liquidation price, equity and fee together are below
      `size * mm / 10000 + size / PRECISION + size / entry + 1`
      (the inequality multiplied by `PRECISION * entry`). */
  lemma ThroughSideNearMaintenance(p: Position, fee: int, mmBps: nat, price: int)
    requires OpenedWith(p, fee, mmBps)
    requires ShouldLiquidate(p, price)
    ensures CalculatePositionValue(p, price, 0).Done? ==>
              var equity := CalculatePositionValue(p, price, 0).value;
              (equity + fee - 1) * (PRECISION * p.entryPrice)
                < p.size * mmBps * (BP * p.entryPrice) + p.size * p.entryPrice + p.size * PRECISION
  {
    var move := FavourableMove(p.direction, p.entryPrice, price);
    LiquidationIsMoveAgainst(p, mmBps, price);
    RemainderBounds(p, fee, mmBps);
    ThroughMove(p.size, p.leverage, mmBps, p.entryPrice, move);
    if CalculatePositionValue(p, price, 0).Done? {
      var pnl := TruncDiv(p.size * move, p.entryPrice);
      BackingIsEquity(p, fee, pnl - 1);
      DropRemainder(p.collateral + pnl + fee - 1, p.leverage, Remainder(p, fee), PRECISION * p.entryPrice,
        p.size * mmBps * (BP * p.entryPrice) + p.size * p.entryPrice + p.size * PRECISION);
    }
  }

  lemma DropRemainder(x: int, leverage: nat, remainder: int, unit: int, bound: int)
    requires leverage >= 1 && remainder >= 0 && unit >= 0
    requires (x * leverage + remainder) * unit < leverage * bound
    ensures x * unit < bound
  {
    MulNonNegative(remainder, unit);
    assert (x * leverage + remainder) * unit == (x * unit) * leverage + remainder * unit;
    CancelFactor(x * unit, bound, leverage);
  }

  // -------------------------------------------------- what the fee takes away

  /** What initial margin and profit leave above maintenance margin after a move, in basis-point units. */
  function MarginAt(size: int, leverage: nat, mmBps: nat, entry: int, move: int): int
    requires leverage != 0 && entry != 0
  {
    (TruncDiv(size, leverage) + TruncDiv(size * move, entry)) * BASIS_POINTS - size * mmBps
  }

  /** The fee fits into what is left one tick short of the liquidation price. It can
      be decided before opening. */
  predicate FeeFits(size: int, leverage: nat, mmBps: nat, entry: int, fee: int)
    requires leverage != 0 && entry != 0
  {
    fee * BASIS_POINTS <= MarginAt(size, leverage, mmBps, entry, 1 - Distance(entry, leverage, mmBps))
  }

  predicate Covers(p: Position, mmBps: nat, price: int) {
    CalculatePositionValue(p, price, 0).Done? ==>
      CalculatePositionValue(p, price, 0).value * BASIS_POINTS >= p.size * mmBps
  }

  /** The price one tick on the safe side of the liquidation price. */
  function FirstSafePrice(p: Position): int {
    match p.direction
    case Long => p.liquidationPrice + 1
    case Short => p.liquidationPrice - 1
  }

  /** The stored position, its fee gone, covers maintenance margin at a price exactly
      when the fee fits into the margin of that price's move. */
  lemma CoversAt(p: Position, fee: int, mmBps: nat, price: int)
    requires OpenedWith(p, fee, mmBps) && CalculatePositionValue(p, price, 0).Done?
    ensures Covers(p, mmBps, price) <==>
            fee * BASIS_POINTS <= MarginAt(p.size, p.leverage, mmBps, p.entryPrice,
                                           FavourableMove(p.direction, p.entryPrice, price))
  {
  }

  lemma MarginGrows(size: int, leverage: nat, mmBps: nat, entry: int, move: int, further: int)
    requires size > 0 && leverage >= 1 && entry > 0 && move <= further
    ensures MarginAt(size, leverage, mmBps, entry, move) <= MarginAt(size, leverage, mmBps, entry, further)
  {
    ProfitGrows(size, entry, move, further);
  }

  lemma ProfitGrows(size: int, entry: int, move: int, further: int)
    requires size > 0 && entry > 0 && move <= further
    ensures TruncDiv(size * move, entry) <= TruncDiv(size * further, entry)
  {
    MulNonNegative(size, further - move);
    assert size * (further - move) == size * further - size * move;
    TruncDivMonotone(size * move, size * further, entry);
  }

  /** The stored position covers maintenance margin at every price short of its
      liquidation price exactly when the fee fits. */
  lemma StoredCoversExactly(p: Position, fee: int, mmBps: nat)
    requires OpenedWith(p, fee, mmBps)
    requires CalculatePositionValue(p, FirstSafePrice(p), 0).Done?
    ensures (forall price :: !ShouldLiquidate(p, price) ==> Covers(p, mmBps, price))
       <==> FeeFits(p.size, p.leverage, mmBps, p.entryPrice, fee)
  {
    var distance := Distance(p.entryPrice, p.leverage, mmBps);
    FirstMove(p, mmBps);
    CoversAt(p, fee, mmBps, FirstSafePrice(p));
    if FeeFits(p.size, p.leverage, mmBps, p.entryPrice, fee) {
      forall price | !ShouldLiquidate(p, price)
        ensures Covers(p, mmBps, price)
      {
        LiquidationIsMoveAgainst(p, mmBps, price);
        if CalculatePositionValue(p, price, 0).Done? {
          CoversAt(p, fee, mmBps, price);
          MarginGrows(p.size, p.leverage, mmBps, p.entryPrice, 1 - distance,
                      FavourableMove(p.direction, p.entryPrice, price));
        }
      }
    }
  }

  lemma FirstMove(p: Position, mmBps: nat)
    requires p.leverage >= 1
    requires CalculateLiquidationPrice(p.entryPrice, p.leverage, p.direction, mmBps) == Done(p.liquidationPrice)
    ensures !ShouldLiquidate(p, FirstSafePrice(p))
    ensures FavourableMove(p.direction, p.entryPrice, FirstSafePrice(p)) == 1 - Distance(p.entryPrice, p.leverage, mmBps)
  {
  }

  /** Only a fee of rounding size fits: from `size / PRECISION + 2 * size / entry + 2`
      on none does. */
  lemma FeeBeyondRounding(size: int, leverage: nat, mmBps: nat, entry: int, fee: int)
    requires size > 0 && leverage >= 1 && entry > 0 && leverage * mmBps <= BASIS_POINTS
    requires (fee - 2) * (PRECISION * entry) >= size * entry + 2 * size * PRECISION
    ensures !FeeFits(size, leverage, mmBps, entry, fee)
  {
    var move := -Distance(entry, leverage, mmBps);
    var margin, before, after := TruncDiv(size, leverage), TruncDiv(size * move, entry), TruncDiv(size * (1 + move), entry);
    assert Distance(entry, leverage, mmBps) >= 0 by {
      AdjustmentBounds(size, leverage, mmBps);
      MulNonNegative(entry, Adjustment(leverage, mmBps));
      TruncDivBounds(entry * Adjustment(leverage, mmBps), PRECISION);
    }
    var bound := size * mmBps * (BP * entry) + size * entry + size * PRECISION;
    ThroughMove(size, leverage, mmBps, entry, move);
    WholeBacking(size, leverage, before - 1, PRECISION * entry, bound);
    OneTick(size, entry, move);
    Combine(margin, before, after, fee, size, entry, size * mmBps, bound);
    assert 1 - Distance(entry, leverage, mmBps) == 1 + move;
  }

  lemma WholeBacking(size: int, leverage: nat, pnl: int, unit: int, bound: int)
    requires size > 0 && leverage >= 1 && unit >= 0
    requires (size + leverage * pnl) * unit < leverage * bound
    ensures (TruncDiv(size, leverage) + pnl) * unit < bound
  {
    var margin := TruncDiv(size, leverage);
    TruncDivBounds(size, leverage);
    assert (margin + pnl) * leverage + (size - leverage * margin) == size + leverage * pnl;
    DropRemainder(margin + pnl, leverage, size - leverage * margin, unit, bound);
  }

  lemma Combine(margin: int, before: int, after: int, fee: int, size: int, entry: int, maintenance: int, bound: int)
    requires entry > 0 && bound == maintenance * (BP * entry) + size * entry + size * PRECISION
    requires (margin + before - 1) * (PRECISION * entry) < bound
    requires (after - before - 1) * entry <= size
    requires (fee - 2) * (PRECISION * entry) >= size * entry + 2 * size * PRECISION
    ensures (margin + after - fee) * BASIS_POINTS < maintenance
  {
    TickScaled(after - before - 1, entry, size);
    Distribute(margin + before - 1, after - before - 1, fee - 2, PRECISION * entry);
    ToBasisPoints(margin + after - fee, maintenance, entry);
  }

  lemma TickScaled(x: int, entry: int, size: int)
    requires x * entry <= size
    ensures x * (PRECISION * entry) <= size * PRECISION
  {
    assert x * (PRECISION * entry) == (x * entry) * PRECISION;
  }

  lemma ToBasisPoints(x: int, maintenance: int, entry: int)
    requires entry > 0 && x * (PRECISION * entry) < maintenance * (BP * entry)
    ensures x * BASIS_POINTS < maintenance
  {
    var tick := BP * entry;
    assert PRECISION * entry == BASIS_POINTS * tick;
    Associate(x, BASIS_POINTS, tick);
    CancelFactor(x * BASIS_POINTS, maintenance, tick);
  }

  lemma Associate(x: int, y: int, z: int)
    ensures x * (y * z) == (x * y) * z
  {
  }

  lemma Distribute(x: int, y: int, z: int, unit: int)
    ensures (x + y - z) * unit == x * unit + y * unit - z * unit
  {
  }

  /** One tick is worth at most `size / entry` and a unit of rounding. */
  lemma OneTick(size: int, entry: int, move: int)
    requires size > 0 && entry > 0 && move <= 0
    ensures (TruncDiv(size * (1 + move), entry) - TruncDiv(size * move, entry) - 1) * entry <= size
  {
    MulNonNegative(size, -move);
    assert size * (1 + move) == size * move + size;
    assert size * -move == -(size * move);
    TruncDivBounds(size * move, entry);
    TruncDivBounds(size * (1 + move), entry);
  }

  // ------------------------------------------------------ the market's own test

  predicate BelowMargin(p: Position, mmBps: nat, price: int) {
    CalculatePositionValue(p, price, 0).Done? &&
    CalculatePositionValue(p, price, 0).value < TruncDiv(p.size * mmBps, BASIS_POINTS)
  }

  /** At zero funding the market liquidates by the stored price or by the margin. */
  lemma MarketTest(p: Position, mmBps: nat, price: int)
    requires CalculatePositionValue(p, price, 0).Done? && InI128(p.size * mmBps)
    ensures MarketLiquidates(p, mmBps, price, 0) == Done(ShouldLiquidate(p, price) || BelowMargin(p, mmBps, price))
  {
  }

  /** The fee leaves less than maintenance margin at the stored liquidation price. It
      can be decided before opening. */
  predicate FeeSinksPrice(size: int, leverage: nat, mmBps: nat, entry: int, fee: int)
    requires leverage != 0 && entry != 0
  {
    TruncDiv(size, leverage) - fee + TruncDiv(size * -Distance(entry, leverage, mmBps), entry) < TruncDiv(size * mmBps, BASIS_POINTS)
  }

  /** At this price the market's test is the margin test. */
  predicate MarginDecides(p: Position, mmBps: nat, price: int) {
    CalculatePositionValue(p, price, 0).Done? ==>
      MarketLiquidates(p, mmBps, price, 0) == Done(BelowMargin(p, mmBps, price))
  }

  /** The stored price liquidates nothing that the margin would not, at any price,
      exactly when the fee sinks it. */
  lemma MarginDecidesExactly(p: Position, fee: int, mmBps: nat)
    requires OpenedWith(p, fee, mmBps) && InI128(p.size * mmBps)
    requires CalculatePositionValue(p, p.liquidationPrice, 0).Done?
    ensures (forall price :: MarginDecides(p, mmBps, price)) <==> FeeSinksPrice(p.size, p.leverage, mmBps, p.entryPrice, fee)
  {
    AtStoredPrice(p, fee, mmBps);
    if FeeSinksPrice(p.size, p.leverage, mmBps, p.entryPrice, fee) {
      forall price: int
        ensures MarginDecides(p, mmBps, price)
      {
        if CalculatePositionValue(p, price, 0).Done? {
          MarketTest(p, mmBps, price);
          if ShouldLiquidate(p, price) {
            BeyondStoredPrice(p, mmBps, price);
          }
        }
      }
    } else {
      MarketTest(p, mmBps, p.liquidationPrice);
      assert !MarginDecides(p, mmBps, p.liquidationPrice);
    }
  }

  lemma AtStoredPrice(p: Position, fee: int, mmBps: nat)
    requires OpenedWith(p, fee, mmBps) && CalculatePositionValue(p, p.liquidationPrice, 0).Done?
    ensures ShouldLiquidate(p, p.liquidationPrice)
    ensures BelowMargin(p, mmBps, p.liquidationPrice) <==> FeeSinksPrice(p.size, p.leverage, mmBps, p.entryPrice, fee)
  {
    assert FavourableMove(p.direction, p.entryPrice, p.liquidationPrice) == -Distance(p.entryPrice, p.leverage, mmBps);
  }

  /** Prices through the stored one leave no more. */
  lemma BeyondStoredPrice(p: Position, mmBps: nat, price: int)
    requires p.size > 0 && p.entryPrice > 0 && p.leverage >= 1
    requires CalculateLiquidationPrice(p.entryPrice, p.leverage, p.direction, mmBps) == Done(p.liquidationPrice)
    requires ShouldLiquidate(p, price)
    requires CalculatePositionValue(p, p.liquidationPrice, 0).Done? && CalculatePositionValue(p, price, 0).Done?
    ensures CalculatePositionValue(p, price, 0).value <= CalculatePositionValue(p, p.liquidationPrice, 0).value
  {
    var move := FavourableMove(p.direction, p.entryPrice, price);
    var stored := FavourableMove(p.direction, p.entryPrice, p.liquidationPrice);
    ProfitGrows(p.size, p.entryPrice, move, stored);
  }

  /** Every fee beyond rounding does: from `size / PRECISION + size / entry + 2` on, the
      market liquidates exactly when the equity is below maintenance margin. */
  lemma MarketLiquidatesByEquity(p: Position, fee: int, mmBps: nat, price: int)
    requires OpenedWith(p, fee, mmBps) && InI128(p.size * mmBps)
    requires (fee - 2) * (PRECISION * p.entryPrice) >= p.size * p.entryPrice + p.size * PRECISION
    requires CalculatePositionValue(p, price, 0).Done?
    ensures MarketLiquidates(p, mmBps, price, 0) == Done(BelowMargin(p, mmBps, price))
  {
    MarketTest(p, mmBps, price);
    if ShouldLiquidate(p, price) {
      var equity := CalculatePositionValue(p, price, 0).value;
      ThroughSideNearMaintenance(p, fee, mmBps, price);
      Distribute(equity + fee - 1, 0, fee - 2, PRECISION * p.entryPrice);
      ToBasisPoints(equity + 1, p.size * mmBps, p.entryPrice);
      BelowQuotient(equity, p.size * mmBps);
    }
  }

  lemma BelowQuotient(x: int, scaled: int)
    requires (x + 1) * BASIS_POINTS < scaled
    ensures x < TruncDiv(scaled, BASIS_POINTS)
  {
    TruncDivBounds(scaled, BASIS_POINTS);
  }

  /** A market-shaped case: at ten times leverage and a fee of 0.05% of the size, a
      position one tick short of its stored liquidation price is below its maintenance
      margin, and the market's test liquidates it on that count. */
  lemma FeeBreaksSafeSide() returns (p: Position)
    ensures OpenedWith(p, 5_000_000, 100)
    ensures !ShouldLiquidate(p, 9_100_001)
    ensures CalculatePositionValue(p, 9_100_001, 0) == Done(95_001_000)
    ensures p.size * 100 / BASIS_POINTS == 100_000_000
    ensures !FeeFits(p.size, p.leverage, 100, p.entryPrice, 5_000_000)
    ensures MarketLiquidates(p, 100, 9_100_001, 0) == Done(true)
  {
    p := Position(1, "t", "XLM", 995_000_000, 10_000_000_000, 10_000_000, Long, 10, 9_100_000, 0, 0, 0);
    assert Distance(10_000_000, 10, 100) == 900_000;
    assert TruncDiv(10_000_000_000 * (9_100_001 - 10_000_000), 10_000_000) == -899_999_000;
  }

  /** The boundary is real: 100x leverage with 1% maintenance margin liquidates at
      the entry price itself, and one tick on the safe side only just covers it. */
  lemma BoundaryIsReached()
    ensures exists p: Position, price ::
              && OpenedWith(p, 0, 100)
              && !ShouldLiquidate(p, price)
              && CalculatePnl(p, price) == Done(0)
              && p.collateral * BASIS_POINTS == p.size * 100
  {
    var p := Position(1, "t", "XLM", 1, 100, 1_000_000, Long, 100, 1_000_000, 0, 0, 0);
    assert Distance(1_000_000, 100, 100) == 0;
    assert OpenedWith(p, 0, 100) && !ShouldLiquidate(p, 1_000_001) && CalculatePnl(p, 1_000_001) == Done(0)
        && p.collateral * BASIS_POINTS == p.size * 100;
  }

  // ----------------------------------------------------------------- funding

  /** What a position of this side pays for an index change, before rounding, times PRECISION. */
  function Signed(direction: Direction, size: int): int {
    match direction
    case Long => size
    case Short => -size
  }

  datatype Leg = Leg(direction: Direction, size: int)

  function NetSize(legs: seq<Leg>): int {
    if legs == [] then 0 else Signed(legs[0].direction, legs[0].size) + NetSize(legs[1..])
  }

  /** Sum of the funding charges of all legs over one index interval. */
  function TotalFunding(legs: seq<Leg>, entry: int, current: int): Outcome<int> {
    if legs == [] then Done(0)
    else
      var first :- CalculateCumulativeFunding(legs[0].size, legs[0].direction, entry, current);
      var rest :- TotalFunding(legs[1..], entry, current);
      Done(first + rest)
  }

  /** One charge is the exact amount `signed size * delta / PRECISION` cut toward zero. */
  lemma FundingIsRounded(size: int, direction: Direction, entry: int, current: int)
    ensures var f := CalculateCumulativeFunding(size, direction, entry, current);
            f.Done? ==> f.value == TruncDiv(Signed(direction, size) * (current - entry), PRECISION)
  {
    var delta := current - entry;
    TruncDivOdd(size * delta, PRECISION);
    assert -(size * delta) == (-size) * delta;
  }

  /** And it fails exactly when the index change or its product with the size leaves the
      128-bit range; negating the quotient never does. */
  lemma FundingStopsExactly(size: int, direction: Direction, entry: int, current: int)
    ensures var f := CalculateCumulativeFunding(size, direction, entry, current);
            if InI128(current - entry) && InI128(size * (current - entry)) then f.Done? else f == Trap
  {
    TruncDivBounds(size * (current - entry), PRECISION);
  }

  // ------------------------------------------------ funding and the market's test

  /** The amounts the test adds up lie within 128 bits. */
  predicate TestFits(p: Position, mmBps: nat, price: int, funding: int) {
    && CalculatePnl(p, price).Done?
    && InI128(p.collateral + CalculatePnl(p, price).value)
    && InI128(p.collateral + CalculatePnl(p, price).value - funding)
    && InI128(p.size * mmBps)
  }

  /** How much funding the position can owe at this price before it is below
      maintenance margin. */
  function Room(p: Position, mmBps: nat, price: int): int
    requires CalculatePnl(p, price).Done?
  {
    p.collateral + CalculatePnl(p, price).value - TruncDiv(p.size * mmBps, BASIS_POINTS)
  }

  /** Whatever the funding: short of the stored price the market liquidates exactly
      when the funding owed exceeds that room. */
  lemma FundingDecides(p: Position, mmBps: nat, price: int, funding: int)
    requires TestFits(p, mmBps, price, funding)
    ensures MarketLiquidates(p, mmBps, price, funding) == Done(ShouldLiquidate(p, price) || funding > Room(p, mmBps, price))
    ensures CalculatePositionValue(p, price, funding) == Done(Room(p, mmBps, price) + TruncDiv(p.size * mmBps, BASIS_POINTS) - funding)
  {
  }

  /** A profit that cannot be computed counts as none: at an entry price of zero, or
      when size times move leaves the 128-bit range, the collateral less the funding
      decides alone. */
  lemma UnknownProfitIsNone(p: Position, mmBps: nat, price: int, funding: int)
    requires !ShouldLiquidate(p, price)
    requires var move := FavourableMove(p.direction, p.entryPrice, price);
             p.entryPrice == 0 || (InI128(move) && !InI128(p.size * move))
    requires InI128(p.collateral) && InI128(p.collateral - funding) && InI128(p.size * mmBps)
    ensures MarketLiquidates(p, mmBps, price, funding) == Done(p.collateral - funding < TruncDiv(p.size * mmBps, BASIS_POINTS))
  {
  }

  /** A position has a value exactly when its profit has one and neither sum leaves the range. */
  lemma ValueExistsExactly(p: Position, price: int, funding: int)
    ensures CalculatePositionValue(p, price, funding).Done? <==>
              && CalculatePnl(p, price).Done?
              && InI128(p.collateral + CalculatePnl(p, price).value)
              && InI128(p.collateral + CalculatePnl(p, price).value - funding)
  {
  }

  /** The test aborts only short of the stored price, and there exactly when the move, a
      sum or the scaled size leaves the range; a failed profit does not abort it. */
  lemma TestStopsExactly(p: Position, mmBps: nat, price: int, funding: int)
    requires !ShouldLiquidate(p, price)
    ensures var pnl := CalculatePnl(p, price);
            var gross := p.collateral + if pnl.Done? then pnl.value else 0;
            MarketLiquidates(p, mmBps, price, funding).Done? <==>
              pnl != Trap && InI128(gross) && InI128(gross - funding) && InI128(p.size * mmBps)
  {
  }

  /** More funding owed never makes a position safe again, and lowers its value by as much. */
  lemma MoreFundingNeverSaves(p: Position, mmBps: nat, price: int, funding: int, more: int)
    requires TestFits(p, mmBps, price, funding) && TestFits(p, mmBps, price, more) && funding <= more
    ensures MarketLiquidates(p, mmBps, price, funding) == Done(true) ==> MarketLiquidates(p, mmBps, price, more) == Done(true)
    ensures CalculatePositionValue(p, price, funding).value - CalculatePositionValue(p, price, more).value == more - funding
  {
    FundingDecides(p, mmBps, price, funding);
    FundingDecides(p, mmBps, price, more);
  }

  /** The market's test at an index of the asset's cumulative funding. */
  function LiquidatesAt(p: Position, mmBps: nat, price: int, index: int): Outcome<bool> {
    var funding :- CalculateCumulativeFunding(p.size, p.direction, p.entryCumulativeFunding, index);
    MarketLiquidates(p, mmBps, price, funding)
  }

  predicate IndexFits(p: Position, mmBps: nat, price: int, index: int) {
    var f := CalculateCumulativeFunding(p.size, p.direction, p.entryCumulativeFunding, index);
    f.Done? && TestFits(p, mmBps, price, f.value)
  }

  /** Short of the stored price and with room left, the market liquidates exactly when
      signed size times the index change since entry fills the room and one unit more. */
  lemma IndexDecides(p: Position, mmBps: nat, price: int, index: int)
    requires IndexFits(p, mmBps, price, index) && !ShouldLiquidate(p, price) && Room(p, mmBps, price) >= 0
    ensures LiquidatesAt(p, mmBps, price, index)
         == Done(Signed(p.direction, p.size) * (index - p.entryCumulativeFunding) >= (Room(p, mmBps, price) + 1) * PRECISION)
  {
    var f := CalculateCumulativeFunding(p.size, p.direction, p.entryCumulativeFunding, index).value;
    FundingIsRounded(p.size, p.direction, p.entryCumulativeFunding, index);
    FundingDecides(p, mmBps, price, f);
    TruncDivAtLeast(Signed(p.direction, p.size) * (index - p.entryCumulativeFunding), PRECISION, Room(p, mmBps, price) + 1);
  }

  /** A rising index moves a long towards liquidation and a short away from it. */
  lemma RisingIndex(p: Position, mmBps: nat, price: int, index: int, higher: int)
    requires IndexFits(p, mmBps, price, index) && IndexFits(p, mmBps, price, higher)
    requires p.size >= 0 && index <= higher
    ensures p.direction == Long && LiquidatesAt(p, mmBps, price, index) == Done(true) ==> LiquidatesAt(p, mmBps, price, higher) == Done(true)
    ensures p.direction == Short && LiquidatesAt(p, mmBps, price, higher) == Done(true) ==> LiquidatesAt(p, mmBps, price, index) == Done(true)
  {
    var f := CalculateCumulativeFunding(p.size, p.direction, p.entryCumulativeFunding, index).value;
    var g := CalculateCumulativeFunding(p.size, p.direction, p.entryCumulativeFunding, higher).value;
    FundingRises(p, index, higher);
    if p.direction == Long {
      MoreFundingNeverSaves(p, mmBps, price, f, g);
    } else {
      MoreFundingNeverSaves(p, mmBps, price, g, f);
    }
  }

  lemma FundingRises(p: Position, index: int, higher: int)
    requires p.size >= 0 && index <= higher
    requires CalculateCumulativeFunding(p.size, p.direction, p.entryCumulativeFunding, index).Done?
    requires CalculateCumulativeFunding(p.size, p.direction, p.entryCumulativeFunding, higher).Done?
    ensures var f := CalculateCumulativeFunding(p.size, p.direction, p.entryCumulativeFunding, index).value;
            var g := CalculateCumulativeFunding(p.size, p.direction, p.entryCumulativeFunding, higher).value;
            if p.direction == Long then f <= g else g <= f
  {
    FundingIsRounded(p.size, p.direction, p.entryCumulativeFunding, index);
    FundingIsRounded(p.size, p.direction, p.entryCumulativeFunding, higher);
    var since, until := index - p.entryCumulativeFunding, higher - p.entryCumulativeFunding;
    MulNonNegative(p.size, until - since);
    assert p.size * (until - since) == p.size * until - p.size * since;
    assert -p.size * until == -(p.size * until) && -p.size * since == -(p.size * since);
    if p.direction == Long {
      TruncDivMonotone(p.size * since, p.size * until, PRECISION);
    } else {
      TruncDivMonotone(-p.size * until, -p.size * since, PRECISION);
    }
  }

  /** A market-shaped case: far from its stored price, a long that owes 95 of 100 units
      of collateral in funding is liquidated. */
  lemma FundingLiquidates()
    ensures var p := Position(1, "t", "XLM", 100_000_000, 1_000_000_000, 10_000_000, Long, 10, 9_100_000, 0, 0, 0);
            && !ShouldLiquidate(p, 10_000_000)
            && MarketLiquidates(p, 100, 10_000_000, 95_000_000) == Done(true)
            && MarketLiquidates(p, 100, 10_000_000, 90_000_000) == Done(false)
  {
  }

  /** Longs pay what equal-size shorts receive, to the last unit. */
  lemma EqualLegsCancel(size: int, entry: int, current: int)
    ensures var l := CalculateCumulativeFunding(size, Long, entry, current);
            var s := CalculateCumulativeFunding(size, Short, entry, current);
            l.Done? && s.Done? ==> l.value + s.value == 0
  {
  }

  /** Rounding loses less than one unit per leg. */
  lemma {:induction false} FundingTracksNetSize(legs: seq<Leg>, entry: int, current: int)
    ensures var t := TotalFunding(legs, entry, current);
            t.Done? ==>
              Abs(t.value * PRECISION - NetSize(legs) * (current - entry)) <= |legs| * (PRECISION - 1)
  {
    if legs != [] && TotalFunding(legs, entry, current).Done? {
      var first := CalculateCumulativeFunding(legs[0].size, legs[0].direction, entry, current).value;
      FundingTracksNetSize(legs[1..], entry, current);
      FundingIsRounded(legs[0].size, legs[0].direction, entry, current);
      TruncDivRemainder(Signed(legs[0].direction, legs[0].size) * (current - entry), PRECISION);
      AddRounded(first, TotalFunding(legs[1..], entry, current).value,
                 Signed(legs[0].direction, legs[0].size), NetSize(legs[1..]), current - entry);
    }
  }

  lemma AddRounded(first: int, rest: int, firstSize: int, restSize: int, delta: int)
    ensures Abs((first + rest) * PRECISION - (firstSize + restSize) * delta)
              <= Abs(first * PRECISION - firstSize * delta) + Abs(rest * PRECISION - restSize * delta)
  {
    assert (firstSize + restSize) * delta == firstSize * delta + restSize * delta;
  }

  /** Funding is conserved up to rounding: with as much long as short size, the
      net of `n` charges is smaller than `n` units. */
  lemma FundingConserved(legs: seq<Leg>, entry: int, current: int)
    requires legs != [] && NetSize(legs) == 0
    ensures var t := TotalFunding(legs, entry, current);
            t.Done? ==> Abs(t.value) < |legs|
  {
    FundingTracksNetSize(legs, entry, current);
    var t := TotalFunding(legs, entry, current);
    if t.Done? {
      CancelFactor(Abs(t.value), |legs|, PRECISION);
    }
  }

  /** Charges over the consecutive intervals of an index path `path[0], path[1], ...`. */
  function StepwiseFunding(size: int, direction: Direction, path: seq<int>): Outcome<int>
    requires path != []
  {
    if |path| == 1 then Done(0)
    else
      var rest :- StepwiseFunding(size, direction, path[..|path| - 1]);
      var last :- CalculateCumulativeFunding(size, direction, path[|path| - 2], path[|path| - 1]);
      Done(rest + last)
  }

  /** How many steps of the path charge a positive amount before rounding. */
  function Ups(signed: int, path: seq<int>): nat
    requires path != []
  {
    if |path| == 1 then 0
    else Ups(signed, path[..|path| - 1]) + if signed * (path[|path| - 1] - path[|path| - 2]) > 0 then 1 else 0
  }

  function Downs(signed: int, path: seq<int>): nat
    requires path != []
  {
    Ups(-signed, path)
  }

  /** Rounding only cuts positive charges down and negative charges up; a path
      that never charges upward cannot end above where it began, and the other
      way round. */
  lemma {:induction false} StepwiseError(size: int, direction: Direction, path: seq<int>)
    requires path != []
    ensures var signed := Signed(direction, size);
            var exact := signed * (path[|path| - 1] - path[0]);
            var t := StepwiseFunding(size, direction, path);
            && Ups(signed, path) + Downs(signed, path) <= |path| - 1
            && (Ups(signed, path) == 0 ==> exact <= 0)
            && (Downs(signed, path) == 0 ==> exact >= 0)
            && (t.Done? ==>
                exact - Ups(signed, path) * (PRECISION - 1) <= t.value * PRECISION
                  <= exact + Downs(signed, path) * (PRECISION - 1))
  {
    var signed := Signed(direction, size);
    if |path| > 1 {
      var init := path[..|path| - 1];
      StepwiseError(size, direction, init);
      var step := signed * (path[|path| - 1] - path[|path| - 2]);
      FundingIsRounded(size, direction, path[|path| - 2], path[|path| - 1]);
      TruncDivBounds(step, PRECISION);
      PathAdds(signed, path[0], path[|path| - 2], path[|path| - 1]);
    }
  }

  lemma PathAdds(signed: int, a: int, b: int, c: int)
    ensures signed * (c - a) == signed * (b - a) + signed * (c - b)
    ensures (-signed) * (c - b) == -(signed * (c - b))
  {
  }

  /** Charging over `n` consecutive intervals differs from one charge over the
      whole span by at most `n - 1` units, however the index moves in between. */
  lemma SplitFundingWithin(size: int, direction: Direction, path: seq<int>)
    requires |path| >= 2
    ensures var t := StepwiseFunding(size, direction, path);
            var whole := CalculateCumulativeFunding(size, direction, path[0], path[|path| - 1]);
            t.Done? && whole.Done? ==> Abs(t.value - whole.value) <= |path| - 2
  {
    var signed := Signed(direction, size);
    var exact := signed * (path[|path| - 1] - path[0]);
    var t := StepwiseFunding(size, direction, path);
    var whole := CalculateCumulativeFunding(size, direction, path[0], path[|path| - 1]);
    if t.Done? && whole.Done? {
      StepwiseError(size, direction, path);
      FundingIsRounded(size, direction, path[0], path[|path| - 1]);
      TruncDivBounds(exact, PRECISION);
      var ups, downs := Ups(signed, path), Downs(signed, path);
      var diff := t.value - whole.value;
      if exact >= 0 {
        assert -ups * (PRECISION - 1) <= diff * PRECISION <= (downs + 1) * (PRECISION - 1);
        DiffWithin(diff, ups, downs + 1);
      } else {
        assert -(ups + 1) * (PRECISION - 1) <= diff * PRECISION <= downs * (PRECISION - 1);
        DiffWithin(diff, ups + 1, downs);
      }
      if exact == 0 && diff > 0 && downs == |path| - 1 {
        assert whole.value == 0;
        assert diff * PRECISION <= downs * (PRECISION - 1);
      }
    }
  }

  lemma DiffWithin(diff: int, below: nat, above: nat)
    requires -(below as int) * (PRECISION - 1) <= diff * PRECISION <= above * (PRECISION - 1)
    ensures diff == 0 || -(below as int) < diff < above
  {
  }

  /** The step follows the skew: it differs from the exact
      `velocity * skew / scale * elapsed / 86400` by less than one unit for the
      final division and one unit a day for the first. */
  lemma VelocityTracksSkew(netSkew: int, skewScale: int, maxVelocityBps: nat, elapsedSeconds: nat)
    requires skewScale > 0
    ensures var v := FundingVelocity(netSkew, skewScale, maxVelocityBps, elapsedSeconds);
            v.Done? ==>
              Abs(v.value * 86_400 * skewScale - maxVelocityBps * PRECISION * netSkew * elapsedSeconds)
                <= (elapsedSeconds + 86_399) * skewScale
  {
    if elapsedSeconds > 0 {
      var k := maxVelocityBps * PRECISION * netSkew;
      TruncDivRemainder(k, skewScale);
      TruncDivRemainder(TruncDiv(k, skewScale) * elapsedSeconds, 86_400);
      TwoRoundings(k, skewScale, elapsedSeconds, TruncDiv(k, skewScale),
                   TruncDiv(TruncDiv(k, skewScale) * elapsedSeconds, 86_400));
    }
  }

  /** Without a scale or without time the step is zero. Otherwise it exists whenever
      velocity, skew and time multiply within 128 bits, and aborts when velocity times
      skew alone, or the daily step times the time, does not fit. */
  lemma VelocityExists(netSkew: int, skewScale: int, maxVelocityBps: nat, elapsedSeconds: nat)
    ensures var v := FundingVelocity(netSkew, skewScale, maxVelocityBps, elapsedSeconds);
            var k := maxVelocityBps * PRECISION * netSkew;
            && (skewScale <= 0 || elapsedSeconds == 0 ==> v == Done(0))
            && (skewScale > 0 && elapsedSeconds > 0 ==>
                  && (Abs(k) * elapsedSeconds <= I128_MAX ==> v.Done?)
                  && (Abs(k) > I128_MAX + 1 || Abs(TruncDiv(k, skewScale)) * elapsedSeconds > I128_MAX + 1 ==> v == Trap))
  {
    var k := maxVelocityBps * PRECISION * netSkew;
    if skewScale > 0 && elapsedSeconds > 0 {
      var perDay := TruncDiv(k, skewScale);
      assert perDay * elapsedSeconds == Abs(perDay) * elapsedSeconds || perDay * elapsedSeconds == -(Abs(perDay) * elapsedSeconds);
      if Abs(k) * elapsedSeconds <= I128_MAX {
        ShrinksBy(Abs(k), 1, elapsedSeconds);
        QuotientShrinks(k, skewScale);
        ShrinksBy(Abs(perDay), Abs(k), elapsedSeconds);
      }
    }
  }

  lemma ShrinksBy(x: nat, y: nat, k: nat)
    requires k >= 1
    ensures x <= y ==> x * k <= y * k
    ensures x <= x * k
  {
    if x <= y {
      CancelFactor(x, y, k);
    }
    MulNonNegative(x, k - 1);
    assert x * (k - 1) == x * k - x;
  }

  lemma QuotientShrinks(a: int, b: int)
    requires b > 0
    ensures Abs(TruncDiv(a, b)) <= Abs(a)
  {
    TruncDivBounds(a, b);
    ShrinksBy(Abs(TruncDiv(a, b)), 0, b);
    assert b * TruncDiv(a, b) == Abs(TruncDiv(a, b)) * b || b * TruncDiv(a, b) == -(Abs(TruncDiv(a, b)) * b);
  }

  lemma TwoRoundings(k: int, scale: int, elapsed: nat, perDay: int, v: int)
    requires scale > 0 && Abs(k - scale * perDay) < scale && Abs(perDay * elapsed - 86_400 * v) < 86_400
    ensures Abs(v * 86_400 * scale - k * elapsed) <= (elapsed + 86_399) * scale
  {
    var first, second := k - scale * perDay, perDay * elapsed - 86_400 * v;
    AbsProduct(first, scale, elapsed);
    AbsProduct(second, 86_399, scale);
    RoundingSum(k, scale, elapsed, perDay, v, first, second);
  }

  lemma RoundingSum(k: int, scale: int, elapsed: int, perDay: int, v: int, first: int, second: int)
    requires k == scale * perDay + first && perDay * elapsed == 86_400 * v + second
    ensures v * 86_400 * scale - k * elapsed == -(first * elapsed) - second * scale
  {
    assert k * elapsed == (scale * perDay) * elapsed + first * elapsed;
    assert (scale * perDay) * elapsed == (perDay * elapsed) * scale;
    assert (perDay * elapsed) * scale == (86_400 * v) * scale + second * scale;
  }

  lemma AbsProduct(x: int, bound: int, factor: int)
    requires Abs(x) <= bound && factor >= 0
    ensures Abs(x * factor) <= bound * factor
  {
    MulNonNegative(bound - x, factor);
    MulNonNegative(bound + x, factor);
    assert (bound - x) * factor == bound * factor - x * factor;
    assert (bound + x) * factor == bound * factor + x * factor;
  }

  /** The funding rate step is odd in the skew: mirrored markets move by mirrored amounts. */
  lemma VelocityOdd(netSkew: int, skewScale: int, maxVelocityBps: nat, elapsedSeconds: nat)
    ensures var v := FundingVelocity(netSkew, skewScale, maxVelocityBps, elapsedSeconds);
            var w := FundingVelocity(-netSkew, skewScale, maxVelocityBps, elapsedSeconds);
            v.Done? && w.Done? ==> w.value == -v.value
  {
    if skewScale > 0 {
      var k := maxVelocityBps * PRECISION;
      assert k * -netSkew == -(k * netSkew);
      TruncDivOdd(k * netSkew, skewScale);
      var perDay := TruncDiv(k * netSkew, skewScale);
      assert (-perDay) * elapsedSeconds == -(perDay * elapsedSeconds);
      TruncDivOdd(perDay * elapsedSeconds, 86_400);
    }
  }

  /** Splitting the elapsed time changes the step by at most one unit, and never makes it larger. */
  lemma VelocitySplits(netSkew: int, skewScale: int, maxVelocityBps: nat, first: nat, second: nat)
    ensures var v := FundingVelocity(netSkew, skewScale, maxVelocityBps, first + second);
            var a := FundingVelocity(netSkew, skewScale, maxVelocityBps, first);
            var b := FundingVelocity(netSkew, skewScale, maxVelocityBps, second);
            v.Done? && a.Done? && b.Done? ==> 0 <= Abs(v.value) - Abs(a.value + b.value) <= 1
  {
    if skewScale > 0 && first > 0 && second > 0 {
      var k := maxVelocityBps * PRECISION;
      var perDay := TruncDiv(k * netSkew, skewScale);
      SplitQuotient(perDay, first, second);
    }
  }

  lemma SplitQuotient(rate: int, first: nat, second: nat)
    ensures var v := TruncDiv(rate * (first + second), 86_400);
            var ab := TruncDiv(rate * first, 86_400) + TruncDiv(rate * second, 86_400);
            0 <= Abs(v) - Abs(ab) <= 1
  {
    assert rate * (first + second) == rate * first + rate * second;
    if rate >= 0 {
      MulNonNegative(rate, first);
      MulNonNegative(rate, second);
    } else {
      MulNonNegative(-rate, first);
      MulNonNegative(-rate, second);
      assert (-rate) * first == -(rate * first) && (-rate) * second == -(rate * second);
    }
    TruncDivBounds(rate * first, 86_400);
    TruncDivBounds(rate * second, 86_400);
    TruncDivBounds(rate * (first + second), 86_400);
  }
}
