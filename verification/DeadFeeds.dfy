/**
 Dead price feeds: a leg whose price cannot be read counts as the loss of its whole
 size, and what that does to the account's equity.
 */
module DeadFeeds {
  import opened Fixed
  import opened Types
  import opened RiskMath
  import opened CrossMargin

  // ------------------------------------------------------------------- one leg

  /** `blind` shows each price as it is or as unreadable. */
  ghost predicate Blinds(blind: Symbol -> int, price: Symbol -> int) {
    forall s :: blind(s) == price(s) || blind(s) <= 0
  }

  /** Up to this price a short leg has not lost more than its size. */
  predicate LossWithinSize(p: Position, price: int) {
    p.direction == Short ==> p.size * (price - p.entryPrice) < (p.size + 1) * p.entryPrice
  }

  /** Valuing a leg at minus its size understates it exactly while its loss stays
      within its size: always for a long, for a short up to about twice the
      entry price. */
  lemma DeadLegUnderstates(p: Position, price: int)
    requires p.size >= 0 && p.entryPrice > 0 && price > 0
    requires CalculatePnl(p, price).Done?
    ensures -p.size <= CalculatePnl(p, price).value <==> LossWithinSize(p, price)
    ensures price <= 2 * p.entryPrice ==> LossWithinSize(p, price)
  {
    var against := -FavourableMove(p.direction, p.entryPrice, price);
    LossAgainst(p.size, p.entryPrice, against);
    if against <= p.entryPrice {
      SmallLoss(p.size, p.entryPrice, against);
    }
  }

  lemma LossAgainst(size: int, entry: int, against: int)
    requires size >= 0 && entry > 0
    ensures -size <= TruncDiv(size * -against, entry) <==> size * against < (size + 1) * entry
  {
    assert size * -against == -(size * against);
    TruncDivOdd(size * against, entry);
    TruncDivAtMost(size * against, entry, size);
  }

  lemma SmallLoss(size: int, entry: int, against: int)
    requires size >= 0 && entry > 0 && against <= entry
    ensures size * against < (size + 1) * entry
  {
    MulNonNegative(size, entry - against);
    assert size * (entry - against) == size * entry - size * against;
    assert (size + 1) * entry == size * entry + entry;
  }

  // ----------------------------------------------------------------- one asset

  /** What a leg would lose from the equity if its feed died. */
  function Surplus(p: Position, price: int): int {
    p.size + match LegPnl(p, price) { case Done(pnl) => pnl case _ => 0 }
  }

  /** The same over all legs on the given assets. */
  function SlackOf(m: Market, ids: seq<nat>, price: Symbol -> int, assets: set<Symbol>): int {
    if ids == [] then 0
    else
      var id := ids[|ids| - 1];
      SlackOf(m, ids[..|ids| - 1], price, assets)
      + if id in m.positions && m.positions[id].asset in assets
        then Surplus(m.positions[id], price(m.positions[id].asset)) else 0
  }

  /** The legs on one asset together have not lost more than their sizes. It is
      computed from the prices that can still be read. */
  predicate Understated(m: Market, ids: seq<nat>, price: Symbol -> int, asset: Symbol) {
    SlackOf(m, ids, price, {asset}) >= 0
  }

  /** The assets whose feed `blind` has lost. */
  function Lost(m: Market, ids: seq<nat>, blind: Symbol -> int, price: Symbol -> int): set<Symbol> {
    set id | id in ids && id in m.positions && price(m.positions[id].asset) > 0 && blind(m.positions[id].asset) <= 0
      :: m.positions[id].asset
  }

  /** `assets` are those whose feed is lost, as far as the listed legs can tell. */
  predicate Loses(m: Market, ids: seq<nat>, blind: Symbol -> int, price: Symbol -> int, assets: set<Symbol>) {
    forall id :: id in ids && id in m.positions ==>
      var a := m.positions[id].asset;
      a in assets <==> price(a) > 0 && blind(a) <= 0
  }

  lemma BlindLeg(m: Market, id: nat, blind: Symbol -> int, price: Symbol -> int, assets: set<Symbol>)
    requires Blinds(blind, price) && Loses(m, [id], blind, price, assets)
    requires LegAt(m, id, 0, price).Done?
    ensures LegAt(m, id, 0, blind).Done?
    ensures var lost := SlackOf(m, [id], price, assets);
            Net(LegAt(m, id, 0, blind).value) == Net(LegAt(m, id, 0, price).value) - lost
  {
    assert [id][..0] == [];
    if id in m.positions {
      var p := m.positions[id];
      assert id in [id];
      assert blind(p.asset) == price(p.asset) || blind(p.asset) <= 0;
      BlindPnl(p, blind(p.asset), price(p.asset));
    }
  }

  lemma BlindPnl(p: Position, blind: int, price: int)
    requires blind == price || blind <= 0
    requires LegPnl(p, price).Done?
    ensures LegPnl(p, blind).Done?
    ensures LegPnl(p, blind).value
         == LegPnl(p, price).value - if price > 0 && blind <= 0 then Surplus(p, price) else 0
    ensures Abs(LegPnl(p, blind).value) <= Abs(LegPnl(p, price).value) + Abs(p.size)
  {
  }

  lemma SlackStep(m: Market, ids: seq<nat>, price: Symbol -> int, assets: set<Symbol>)
    requires ids != []
    ensures SlackOf(m, ids, price, assets)
         == SlackOf(m, ids[..|ids| - 1], price, assets) + SlackOf(m, [ids[|ids| - 1]], price, assets)
  {
    assert [ids[|ids| - 1]][..0] == [];
  }

  /** Losing feeds takes from the legs' sum exactly the slack of the lost assets. */
  lemma {:induction false} BlindSum(m: Market, ids: seq<nat>, blind: Symbol -> int, price: Symbol -> int, assets: set<Symbol>)
    requires Blinds(blind, price) && Loses(m, ids, blind, price, assets)
    requires LegsOf(m, ids, 0, price).Done? && LegsOf(m, ids, 0, blind).Done?
    ensures SumNet(LegsOf(m, ids, 0, blind).value)
         == SumNet(LegsOf(m, ids, 0, price).value) - SlackOf(m, ids, price, assets)
  {
    if ids != [] {
      var init, last := ids[..|ids| - 1], ids[|ids| - 1];
      InitialLegs(m, ids, 0, blind);
      InitialLegs(m, ids, 0, price);
      BlindSum(m, init, blind, price, assets);
      LegAtIndex(m, ids, 0, blind, |ids| - 1);
      LegAtIndex(m, ids, 0, price, |ids| - 1);
      assert last in ids;
      BlindLeg(m, last, blind, price, assets);
      SlackStep(m, ids, price, assets);
    }
  }

  // --------------------------------------------------------------- the account

  /** Losing feeds lowers the equity by exactly the slack of the lost assets. */
  lemma EquityWithoutFeeds(m: Market, trader: Address, blind: Symbol -> int, price: Symbol -> int, assets: set<Symbol>)
    requires Blinds(blind, price) && Loses(m, m.IdsOf(trader), blind, price, assets)
    requires Fits(m, trader, price) && Fits(m, trader, blind)
    ensures CrossEquity(m, trader, price).Done?
    ensures CrossEquity(m, trader, blind)
         == Done(CrossEquity(m, trader, price).value - SlackOf(m, m.IdsOf(trader), price, assets))
  {
    EquityIsExact(m, trader, price);
    EquityIsExact(m, trader, blind);
    BlindSum(m, m.IdsOf(trader), blind, price, assets);
  }

  /** Sum of the sizes, as magnitudes. */
  function Sizes(m: Market, ids: seq<nat>): nat {
    if ids == [] then 0
    else
      var id := ids[|ids| - 1];
      Sizes(m, ids[..|ids| - 1]) + if id in m.positions then Abs(m.positions[id].size) else 0
  }

  /** The amounts, and the sizes on top, are far enough from the 128-bit range. */
  ghost predicate FitsBlind(m: Market, trader: Address, price: Symbol -> int) {
    var legs := LegsOf(m, m.IdsOf(trader), 0, price);
    legs.Done? && Abs(m.BalanceOf(trader)) + Magnitude(legs.value) + Sizes(m, m.IdsOf(trader)) <= I128_MAX
  }

  lemma BlindWeight(m: Market, id: nat, blind: Symbol -> int, price: Symbol -> int)
    requires Blinds(blind, price) && LegAt(m, id, 0, price).Done?
    ensures LegAt(m, id, 0, blind).Done?
    ensures Weight(LegAt(m, id, 0, blind).value) <= Weight(LegAt(m, id, 0, price).value)
              + if id in m.positions then Abs(m.positions[id].size) else 0
  {
    if id in m.positions {
      var p := m.positions[id];
      assert blind(p.asset) == price(p.asset) || blind(p.asset) <= 0;
      BlindPnl(p, blind(p.asset), price(p.asset));
    }
  }

  lemma {:induction false} BlindLegs(m: Market, ids: seq<nat>, blind: Symbol -> int, price: Symbol -> int)
    requires Blinds(blind, price) && LegsOf(m, ids, 0, price).Done?
    ensures LegsOf(m, ids, 0, blind).Done?
    ensures Magnitude(LegsOf(m, ids, 0, blind).value) <= Magnitude(LegsOf(m, ids, 0, price).value) + Sizes(m, ids)
  {
    if ids == [] {
      TheseAreTheLegs(m, ids, 0, blind, []);
    } else {
      var n := |ids| - 1;
      InitialLegs(m, ids, 0, price);
      BlindLegs(m, ids[..n], blind, price);
      LegAtIndex(m, ids, 0, price, n);
      BlindWeight(m, ids[n], blind, price);
      var legs, leg := LegsOf(m, ids[..n], 0, blind).value, LegAt(m, ids[n], 0, blind).value;
      NextLeg(m, ids, n, 0, blind, legs, leg);
      assert ids[..n + 1] == ids;
      TheseAreTheLegs(m, ids, 0, blind, legs + [leg]);
      assert (legs + [leg])[..n] == legs;
    }
  }

  lemma BlindFits(m: Market, trader: Address, blind: Symbol -> int, price: Symbol -> int)
    requires Blinds(blind, price) && FitsBlind(m, trader, price)
    ensures Fits(m, trader, price) && Fits(m, trader, blind)
  {
    BlindLegs(m, m.IdsOf(trader), blind, price);
  }

  lemma {:induction false} SlackSplits(m: Market, ids: seq<nat>, price: Symbol -> int, assets: set<Symbol>, a: Symbol)
    requires a in assets
    ensures SlackOf(m, ids, price, assets) == SlackOf(m, ids, price, assets - {a}) + SlackOf(m, ids, price, {a})
  {
    if ids != [] {
      SlackSplits(m, ids[..|ids| - 1], price, assets, a);
    }
  }

  lemma {:induction false} SlackAddsUp(m: Market, ids: seq<nat>, price: Symbol -> int, assets: set<Symbol>)
    requires forall a :: a in assets ==> Understated(m, ids, price, a)
    ensures SlackOf(m, ids, price, assets) >= 0
    decreases |assets|
  {
    if assets == {} {
      NoAssets(m, ids, price);
    } else {
      var a :| a in assets;
      assert Understated(m, ids, price, a);
      SlackSplits(m, ids, price, assets, a);
      SlackAddsUp(m, ids, price, assets - {a});
    }
  }

  lemma {:induction false} NoAssets(m: Market, ids: seq<nat>, price: Symbol -> int)
    ensures SlackOf(m, ids, price, {}) == 0
  {
    if ids != [] {
      NoAssets(m, ids[..|ids| - 1], price);
    }
  }

  function Without(price: Symbol -> int, asset: Symbol): Symbol -> int {
    s => if s == asset then 0 else price(s)
  }

  lemma WithoutLoses(m: Market, ids: seq<nat>, price: Symbol -> int, asset: Symbol)
    requires price(asset) > 0
    ensures Blinds(Without(price, asset), price) && Loses(m, ids, Without(price, asset), price, {asset})
  {
  }

  /** No way of losing feeds raises the equity. */
  ghost predicate NeverRaises(m: Market, trader: Address, price: Symbol -> int) {
    forall blind: Symbol -> int | Blinds(blind, price) ::
      CrossEquity(m, trader, blind).Done? && CrossEquity(m, trader, price).Done?
      && CrossEquity(m, trader, blind).value <= CrossEquity(m, trader, price).value
  }

  /** Dead feeds only understate the equity, whichever feeds die, exactly when on
      every asset with a readable price the account's legs together have not lost
      more than their sizes. */
  lemma DeadFeedsExactly(m: Market, trader: Address, price: Symbol -> int)
    requires FitsBlind(m, trader, price)
    ensures NeverRaises(m, trader, price)
       <==> forall asset :: price(asset) > 0 ==> Understated(m, m.IdsOf(trader), price, asset)
  {
    var ids := m.IdsOf(trader);
    if forall asset :: price(asset) > 0 ==> Understated(m, ids, price, asset) {
      forall blind: Symbol -> int | Blinds(blind, price)
        ensures CrossEquity(m, trader, blind).Done? && CrossEquity(m, trader, price).Done?
        ensures CrossEquity(m, trader, blind).value <= CrossEquity(m, trader, price).value
      {
        BlindFits(m, trader, blind, price);
        EquityWithoutFeeds(m, trader, blind, price, Lost(m, ids, blind, price));
        SlackAddsUp(m, ids, price, Lost(m, ids, blind, price));
      }
    } else {
      var asset :| price(asset) > 0 && !Understated(m, ids, price, asset);
      LostFeedMovesEquity(m, trader, asset, price);
    }
  }

  /** Losing one feed lowers the equity by the slack of its asset, so it raises the
      equity exactly when the asset's legs have lost more than their sizes. */
  lemma LostFeedMovesEquity(m: Market, trader: Address, asset: Symbol, price: Symbol -> int)
    requires FitsBlind(m, trader, price) && price(asset) > 0
    ensures Blinds(Without(price, asset), price)
    ensures CrossEquity(m, trader, price).Done?
    ensures CrossEquity(m, trader, Without(price, asset))
         == Done(CrossEquity(m, trader, price).value - SlackOf(m, m.IdsOf(trader), price, {asset}))
  {
    WithoutLoses(m, m.IdsOf(trader), price, asset);
    BlindFits(m, trader, Without(price, asset), price);
    EquityWithoutFeeds(m, trader, Without(price, asset), price, {asset});
  }

  predicate LossesWithinSize(m: Market, ids: seq<nat>, price: Symbol -> int) {
    forall id :: id in ids && id in m.positions ==>
      var p := m.positions[id];
      p.size >= 0 && p.entryPrice > 0 && (price(p.asset) > 0 ==> LossWithinSize(p, price(p.asset)))
  }

  lemma {:induction false} LegwiseSlack(m: Market, ids: seq<nat>, price: Symbol -> int, assets: set<Symbol>)
    requires LossesWithinSize(m, ids, price) && forall a :: a in assets ==> price(a) > 0
    requires LegsOf(m, ids, 0, price).Done?
    ensures SlackOf(m, ids, price, assets) >= 0
  {
    if ids != [] {
      var n := |ids| - 1;
      InitialLegs(m, ids, 0, price);
      LegwiseSlack(m, ids[..n], price, assets);
      LegAtIndex(m, ids, 0, price, n);
      assert ids[n] in ids;
      if ids[n] in m.positions && m.positions[ids[n]].asset in assets {
        LegSlack(m.positions[ids[n]], price(m.positions[ids[n]].asset));
      }
    }
  }

  lemma LegSlack(p: Position, price: int)
    requires p.size >= 0 && p.entryPrice > 0 && price > 0 && LossWithinSize(p, price)
    requires LegPnl(p, price).Done?
    ensures Surplus(p, price) >= 0
  {
    if CalculatePnl(p, price).Done? {
      DeadLegUnderstates(p, price);
    }
  }

  /** In particular they do when no readable short has lost more than its size. */
  lemma DeadFeedsUnderstateEquity(m: Market, trader: Address, blind: Symbol -> int, price: Symbol -> int)
    requires Blinds(blind, price)
    requires LossesWithinSize(m, m.IdsOf(trader), price)
    requires Fits(m, trader, price) && Fits(m, trader, blind)
    ensures CrossEquity(m, trader, blind).Done? && CrossEquity(m, trader, price).Done?
    ensures CrossEquity(m, trader, blind).value <= CrossEquity(m, trader, price).value
  {
    var ids := m.IdsOf(trader);
    EquityWithoutFeeds(m, trader, blind, price, Lost(m, ids, blind, price));
    LegwiseSlack(m, ids, price, Lost(m, ids, blind, price));
  }

  /** The condition is needed: a short at three times its entry price has lost twice
      its size, and losing the feed hides half of that. */
  lemma DeadFeedCanRaiseEquity() returns (m: Market, blind: Symbol -> int, price: Symbol -> int)
    ensures Blinds(blind, price)
    ensures CrossEquity(m, "t", price) == Done(-100) && CrossEquity(m, "t", blind) == Done(0)
  {
    var p := Position(1, "t", "XLM", 100, 100, 10, Short, 1, 0, 0, 0, 1);
    m := Market(map[1 := p], map["t" := [1]], map[], map[], map[], 0);
    price := _ => 30;
    blind := NO_PRICE;
    ShortLeg(m, p, price);
    ShortLeg(m, p, NO_PRICE);
    EquityOfOne(m, "t", 1, price, CrossAggregates(100, -200, 0, 0, 100));
    EquityOfOne(m, "t", 1, NO_PRICE, CrossAggregates(100, -100, 0, 0, 100));
  }

  lemma ShortLeg(m: Market, p: Position, price: Symbol -> int)
    requires p == Position(1, "t", "XLM", 100, 100, 10, Short, 1, 0, 0, 0, 1)
    requires m.positions == map[1 := p] && m.riskEpochTs == 0 && m.cumulativeFunding == map[]
    requires price("XLM") == 30 || price("XLM") == 0
    ensures LegAt(m, 1, 0, price) == Done(CrossAggregates(100, if price("XLM") == 30 then -200 else -100, 0, 0, 100))
  {
  }
}
