# Verified model of the Noether exchange

Noether is a perpetual-futures exchange: Soroban contracts for the market, the LP vault, risk and referrals, an indexer
that follows the chain, and an API. This project models the parts whose correctness is arithmetic or a protocol, and
proves what they keep.

| module | models |
|---|---|
| `Fixed`, `Types`, `Wrappers` | 128-bit range, truncating division, outcomes of a contract computation; shared entities |
| `RiskMath` | profit, liquidation price, funding charges and funding velocity |
| `CrossMargin`, `CrossRows`, `DeadFeeds`, `OpenGate` | the cross-margin account: one-pass totals, equity and margins, the same in terms of the stored rows, dead price feeds, the withdraw and open gates |
| `VolumeWindow`, `FeeTiers` | the 14-slot ring of daily volume and the fee tier read from it |
| `LpShares` | LP share minting and redemption, the vault's NOE transfers |
| `MarketStore`, `StoreRows`, `Pause` | rows with their lists and counters; what the rows hold over a run; the pause mode that lapses |
| `Cursor`, `Indexer`, `Poller` | the compare-and-swap cursor, any number of interleaved pollers, and the poller object |
| `Delivery`, `Progress`, `Dispatches`, `Projections`, `IndexerRuns` | what becomes of an event over all runs: accounted for, fetched again, dispatched and projected how often; how the cursor row keeps up; concrete runs |
| `Referral`, `ReferralRuns` | the referral registry and how the market funds it; what pauses, rates, bindings and errors come to over its runs |
| `RankAdl`, `AdlQueue` | on-chain and off-chain ADL ranking |
| `RateLimiter`, `WsManager` | the API's request limiter and WebSocket accounting |
| `Printers`, `KeysetCopy` | two escaping printers and the resumable table copy |

Integers are unbounded; where the contracts use `i128` the range is explicit. An unchecked overflow aborts
(`overflow-checks = true`, contracts/Cargo.toml:31) and is the outcome `Trap`; a panicking call leaves the state as it
was. The `/` of Rust and of JavaScript BigInt on signed values is `Fixed.TruncDiv`, never Dafny's `/`.
State-changing code is a class whose methods are proved against functions of the old state; the properties are lemmas
about those functions and about all runs of them.

## What the proofs found

Where the code and its comments disagree, the model follows the code.

- "Two pollers can never double-apply" (indexer/src/poll.ts:5-7) holds, but not by the swap, which comes after the
  dispatches: events can be dispatched twice (`IndexerRuns`), and the archive of raw events makes the second dispatch
  project nothing (`Projections.ProjectedAtMostOnce`). The same guard makes the retry of a failed dispatch project
  nothing: an event whose first archiving dispatch failed is passed by the cursor and never projected
  (`Projections.ProjectedExactlyOnce`).
- A failed first poll can lose its events: nothing was committed, and the next cold start asks from a later ledger
  (`IndexerRuns.ColdStartCanSkip`; exactly when in `Delivery`).
- The stored liquidation price ignores the fee, which leaves the collateral after the size is fixed: short of that price
  a position can be below maintenance margin, and is for any fee above rounding (`RiskMath.FeeBeyondRounding`). The
  market's own test also compares the margin, and for such fees liquidates by it alone (`RiskMath.MarketLiquidatesByEquity`).
- "Equity can only be understated" by a dead feed (contracts/market/src/position.rs:81-90): true of a long, and of a
  short exactly while its loss stays within its size; of an account exactly while that holds asset by asset.
- The open gate "reads post-open equity covers post-open IM" (contracts/market/src/lib.rs:559-564): the fee is charged
  after the gate, so it holds only if the account could also pay the fee. Liquidation stays excluded under a valid ladder.
- The margin gate is safe only while the initial margins add up within 128 bits; past that a leg is skipped.
- On the boundary leverage times margin = 10000 a price on the safe side can meet maintenance margin without exceeding it.
- The fee lookup sums the window before rotating it: expired days still count, in the trader's favour only. The fee
  view (contracts/market/src/lib.rs:1621-1631) rotates first and can announce a higher fee than the one charged.
- "Highest min_volume that the trader exceeds" (contracts/market/src/trading.rs:120): the last one listed and reached;
  the same if and only if the thresholds ascend.
- The market forwards a referral payout only up to its own cut, and nothing until a treasury is set
  (contracts/market/src/lib.rs:3463-3488), while the registry accrues all of it: claims go unfunded in a default
  deployment, and otherwise unless the rates satisfy `Referral.CutCoversPayoutExactly`.
- A first deposit into a pool with value but no shares redeems for more than it paid in.
- A NOE transfer to the vault itself breaks circulating plus balance.
- Day 0 marks an untouched volume record: a trade on it is forgotten by any other up to day 13 (exactly when in
  `VolumeWindow.StandsExactly`). A ledger clock never reads day 0.

## Model

| member | source | states |
|---|---|---|
| `RiskMath.SafeSideCoversMaintenance` | contracts/noether_common/src/math.rs:38-64 | for a position as the market stores it, its fee taken from the collateral: short of the liquidation price equity and fee together cover size times maintenance margin, for both directions, up to the rounding of a netted open; strictly more except exactly on the boundary leverage times margin = 10000 with a gain below one unit |
| `RiskMath.ThroughSideNearMaintenance` | contracts/noether_common/src/math.rs:78-99 | at or through the liquidation price, equity and fee together are below size times margin plus size/PRECISION plus size/entry plus 1 |
| `RiskMath.LiquidationPriceExists` | contracts/noether_common/src/math.rs:38-64 | a bounded position has a liquidation price on the losing side, between zero and twice its entry price, unless the product with the adjustment leaves the range |
| `RiskMath.StoredCoversExactly` | contracts/market/src/lib.rs:601-643 | the stored position covers maintenance margin at every price short of its liquidation price if and only if the fee fits into what is left one tick short of it, a test on fee, size, leverage, margin and entry price |
| `RiskMath.FeeBeyondRounding` | contracts/market/src/lib.rs:601-643 | no fee above size/PRECISION + 2 size/entry + 2 fits |
| `RiskMath.FeeBreaksSafeSide` | contracts/market/src/lib.rs:601-643 | a market-shaped position, ten times leverage and 0.05% fee, that is below maintenance margin one tick short of its stored liquidation price, where the market liquidates it by its margin |
| `RiskMath.MarginDecidesExactly` | contracts/market/src/lib.rs:3341-3356 | at zero funding the stored price liquidates nothing that the market's margin test would not, at any price, if and only if the fee leaves less than maintenance margin at the stored price, a test that can be made before opening |
| `RiskMath.MarketLiquidatesByEquity` | contracts/market/src/lib.rs:3341-3356 | in particular for every fee above size/PRECISION + size/entry + 2 the market liquidates if and only if the equity is below maintenance margin |
| `RiskMath.ValueExistsExactly` | contracts/noether_common/src/math.rs:110-122 | a position has a value if and only if its profit has one and neither sum leaves the range |
| `RiskMath.FundingDecides` | contracts/market/src/lib.rs:3341-3356 | at any funding: the market liquidates if and only if the stored price is reached or the funding owed exceeds collateral plus profit less maintenance margin, and the position is worth that room plus maintenance margin less the funding |
| `RiskMath.UnknownProfitIsNone` | contracts/market/src/lib.rs:3350-3355 | a profit that cannot be computed counts as none: the collateral less the funding decides alone |
| `RiskMath.TestStopsExactly` | contracts/market/src/lib.rs:3341-3356 | short of the stored price the test aborts if and only if the move, a sum or the scaled size leaves the range; a failed profit does not abort it |
| `RiskMath.MoreFundingNeverSaves` | contracts/market/src/lib.rs:3341-3356 | more funding owed never makes a liquidatable position safe, and lowers its value by as much |
| `RiskMath.IndexDecides` | contracts/market/src/lib.rs:3341-3356 | short of the stored price and with room left, the market liquidates if and only if signed size times the change of the funding index since entry reaches room plus one unit |
| `RiskMath.RisingIndex` | contracts/market/src/lib.rs:3341-3356 | a rising funding index moves a long towards liquidation and a short away from it |
| `RiskMath.FundingLiquidates` | contracts/market/src/lib.rs:3341-3356 | a concrete long, far from its stored price, that its funding liquidates |
| `RiskMath.BoundaryIsReached` | contracts/noether_common/src/math.rs:132-137 | the exception on the safe side is real: a position and price that meet it |
| `RiskMath.FundingIsRounded` | contracts/noether_common/src/math.rs:216-233 | a charge is signed size times index change over PRECISION, cut toward zero |
| `RiskMath.FundingStopsExactly` | contracts/noether_common/src/math.rs:216-233 | and fails if and only if the index change or its product with the size leaves the range |
| `RiskMath.EqualLegsCancel` | contracts/noether_common/src/math.rs:216-233 | equal long and short sizes over one interval cancel to the last unit |
| `RiskMath.FundingTracksNetSize` | contracts/noether_common/src/math.rs:216-233 | the charges of n legs miss the charge of their net size by less than n units |
| `RiskMath.FundingConserved` | contracts/noether_common/src/math.rs:216-233 | with as much long as short size, n charges net to less than n units |
| `RiskMath.SplitFundingWithin` | contracts/noether_common/src/math.rs:216-233 | charging over n consecutive intervals, along any path of the index, differs from one charge by at most n - 1 |
| `RiskMath.VelocityTracksSkew` | contracts/noether_common/src/math.rs:239-252 | the funding step stays within the two rounding errors of the exact product of velocity, skew and time |
| `RiskMath.VelocityExists` | contracts/noether_common/src/math.rs:239-252 | the step is zero without scale or time, exists whenever velocity, skew and time multiply within range, and aborts when velocity times skew alone does not fit |
| `RiskMath.VelocityOdd` | contracts/noether_common/src/math.rs:239-252 | mirrored skew moves the rate by the mirrored amount |
| `RiskMath.VelocitySplits` | contracts/noether_common/src/math.rs:239-252 | splitting the elapsed time changes the step by at most one unit and never enlarges it |
| `CrossMargin.AggregateCrossPositions` | contracts/market/src/position.rs:59-117 | the one-pass loop returns the totals of the account's legs, or aborts if one leg does |
| `CrossMargin.PassesAgree` | contracts/market/src/position.rs:59-160 | passes over the same positions with different prices or fallback margins differ only in profit and in maintenance margin |
| `CrossMargin.LiquidationComparesReportedFigures` | contracts/market/src/position.rs:163-181 | the liquidation test compares exactly the equity and the maintenance margin the separate entry points report, and spares an account without positions |
| `CrossMargin.EquityIgnoresOrder` | contracts/market/src/position.rs:59-134 | within range equity does not depend on the order of the position list |
| `CrossMargin.LadderLimits` | contracts/noether_common/src/types.rs:269-281 | the admin check passes if and only if the initial margin is at least 4%, leverage at most its inverse (so at most 25), maintenance margin half of it and the other fields in bounds |
| `CrossMargin.LadderBounds` | contracts/noether_common/src/types.rs:269-281 | a ladder entry that passed the admin check keeps leverage times maintenance margin within half of one under its leverage cap |
| `CrossMargin.LadderAppliesToNewPositions` | contracts/market/src/position.rs:21-33 | a position opened under a live ladder carries the ladder's margin and is bounded |
| `CrossMargin.LadderUpgradeChangesNothing` | contracts/market/src/position.rs:21-33 | going live with the ladder changes no figure of accounts whose positions are older |
| `CrossMargin.MarginGateSafe` | contracts/market/src/position.rs:152-181 | equity at or above the initial margins rules out liquidation at the same prices, as long as the initial margins add up within 128 bits |
| `CrossMargin.MarginGateFailsPastRange` | contracts/market/src/position.rs:111-112 | beyond 128 bits the gate fails: a concrete account that passes it and is liquidatable |
| `CrossMargin.MarginGateExactly` | contracts/market/src/position.rs:137-181 | the gate protects an account at every balance if and only if its reported used margin is at least its reported maintenance margin |
| `CrossMargin.WithdrawGateSafe` | contracts/market/src/lib.rs:1706-1741 | a withdrawal that passes the gate lowers the equity by its amount and leaves an account that cannot be liquidated |
| `CrossMargin.EquityIsExact` | contracts/market/src/position.rs:122-134 | within range the reported equity is balance plus collateral plus profit less funding, over all legs |
| `CrossMargin.EquityFallsBack` | contracts/market/src/position.rs:122-134 | past 128 bits the equity falls back to the balance or to zero and never leaves the range |
| `CrossRows.ProfitStopsExactly` | contracts/market/src/position.rs:91-95 | a profit that overflows counts as minus the size; the pass aborts if and only if the size cannot be negated, or the move or the final quotient leaves the range |
| `CrossRows.EquityFromRows` | contracts/market/src/position.rs:59-134 | the equity in terms of the stored rows alone: balance plus collateral plus signed size times relative price change, less signed size times the index change since entry, each cut toward zero |
| `CrossRows.EquityLessFunding` | contracts/market/src/position.rs:96-101 | balance, collateral and profit exceed the equity by the exact funding of all rows, up to less than one unit per leg |
| `CrossRows.IndexMovesEquity` | contracts/market/src/position.rs:96-101 | raising one asset's index by d takes the net signed size on that asset times d from the equity, up to less than one unit per leg on it, two for a leg that turns from paying to receiving |
| `CrossRows.TurningCostsTwo` | contracts/noether_common/src/math.rs:216-233 | the second unit is real: a leg that does not move although the exact change is nearly two |
| `CrossRows.MaintenanceFromRows` | contracts/market/src/position.rs:102-108 | the maintenance margin is the sum over the rows of size times the margin that applies to each, rounded down row by row |
| `DeadFeeds.DeadLegUnderstates` | contracts/market/src/position.rs:80-95 | valuing a leg at minus its size understates it if and only if it has not lost more than its size: always for longs, for shorts up to twice the entry price |
| `DeadFeeds.DeadFeedsExactly` | contracts/market/src/position.rs:80-134 | losing feeds never raises the equity, whichever feeds are lost, if and only if on every asset with a readable price the legs together have not lost more than their sizes |
| `DeadFeeds.LostFeedMovesEquity` | contracts/market/src/position.rs:80-134 | losing one feed lowers the equity by exactly the sum of size and profit over the legs on its asset |
| `DeadFeeds.EquityWithoutFeeds` | contracts/market/src/position.rs:80-134 | and losing any set of feeds by the sum over their assets |
| `DeadFeeds.DeadFeedsUnderstateEquity` | contracts/market/src/position.rs:80-134 | a sufficient condition leg by leg: no readable short has lost more than its size |
| `DeadFeeds.DeadFeedCanRaiseEquity` | contracts/market/src/position.rs:80-95 | a concrete short at three times its entry price whose dead feed lifts the equity from -100 to 0 |
| `OpenGate.NettedIsMargin` | contracts/market/src/lib.rs:464-467 | netting opens what is left of the size, and a plain open and a netted remainder alike open with the initial margin of their size, rounded down |
| `OpenGate.OpenIsGatedBeforeTheFee` | contracts/market/src/lib.rs:550-646 | an open lowers the equity by the fee and raises the used margin by the collateral, so the initial-margin gate holds afterwards if and only if the account could have paid the fee on top |
| `OpenGate.FirstOpenMissesInitial` | contracts/market/src/lib.rs:559-567 | a first open with the whole pool and any positive fee ends below its initial margin by the fee |
| `OpenGate.OpenLeavesBelowInitial` | contracts/market/src/lib.rs:559-567 | a concrete account that passes the gate and ends with 99 against an initial margin of 100 |
| `OpenGate.SecondOpenLeavesBelowInitial` | contracts/market/src/lib.rs:559-567 | the same with another position open, exactly at the gate |
| `OpenGate.OpenGateSafe` | contracts/market/src/lib.rs:550-646 | an open that passes the gate leaves an account that cannot be liquidated, as long as fee and new maintenance margin fit into the new collateral |
| `OpenGate.FirstOpenExactly` | contracts/market/src/lib.rs:550-646 | for a first position opened with the whole pool that condition is exact |
| `OpenGate.LadderOpensFit` | contracts/market/src/lib.rs:3860-3876 | under a valid ladder and at most the base taker fee the condition always holds |
| `VolumeWindow.VolumeRecord.Rotate` | contracts/market/src/trading.rs:59-93 | the rotation clears exactly the slots of the days passed, all of them after 14 or more |
| `VolumeWindow.VolumeRecord.RecordTrade` | contracts/market/src/trading.rs:96-108 | a trade rotates and adds to its day's slot; non-positive sizes change nothing, an overflow aborts |
| `VolumeWindow.VolumeRecord.SumRollingVolume` | contracts/market/src/trading.rs:111-117 | the sum of the stored slots |
| `VolumeWindow.RingRefinesLog` | contracts/market/src/trading.rs:59-108 | after any run of trades on days from 1 on that never go back, slot d mod 14 holds exactly day d's volume, for the last 14 days |
| `VolumeWindow.StandsExactly` | contracts/market/src/trading.rs:59-108 | from day 0 on it does if and only if no counted trade on day 0 was followed by another, or day 0 has left the window |
| `VolumeWindow.RingRemembers` | contracts/market/src/trading.rs:59-108 | what the ring holds otherwise: each day's volume less what was overtaken on day 0 |
| `VolumeWindow.DayZeroForgets` | contracts/market/src/trading.rs:60-69 | two trades on day 0 leave the second alone in the ring |
| `VolumeWindow.LaterDayForgets` | contracts/market/src/trading.rs:60-69 | and a trade on any day up to 13 erases day 0 |
| `VolumeWindow.RecordNeverGoesBack` | contracts/market/src/trading.rs:59-108 | for days in any order the record carries the latest day of a counted trade |
| `VolumeWindow.BackdatedTradeCounts` | contracts/market/src/trading.rs:59-108 | a trade dated before that day counts in full, clears nothing and touches only its own slot |
| `VolumeWindow.RollingVolumeIsWindowVolume` | contracts/market/src/lib.rs:1606-1616 | rotating and then summing gives the volume of the counted trades of the 14 days up to now |
| `VolumeWindow.RotationSplitsByDay` | contracts/market/src/trading.rs:59-93 | one rotation over k days equals k one-day rotations, the wholesale reset included |
| `VolumeWindow.UnrotatedSumCountsExpiredDays` | contracts/market/src/lib.rs:77-85 | summing before rotating, as the fee lookup does, adds exactly the days that have expired since, however long ago the last trade was |
| `FeeTiers.DetermineFeeTier` | contracts/market/src/trading.rs:121-136 | the loop returns the last listed tier the volume reaches, the base tier if none |
| `FeeTiers.DefaultSchedule` | contracts/market/src/trading.rs:30-57 | what maker and taker pay under the default tiers, by volume in whole units |
| `FeeTiers.HighestIffAscending` | contracts/market/src/trading.rs:119-136 | the tier returned is the highest reached one at every volume if and only if the distinct thresholds ascend |
| `FeeTiers.FeeFallsWithVolume` | contracts/market/src/trading.rs:121-151 | with rates that do not rise along the list, more volume never costs more |
| `FeeTiers.StaleWindowNeverRaisesFee` | contracts/market/src/lib.rs:67-91 | for every tier list whose rates do not rise, the fee charged on the unrotated window never exceeds the fee at the volume of the last 14 days |
| `FeeTiers.ChargedTierIsDueExactly` | contracts/market/src/lib.rs:67-91 | for ascending thresholds from zero the tier charged is the one due if and only if no threshold lies between the two volumes |
| `FeeTiers.StaleDiscount` | contracts/market/src/lib.rs:67-91 | and it can be lower: a discount still applied after a month without trades |
| `LpShares.MintBounds` | contracts/noether_common/src/math.rs:265-285 | minted shares are the exact proportional amount rounded down |
| `LpShares.RedeemBounds` | contracts/noether_common/src/math.rs:298-308 | redeemed value is the exact proportional amount rounded down |
| `LpShares.FirstMint` | contracts/noether_common/src/math.rs:255-285 | the first shares are minted one per unit whatever the pool is worth; with shares outstanding a pool without value mints nothing |
| `LpShares.DepositsExactly` | contracts/noether_common/src/math.rs:255-285 | a deposit goes through if and only if the pool has value or no shares and the product fits; the pool grows by all of it, the shares minted are its part of the supply, rounded down |
| `LpShares.RedeemsExactly` | contracts/noether_common/src/math.rs:289-308 | a redemption goes through if and only if the shares exist and the product fits; the shares are gone, the pool shrinks by their part of its value, rounded down |
| `LpShares.LastSharesTakeAll` | contracts/noether_common/src/math.rs:289-308 | redeeming all shares takes the whole pool |
| `LpShares.SharePriceNeverFalls` | contracts/noether_common/src/math.rs:265-308 | no run of deposits and withdrawals lowers the value of a share |
| `LpShares.RoundTripReturnsAtMost` | contracts/noether_common/src/math.rs:265-308 | deposit and redemption return at most the deposit if and only if shares are outstanding or the pool has no value |
| `LpShares.SplitNeverMintsMore` | contracts/noether_common/src/math.rs:265-285 | splitting a deposit never mints more |
| `LpShares.NoeVault.TransferToUser` | contracts/vault/src/noe.rs:21-37 | the transfer and the counter move together or not at all |
| `LpShares.NoeVault.TransferFromUser` | contracts/vault/src/noe.rs:42-59 | the transfer, its allowance and the counter move together or not at all |
| `LpShares.PaysExactly` | contracts/vault/src/noe.rs:21-37 | a payment goes through if and only if the vault holds it and the counter fits, and then shifts that amount, counts it as circulating and touches nothing else |
| `LpShares.TakesExactly` | contracts/vault/src/noe.rs:42-59 | taking needs balance and allowance, uses up the allowance and counts the amount back |
| `LpShares.EntriesDecide` | contracts/vault/src/noe.rs:21-59 | a payment and a taking change something if and only if the entries of vault, account and allowance cover the amount; an account without an entry holds nothing |
| `LpShares.AllowanceIsWhatIsLeft` | contracts/vault/src/noe.rs:42-59 | over any run with other users an allowance is what was last approved less what was taken since |
| `LpShares.TransferKeepsIssued` | contracts/vault/src/noe.rs:21-59 | a transfer keeps circulating plus vault balance if and only if the other side is not the vault itself or nothing moves |
| `LpShares.IssuedIsConstant` | contracts/vault/src/noe.rs:21-59 | over any run with other users that sum is constant |
| `MarketStore.MarketStorage.SavePosition` | contracts/market/src/storage.rs:430-467 | the save creates or rewrites the row, lists and counts it once, and panics back to the old state beyond a cap |
| `MarketStore.MarketStorage.DeletePosition` | contracts/market/src/storage.rs:555-593 | the delete drops row, marker and list entry and counts down only if the row existed |
| `MarketStore.MarketStorage.SaveOrderWithPrev` | contracts/market/src/storage.rs:704-725 | the counters follow the edges into and out of Pending; a cap panics back to the old state |
| `MarketStore.MarketStorage.SaveOrder` | contracts/market/src/storage.rs:681-698 | the same with the previous status read from the row |
| `MarketStore.MarketStorage.UpdateOrderStatus` | contracts/market/src/storage.rs:727-736 | a status change on an existing row, nothing otherwise |
| `MarketStore.MarketStorage.SetOrderPositionId` | contracts/market/src/storage.rs:771-777 | the position id changes, the counters do not |
| `MarketStore.MarketStorage.AddCrossMarginPosition` | contracts/market/src/storage.rs:878-898 | an id enters the cross list once |
| `MarketStore.MarketStorage.RemoveCrossMarginPosition` | contracts/market/src/storage.rs:900-916 | an id leaves the cross list |
| `StoreRows.SaveStores` | contracts/market/src/storage.rs:430-467 | after a save that goes through the row under the id is the given position and every other row is as it was |
| `StoreRows.RowsAreLastSaved` | contracts/market/src/storage.rs:430-593 | over every run the row of an id is the position of its last successful save with no later delete, and absent otherwise |
| `StoreRows.SaveRefusedExactly` | contracts/market/src/storage.rs:436-447 | a save is refused if and only if it would create the trader's 33rd or the 1001st position |
| `StoreRows.OrdersAreLastWritten` | contracts/market/src/storage.rs:681-777 | over every run each order row is exactly what the last successful save, status change and position link of its id made it |
| `StoreRows.WriteRefusedExactly` | contracts/market/src/storage.rs:704-725 | an order write is refused if and only if it would make pending the trader's 129th or the 2001st order |
| `StoreRows.MarkersAreLastMarked` | contracts/market/src/storage.rs:555-593 | the grace marker of an id is the last one set with no later delete |
| `StoreRows.CrossHoldsLastAdded` | contracts/market/src/storage.rs:878-916 | over every run a trader's cross list holds exactly the ids added and not removed since |
| `MarketStore.IndexesAgreeInEveryRun` | contracts/market/src/storage.rs:430-736 | in every state reachable from a fresh store counters, lists and rows agree and all four caps hold |
| `MarketStore.TotalIsSumOfTraders` | contracts/market/src/storage.rs:704-725 | the pending-order total is the sum of the per-trader counters |
| `MarketStore.DeletesAreIdempotent` | contracts/market/src/storage.rs:555-593 | a second delete changes nothing; deleting an id without a row only drops its grace marker |
| `MarketStore.SaveThenDelete` | contracts/market/src/storage.rs:430-593 | deleting a new position undoes its save |
| `MarketStore.DoubleCancelCountsOnce` | contracts/market/src/storage.rs:681-736 | leaving Pending twice counts once |
| `MarketStore.UnseededCountersNeverExceedRows` | contracts/market/src/storage.rs:394-423 | from an upgraded store with unseeded counters, no run makes a counter exceed its rows |
| `MarketStore.CrossListIsASet` | contracts/market/src/storage.rs:878-916 | the cross list stays duplicate-free and a remove undoes an add |
| `Pause.PauseCell.EffectiveMode` | contracts/market/src/storage.rs:179-187 | a write path sees the lapsed freeze as halt-open and stores that |
| `Pause.PauseCell.GatedCall` | contracts/market/src/storage.rs:201-215 | a refused or failing call is rolled back, the lapse included |
| `Pause.LazyDegradeIsInvisible` | contracts/market/src/storage.rs:179-197 | storing the lapse lazily is invisible: after any calls the view reads as from the original state |
| `Pause.FreezeIsBounded` | contracts/market/src/storage.rs:162-215 | a full freeze holds back risk-reducing calls for exactly 72 hours and never lets an increasing one through |
| `Pause.LapseIsStoredExactly` | contracts/market/src/storage.rs:179-187 | the lapse is stored, with the time of the freeze kept, by the first reducing call that succeeds after it and by nothing else |
| `Pause.OtherModesStay` | contracts/market/src/storage.rs:201-215 | at any time and after any calls a live market admits every gated call and a halt-open one exactly the reducing ones |
| `Cursor.CursorTable.WriteCursor` | indexer/src/cursor.ts:29-54 | compare-and-swap on the ledger, insert if absent |
| `Delivery.NoSilentSkip` | indexer/src/poll.ts:112-215 | under every interleaving of pollers, every event from the first ledger any poller asked for that the cursor has passed was dispatched, dead-lettered at decode, an unknown topic, or lies in a recorded gap, except below the ledger the first commit accounts from |
| `Delivery.SkippedExactly` | indexer/src/poll.ts:112-115 | the exception is exact: without a retention rewind an event not accounted for is behind the cursor if and only if it lies below that ledger |
| `Delivery.UnhandledIsFetchedAgain` | indexer/src/poll.ts:112-176 | what is not accounted for, a failed dispatch above all, is fetched again from the current row if and only if, on an empty row, the cold start asks for its ledger or an earlier one, and on a committed row, without a rewind, it lies at or above that ledger |
| `IndexerRuns.ColdStartCanSkip` | indexer/src/poll.ts:283-286 | a run in which a failed first poll loses its event: the next cold start begins further on and commits |
| `Dispatches.DispatchedAtMostOnce` | indexer/src/poll.ts:112-215 | every event is dispatched at most once in every run in which no poll begins inside another, none ends without a commit after it has dispatched something, answers carry a token, and no clamp goes back to a dispatched event |
| `Dispatches.AgainExactly` | indexer/src/poll.ts:112-215 | between polls, whatever happened before, an event that was dispatched can be dispatched again by such a continuation if and only if the cursor row is not past it |
| `Dispatches.BreakingOffExactly` | indexer/src/poll.ts:112-176 | after such a run, a poll that throws, fails on a dispatch or clamps leaves an event to be dispatched again if and only if it had dispatched something, or the clamp goes back to a dispatched event |
| `IndexerRuns.ThrowDispatchesTwice` | indexer/src/poll.ts:112-176 | a single poller that throws between dispatch and commit dispatches the event twice, with no commit at all, and projects it once |
| `IndexerRuns.RaceDispatchesTwice` | indexer/src/poll.ts:217-235 | two pollers race on one event: one commit, the loser stops, the event was dispatched twice and projected once |
| `IndexerRuns.BothCommitDispatchTwice` | indexer/src/poll.ts:217-235 | two pollers inside one ledger dispatch the same event, both commit and neither stops; it is projected once |
| `Poller.Database.Dispatch` | indexer/src/handlers/market.ts:16-40 | a handler archives and projects a new event in one transaction, does nothing for an archived one, and may keep the archive row when it throws |
| `Projections.ProjectedAtMostOnce` | indexer/src/handlers/market.ts:16-40 | no double apply: over every run and every interleaving each event is projected at most once |
| `Projections.ProjectedExactlyOnce` | indexer/src/handlers/market.ts:16-40 | a recognised event behind the cursor, at or above the origin and in no gap, is projected exactly once, unless the dispatch that first archived it failed; then not at all |
| `Projections.ProjectedReadFromRun` | indexer/src/handlers/market.ts:16-40 | read from the dispatches alone: an event is projected, once, if and only if some dispatch of it got past an early throw and the first one to archive it did not fail in between; a throw after the commit projects as well |
| `Projections.LeftOutExactly` | indexer/src/handlers/market.ts:28-36 | an archived event is unprojected if and only if the dispatch that first archived it failed |
| `Projections.LeftOutForGood` | indexer/src/handlers/market.ts:28-36 | and then no continuation projects it |
| `IndexerRuns.RetryProjectsNothing` | indexer/src/handlers/market.ts:28-36 | a run in which a failed dispatch keeps the archive row, its retry returns, and the cursor moves past an event that was never projected |
| `Delivery.FailedDispatchLeavesRow` | indexer/src/poll.ts:168-173 | a dispatch that throws dead-letters the event and leaves the cursor row as it was |
| `Delivery.ClampRecordsExactly` | indexer/src/poll.ts:237-266 | a clamp records exactly the ledgers from the one asked for up to where it resumes, and resumes at the oldest ledger without a token |
| `Progress.CommitsHighestLedger` | indexer/src/poll.ts:143-187 | in every run the ledger a batch commits is the maximum of its cursor's ledger and of its dispatched and dead-lettered events; on an empty row with none of them, the start ledger |
| `Progress.RowKeepsUp` | indexer/src/poll.ts:143-187 | in every run each dispatched or dead-lettered event the cursor is past lies at or below the row's ledger |
| `Progress.FreshAfterPoll` | indexer/src/poll.ts:178-211 | after a completed poll whose write lands or is not needed the row is less than 30 seconds old, and a quiet poll leaves ledger and token alone |
| `Progress.StopIsFinal` | indexer/src/poll.ts:79-81 | a poller asked to stop begins no further poll, whatever the run goes on with |
| `Indexer.CommitsFormChain` | indexer/src/poll.ts:178-235 | over every run each commit replaced exactly the ledger its predecessor wrote, the first one alone inserted, batches never lower the ledger and heartbeats keep it |
| `Indexer.SameLedgerAgain` | indexer/src/cursor.ts:29-54 | without a retention rewind a second commit from the same ledger lands if and only if no commit in between moved the ledger |
| `Indexer.OneAdvancePerLedger` | indexer/src/cursor.ts:29-54 | hence two commits that advance from the same ledger never both land |
| `Indexer.LosersStayIdle` | indexer/src/poll.ts:222-235 | in every run a poller that missed the swap has stopped between polls |
| `Indexer.LoserTakesNoFurtherPoll` | indexer/src/poll.ts:222-235 | from then on no continuation changes it or lets it write the row |
| `Poller.IndexerPoller.CommitCursor` | indexer/src/poll.ts:222-235 | the conditional commit; a miss makes the poller fatal and stops it |
| `Poller.IndexerPoller.ClampToRetention` | indexer/src/poll.ts:237-266 | records the gap and clamps the cursor to the oldest retained ledger |
| `Poller.IndexerPoller.HandleBatch` | indexer/src/poll.ts:144-176 | the event loop up to the first failing dispatch |
| `Poller.IndexerPoller.FinishPoll` | indexer/src/poll.ts:178-211 | batch commit, heartbeat or nothing |
| `Poller.IndexerPoller.PollOnce` | indexer/src/poll.ts:112-215 | one poll computes the specified result and counts what it dispatched |
| `Poller.PollIsRun` | indexer/src/poll.ts:112-215 | one poll is a run of the interleaved machine |
| `Poller.IndexerPoller.Loop` | indexer/src/poll.ts:90-105 | polls until stopped, the chain growing in between |
| `Poller.LoopIsRun` | indexer/src/poll.ts:90-105 | the whole loop, ledgers closing between its polls, is a run of the interleaved machine, hence everything proved over all runs holds for it |
| `Referral.ReferralContract.CreateCode` | contracts/referral/src/lib.rs:78-128 | mints a code once per address, with the source's order of error checks |
| `Referral.ReferralContract.SetReferrer` | contracts/referral/src/lib.rs:134-164 | binds once, never to oneself, never to a revoked code |
| `Referral.ReferralContract.RecordTrade` | contracts/referral/src/lib.rs:173-226 | accrues the payout to the referrer or nothing |
| `Referral.ReferralContract.Claim` | contracts/referral/src/lib.rs:233-255 | pays the claimable amount out or keeps it |
| `Referral.ReferralContract.Initialize` | contracts/referral/src/lib.rs:48-69 | one-shot set-up with the default rates |
| `Referral.ReferralContract.SetRevoked` | contracts/referral/src/lib.rs:343-358 | marks or unmarks the owner of an existing code |
| `Referral.ReferralContract.Unbind` | contracts/referral/src/lib.rs:363-369 | deletes a binding and nothing else |
| `Referral.ReferralContract.SetPaused` | contracts/referral/src/lib.rs:373-379 | switches the pause and nothing else |
| `Referral.ReferralContract.SetDiscountBps` | contracts/referral/src/lib.rs:298-309 | sets the discount up to the cap, rejects above |
| `Referral.ReferralContract.SetReferrerShareBps` | contracts/referral/src/lib.rs:311-322 | sets the referrer share up to the cap, rejects above |
| `Referral.ReferralContract.SetMinCodeVolume` | contracts/referral/src/lib.rs:324-335 | sets the volume floor, rejects a negative one |
| `ReferralRuns.PausedTrade` | contracts/referral/src/lib.rs:180-182 | a paused registry answers every trade with nothing and writes nothing |
| `ReferralRuns.PauseHoldsBack` | contracts/referral/src/lib.rs:78-226 | over any stretch of a run that starts paused and is not resumed no code, row or binding appears, no total or claim rises, and every trade gives nothing |
| `ReferralRuns.ExitsIgnorePause` | contracts/referral/src/lib.rs:233-369 | claims, releases and revocations do and answer the same, paused or not |
| `ReferralRuns.ResumeRestores` | contracts/referral/src/lib.rs:373-379 | a resumed registry is the one that was paused |
| `ReferralRuns.TotalsAreWhatAccrued` | contracts/referral/src/lib.rs:173-226 | over every run a referrer's earned total and volume are the sums over exactly the trades that accrued to them, each share rounded down |
| `ReferralRuns.TradeOverflowsExactly` | contracts/referral/src/lib.rs:190-222 | in every run a trade that is due to accrue fails if and only if a product or the new volume or total leaves the range, and writes nothing then |
| `ReferralRuns.MintsExactly` | contracts/referral/src/lib.rs:78-128 | a mint succeeds if and only if the caller is new, traded enough, and the code is free and 3 to 16 long; its row starts empty and no other changes |
| `ReferralRuns.CodesAlwaysSized` | contracts/referral/src/lib.rs:100-106 | in every run every code has 3 to 16 characters |
| `ReferralRuns.BindsExactly` | contracts/referral/src/lib.rs:134-164 | in every run a bind succeeds if and only if the referee is unbound and the code somebody else's and not revoked |
| `ReferralRuns.BindingIsPermanent` | contracts/referral/src/lib.rs:130-164 | a binding survives every run without an admin release of that referee |
| `ReferralRuns.CountIsBinds` | contracts/referral/src/lib.rs:134-164 | the referred count is the number of binds, released or not |
| `ReferralRuns.ReleaseFrees` | contracts/referral/src/lib.rs:363-369 | a release frees that referee and touches nobody else |
| `ReferralRuns.RatesAreLastSet` | contracts/referral/src/lib.rs:298-322 | in every run the rates in force are those last set within the cap, 4% and 10% before that |
| `ReferralRuns.FloorIsSet` | contracts/referral/src/lib.rs:324-335 | the volume floor is 10,000 until the admin sets a non-negative one |
| `ReferralRuns.FlagsAreLastSet` | contracts/referral/src/lib.rs:343-379 | in every run a referrer is revoked, and the registry paused, if and only if the last call about it said so |
| `ReferralRuns.OnlyInitBegins` | contracts/referral/src/lib.rs:48-69 | until somebody initialises the registry no call changes anything |
| `ReferralRuns.CodeErrorsAreTrue` | contracts/referral/src/lib.rs:78-164 | every error of a mint or bind names a condition that holds |
| `ReferralRuns.ClaimErrorsAreTrue` | contracts/referral/src/lib.rs:233-255 | so does every error of a claim, which otherwise pays exactly what was claimable |
| `Referral.SharesWithinFee` | contracts/referral/src/lib.rs:196-203 | under the 50% caps discount and payout never exceed the fee together |
| `Referral.LedgerHoldsInEveryRun` | contracts/referral/src/lib.rs:78-379 | over all runs: earned = claimable + paid for each referrer, Code(c) = r if and only if Info(r).code = c, nobody bound to themselves, every bound referrer has a row with a sufficient count, and the balance is short of all claims by exactly what the market held back |
| `Referral.ClaimIsFunded` | contracts/referral/src/lib.rs:233-255 | a claim is unfunded if and only if the market has held back more than all others have still to claim, so never while every payout is forwarded |
| `Referral.CutCoversPayoutExactly` | contracts/market/src/lib.rs:3463-3488 | the market forwards every trade's payout in full if and only if a treasury is set and share * 10000 <= (10000 - discount) * protocol share, or, without a treasury, the share is zero |
| `Referral.DefaultRatesAreFunded` | contracts/market/src/lib.rs:3463-3488 | at the default rates that means a treasury and a protocol share of at least 1042 basis points |
| `Referral.DefaultDeploymentIsUnfunded` | contracts/market/src/lib.rs:3463-3488 | a default deployment, with no treasury, accrues a payout, forwards nothing and refuses the claim |
| `Referral.RatesDecide` | contracts/market/src/lib.rs:3463-3488 | in every reachable state, no trade of an accruing binding holds anything back if and only if the rates of that state are funded |
| `Referral.FundedRatesPay` | contracts/referral/src/lib.rs:233-255 | over every run whose trades come at funded rates nothing is held back and every claim of anything pays |
| `Referral.TradeGivesAtMostFee` | contracts/referral/src/lib.rs:173-226 | in every reachable state a trade gives away at most its fee |
| `RankAdl.Rank` | contracts/risk/src/lib.rs:163-190 | the in-place insertion sort yields a descending, stable arrangement of exactly the candidates with a positive rank |
| `RankAdl.RankMeans` | contracts/risk/src/lib.rs:163-190 | the rank is the profit in basis points of collateral, rounded down, times the leverage, and zero without profit or collateral |
| `RankAdl.WinnersAreCandidates` | contracts/risk/src/lib.rs:163-190 | every candidate with a positive rank is kept under its own id as often as it was given, and nobody else |
| `RankAdl.ArrangementIsPermutation` | contracts/risk/src/lib.rs:163-190 | such an arrangement has the same multiset of entries |
| `RankAdl.ArrangementIsUnique` | contracts/risk/src/lib.rs:163-190 | and is the only one |
| `AdlQueue.RankAdlQueue` | api/src/services/adlQueue.ts:57-91 | the loop, the sort and the row mapping compute the queue |
| `AdlQueue.WinsExactly` | api/src/services/adlQueue.ts:57-70 | a position wins if and only if its gain reaches one unit; a long only above its entry price, a short only below |
| `AdlQueue.ScoreMeans` | api/src/services/adlQueue.ts:66-73 | the score is the profit in basis points of collateral, rounded down, times the leverage |
| `AdlQueue.RowsShowPositions` | api/src/services/adlQueue.ts:78-91 | every row shows a winning position of the input under its own figures |
| `AdlQueue.QueueIgnoresOrder` | api/src/services/adlQueue.ts:57-91 | the queue depends only on the set of positions |
| `AdlQueue.QueueIsOrdered` | api/src/services/adlQueue.ts:74-88 | rows are strictly ordered by score descending and id ascending, ranked 1 to n |
| `AdlQueue.QueueHoldsWinners` | api/src/services/adlQueue.ts:57-73 | a position is queued if and only if it is a valid winner |
| `AdlQueue.OrderIsUnique` | api/src/services/adlQueue.ts:74-77 | the comparator determines the order, whatever the sorting algorithm |
| `AdlQueue.QuintilesAreBalanced` | api/src/services/adlQueue.ts:78-90 | quintiles lie in 1..5, do not fall as the rank grows, and any two classes differ in size by at most one |
| `RateLimiter.Limiter.CheckAndConsume` | api/src/services/rateLimit.ts:33-78 | counts the request in its window, decides, and sends a rejected caller to exactly the next window |
| `RateLimiter.Limiter.SweepExpired` | api/src/services/rateLimit.ts:81-89 | drops exactly the elapsed windows |
| `RateLimiter.CounterCountsRequests` | api/src/services/rateLimit.ts:50-60 | under a monotone clock and any sweeps the current counter is the number of requests in its window |
| `RateLimiter.SweepLeavesExactly` | api/src/services/rateLimit.ts:81-89 | a sweep leaves exactly the counters of windows still running or yet to come that have been asked for |
| `RateLimiter.WindowAdmitsMinimum` | api/src/services/rateLimit.ts:33-78 | each window admits exactly min(requests, limit) |
| `RateLimiter.AnyMinuteAdmitsAtMostTwice` | api/src/services/rateLimit.ts:33-78 | any 60 seconds, both ends included, admit at most twice the limit |
| `RateLimiter.TwiceIsReached` | api/src/services/rateLimit.ts:33-78 | the bound is met |
| `WsManager.Manager.Register` | api/src/services/wsManager.ts:125-137 | admits below both caps and counts the address; the counters stay right if and only if the id was not in use |
| `WsManager.Manager.Unregister` | api/src/services/wsManager.ts:139-147 | undoes it, leaving no zero entry |
| `WsManager.Manager.AllowMessage` | api/src/services/wsManager.ts:159-175 | refills, spends a token, or drops the connection |
| `WsManager.Manager.PingSweep` | api/src/services/wsManager.ts:208-219 | drops exactly the connections silent since the last sweep |
| `WsManager.Manager.Broadcast` | api/src/services/wsManager.ts:257-281 | one pass over the connections sends to the subscribers that keep up, a second one evicts the others |
| `WsManager.CapsHoldInEveryRun` | api/src/services/wsManager.ts:125-281 | in every reachable state both caps hold and connections and buckets share their keys |
| `WsManager.RateIsBounded` | api/src/services/wsManager.ts:159-175 | over T seconds one connection passes at most msgRate + msgRate * T messages, whatever else happens |
| `WsManager.SteadyClientPasses` | api/src/services/wsManager.ts:154-175 | a client at the sustained rate passes every message and stays connected, whatever the others do, as long as it answers pings and keeps up with broadcasts |
| `WsManager.AdmitsUpToCaps` | api/src/services/wsManager.ts:125-137 | of n connections opened from one address on an empty server exactly as many are admitted as both caps allow |
| `WsManager.FreshConnectionBursts` | api/src/services/wsManager.ts:125-175 | a new connection starts with a full bucket: of n messages at once exactly min(n, msgRate) pass |
| `WsManager.SilentIsDropped` | api/src/services/wsManager.ts:208-219 | a connection that does not answer between two sweeps is gone after the second, whatever happens in between |
| `WsManager.EvictsExactly` | api/src/services/wsManager.ts:257-281 | a broadcast evicts exactly the subscribers over the buffer limit |
| `Printers.ArrayLiteralRoundTrip` | api/src/services/stats.ts:1141-1144 | a reader of PostgreSQL array literals recovers every list of ids |
| `Printers.EscapeByCharacter` | api/src/services/stats.ts:1142 | the two escape passes act on each character alone |
| `Printers.CsvRoundTrip` | api/src/routes/access.ts:430-439 | an RFC 4180 reader with LF records recovers every export, header included; only null and empty coincide |
| `KeysetCopy.CopyTable` | scripts/migrate-turso-to-supabase/copy.ts:52-90 | for keys of any columns under any strict order the paged loop terminates, reads each source row exactly once and writes them all, conflicts skipped |
| `KeysetCopy.LessIsLexicographic` | scripts/migrate-turso-to-supabase/copy.ts:60-67 | composite keys compare like row values: by the first column that differs |
| `KeysetCopy.PageIsNext` | scripts/migrate-turso-to-supabase/copy.ts:55-88 | the page above the last key is the next stretch of the table, 2,000 rows or all that are left, and a short page is the last |
| `KeysetCopy.WriteChunks` | scripts/migrate-turso-to-supabase/copy.ts:71-80 | chunked inserts equal one insert of the page |
| `KeysetCopy.DestinationTable.InsertChunk` | scripts/migrate-turso-to-supabase/copy.ts:71-79 | inserts in order, skipping conflicts |
| `KeysetCopy.DestinationIsUnion` | scripts/migrate-turso-to-supabase/copy.ts:71-80 | old rows stay, each source row is present or conflicts with one that is, nothing else is added |
| `KeysetCopy.RerunReachesSameResult` | scripts/migrate-turso-to-supabase/copy.ts:52-90 | a rerun after any partial run ends in the same table |

## Left out

- The conversion of timestamps to days; days are inputs.
- Authorisation, TTLs, rent, archival, events, upgrades and the token contract's own failures.
- Oracle reading and the freshness rules for prices; a price source is a parameter.
- The closing of opposite positions before an open; `OpenGate` models the remainder that is then opened.
- Adding or removing collateral and partial closes after the open, which `RiskMath.StoredCoversExactly` says nothing about.
- Position settlement, liquidation execution, partial liquidation, order triggers and open-interest accounting.
- The market-level funding rate with its clamps, keeper rewards, the flat trading fee and the share-price view.
- Overflow of the rolling-volume sum over the 14 slots.
- Deposit and withdrawal fees, cooldowns and reserve limits of the vault; the share formulas are called with the pool's own AUM.
- The per-trader caps are per list and counter, as in the source; nothing about rows whose trader changes, which no caller does.
- Stop-loss, take-profit, trailing-stop and close-proceeds keys of the market storage.
- Changing the registry's market, token or admin address, and a referrer that is the registry itself.
- Direct token transfers into the registry, which could only make more claims payable.
- The RPC: it answers with an in-order run of the log from the token or the start ledger, a retention error, or a failure; retries, pool rotation and error parsing are not modelled.
- What the projections compute. A dispatch goes to one handler; events without a registered handler, the verification after a cross liquidation, bus messages, and the reindex script, which bypasses the archive guard, are not modelled.
- Dispatches.DispatchedAtMostOnce: one direction over whole runs, since an overlapping poll or an answer without a token may, but need not, repeat an event; what is exact is `Dispatches.AgainExactly` between polls and `Dispatches.BreakingOffExactly` at the end of one.
- Dead-letter writes that fail themselves.
- Poller timing: the sleep between polls, the retention warning and the health fields. `Poller.IndexerPoller.Loop` ends when the outside world's answers do.
- Poller.IndexerPoller.PollOnce: one poller alone on the database; interleavings are steps of `Indexer`.
- RankAdl.Rank: unbounded integers, where the source aborts on an overflow of profit times 10000 or of the rank.
- AdlQueue.QuintilesAreBalanced: integer division, where the source divides in floating point and takes the floor.
- AdlQueue.RankAdlQueue: sorting is by insertion, since the source calls the platform's sort; `AdlQueue.OrderIsUnique` says this cannot matter.
- RateLimiter.WindowAdmitsMinimum: one fixed limit per bucket; the tier table and table creation are not modelled.
- WsManager.RateIsBounded: tokens are real numbers, without floating-point rounding.
- WsManager.CapsHoldInEveryRun: a connection id is used once, as the random ids of api/src/plugins/ws.ts:51 are; `WsManager.Manager.Register` says what a reused one breaks.
- Channel authorisation, login, pong handling beyond the liveness flag, and serialisation of WebSocket messages.
- Printers.CsvRoundTrip: a carriage return is an ordinary character, as the printer treats it.
- KeysetCopy.CopyTable: rows already carry their normalised columns; column projection, missing tables, the sequence reset and the poll-cursor row are not modelled.
- Postgres aggregates, HTTP routes other than the CSV printer, SDKs, the web frontend and the oracle shim.
