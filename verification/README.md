# Mars lending core, verified

A model of the lending protocol's contracts and proofs about their whole runs. It covers the Red Bank
(scaled balances, growing indexes, bitmaps, rounding with a direction), its liquidity tokens and the
rewards that ride on them, the oracle's TWAP log, the council with the two registers of voting power
it relies on, and the winding up of a market.

`dafny verify dfyconfig.toml` checks everything.

## How it is built

Every contract appears twice. Once as a state machine on values: each handler is a function from a
state to a `Result`, a failed message is no step, and runs are sequences of messages with block times
or heights that never fall. And once in the form the contracts have: a class with the stored records,
whose methods load, change and save them and loop where the source loops. The class methods are proved
equal to the functions, error for error; everything else is proved about the functions.

A successful top-level message with all the token messages it sends is one atomic step. Decimals are
natural numbers over 10^18. Prices, block time, received payments and cumulative prices are inputs.

| files | contents |
|---|---|
| Base, Totals, FixedPoint | outcomes, sums over maps, rounding |
| RateModels, InterestRates, RateMath | the two rate models, scaling, accrual, and their bounds |
| Bitmap, Position | 128-bit maps and the sets they stand for, positions and health |
| MaToken, Ledger, RedBank | the token, the Red Bank as a state machine, and as a contract |
| Invariants, Runs, ExactRuns | what every run keeps |
| Reachability, Refusals, Witnesses | which refusals can happen, complete lists of them, and runs that end in one |
| Effects, Settings | what each message does to balances, debts, cash and bits |
| LiquidationMath, Admission, RateDiscipline | liquidation amounts, admission checks, rates in force |
| MarketSurplus, InterestFunding, Solvency | what a market owns against what it owes |
| Incentives, RewardConservation | reward indexes, and credits against emission |
| TwapLog | the oracle's log and its answers |
| Snapshots, XMarsToken, Vesting, Council, Governance, Ballots | voting power by block, proposals, and both together |
| Closure | refunds when a market is wound up |

## What turned out otherwise than documented

- A user who has collateral and whose only debt is uncollateralized cannot withdraw: the check divides by
  a collateralized debt of zero. `WithdrawalRefusals` is the exact condition for a withdrawal,
  `WithdrawalDividesByZero` a run of four messages after which every withdrawal fails so. (Amounts for this
  run and the next are in `WitnessesExist`.)
- A liquidation never clears the borrowed bit. It outlives the debt exactly if the close factor is one, the
  liquidator sends all that is owed, and the collateral asked for is there or what is there covers the debt
  with bonus (`FullLiquidationLeavesBit`); `LiquidationLeavesBit` is a run. Then no loan limit can be set for
  that user and asset (`StaleBitBlocksLimit`). Below a close factor of one the bit and the debt always agree
  (`EveryRunIsExact`).
- A comment at `packages/mars-core/src/red_bank/interest_rate_models.rs:134` says the reserve factor was
  checked to be at most one. Nothing checks it; a larger one makes every repricing fail
  (`RepricingRefusals`), from the first deposit on (`ReserveFactorAccepted`). The solvency theorems therefore
  ask for reserve factors up to one.
- `contracts/mars-red-bank-closure/src/msg.rs:9` says to call the refund repeatedly to refund all users. Each
  call asks for the first ten accounts from the start, and the token goes on listing the accounts it emptied,
  whose balances of zero it then refuses to burn. So at most one refund ever goes through (`OnlyOneRefund`),
  and everybody is paid exactly if the accounts with a balance are the first ten listed and nothing is
  borrowed (`RepeatedRefundsPayAll`). With eleven holders somebody never is (`ElevenHoldersNeverAllPaid`).
- A cumulative price that wrapped yields a difference one too small, unlike the wrap-around of the
  Solidity original it is said to copy (`DeltaOfWrapped`).
- The initial accounts of xMARS may name an address twice; the supply then counts both rows, and
  recorded balances add up to it exactly if no overwritten row had an amount (`InitialSupplyExact`).

## Model

| member | source | states |
|---|---|---|
| InterestRates.LiquidityRoundTrip | contracts/mars-red-bank/src/interest_rates.rs:200-230 | scaling an amount down and reading it back, both truncated, returns it or one less, for every index up to a million |
| InterestRates.DebtRoundTrip | contracts/mars-red-bank/src/interest_rates.rs:200-230 | with both roundings up it returns the amount or one more, for every index up to 999,999 |
| InterestRates.RescaleUp | contracts/mars-red-bank/src/contract.rs:1238-1248 | paying off at least one unit never makes a scaled debt larger, in spite of both roundings going up |
| InterestRates.RescaleDown | contracts/mars-red-bank/src/contract.rs:924-929 | the scaled balance after a withdrawal never exceeds the one before, and is smaller if any unit leaves, so the burn is positive and never underflows |
| InterestRates.ApplyAccumulatedInterests | contracts/mars-red-bank/src/interest_rates.rs:32-101 | the step-by-step accrual yields the specified market, protocol rewards and mint amount |
| InterestRates.PreviewEqualsCommit | contracts/mars-red-bank/src/interest_rates.rs:235-276 | what the index queries preview for a time is what accrual at that time stores, and indexes never fall |
| InterestRates.AccrualIsIdempotent | contracts/mars-red-bank/src/interest_rates.rs:32-101 | a second accrual in the same block changes nothing and mints nothing |
| RateMath.AccruedIsLinear | contracts/mars-red-bank/src/interest_rates.rs:32-121 | accrual grows each index by its own rate for exactly the time elapsed, bounded on both sides against simple interest, and changes nothing else |
| RateMath.RewardsAreTheShare | contracts/mars-red-bank/src/interest_rates.rs:58-101 | the protocol is due the reserve factor's share of the growth of the whole debt and is minted its worth at the accrued index, each rounded down by less than one |
| RateMath.LiquidityRateBounds | packages/mars-core/src/red_bank/interest_rate_models.rs:127-138 | depositors earn the borrow rate on what is utilized less the reserve factor's share, short of it by less than two steps of a decimal |
| RateMath.DynamicRateIsControlled | packages/mars-core/src/red_bank/interest_rate_models.rs:190-255 | below the optimum the rate falls, at or above it it rises, by the constant of its distance times that distance, and stops exactly at its bounds |
| RateMath.DynamicRateIsDue | packages/mars-core/src/red_bank/interest_rate_models.rs:76-125 | the rate is recomputed exactly in a later block once enough transactions or enough seconds have passed, and counters are kept otherwise |
| RateMath.LinearRateFollows | packages/mars-core/src/red_bank/interest_rate_models.rs:266-300 | with a validated optimum a rate is found for every utilization up to one, on the first slope up to the optimum and on the second beyond it |
| RateMath.RepricedFollows | contracts/mars-red-bank/src/interest_rates.rs:283-315 | new rates follow from what is owed over what is owed and held once the payment has left |
| RateDiscipline.HandleDisciplined | contracts/mars-red-bank/src/contract.rs:567-615 | every handler either leaves a market's rates, indexes and update time alone or has charged the time since at the rates that were in force |
| RateDiscipline.RatesChangeOnlyWhenCharged | contracts/mars-red-bank/src/interest_rates.rs:28-31 | in every transaction of every run new rates come only at the moment up to which interest was charged, charges are as previewed, indexes never fall, and under a dynamic model the borrow rate moves at most once in a block and only to within its bounds |
| Bitmap.SetInserts | contracts/mars-red-bank/src/contract.rs:2336-2342 | setting a bit inserts that market into the set the map stands for, and nothing else |
| Bitmap.UnsetDeletes | contracts/mars-red-bank/src/contract.rs:2345-2351 | clearing a bit deletes that market and nothing else |
| Bitmap.ZeroIsEmpty | contracts/mars-red-bank/src/contract.rs:858-860 | comparing the map with zero tests whether any market is flagged |
| Position.PositionsListFlagged | contracts/mars-red-bank/src/accounts.rs:131-221 | the loop fails exactly when a flagged market lacks what it needs or the markets exceed the map, and otherwise lists exactly the flagged markets, each once and in order |
| Position.TotalsAreSums | contracts/mars-red-bank/src/accounts.rs:78-104 | the running totals are the sums of what the flagged markets contribute |
| Position.PriceOfFlagged | contracts/mars-red-bank/src/accounts.rs:28-45 | a price is found in a position exactly for flagged markets, and it is the oracle's |
| Position.HealthyIffBacked | contracts/mars-red-bank/src/accounts.rs:106-116 | the rounded health factor is below one exactly when weighted collateral is below collateralized debt |
| Position.WithinLimitIsHealthy | contracts/mars-red-bank/src/accounts.rs:61-126 | a user within the borrowing limit cannot be liquidated, given that markets keep max LTV below the threshold |
| Position.AssetPositionFollows | contracts/mars-red-bank/src/accounts.rs:131-221 | the position in one market is the user's tokens and debt at the indexes of the moment, rounded against the user, and fails to compute exactly for a price, a debt record or a time that is missing |
| Position.ValueFollows | contracts/mars-red-bank/src/accounts.rs:78-104 | collateral, debt, borrowing power and threshold are the amounts at the price and the market's shares, each rounded down by less than one; debt within a limit needs no collateral |
| RedBank.GetUserAssetPositions | contracts/mars-red-bank/src/accounts.rs:131-221 | the bitmap-driven loop computes the specified list of positions, or its first error |
| RedBank.GetUserPosition | contracts/mars-red-bank/src/accounts.rs:61-126 | the accumulating loop computes the specified totals and health status |
| RedBank.LiquidationComputeAmounts | contracts/mars-red-bank/src/contract.rs:1723-1772 | the computation that reassigns its amounts yields the specified repayment, seizure and refund, with the same errors |
| RedBank.RedBankStore.ExecuteDeposit | contracts/mars-red-bank/src/contract.rs:692-790 | the stored records after a deposit are those of the state machine; a refused call has the same error and changes nothing |
| RedBank.RedBankStore.ExecuteWithdraw | contracts/mars-red-bank/src/contract.rs:792-962 | the same for a withdrawal |
| RedBank.RedBankStore.ExecuteBorrow | contracts/mars-red-bank/src/contract.rs:964-1153 | the same for a loan |
| RedBank.RedBankStore.ExecuteRepay | contracts/mars-red-bank/src/contract.rs:1156-1279 | the same for a repayment |
| RedBank.RedBankStore.ExecuteLiquidate | contracts/mars-red-bank/src/contract.rs:1282-1612 | the same for a liquidation, in either mode and with one market or two |
| RedBank.RedBankStore.ExecuteUpdateAsset | contracts/mars-red-bank/src/contract.rs:531-626 | the same for new market parameters |
| RedBank.RedBankStore.ExecuteUpdateUncollateralizedLoanLimit | contracts/mars-red-bank/src/contract.rs:628-690 | the same for a loan limit |
| RedBank.RedBankStore.ExecuteUpdateAssetCollateralStatus | contracts/mars-red-bank/src/contract.rs:1775-1853 | the same for switching collateral on or off |
| RedBank.RedBankStore.ExecuteFinalizeTransfer | contracts/mars-red-bank/src/contract.rs:1857-1930 | the same for the hook of a token transfer |
| Runs.EveryRunIsSound | contracts/mars-red-bank/src/contract.rs:1090-1120 | in every reachable state each market's scaled debt is the sum of its users' debts, each supply the sum of balances, positive debt has its bit, a debt is uncollateralized exactly when a limit is set, and, while the index stays within a million, a collateral bit has a balance behind it |
| ExactRuns.EveryRunIsExact | contracts/mars-red-bank/src/contract.rs:1260-1265 | while the close factor stays below one, every borrowed bit has a positive debt behind it |
| Reachability.RepaymentRefusals | contracts/mars-red-bank/src/contract.rs:1156-1279 | the complete list of reasons for refusing a repayment in a reachable state, for the debt of the user it names or else of the sender: no subtraction is among them |
| Refusals.DepositRefusals | contracts/mars-red-bank/src/contract.rs:692-790 | the same for a deposit: besides a market that takes none or cannot be repriced only an amount worth no scaled token |
| Refusals.WithdrawalRefusals | contracts/mars-red-bank/src/contract.rs:792-962 | the same for a withdrawal, its health check restated without roundings; a user with collateral and only uncollateralized debt is always refused |
| Refusals.BorrowRefusals | contracts/mars-red-bank/src/contract.rs:964-1153 | the same for a loan |
| Refusals.LiquidationTermsExact | contracts/mars-red-bank/src/contract.rs:1282-1432 | the complete list of checks a liquidation has to pass in a reachable state; the recomputed amounts are not among them except for a collateral price of zero |
| Refusals.LiquidationRefusals | contracts/mars-red-bank/src/contract.rs:1282-1612 | a liquidation goes through if and only if it passes those checks and its markets can accrue, reprice and pay, with a positive scaled amount seized and the debt not scaled up past itself |
| Refusals.PositionRefusals | contracts/mars-red-bank/src/accounts.rs:131-221 | in a reachable state a position fails to compute exactly for too many markets or a missing oracle price |
| Refusals.DebtorsCanRepay | contracts/mars-red-bank/src/contract.rs:1156-1279 | while the index stays within a million a debtor can repay exactly as long as the market is active and its reserve factor is at most one |
| Effects.DepositEffect | contracts/mars-red-bank/src/contract.rs:692-790 | a deposit mints its worth at the accrued index, less than one index short of it, to the user and to nobody else but the protocol's share to the collector, adds the cash, and switches that user's collateral on |
| Effects.WithdrawEffect | contracts/mars-red-bank/src/contract.rs:792-962 | a withdrawal pays out what it names or the whole balance, burns at least its worth and less than a unit and an index more, from nobody else, and switches collateral off exactly for the whole balance |
| Effects.BorrowEffect | contracts/mars-red-bank/src/contract.rs:964-1153 | a loan adds its worth at the accrued index, rounded up by less than one index, to the borrower's debt and the market's and to nobody else's; the cash leaves and the bit is set |
| Effects.RepayEffect | contracts/mars-red-bank/src/contract.rs:1156-1279 | a repayment lowers the debt of the user it names, or of the sender if it names nobody, to what is left of it scaled again, and nobody else's; the excess goes back and the bit is cleared exactly at zero |
| Effects.LiquidateAcross | contracts/mars-red-bank/src/contract.rs:1282-1612 | a liquidation on fair terms lowers the user's debt by what is repaid and takes tokens worth what is seized from the user, for the liquidator or for cash that leaves; all other debts, tokens and markets stay |
| Effects.LiquidateWithin | contracts/mars-red-bank/src/contract.rs:1500-1533 | in one market it does both |
| Effects.LiquidateSwitches | contracts/mars-red-bank/src/contract.rs:1430-1466 | it switches off the user's collateral exactly if all of it was seized, and on the liquidator's exactly if tokens were wanted |
| Effects.TermsAreFair | contracts/mars-red-bank/src/contract.rs:1400-1432 | for oracle prices, accrued balance and debt, repaid and seized match with bonus from both sides up to their roundings unless the balance is used up, in which case no more is repaid than it covers |
| Settings.InitAssetEffect | contracts/mars-red-bank/src/contract.rs:331-503 | a new asset is accepted exactly with complete and validated parameters, and gets those, both indexes at one and nothing owed or held |
| Settings.UpdateAssetEffect | contracts/mars-red-bank/src/contract.rs:531-626 | new parameters replace exactly those named and are validated; balances change only by the protocol's share if interest is charged first |
| Settings.LoanLimitEffect | contracts/mars-red-bank/src/contract.rs:628-690 | a limit is refused exactly to a user who shows a debt without one; it changes the kind of the debt and no amount |
| Settings.CloseFactorEffect | contracts/mars-red-bank/src/contract.rs:289-329 | a close factor is refused exactly above one, and nothing else changes with it |
| Settings.CollateralStatusEffect | contracts/mars-red-bank/src/contract.rs:1775-1853 | collateral is switched on exactly by those who have some and off exactly by those whom that leaves with enough; nothing else changes |
| Settings.DisablingLeavesAfloat | contracts/mars-red-bank/src/contract.rs:1814-1840 | whoever has just switched collateral off cannot be liquidated, position computed afresh |
| Settings.TransferEffect | contracts/mars-red-bank/src/contract.rs:1857-1930 | a token transfer moves the amount and switches the sender's collateral off exactly if nothing is left and the recipient's on exactly if there was nothing before |
| Settings.TransferRefusals | contracts/mars-red-bank/src/contract.rs:1857-1930 | the complete list of reasons for refusing a token transfer |
| Reachability.LiquidationDebtNeverUnderflows | contracts/mars-red-bank/src/contract.rs:1469-1493 | a liquidation that repays at least one unit passes all subtractions on its debt side |
| Reachability.RepricingRefusals | packages/mars-core/src/red_bank/interest_rate_models.rs:127-138 | with validated models setting the rates fails exactly for want of liquidity or for a reserve factor above one |
| Reachability.NoPriceIsMissing | contracts/mars-red-bank/src/accounts.rs:28-45 | in reachable states no withdrawal, loan or liquidation fails because a price it looked up is missing |
| Reachability.DebtorsAreBorrowing | contracts/mars-red-bank/src/contract.rs:1380-1384 | a debtor without a limit whose debt is worth at least one uusd counts as borrowing, so the other branch is dead |
| Reachability.WithdrawCheckExact | contracts/mars-red-bank/src/contract.rs:862-891 | the health check of a withdrawal passes if and only if there is collateralized debt and it plus what leaves is within the weighted threshold |
| Reachability.FullLiquidationLeavesBit | contracts/mars-red-bank/src/contract.rs:1467-1495 | the borrowed bit survives every liquidation, and the debt is gone if and only if the close factor is one, the payment covers what is owed, and the collateral asked for is there or what is there covers the debt with bonus |
| Reachability.StaleBitBlocksLimit | contracts/mars-red-bank/src/contract.rs:640-660 | after a liquidation the owner cannot set a loan limit for that user and asset, even if nothing is owed |
| Witnesses.WithdrawalDividesByZero | contracts/mars-red-bank/src/contract.rs:862-891 | a run (new market, deposit, loan limit, uncollateralized loan) after which every withdrawal fails with a division by zero |
| Witnesses.LiquidationLeavesBit | contracts/mars-red-bank/src/contract.rs:1467-1495 | a run with two markets and a price rise after which a liquidation at a close factor of one succeeds, clears the debt, leaves the bit, and every loan limit is refused |
| Witnesses.ReserveFactorAccepted | contracts/mars-red-bank/src/contract.rs:331-503 | an asset with a reserve factor above one is accepted and every deposit to it fails |
| LiquidationMath.AmountsWithinBounds | contracts/mars-red-bank/src/contract.rs:1723-1772 | for all prices, bonuses and close factors the refund never underflows, repaid is at most what was sent and the close factor's share, seized at most the balance; refused exactly for a collateral price of zero |
| LiquidationMath.FullRepaymentExactly | contracts/mars-red-bank/src/contract.rs:1723-1772 | all of a debt is repaid if and only if the close factor is one, all of it was sent, and the balance suffices for the collateral asked for or covers the debt with bonus, each rounded up |
| LiquidationMath.CappedRepaymentIsSmaller | contracts/mars-red-bank/src/contract.rs:1754-1765 | when the balance caps the seizure, the recomputed repayment never exceeds the first one |
| LiquidationMath.SeizedWorthBound | contracts/mars-red-bank/src/contract.rs:1723-1772 | seized times its price is below repaid times its price with bonus, plus 1 and the debt price times 2 plus the bonus |
| LiquidationMath.SeizedWorthFloor | contracts/mars-red-bank/src/contract.rs:1723-1772 | unless the balance is used up, all of the payment or of the close factor's share is repaid, and seized times its price is at least repaid times its price with bonus less three roundings |
| LiquidationMath.CappedRepaymentIsCovered | contracts/mars-red-bank/src/contract.rs:1754-1765 | if less is repaid, the balance is used up and covers the repayment with bonus |
| LiquidationMath.SomeDebtRemains | contracts/mars-red-bank/src/contract.rs:1732-1741 | with a close factor below one some of every debt is left |
| Admission.WithdrawalStaysBacked | contracts/mars-red-bank/src/contract.rs:862-891 | after a health-checked withdrawal the position computed afresh has collateralized debt within the weighted threshold plus the price of one unit and four |
| Admission.LoanStaysWithinLimit | contracts/mars-red-bank/src/contract.rs:1022-1053 | after a collateralized loan the debt computed afresh is within what collateral allows plus the price of one unit and two |
| Admission.TransferLeavesSenderHealthy | contracts/mars-red-bank/src/contract.rs:1871-1916 | after a transfer of liquidity tokens the sender's position computed afresh cannot be liquidated, although it was checked before the collateral bit was cleared |
| MarketSurplus.DepositNeverLosesSurplus | contracts/mars-red-bank/src/contract.rs:770-771 | at the indexes in force after accrual a deposit never lowers cash plus debt less claims |
| MarketSurplus.WithdrawNeverLosesSurplus | contracts/mars-red-bank/src/contract.rs:924-929 | nor does a withdrawal |
| MarketSurplus.BorrowNeverLosesSurplus | contracts/mars-red-bank/src/contract.rs:1111-1120 | nor does a loan |
| MarketSurplus.RepayLosesLessThanOne | contracts/mars-red-bank/src/contract.rs:1217-1248 | a repayment lowers it by less than one scaled unit, a millionth of an underlying one |
| MarketSurplus.DebtSideLosesLessThanOne | contracts/mars-red-bank/src/contract.rs:1470-1493 | a liquidation lowers the debt market's surplus by less than one scaled unit |
| MarketSurplus.CollateralSideLosesLessThanIndex | contracts/mars-red-bank/src/contract.rs:1693-1707 | it lowers the collateral market's by less than one liquidity index if assets leave, and not at all if tokens change hands |
| MarketSurplus.SameAssetLosesLess | contracts/mars-red-bank/src/contract.rs:1500-1533 | the same bounds together when debt and collateral are one market |
| InterestFunding.TimeCostsOnlyRounding | contracts/mars-red-bank/src/interest_rates.rs:32-101 | interest charged to borrowers pays for interest credited to depositors and the protocol's share, up to a rounding given in closed form |
| Solvency.EveryRunIsSolvent | contracts/mars-red-bank/src/contract.rs:692-1612 | after every run from a fresh contract, accruals included and however large, a market owes more than it owns at most by a counted sum of roundings, where each period of interest is charged with the deficit there may have been before it |
| Solvency.SolventWhileTimePasses | contracts/mars-red-bank/src/interest_rates.rs:32-101 | and at every later time, with the roundings of the period since added |
| MaToken.TokenStore.ExecuteTransfer | contracts/mars-ma-token/src/core.rs:10-64 | moves the amount, and the hooks carry both balances and the supply from before the move |
| MaToken.TokenStore.ExecuteMint | contracts/mars-ma-token/src/contract.rs:235-279 | raises balance and supply; the hook carries both from before |
| MaToken.TokenStore.ExecuteBurn | contracts/mars-ma-token/src/contract.rs:193-233 | lowers balance and supply; the hook carries both from before; a refused call changes nothing |
| MaToken.TransferKeepsBalanced | contracts/mars-ma-token/src/core.rs:66-89 | a transfer keeps the supply the sum of the balances |
| MaToken.TransferMoves | contracts/mars-ma-token/src/core.rs:10-64 | the sender loses and the recipient gains the amount and nobody else's balance moves; refused exactly to oneself, for zero or beyond the balance |
| MaToken.MintEffect | contracts/mars-ma-token/src/contract.rs:235-279 | the recipient gains the amount, the supply with it, and nobody else |
| MaToken.BurnEffect | contracts/mars-ma-token/src/contract.rs:193-233 | the holder loses the amount, the supply with it, and nobody else |
| MaToken.BurnOfHoldingSucceeds | contracts/mars-ma-token/src/contract.rs:193-233 | a burn is refused exactly for zero or more than the balance: the supply always covers it |
| Incentives.ComputeUnclaimedRewards | contracts/mars-incentives/src/contract.rs:394-461 | the loop over all incentives, in any order, adds up what each owes the user and lists the pools to update; it fails exactly when one cannot be settled |
| Incentives.IncentivesContract.ExecuteBalanceChange | contracts/mars-incentives/src/contract.rs:135-204 | settles one user with the balance and supply it is told, or ignores a token without an incentive; a refused call changes nothing |
| Incentives.IncentivesContract.ExecuteClaimRewards | contracts/mars-incentives/src/contract.rs:206-270 | pays what the query reports and leaves every pool settled for the user |
| Incentives.IncentivesContract.ExecuteSetAssetIncentive | contracts/mars-incentives/src/contract.rs:84-133 | a new emission counts from now; the index is first brought up to date at the old one |
| Incentives.ClaimLeavesNothing | contracts/mars-incentives/src/contract.rs:494-503 | right after a claim a query in the same block reports zero and another claim changes nothing |
| Incentives.SettlementsTelescope | contracts/mars-incentives/src/contract.rs:372-380 | while a balance is constant all settlements together credit the difference of two floors at the end points, however many there are |
| Incentives.IndexRisesByEmission | contracts/mars-incentives/src/contract.rs:326-370 | while somebody holds the token the index rises by the emission of the time elapsed over the supply, rounded down by less than one step, and stays otherwise |
| Incentives.SettleEffect | contracts/mars-incentives/src/contract.rs:135-204 | a settlement raises the index so, credits the difference of two floors to that user, brings that user's index up to the pool's and no other |
| Incentives.BalanceChangedEffect | contracts/mars-incentives/src/contract.rs:135-204 | a hook settles that user in that pool and adds the credit to what is unclaimed, and changes no other pool or user |
| Incentives.SetIncentiveEffect | contracts/mars-incentives/src/contract.rs:84-133 | a new emission is stored and what the old one gave until now is in the index |
| RewardConservation.CreditsWithinEmission | contracts/mars-incentives/src/contract.rs:326-380 | over every run, for each token, credits to all users are at most emission plus one per settlement, and less once there is one |
| RewardConservation.EmissionIsServed | contracts/mars-incentives/src/contract.rs:326-380 | over every run what was emitted while somebody held the token is credited, due or pending, but for less than one per settlement and a counted rounding of the index |
| RewardConservation.PayoutsWithinEmission | contracts/mars-incentives/src/contract.rs:206-270 | everything paid and everything unclaimed is within what all pools emitted and one per settlement |
| RewardConservation.HooksNeverFail | contracts/mars-incentives/src/contract.rs:135-204 | in reachable states no truthful hook is refused, so incentives never block a change of balances |
| RewardConservation.ClaimsNeverFail | contracts/mars-incentives/src/contract.rs:394-461 | a claim fails only if some incentive was set for an address that is no token |
| TwapLog.PruningIsInvisible | contracts/mars-oracle/src/contract.rs:141-164 | at any time from the last recording on, the pruned log gives the same snapshot and the same price as one that was never pruned |
| TwapLog.LengthIsBounded | contracts/mars-oracle/src/contract.rs:141-164 | snapshots are at least the tolerance apart and there are at most window / tolerance + 2 of them |
| TwapLog.RecordedEffect | contracts/mars-oracle/src/contract.rs:141-164 | less than the tolerance after the latest snapshot nothing is recorded; from then on the reading becomes the latest and exactly the snapshots older than window and tolerance go |
| TwapLog.EveryReadingIsNear | contracts/mars-oracle/src/contract.rs:141-164 | over every run each reading offered is recorded or follows a snapshot by less than the tolerance |
| TwapLog.OfferedIsFound | contracts/mars-oracle/src/contract.rs:244-262 | over every run a reading offered between window less tolerance and window ago is enough for a query to find a snapshot |
| TwapLog.FoundIsOldest | contracts/mars-oracle/src/contract.rs:257-262 | what is found is the oldest snapshot within tolerance; nothing is found only if there is none |
| TwapLog.PeriodWithinTolerance | contracts/mars-oracle/src/contract.rs:277-280 | the period divided by lies within tolerance of the window, and is not zero if the window is wider than the tolerance |
| TwapLog.DeltaOfWrapped | contracts/mars-oracle/src/contract.rs:264-276 | for a counter modulo 2^128 that wraps at most once the difference is the true increase, or exactly one less if it wrapped, and it stays within 128 bits |
| TwapLog.AnswerIsTrueAverage | contracts/mars-oracle/src/contract.rs:244-286 | over every run a query answers with the true average since the oldest suitable reading, short by one counter unit if it wrapped, or finds no snapshot |
| TwapLog.AssetsAreIndependent | contracts/mars-oracle/src/contract.rs:111-164 | recording several assets in one message makes one recording step for each that is named, however often, and none for others |
| TwapLog.Oracle.RecordTwapSnapshots | contracts/mars-oracle/src/contract.rs:111-172 | the loop over the assets writes the specified logs, or fails with the first error and writes nothing |
| TwapLog.FindSnapshot | contracts/mars-oracle/src/contract.rs:257-262 | the linear search finds the first suitable snapshot |
| Snapshots.ValueIsLatest | contracts/mars-xmars-token/src/snapshots.rs:10-27 | a lookup returns the value at the greatest recorded height not above the block, or zero |
| XMarsToken.LookupReplays | contracts/mars-xmars-token/src/core.rs:7-58 | in every run the answer about a block is the balance, or the supply, after replaying everything up to the end of that block |
| XMarsToken.PastIsFixed | contracts/mars-xmars-token/src/snapshots.rs:31-60 | later events never change the answer about a block that is over |
| XMarsToken.EveryBlockAddsUp | contracts/mars-xmars-token/src/core.rs:7-58 | at every block the recorded balances add up to the recorded supply, if they did at the start |
| XMarsToken.InitialSupplyExact | contracts/mars-xmars-token/src/contract.rs:55-64 | they did at the start if and only if no row with tokens is overwritten by a later one of the same address |
| XMarsToken.TransferEffect | contracts/mars-xmars-token/src/core.rs:7-38 | the sender loses and the recipient gains the amount, and to oneself nothing moves |
| XMarsToken.BurnEffect | contracts/mars-xmars-token/src/core.rs:41-58 | the holder loses the amount, the supply with it, and nobody else |
| XMarsToken.MintEffect | contracts/mars-xmars-token/src/contract.rs:155-190 | the recipient gains the amount, the supply with it, and nobody else |
| XMarsToken.XMarsStore.ExecuteTransfer | contracts/mars-xmars-token/src/core.rs:7-38 | updates the balances in place and captures each new one |
| XMarsToken.XMarsStore.ExecuteBurn | contracts/mars-xmars-token/src/core.rs:41-58 | lowers balance and supply and captures both; a refused call changes nothing |
| XMarsToken.XMarsStore.ExecuteMint | contracts/mars-xmars-token/src/contract.rs:155-190 | raises supply and balance and captures both |
| Vesting.WithdrawRefusals | contracts/mars-vesting/src/contract.rs:186-239 | no subtraction of a withdrawal can fail; it is refused only without an allocation or with nothing due, and brings what was withdrawn up to what is due |
| Vesting.EntitledGrows | contracts/mars-vesting/src/contract.rs:247-273 | what vesting and unlocking release never falls, never exceeds the allocation, and is all of it in the end |
| Vesting.ReleasedLinearly | contracts/mars-vesting/src/contract.rs:247-273 | nothing before the cliff, everything at the end, and between them elapsed over duration of the amount, rounded down |
| Vesting.EntitledByBoth | contracts/mars-vesting/src/contract.rs:247-273 | what a user is entitled to is limited by both schedules and set by one of them |
| Vesting.CreateEffect | contracts/mars-vesting/src/contract.rs:96-168 | an allocation is made once, for the amount and the schedule named, and gives exactly that power at once |
| Vesting.CreateKeepsSound | contracts/mars-vesting/src/contract.rs:96-168 | a new allocation keeps recorded powers equal to what is locked, at every block adding up to the total, with the past unchanged |
| Vesting.EveryRunIsSound | contracts/mars-vesting/src/contract.rs:96-239 | in every run nobody has withdrawn more than was due, and recorded powers are what is locked, at every block adding up to the total |
| Vesting.LookupReplays | contracts/mars-vesting/src/contract.rs:301-307 | in every run the answer about a block is what was locked after replaying everything up to the end of that block |
| Vesting.PastIsFixed | contracts/mars-vesting/src/contract.rs:301-307 | later events never change the answer about a block that is over |
| Council.SortedIsStable | contracts/mars-council/src/contract.rs:470-476 | messages run in ascending order, those of one order as they were given |
| Council.StableSortIsUnique | contracts/mars-council/src/contract.rs:470-476 | that determines the sequence |
| Council.SubmitEffect | contracts/mars-council/src/contract.rs:151-237 | a submission is refused exactly for its lengths or its deposit, and opens the vote for the configured period on the text and messages as given |
| Council.CastVoteEffect | contracts/mars-council/src/contract.rs:239-328 | a vote is refused exactly outside its period, a second time or for want of power, and adds the power before the proposal to the side named and to no other |
| Council.EndProposalEffect | contracts/mars-council/src/contract.rs:330-444 | a proposal ends exactly after its last block, passes exactly with quorum and threshold stated without rounding, and its deposit goes where the outcome says |
| Council.ExecuteProposalEffect | contracts/mars-council/src/contract.rs:446-490 | a passed proposal executes exactly from the end of its delay to its expiry, and call k is that of message k of the sorted messages |
| Council.CouncilStore.ExecuteSubmitProposal | contracts/mars-council/src/contract.rs:151-237 | stores a new active proposal under the next number, or refuses |
| Council.CouncilStore.ExecuteCastVote | contracts/mars-council/src/contract.rs:239-328 | adds the voter's power to one tally and records the vote, once per voter |
| Council.CouncilStore.ExecuteEndProposal | contracts/mars-council/src/contract.rs:330-444 | decides by quorum and threshold and hands on the deposit |
| Council.CouncilStore.ExecuteExecuteProposal | contracts/mars-council/src/contract.rs:446-490 | marks a passed proposal executed within its window and sends the sorted messages |
| Governance.EveryRunIsSound | contracts/mars-council/src/contract.rs:151-490 | in every run tallies are the sums of recorded votes of historical power, passed proposals have more votes for than against, deposits held are those of active proposals, and each deposit is released and each set of messages sent exactly once |
| Governance.StepFollows | contracts/mars-council/src/contract.rs:239-490 | in every step a proposal's terms stay, its status only moves forward, and tallies and votes freeze once it ended |
| Governance.EveryRunRecords | contracts/mars-council/src/contract.rs:396-476 | every release went to the submitter or the stakers as the outcome says, and every execution sent that proposal's sorted messages |
| Governance.TurnoutWithinTotalPower | contracts/mars-council/src/contract.rs:272-394 | all votes on a proposal together never exceed the total power its quorum is measured against |
| Ballots.EveryVoteWasCast | contracts/mars-council/src/contract.rs:294-316 | over every run each recorded vote was cast by that voter in an accepted message for that side, with the power of the two registers before the proposal |
| Ballots.EveryCastCounts | contracts/mars-council/src/contract.rs:294-316 | and each accepted vote stays recorded for the side it was cast for |
| Ballots.EveryProposalWasSubmitted | contracts/mars-council/src/contract.rs:151-237 | over every run each proposal is, text, messages and deposit, one that was submitted, with the voting period in force then |
| Council.CarriedExactly | contracts/mars-council/src/contract.rs:386-403 | a proposal carries if and only if, without any rounding, turnout reaches the quorum and the share in favour exceeds the threshold by at least one step of a decimal |
| Governance.CarriedByMajority | packages/mars-core/src/council.rs:36-62 | with a validated threshold a proposal carries only with more votes for than against |
| Closure.RefundFits | contracts/mars-red-bank-closure/src/contract.rs:63-68 | a batch can be refunded exactly when some supply is left before each holder's turn and the holders own no more than all of it |
| Closure.RefundConserves | contracts/mars-red-bank-closure/src/contract.rs:63-68 | what is paid and what remains make up the pot |
| Closure.EveryHolderGetsAShare | contracts/mars-red-bank-closure/src/contract.rs:63-68 | each holder gets at least the rounded-down share of the pot there was at the start, in any order of payment |
| Closure.RatioNeverFalls | contracts/mars-red-bank-closure/src/contract.rs:63-68 | what remains per remaining token never falls |
| Closure.CompleteBatchEmptiesPot | contracts/mars-red-bank-closure/src/contract.rs:63-68 | a batch that covers the supply leaves exactly nothing |
| Closure.ExecuteRefund | contracts/mars-red-bank-closure/src/contract.rs:37-97 | the loop succeeds exactly without outstanding debt and with a fitting batch, and orders the specified payouts |
| Closure.BurnsSucceed | contracts/mars-red-bank-closure/src/contract.rs:70-79 | the burns it orders go through exactly when no balance is empty, and leave the holders with nothing |
| Closure.EmptyHolderBlocksBatch | contracts/mars-red-bank-closure/src/contract.rs:70-79 | one empty balance makes the whole batch fail |
| Closure.RefundsExactly | contracts/mars-red-bank-closure/src/helpers.rs:10-38 | a refund with its burns goes through if and only if nothing is borrowed and none of the first ten listed accounts is empty; those ten then have nothing and stay listed |
| Closure.OnlyOneRefund | contracts/mars-ma-token/src/core.rs:66-76 | however often the refund is repeated, its effect is that of one call: after a refund that paid somebody every further one fails |
| Closure.RepeatedRefundsPayAll | contracts/mars-red-bank-closure/src/msg.rs:9 | repeated refunds pay everybody if and only if there is no supply, or nothing is borrowed and the accounts with a balance are exactly the first ten listed; the pot is then used up |
| Closure.ElevenHoldersNeverAllPaid | contracts/mars-red-bank-closure/src/msg.rs:9 | with one token for each of more than ten holders one refund goes through and no number of refunds pays all |

## Left out

- Overflow at 2^128: amounts are unbounded and such an overflow would be one more refused message.
- Market addresses and references: a market is named by its index, so its lookups by index and by reference cannot disagree; loan limits for assets without a market are refused.
- Recipients of payments, the tax deducted from native transfers, events, attributes, address validation, the address provider, owner checks and the mint cap of cw20: plumbing around the amounts.
- The refusal of a deposit at a liquidity index of zero (`InvalidLiquidityIndex`): indexes start at one and never fall, which is in their type.
- Who pays for a deposit or a repayment made on behalf of another user: the model names the user whose balance or debt changes.
- The order of checks inside the token between a zero amount and a missing balance, and a transfer to oneself, follows the value model; the contract's own allowance wrappers are thin calls.
- Several sub-messages of a transaction failing midway: a failed transaction changes nothing, so only whole messages are steps. Where the source has written before it fails, the class methods put the saved records back in the chain's place.
- Ledger.Donate: stands for assets sent to the contract outside its messages; withdrawals of the owner and arbitrary messages are not modelled.
- Solvency.EveryRunIsSolvent: bounds the deficit by counted roundings instead of excluding it, because repayments and liquidations do round against the market; it asks for reserve factors of at most one.
- Incentives: the staking of paid rewards and the order in which incentives are visited; the latter is proved not to matter.
- TwapLog: window and tolerance of an asset are fixed over a run; reconfiguring an asset with a wider window may miss snapshots that were pruned for the old one. The precision the pair contract applies is a parameter.
- Other price sources of the oracle and the recursion between them: external queries.
- Vesting: the one-to-one ratio check when an allocation is made, and where its tokens come from.
- Council: effects of the messages a passed proposal sends; their order and that they are sent once is what is proved.
- Governance.TurnoutWithinTotalPower: assumes that xMARS started with a supply equal to the sum of its balances, which `InitialSupplyExact` characterizes.
- Closure: whether the refunded asset refuses a payment of nothing, which a tiny holder may be due; tokens moved between two refunds, which could fill an emptied account again.
- Staking, treasury, safety fund, the rewards collector's fee split and pagination queries: single-branch facts.
