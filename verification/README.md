# Isolated lending pools: ledger, liquidity, auctions, rewards, rates and listing

This project models the accounting core of an isolated-pool lending protocol and proves what its truncating fixed-point
arithmetic and its loops guarantee. Amounts are natural numbers; every word-sized operation of the contracts is a checked
operation that reverts on overflow, underflow or division by zero, and a call that reverts leaves its state as it was.

Each contract that keeps state appears twice: as a transition function on a value, and as a class whose methods change
fields in place, with the contract's own loops, proved to carry out exactly that transition or to leave no trace. What the
protocol promises is then proved about the transitions, for one call and for whole runs.

- `Evm`, `ExponentialNoError`, `Sums`: checked words, mantissas rounded down once a division, sums over maps.
- `VTokenLedger`, `VToken`: one market. `VTokenMoves` says what each operation moves and exactly when it succeeds,
  `VTokenRuns` what every run keeps, `VTokenRates` what the truncated exchange rate guarantees, `VTokenDrift` how far debts
  and their recorded total drift apart either way and what that does to a full repayment.
- `Liquidity`, `ComptrollerPool`, `Comptroller`: the hypothetical liquidity fold, membership lists, hooks, liquidation,
  healing. `ComptrollerGuards` says what each entry point demands, `ComptrollerSafety` what the checks admit, `ComptrollerExits` treats the two ways out for small accounts,
  `ComptrollerRuns` whole runs of a pool, `ComptrollerWitness` one run that meets the limits of those results.
- `ShortfallAuctions`, `Shortfall`: bad-debt auctions, escrow, refunds and tracked token debts. `ShortfallSafety` and
  `ShortfallRuns` prove solvency, exact refunds and recoveries, and the bound on bids.
- `SupplierRewards`, `RewardsDistributor`: the cumulative supply index, settled before balances change; the market
  operations in its runs are those of `VTokenLedger`.
- `TwoKinks`: the rate model in signed words with truncating division.
- `InitialLiquidity`, `InitialLiquidityRuns`, `InitialLiquidityWitness`: the scripts that fund the treasury and that plan and
  execute market listings, and a deployment on which the two disagree.

Promises that hold only under a condition are proved with the exact condition:

- The exchange rate does fall in one case: when a call burns all the tokens there are above the initial rate
  (`VTokenRates.RateFallsExactlyWhenAllBurned`, with a run in `VTokenRates.RateCanFall`).
- A borrower can be unable to repay in full: index and recorded total are truncated separately, and the repayment reverts
  exactly when the balance has drifted above the total (`VTokenDrift.FullRepaymentExactly`, with a run of four calls).
- An admitted borrow, redemption or transfer can leave a shortfall of one unit, and never more: exactly when the check found
  nothing to spare and the truncated parts come to a unit less than the truncated whole (`Liquidity.AdmittedChangeIsSafe`,
  and at the entry points `ComptrollerSafety.AdmittedBorrow`, `AdmittedRedeem`, where what stays counts at the rate after
  the redemption, and `AdmittedTransfer`; with a pool's run in `ComptrollerWitness.ShortfallOfOneHappens`).
- The guards of healing and of liquidation in full are both passed exactly in the rounding window, and one of them always
  is (`ComptrollerExits.OneWayOutIsOpen`). Passing the guard is not enough: healing as a whole succeeds exactly when each
  market can be healed, which fails where a debt has drifted above the recorded total (`ComptrollerExits.HealAccountExactly`,
  `ComptrollerExits.HealMarketExactly`, with a pool's run in `ComptrollerWitness.NoWayOutHappens` after which an account can
  be neither healed nor liquidated in full).
- The liquidator's part of a seizure covers the seized tokens whatever their number exactly when the protocol's share is
  within the incentive's surplus (`VTokenRates.CoversExactly`). Setting the share checks that, setting the incentive and
  starting a market do not (`VTokenRates.CoverCanFail`).
- The borrow rate rises with utilization exactly when no piece of the model ends lower than it starts or starts lower than
  the one before ended (`TwoKinks.MonotoneExactly`); the constructor accepts others (`TwoKinks.FallingSlopeLowersRate`).
- The auctioned part of the risk fund is computed in the unit of account but paid in the base asset. Where all of the fund
  is auctioned, it lies within the reserve exactly when the price adds no unit to the reserve; where a part of it is, exactly
  when the bad debt with the incentive is a number within the reserve (`ShortfallRuns.SeizedAgainstReserves`, with started
  auctions of both kinds that seize more in `ShortfallRuns.SeizedAboveReserves`).
- The contract stays solvent over a run exactly when each close pays no more than the risk fund's delivery and the base
  asset's surplus (`ShortfallRuns.RunSolventExactly`); `ShortfallRuns.CloseCanDrainAnEscrow` is a run from a new contract
  whose close does not.
- The listing scripts restore the treasury exactly when every asset names the same token to both of them: a mock spelled in
  another case than its configuration is funded as one token and spent as another
  (`InitialLiquidityRuns.TreasuryRestoredExactly`, with a deployment that runs to the end in `InitialLiquidityWitness`).

Conventions of the model. Prices, borrow rates, slots and balances of other contracts are arguments; a token may keep part
of a transfer (`lost`) but never delivers more than was sent; a token may refuse a receiver. Interest accrual is a step of
its own: the public entry points accrue first, so runs interleave accruals with everything else, and the freshness checks
that this satisfies are not repeated. A liquidation order brings its two markets and the prices up to date itself, because a
liquidation in full checks its guards before it executes its orders.

Where code and comments disagree the model follows the code: `contracts/ComptrollerStorage.sol:45-47` places the liquidation
threshold below the collateral factor, while `contracts/Comptroller.sol:1043-1046` requires it at or above;
`contracts/Comptroller.sol:1033` speaks of a collateral factor of at most 0.9, while the constant it checks is 0.98
(`contracts/ComptrollerStorage.sol:112`).

`dafny verify dfyconfig.toml` checks the whole project.

## Model

| member | source | states |
|---|---|---|
| ExponentialNoError.MulScalarTruncate | contracts/ExponentialNoError.sol:38-41 | succeeds exactly when the product fits a word, and is then the product over 1e18 rounded down once |
| ExponentialNoError.MulScalarTruncateAddUInt | contracts/ExponentialNoError.sol:47-50 | succeeds exactly when the product and the sum fit a word, and adds to the product truncated once |
| ExponentialNoError.DivExp | contracts/ExponentialNoError.sol:131-133 | succeeds exactly for a nonzero divisor and a scaled dividend that fits; the quotient is rounded down |
| ExponentialNoError.Fraction | contracts/ExponentialNoError.sol:151-153 | succeeds exactly for a nonzero divisor and a scaled dividend that fits; the 36-digit quotient is rounded down |
| ExponentialNoError.FloorsOfSum | contracts/ExponentialNoError.sol:29-32 | truncating two parts loses at most one unit against truncating their sum, and never gains |
| VToken.VToken.constructor | contracts/VToken.sol:1540-1586 | a new market has empty books, an index of one and keeps the ledger invariant |
| VToken.VToken.AccrueInterest | contracts/VToken.sol:819-884 | carries out the accrual transition on the storage, or reverts and leaves it as it was |
| VToken.VToken.MintFresh | contracts/VToken.sol:893-940 | carries out the mint transition, or reverts without a trace |
| VToken.VToken.RedeemFresh | contracts/VToken.sol:951-1024 | carries out the redemption transition, by tokens or by underlying, or reverts without a trace |
| VToken.VToken.BorrowFresh | contracts/VToken.sol:1032-1079 | carries out the borrow transition, or reverts without a trace |
| VToken.VToken.RepayBorrowFresh | contracts/VToken.sol:1088-1134 | carries out the repayment transition, or reverts without a trace |
| VToken.VToken.TransferTokens | contracts/VToken.sol:1487-1524 | carries out the token transfer, or reverts without a trace |
| VToken.VToken.Approve | contracts/VToken.sol:184-191 | carries out the approval on the storage, or reverts for the zero address |
| VTokenMoves.SpentWithinAllowance | contracts/VToken.sol:1487-1524 | over every run a spender moves at most the allowance it had and what the owner allowed it since, unless that is unlimited |
| VToken.VToken.Seize | contracts/VToken.sol:1263-1311 | carries out the seizure with the protocol part burned, or reverts without a trace |
| VToken.VToken.HealBorrow | contracts/VToken.sol:555-600 | carries out the write-off transition, or reverts without a trace |
| VToken.VToken.BadDebtRecovered | contracts/VToken.sol:655-664 | carries out the recovery together with the arrival of the cash, or reverts without a trace |
| VToken.VToken.ReduceReservesFresh | contracts/VToken.sol:1376-1419 | carries out the reserve payout, or reverts without a trace |
| VToken.VToken.ReduceReserves | contracts/VToken.sol:509-513 | does nothing a second time in the slot of the last reduction |
| VToken.VToken.AddReservesFresh | contracts/VToken.sol:1353-1369 | cash and reserves both grow by what arrived |
| VTokenMoves.BorrowMoves | contracts/VToken.sol:1032-1079 | a borrow succeeds exactly when cash less reserves covers it and the sums fit; cash, total and the borrower's readable balance move by the amount, other debts do not |
| VTokenMoves.RepayMoves | contracts/VToken.sol:1088-1134 | no more is taken than the debt; what arrives comes off the debt and the recorded total alike; succeeds exactly when the total covers it |
| VTokenMoves.HealMoves | contracts/VToken.sol:555-600 | succeeds exactly when the payment is within the debt and the debt within the total; the debt ends at zero and what was not paid becomes bad debt, so suppliers' net assets do not move |
| VTokenMoves.RecoverMoves | contracts/VToken.sol:655-664 | a recovery succeeds exactly up to the recorded bad debt, which falls by what cash rises; net assets stay |
| VTokenMoves.RecoveriesAddUp | contracts/VToken.sol:655-664 | over any run of recoveries the bad debt that is gone is the cash that came in |
| VTokenMoves.AccruesExactly | contracts/VToken.sol:819-884 | an accrual succeeds exactly at a rate that is not absurd, not from the future, and when interest, cut and index fit |
| VTokenMoves.MintMoves | contracts/VToken.sol:893-940 | a mint succeeds exactly at a positive rate with room; the minter gets what its delivered payment buys |
| VTokenMoves.RedeemMoves | contracts/VToken.sol:951-1024 | a redemption succeeds exactly of tokens that are there and worth something, out of cash above the reserves |
| VTokenMoves.RedeemUnderlyingMoves | contracts/VToken.sol:972-984 | a redemption of an amount is one of the tokens it needs, rounded up where that pays something |
| VTokenMoves.TransferMoves | contracts/VToken.sol:1487-1524 | a transfer succeeds exactly between two accounts within balance and limited allowance, which it lowers by exactly the tokens; an unlimited one stays |
| VTokenMoves.AllowsExactly | contracts/VToken.sol:184-191 | an approval replaces the one allowance it names |
| VTokenMoves.ReservesMove | contracts/VToken.sol:1353-1419 | reserves are paid out exactly within cash and reserves and once a slot, and paid in as cash |
| VTokenMoves.NumbersAreSet | contracts/VToken.sol:472-482 | exact bounds of the reserve factor, the seizure share and the reduction distance |
| VTokenMoves.AccrualReserves | contracts/VToken.sol:851-878 | reserves grow by the truncated cut of the interest; a due reduction pays out the smaller of cash and reserves |
| VTokenRuns.AccrualFacts | contracts/VToken.sol:851-869 | interest and index grow by the same simple factor, each truncated once |
| VTokenRuns.MintFacts | contracts/VToken.sol:915-932 | minted tokens are the delivered amount over the stored rate, rounded down |
| VTokenRuns.RedeemFacts | contracts/VToken.sol:959-1016 | a redemption pays the stored rate for the burned tokens, rounded down |
| VTokenRuns.StepKeepsBacking | contracts/VToken.sol:1646-1664 | whatever step is taken, every remaining token stays backed by the rate before it |
| VTokenRuns.StepKeepsInv | contracts/VToken.sol:819-1134 | supply equals the sum of balances, net assets are never negative, and every nonzero debt has an index between one and the market's |
| VTokenRuns.BalanceAtLeastPrincipal | contracts/VToken.sol:1622-1639 | a stored balance is never below its principal |
| VTokenRuns.RunKeepsInv | contracts/VToken.sol:819-1419 | the same over every run of operations, reverted ones included |
| VTokenRates.RateFallsExactlyWhenEmptied | contracts/VToken.sol:1646-1664 | a step lowers the exchange rate if and only if it leaves no token behind, from above the initial rate |
| VTokenRates.RateFallsExactlyWhenAllBurned | contracts/VToken.sol:1646-1664 | read before the call: if and only if the tokens it would burn are all there are, above the initial rate |
| VTokenRates.RateCanFall | contracts/VToken.sol:1646-1664 | a concrete run in which the last redemption halves the rate |
| VTokenRates.RateNeverFalls | contracts/VToken.sol:1646-1664 | over every run that never burns the last token, the rate never falls despite all truncation |
| VTokenRates.RateAtLeastInitial | contracts/VToken.sol:1646-1664 | over every run at all, the rate stays at or above the initial rate |
| VTokenRates.MintThenRedeemNeverProfits | contracts/VToken.sol:893-1024 | with tokens outstanding, minting and redeeming what was minted never pays more than was put in |
| VTokenRates.FirstMintThenRedeem | contracts/VToken.sol:893-1024 | a first minter takes at most its deposit and the net assets that were there, donations and interest included |
| VTokenRates.RedeemThenMintNeverProfits | contracts/VToken.sol:893-1024 | redeeming and minting the proceeds back never yields more tokens |
| VTokenRates.RedeemUnderlyingCoversRequest | contracts/VToken.sol:972-984 | redeeming by underlying pays at least the request for the fewest tokens that cover it |
| VTokenRates.ClaimsAreCovered | contracts/VToken.sol:1646-1664 | what all suppliers together can redeem at the truncated rate is at most the net assets |
| VTokenRates.SeizeSplits | contracts/VToken.sol:1279-1296 | borrower loses exactly the seized tokens, liquidator and protocol parts add up to them, the protocol part is its truncated share over the incentive and is paid in cash at the stored rate |
| VTokenRates.SeizesExactly | contracts/VToken.sol:1263-1296 | a seizure succeeds exactly for two different accounts, tokens that are there, room for them, and cash that pays for the protocol's part |
| VTokenRates.CoversExactly | contracts/VToken.sol:472-482 | the liquidator's part at the incentive covers the tokens of every seizure if and only if the share is within the incentive's surplus |
| VTokenRates.CoverCanFail | contracts/VToken.sol:1575-1577 | the share a market starts with at the least incentive a pool accepts: a seizure of a hundred tokens leaves the liquidator ninety-five |
| VTokenDrift.DriftIsBounded | contracts/VToken.sol:851-869 | over every run of any borrowers, all untruncated debts exceed the recorded total by at most the number of accruals times the product of their growth factors |
| VTokenDrift.ReportedDriftIsBounded | contracts/VToken.sol:1622-1639 | so the balances the market reports exceed its recorded total by at most the same bound |
| VTokenDrift.ReportedLagIsBounded | contracts/VToken.sol:819-884 | the recorded total exceeds the reported balances by at most one unit for each account and, compounding with the accruals, one for each operation or the debts per unit of the index where those are more |
| VTokenDrift.ReportedIsStored | contracts/VToken.sol:1622-1639 | the balance summed there is the stored balance wherever that can be read |
| VTokenDrift.OtherDrift | contracts/VToken.sol:1032-1134 | borrows, repayments and write-offs never add to the drift |
| VTokenDrift.FullRepaymentExactly | contracts/VToken.sol:1088-1134 | a full repayment succeeds if and only if the balance has not drifted above the recorded total, and then ends the debt |
| VTokenDrift.FullRepaymentCanRevert | contracts/VToken.sol:1088-1134 | a concrete run of four calls after which a full repayment reverts |
| Liquidity.AccumulateIsSum | contracts/Comptroller.sol:1624-1689 | the checked fold is the plain sum of each market's truncated worth, and reverts exactly when an entry or a sum does not fit |
| Liquidity.SnapshotIsSum | contracts/Comptroller.sol:1624-1689 | liquidity less shortfall is collateral less debts and effects, and never both are positive |
| Liquidity.SnapshotIgnoresOrder | contracts/Comptroller.sol:1624-1689 | the snapshot, and whether it reverts, is the same for every order of the asset list |
| Liquidity.ShortfallMonotone | contracts/Comptroller.sol:1624-1689 | more collateral, weight or rate, or less debt, never deepens the shortfall |
| Liquidity.AdmittedChangeIsSafe | contracts/Comptroller.sol:1664-1689 | a redemption or borrow the hypothetical check admits leaves at most one unit of recomputed shortfall, and that unit exactly when nothing was to spare and truncating the parts loses it |
| ComptrollerWitness.ShortfallOfOneHappens | contracts/Comptroller.sol:601-656 | a pool's run from its registration with two admitted borrows, after which the account is one unit short |
| Liquidity.ExitIsExact | contracts/Comptroller.sol:365-413 | leaving a market after the check leaves exactly the predicted liquidity and shortfall |
| Comptroller.Comptroller.EnterMarkets | contracts/Comptroller.sol:232-244 | the loop enters every listed market in order, or reverts without a trace |
| Comptroller.Comptroller.constructor | contracts/Pool/PoolRegistry.sol:133-153 | the comptroller as the registry adds its pool, keeping the pool invariant |
| Comptroller.Comptroller.GetAssetsIn | contracts/Comptroller.sol:1481-1501 | returns the account's list filtered to listed markets, in order |
| Comptroller.Comptroller.GetHypotheticalLiquiditySnapshot | contracts/Comptroller.sol:1624-1689 | the loop over the account's markets computes the fold, reverts included |
| Comptroller.Comptroller.FindAsset | contracts/Comptroller.sol:391-400 | the search loop finds the first position of the market, or the length |
| Comptroller.Comptroller.ExitMarket | contracts/Comptroller.sol:365-413 | the exit with its search and swap with the last place, or reverts without a trace |
| Comptroller.Comptroller.HealAccount | contracts/Comptroller.sol:869-920 | heals every market in the list or, reverting anywhere, none |
| Comptroller.Comptroller.ExecuteEach | contracts/Comptroller.sol:963-979 | executes the orders in sequence, each accruing its two markets and updating prices on the state the one before left |
| Comptroller.Comptroller.CheckNoDebt | contracts/Comptroller.sol:981-987 | true exactly when every market of the list shows the account no debt |
| Comptroller.Comptroller.LiquidateAccount | contracts/Comptroller.sol:935-988 | guards, orders in sequence and the final check, or no trace |
| ComptrollerSafety.ListedOfParts | contracts/Comptroller.sol:1481-1501 | filtering a list filters its parts in place, so order and repetitions stay |
| ComptrollerSafety.ListedOfOne | contracts/Comptroller.sol:1481-1501 | one market is kept exactly when it is listed |
| ComptrollerSafety.SwapRemoveKeepsOthers | contracts/Comptroller.sol:405-408 | filling the gap with the last market keeps every other market, once, and drops only the one that left |
| ComptrollerSafety.EnterKeepsLists | contracts/Comptroller.sol:1508-1530 | entering adds one membership and keeps list and flags in agreement |
| Comptroller.EnterAllExactly | contracts/Comptroller.sol:232-252 | entering several markets succeeds exactly when all are listed; the account is then a member of those and of what it was in before, and no other membership moves |
| ComptrollerGuards.ExitExactly | contracts/Comptroller.sol:365-416 | an account leaves exactly a listed market it owes nothing in and whose tokens it can spare |
| ComptrollerGuards.ViewExactly | contracts/Comptroller.sol:1730-1741 | what the checks read of a market: tokens, debt, stored rate, price and the weight asked for |
| ComptrollerGuards.RedeemExactly | contracts/Comptroller.sol:1568-1594 | a redemption succeeds exactly from a listed market that can pay it and, of a member, if its weighted collateral still covers its debts |
| ComptrollerGuards.TransferExactly | contracts/Comptroller.sol:838-854 | a transfer succeeds exactly under the same demands on its sender |
| ComptrollerGuards.MintExactly | contracts/Comptroller.sol:427-450 | a mint succeeds exactly in a listed market whose supply at the stored rate stays within the cap |
| ComptrollerGuards.BorrowExactly | contracts/Comptroller.sol:601-656 | a borrow succeeds exactly in a listed market with a price, room below the cap, cash, and collateral that covers the account once it has entered |
| ComptrollerGuards.FactorsAreSet | contracts/Comptroller.sol:1020-1065 | factors are set exactly for a listed market, in order and within their bounds, a positive one only with a price |
| ComptrollerGuards.ListingMoves | contracts/Comptroller.sol:1095-1118 | a market is supported exactly once, without weight, and unlisted exactly without caps and collateral factor |
| ComptrollerGuards.NumbersAreSet | contracts/Comptroller.sol:996-1086 | the bounds of the close factor and of the incentive |
| ComptrollerSafety.ExitKeepsLists | contracts/Comptroller.sol:365-413 | leaving removes that one membership, keeps list and flags in agreement and leaves every ledger alone |
| ComptrollerSafety.ExitFindsTheMarket | contracts/Comptroller.sol:391-403 | a member's market is always found in its list |
| ComptrollerSafety.ExitTakesOneEntry | contracts/Comptroller.sol:365-413 | leaving takes exactly the market's entry out of the account's liquidity entries, whatever their new order |
| ComptrollerSafety.ExitLeavesPrediction | contracts/Comptroller.sol:365-413 | an accepted exit leaves the account exactly the liquidity its check predicted, and no shortfall |
| ComptrollerSafety.AcceptedBorrowWithinCap | contracts/Comptroller.sol:601-656 | an accepted borrow has entered the borrower and keeps loans plus bad debt within the cap |
| ComptrollerSafety.AcceptedMintWithinCap | contracts/Comptroller.sol:427-443 | after an accepted mint all tokens at the rate of the call are worth at most the supply cap |
| ComptrollerSafety.AddedPoolInv | contracts/Pool/PoolRegistry.sol:133-153 | a pool as the registry adds it satisfies the invariant that runs keep |
| ComptrollerSafety.AdmittedBorrow | contracts/Comptroller.sol:601-656 | after an accepted borrow the recomputed shortfall is at most one unit, and one exactly when the check found no liquidity to spare and the loan's worth truncated apart from the debt's loses it |
| ComptrollerSafety.AdmittedRedeem | contracts/Comptroller.sol:1568-1594 | after a member's accepted redemption at most one unit, and one exactly when nothing was to spare and the tokens redeemed and kept are worth a unit less apart |
| ComptrollerSafety.AdmittedTransfer | contracts/Comptroller.sol:838-854 | the same after a member's accepted transfer, at the unchanged rate |
| ComptrollerSafety.SafeUnderFactorsIsSafeUnderThresholds | contracts/Comptroller.sol:1020-1064 | an account without shortfall under collateral factors has none under liquidation thresholds at the same prices |
| ComptrollerExits.GuardsMeasure | contracts/Comptroller.sol:883-957 | heal and liquidate guards as one comparison each of collateral with the debt plus incentive |
| ComptrollerExits.OneWayOutIsOpen | contracts/Comptroller.sol:869-957 | for every small account in shortfall the guard of healing or of liquidation in full passes, and both if and only if its surplus lies in the rounding window |
| ComptrollerExits.HealMarketExactly | contracts/Comptroller.sol:905-919 | healing one market succeeds exactly when its figures fit, its tokens are a member's and another account can seize them with the protocol's part paid out of cash, and the debt has not drifted above the recorded total |
| ComptrollerExits.HealAccountExactly | contracts/Comptroller.sol:869-920 | the whole call succeeds if and only if the account's sums admit it and each of its markets, on its own figures, can be healed for the share of the debts that all the collateral pays for |
| ComptrollerWitness.NoWayOutHappens | contracts/Comptroller.sol:869-957 | a pool's run from its registration after which an account in shortfall passes the guard of healing, and yet every healing panics and every liquidation in full is refused |
| ComptrollerExits.HealMarketSettles | contracts/Comptroller.sol:905-919 | in one market: tokens and debt end at zero, bad debt rises by balance minus repayment, repayment is within the balance, and cash moves by what arrived less the stored rate of the burned tokens |
| ComptrollerExits.HealMarketsSettles | contracts/Comptroller.sol:905-919 | the loop does this in every market of the list, in any order, and touches no other |
| ComptrollerExits.HealingSettlesTheAccount | contracts/Comptroller.sol:869-920 | only a small account in shortfall is healed; it then has neither collateral nor debt under either weight, and each of its listed markets was healed for the share of the debts its collateral pays for |
| ComptrollerExits.HealingRepaysTheShare | contracts/Comptroller.sol:893-919 | in every market what arrives of that share, the collateral over the debts with the incentive rounded down, counts as repaid, and the rest of the debt becomes bad debt |
| ComptrollerGuards.SmallAccountsExactly | contracts/Comptroller.sol:883-958 | the guards of healing and of liquidation in full on plain sums, and the share that healing takes |
| ComptrollerExits.LiquidateAccountExactly | contracts/Comptroller.sol:935-988 | a liquidation in full succeeds exactly when the sums admit it, all orders go through and no market shows debt; it is then what the orders did |
| ComptrollerExits.OrdersOfParts | contracts/Comptroller.sol:964-981 | orders run in sequence, each on what the ones before left |
| ComptrollerExits.LiquidationSettlesWithoutBadDebt | contracts/Comptroller.sol:935-988 | after liquidation in full, guarded on the figures before and with accruals and new prices inside its orders, the account owes nothing in any of its markets and no market gained bad debt |
| ComptrollerExits.SplittingSeizesNoMore | contracts/Comptroller.sol:1385-1413 | at fixed prices and rate, repaying in parts never seizes more than repaying at once |
| ComptrollerExits.LiquidationRepays | contracts/VToken.sol:1215-1216 | a liquidation takes what arrived off the borrower's readable debt and the recorded total, and touches no other debt |
| ComptrollerGuards.HookExactly | contracts/Comptroller.sol:714-763 | an unforced liquidation is admitted exactly for listed markets, an account above the size limit whose weighted collateral is below its debts, and an amount within the close factor's part of the debt; a forced one up to the debt |
| ComptrollerGuards.LiquidateBorrowExactly | contracts/VToken.sol:1138-1216 | on accrued figures the single-market liquidation succeeds exactly when it is admitted and repaying and seizing goes through, and is then that |
| ComptrollerGuards.ExecuteOrderExactly | contracts/Comptroller.sol:964-981 | the same for an order of a liquidation in full, which is a forced one |
| ComptrollerGuards.RefreshExactly | contracts/VToken.sol:1147-1163 | both markets of a liquidation accrue, a single one once, and the prices are updated |
| ComptrollerExits.RepayAndSeizeExactly | contracts/VToken.sol:1200-1240 | succeeds exactly for another account, an amount neither zero nor the largest word, a repayment that fits, and matching tokens of a member that can be seized |
| ComptrollerGuards.MatchingTokensExactly | contracts/Comptroller.sol:1385-1413 | the tokens for a repayment are the truncated product with the ratio of incentive and prices, which is itself rounded down, and are found exactly when prices are known and all products fit |
| ComptrollerExits.LiquidationSeizes | contracts/VToken.sol:1222-1239 | and exactly the matching tokens from the borrower at the rate before the call, in two markets or in one; the liquidator gets them less what leaves the supply |
| ComptrollerExits.SeizedWithinIncentive | contracts/Comptroller.sol:1385-1413 | the seized tokens at the collateral's price are worth at most the repayment with the incentive on top |
| ComptrollerRuns.PoolStepKeeps | contracts/Comptroller.sol:232-1118 | every step of a pool keeps lists, flags, factor order and every ledger's books, and no rate falls while tokens remain |
| ComptrollerRuns.PoolRunKeepsInv | contracts/Comptroller.sol:232-1118 | the same invariant over every run of a pool |
| ComptrollerRuns.PoolRunKeeps | contracts/Comptroller.sol:232-1118 | over every run in which a market keeps at least one token, its exchange rate never falls |
| Shortfall.Shortfall.PlaceBid | contracts/Shortfall/Shortfall.sol:173-217 | guards, then refund and collection market by market, or reverts without a trace |
| Shortfall.Shortfall.CloseAuction | contracts/Shortfall/Shortfall.sol:224-273 | settles every market, then pays the winner, or reverts without a trace |
| Shortfall.Shortfall.StartAuction | contracts/Shortfall/Shortfall.sol:403-479 | sums the bad debt and records the auction's terms, or reverts without a trace |
| Shortfall.Shortfall.RestartAuction | contracts/Shortfall/Shortfall.sol:291-302 | ends a stale auction and starts anew, or reverts without a trace |
| Shortfall.Shortfall.ClaimTokenDebt | contracts/lib/TokenDebtTracker.sol:80-94 | pays out tracked debt, the largest word standing for all of it, or reverts without a trace |
| Shortfall.Shortfall.constructor | contracts/Shortfall/Shortfall.sol:145-165 | a new contract holds nothing, owes nothing, and is booked and solvent |
| ShortfallSafety.TransferMoves | contracts/lib/TokenDebtTracker.sol:112-141 | sent or tracked, the amount leaves the free balance and adds to what the receiver got or is owed |
| ShortfallSafety.ClaimMoves | contracts/lib/TokenDebtTracker.sol:80-94 | a claim changes neither the free balance nor anybody's received plus owed |
| ShortfallSafety.TransferKeepsDebtsAgree | contracts/lib/TokenDebtTracker.sol:127-141 | total debt per token stays the sum of the users' debts when a transfer is sent or refused |
| ShortfallSafety.ClaimKeepsDebtsAgree | contracts/lib/TokenDebtTracker.sol:80-94 | and when a debt is claimed |
| ShortfallSafety.ClaimExactly | contracts/lib/TokenDebtTracker.sol:80-94 | a claim succeeds exactly within the user's debt and the balance, pays that much and owes that much less |
| ShortfallSafety.TransferExactly | contracts/lib/TokenDebtTracker.sol:112-136 | what a token accepts is sent, what it refuses is recorded as owed to that receiver |
| ShortfallSafety.CollectBidsMoves | contracts/Shortfall/Shortfall.sol:191-210 | the loop replaces, token by token, the old escrow by what arrived of the new bid, within each market's debt |
| ShortfallSafety.BidCollects | contracts/Shortfall/Shortfall.sol:191-214 | an accepted bid records its bidder, and in every market what was delivered of its percentage of the debt rounded down, or of the whole debt when the fund is the larger |
| ShortfallSafety.BidsAreAdmitted | contracts/Shortfall/Shortfall.sol:173-189 | no bid is accepted but on the running auction the bidder meant, in time, reaching the start bid or beating the best one; in a solvent state every such bid is, up to overflow |
| ShortfallSafety.OutbidReturnsTheEscrow | contracts/Shortfall/Shortfall.sol:191-210 | an outbid returns exactly the recorded amounts to the previous bidder and to nobody else |
| ShortfallSafety.BidKeepsSurplus | contracts/Shortfall/Shortfall.sol:173-217 | held tokens less escrow and debts do not change, whatever transfers lose on the way |
| ShortfallSafety.BidKeepsValid | contracts/Shortfall/Shortfall.sol:173-217 | accepted bids stay within 1 and 10000 and within the markets' recorded debts |
| ShortfallSafety.BidNeverLacksBalance | contracts/Shortfall/Shortfall.sol:196-198 | in a solvent state no bid fails because the previous one cannot be returned |
| ShortfallRuns.CloseRecoversWhatArrives | contracts/Shortfall/Shortfall.sol:239-249 | each market's bad debt falls by exactly what that market received, and no other's |
| ShortfallRuns.ClosePaysTheWinner | contracts/Shortfall/Shortfall.sol:251-262 | the winner is sent or owed the whole seized fund, or the winning bid's percentage of it rounded down when the fund is the larger, and nobody else anything |
| ShortfallRuns.CloseMovesSurplus | contracts/Shortfall/Shortfall.sol:224-273 | only the base asset's surplus moves, by the delivery less the winner's part |
| ShortfallRuns.CloseSolventExactly | contracts/Shortfall/Shortfall.sol:224-273 | closing keeps the contract solvent if and only if the delivery and the base asset's surplus cover the winner's part |
| ShortfallRuns.CloseNeverBlocks | contracts/Shortfall/Shortfall.sol:224-273 | a due auction of a solvent contract can be closed when the risk fund delivers in full, up to word overflow |
| ShortfallRuns.PayoutWithinSeized | contracts/Shortfall/Shortfall.sol:251-257 | the winner's part never exceeds the seized fund |
| ShortfallRuns.TermsWithinBounds | contracts/Shortfall/Shortfall.sol:450-465 | a start bid is at most 10000 and no more is seized than the fund is worth |
| ShortfallRuns.SeizedAgainstReserves | contracts/Shortfall/Shortfall.sol:447-465 | measured against the reserve in tokens: a whole fund is seized within it exactly when the price adds no unit, a part of the fund exactly when the debt with the incentive is a number within it |
| ShortfallRuns.SeizedAboveReserves | contracts/Shortfall/Shortfall.sol:403-479 | concrete started auctions of each type that seize more than the reserve |
| ShortfallRuns.StartRecords | contracts/Shortfall/Shortfall.sol:413-468 | a started auction covers the given markets with their bad debts, from the current slot, and waits for a first bid |
| ShortfallRuns.StartExactly | contracts/Shortfall/Shortfall.sol:403-479 | an auction starts exactly unless paused or running, for a pool whose bad debts are worth the minimum, on the terms of that worth and the reserve's |
| ShortfallRuns.PoolBadDebtExactly | contracts/Shortfall/Shortfall.sol:424-434 | the pool's bad debt is the sum over its markets of price times bad debt, each rounded down |
| ShortfallRuns.TermsExactly | contracts/Shortfall/Shortfall.sol:438-464 | a fund up to the debt with the incentive is auctioned whole from the percentage it covers on, a larger one up to that debt |
| ShortfallRuns.RestartExactly | contracts/Shortfall/Shortfall.sol:291-304 | a restart is a start of an auction nobody bid for in time |
| ShortfallRuns.StartKeeps | contracts/Shortfall/Shortfall.sol:403-479 | starting keeps all auctions valid and every surplus |
| ShortfallRuns.RestartKeeps | contracts/Shortfall/Shortfall.sol:291-302 | so does restarting a stale auction |
| ShortfallRuns.RunKeepsBooked | contracts/Shortfall/Shortfall.sol:173-302 | over every run, whatever tokens lose or refuse and whatever the risk fund delivers: bids stay within bounds and debts, and debt totals are the sums of the debts |
| ShortfallRuns.RunSolventExactly | contracts/Shortfall/Shortfall.sol:173-302 | every escrowed bid and tracked debt is held throughout a run if and only if each close pays no more than its delivery and the base asset's surplus |
| ShortfallRuns.CloseCanDrainAnEscrow | contracts/Shortfall/Shortfall.sol:251-262 | a run from a new contract to a close, on half a delivery, that pays the winner out of another auction's escrow |
| ShortfallRuns.InitializedIsBookedAndSolvent | contracts/Shortfall/Shortfall.sol:145-165 | the state that `initialize` leaves is booked and solvent |
| ShortfallRuns.RunAddsUp | contracts/lib/TokenDebtTracker.sol:80-141 | over every run, whatever the risk fund delivers, each receiver's tokens received plus outstanding debt is everything owed to it: beaten bids and won funds |
| ShortfallRuns.BidsAreBounded | contracts/Shortfall/Shortfall.sol:181-189 | one auction accepts at most 10000 bids, counting down with every accepted one |
| RewardsDistributor.RewardsDistributor.constructor | contracts/Rewards/RewardsDistributor.sol:687-708 | the supply state starts at the initial index in the current slot |
| RewardsDistributor.RewardsDistributor.UpdateRewardTokenSupplyIndex | contracts/Rewards/RewardsDistributor.sol:572-621 | carries out the index update in place, or reverts without a trace |
| RewardsDistributor.RewardsDistributor.DistributeSupplierRewardToken | contracts/Rewards/RewardsDistributor.sol:481-510 | settles one supplier in place, with the rule for accounts older than the distributor |
| RewardsDistributor.RewardsDistributor.SetRewardTokenSpeed | contracts/Rewards/RewardsDistributor.sol:449-461 | brings the index up to date at the old speed before taking the new one |
| RewardsDistributor.RewardsDistributor.SetLastRewardingSlot | contracts/Rewards/RewardsDistributor.sol:359-392 | the supply and the borrow end only into the future, and neither again once one of them has passed |
| RewardsDistributor.RewardsDistributor.GrantRewardToken | contracts/Rewards/RewardsDistributor.sol:558-565 | pays everything accrued or, when the balance does not cover all of it, nothing |
| RewardsDistributor.RewardsDistributor.ClaimRewardToken | contracts/Rewards/RewardsDistributor.sol:336-351 | index, settlement and payout together, or no trace |
| SupplierRewards.UpdateSharesOut | contracts/Rewards/RewardsDistributor.sol:591-610 | the index grows by what the passed slots released per token, rounded down; with no supply it is forgone |
| SupplierRewards.DistributeMoves | contracts/Rewards/RewardsDistributor.sol:481-510 | a supplier is credited balance times index growth since its last settlement, rounded down, and restarts from the current index |
| SupplierRewards.SettleKeeps | contracts/Comptroller.sol:838-854 | after the hook the named accounts are settled, the index is up to date and the invariant holds |
| SupplierRewards.OnlyParticipants | contracts/VToken.sol:893-1524 | a market operation changes no balance but those its hook settles |
| SupplierRewards.SettledBalancesMove | contracts/VToken.sol:893-1524 | changing settled balances leaves the pending rewards as they were |
| SupplierRewards.GrantMoves | contracts/Rewards/RewardsDistributor.sol:558-565 | a payout moves a holder's whole reward from owed to paid if it is covered, otherwise nothing; nobody else's moves |
| SupplierRewards.ClaimPays | contracts/Rewards/RewardsDistributor.sol:336-351 | a claim pays the holder all it is owed once settled if the balance covers it, otherwise it stays owed; no other account's reward moves |
| SupplierRewards.UpdatesExactly | contracts/Rewards/RewardsDistributor.sol:572-599 | an update succeeds exactly when the index is not ahead of time and the new one fits 224 bits |
| SupplierRewards.MarketStepExactly | contracts/Comptroller.sol:427-474 | the market takes its step after exactly the accounts whose balance it changes are credited what they earned |
| SupplierRewards.EachSlotReleases | contracts/Rewards/RewardsDistributor.sol:572-599 | each slot up to the last rewarding one releases the speed once |
| SupplierRewards.SpeedAndEndsAreSet | contracts/Rewards/RewardsDistributor.sol:359-462 | a new speed counts after an update at the old one; the ends are set exactly into the future while both are open |
| SupplierRewards.StepKeeps | contracts/Rewards/RewardsDistributor.sol:336-621 | the sum of balance times index growth plus 1e36 times everything distributed stays within 1e36 times what was released |
| SupplierRewards.NeverOverDistributed | contracts/Rewards/RewardsDistributor.sol:336-621 | over every interleaving of updates, settlements, claims, speed changes and market operations, suppliers never get more than the speeds released |
| SupplierRewards.SettlingOnTheWay | contracts/Rewards/RewardsDistributor.sol:481-510 | settling in between costs an account at most one unit against settling once, and never gains |
| TwoKinks.TruncDiv | contracts/TwoKinksInterestRateModel.sol:202-231 | signed division rounds toward zero, on both signs |
| TwoKinks.UtilizationIsLentPart | contracts/TwoKinksInterestRateModel.sol:174-192 | the lent part of the supply rounded down; one when reserves take up all the cash, zero when nothing is lent |
| TwoKinks.InterestIsSplit | contracts/TwoKinksInterestRateModel.sol:151-164 | supplier interest plus the reserve cut is within the borrowers' interest, and short of it only by rounding |
| TwoKinks.BorrowRateFollowsLines | contracts/TwoKinksInterestRateModel.sol:202-231 | for slopes of either sign the borrow rate is that of three straight lines cut off at zero, off by less than one unit for each line followed, and never above them when no slope falls |
| TwoKinks.ConstructsExactly | contracts/TwoKinksInterestRateModel.sol:87-123 | what the constructor accepts, and each yearly figure spread over the slots toward zero |
| TwoKinks.RateReadsExactly | contracts/TwoKinksInterestRateModel.sol:202-231 | the rate reverts exactly when a climb or a partial sum leaves the signed word |
| TwoKinks.BorrowRateRises | contracts/TwoKinksInterestRateModel.sol:202-231 | with no falling slope the borrow rate is monotone in utilization across both kinks |
| TwoKinks.FallingSlopeLowersRate | contracts/TwoKinksInterestRateModel.sol:87-123 | a concrete accepted model with a negative slope for which it falls |
| TwoKinks.MonotoneExactly | contracts/TwoKinksInterestRateModel.sol:202-231 | an accepted model charges no less for more utilization if and only if, of at most six rates at the ends of its pieces, none is lower than the one before; the rate read is the one compared |
| TwoKinks.UtilizationRises | contracts/TwoKinksInterestRateModel.sol:174-192 | lending more out of the same supply never lowers utilization |
| TwoKinks.BorrowRateFollowsLoans | contracts/TwoKinksInterestRateModel.sol:133-140 | at a monotone model a borrow never lowers the market's next borrow rate, a repayment never raises it |
| InitialLiquidity.SumAmounts | deploy/011-initial-liquidity.ts:15-21 | one total for each symbol that occurs, the sum of its amounts |
| InitialLiquidity.SendInitialLiquidityToTreasury | deploy/011-initial-liquidity.ts:47-71 | returns early on two networks, else one transfer for each symbol |
| InitialLiquidity.ExecuteEach | deploy/013-vip-based-config.ts:362-377 | executes the commands in order, each on the state the one before left |
| InitialLiquidity.FirstMatchIsTaken | helpers/deploymentConfig.ts:856-866 | a symbol is found exactly when it is configured up to case and blanks, and the first match is taken |
| InitialLiquidity.TrimsBlanks | helpers/deploymentConfig.ts:856-866 | comparing symbols drops exactly the blanks at both ends |
| InitialLiquidityRuns.SentIsFunded | deploy/011-initial-liquidity.ts:55-69 | summing by symbol first sends every token exactly what its markets ask for |
| InitialLiquidityRuns.FundingSends | deploy/011-initial-liquidity.ts:47-71 | the treasury gains and the deployer loses that amount in every token |
| InitialLiquidityRuns.PlanTotals | deploy/013-vip-based-config.ts:272-298 | the plan withdraws and supplies exactly what the markets ask for |
| InitialLiquidityRuns.TreasuryCoversEveryPrefix | deploy/013-vip-based-config.ts:183-298 | after every prefix of the plan the treasury holds its old balance plus what is still to be withdrawn, and in the end its old balance |
| InitialLiquidityRuns.TreasuryRestoredExactly | helpers/deploymentUtils.ts:29-40 | where mocks are distinct contracts, the treasury returns to its old balance in every token if and only if every asset names the same token to both scripts |
| InitialLiquidityWitness.TreasuryCanPay | deploy/013-vip-based-config.ts:183-298 | a concrete deployment on which both scripts run to the end and the treasury differs |
| InitialLiquidityRuns.DeployerPaysTheMarkets | deploy/013-vip-based-config.ts:272-298 | in the end the deployer has paid every market its initial supply, and nothing else |
| InitialLiquidityRuns.ListSupplies | contracts/Pool/PoolRegistry.sol:161-204 | the market is listed with its factors and both caps, and its cash grows by the initial supply |
| InitialLiquidityRuns.ListsExactly | contracts/Pool/PoolRegistry.sol:161-204 | a listing succeeds exactly for an unregistered pair whose pool can list it, out of an allowance and a balance that cover it, and is registered under the pair |
| InitialLiquidityRuns.DeltaExactly | contracts/VToken.sol:705-711 | the market of a known pool is given a positive distance between reductions, and nothing else changes |
| InitialLiquidityRuns.ListsWithOwnAllowance | deploy/013-vip-based-config.ts:208-235 | every listing runs with exactly its own initial supply approved, and uses it up |
| InitialLiquidityRuns.ApprovalsAreAccepted | deploy/013-vip-based-config.ts:219-234 | resetting first means no approval of the plan is refused, even by tokens that forbid changing a nonzero allowance |
| InitialLiquidityRuns.ReplanningEmitsNothing | helpers/deploymentUtils.ts:64-99 | once the plan has run, planning again emits no command |

## Left out

- Access control, pausing, delegates, reentrancy guards, loop limits, events: guards of one branch each.
- The pause guards of unlisting: unlisting is allowed in more states than in the contract, which the invariants survive.
- Proxies, initializers, upgrades and storage gaps: deployment mechanics.
- Prices change freely between steps and with every liquidation order, and are fixed within any other step; the oracle contracts are not part of this model.
- Prime scores, PoolLens, the native token gateway and the swap router: views and wrappers.
- The risk fund and the protocol share reserve: what the risk fund delivers is an argument, what the reserve receives leaves the market.
- Accruals and price updates at the head of healing: separate steps of a run, before the call.
- `increaseAllowance` and `decreaseAllowance`: approvals of the resulting amount.
- RewardsDistributor.RewardsDistributor.ClaimRewardToken: claims from one market's supply side; the loop over markets repeats it.
- `accrueInterest` inside `mintBehalf` when a market is listed: a new market has no loans to accrue on.
- Overflow of slot sums (a slot plus a waiting time), 32-bit slot checks: slots are unbounded.
- Borrower-side rewards, and sharing one distributor between markets: the index of one market's supply side is modelled.
- The owner's direct grants of reward tokens: they move the distributor's tokens without touching accrued rewards.
- Rate models other than the one with two kinks.
- Symbols are compared after ASCII lower-casing and trimming blanks; locale-dependent casing is not modelled.
- The faucet for mock tokens, and the planner's commands for pools, permissions and rewards, which the script has commented out.
- Ownership and permission checks of the planned commands: the deployer is assumed to be allowed to execute them.
- ShortfallRuns.CloseNeverBlocks: says nothing about overflow of a 256-bit balance, because token supplies are not modelled.
- SupplierRewards.NeverOverDistributed: starts when the distributor learns of the market, because earlier slots release nothing.
