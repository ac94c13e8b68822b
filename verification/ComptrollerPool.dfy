/** One isolated pool as a value: the comptroller's storage, the markets behind it, and the checked entry points. */
module ComptrollerPool {
  import opened Evm
  import opened ExponentialNoError
  import opened Sums
  import L = VTokenLedger
  import opened Liquidity

  const MAX_COLLATERAL_FACTOR: nat := 980_000_000_000_000_000
  const MIN_CLOSE_FACTOR: nat := 20_000_000_000_000_000
  const MAX_CLOSE_FACTOR: nat := 900_000_000_000_000_000

  datatype MarketInfo = MarketInfo(
    isListed: bool,
    collateralFactor: nat,
    liquidationThreshold: nat,
    accountMembership: set<Address>)

  datatype Pool = Pool(
    markets: map<Address, MarketInfo>,
    accountAssets: map<Address, seq<Address>>,
    allMarkets: seq<Address>,
    vTokens: map<Address, L.Market>,
    prices: map<Address, nat>,
    borrowCaps: map<Address, nat>,
    supplyCaps: map<Address, nat>,
    closeFactor: nat,
    liquidationIncentive: nat,
    minLiquidatableCollateral: nat)

  /** A comptroller's storage before it joins the registry. */
  const NO_POOL: Pool := Pool(map[], map[], [], map[], map[], map[], map[], 0, 0, 0)

  function SetCloseFactor(p: Pool, closeFactor: nat): Result<Pool> {
    var _ :- Require(MIN_CLOSE_FACTOR <= closeFactor <= MAX_CLOSE_FACTOR, CloseFactorOutOfBounds);
    Ok(p.(closeFactor := closeFactor))
  }

  function SetLiquidationIncentive(p: Pool, incentive: nat): Result<Pool> {
    var _ :- Require(incentive >= EXP_SCALE, InvalidLiquidationIncentive);
    Ok(p.(liquidationIncentive := incentive))
  }

  /** The pool that the registry sets up with its three numbers. */
  function AddPool(closeFactor: nat, incentive: nat, minLiquidatableCollateral: nat): Result<Pool> {
    var closing :- SetCloseFactor(NO_POOL, closeFactor);
    var rewarding :- SetLiquidationIncentive(closing, incentive);
    Ok(rewarding.(minLiquidatableCollateral := minLiquidatableCollateral))
  }

  predicate IsListed(p: Pool, v: Address) {
    v in p.markets && p.markets[v].isListed
  }

  predicate IsMember(p: Pool, v: Address, account: Address) {
    v in p.markets && account in p.markets[v].accountMembership
  }

  function AssetsOf(p: Pool, account: Address): seq<Address> {
    if account in p.accountAssets then p.accountAssets[account] else []
  }

  /** The listed ones among some markets, in order. */
  function ListedOf(p: Pool, assets: seq<Address>): (r: seq<Address>)
    ensures forall v :: v in r <==> v in assets && IsListed(p, v)
  {
    if assets == [] then []
    else
      var last := assets[|assets| - 1];
      assert assets == assets[..|assets| - 1] + [last];
      ListedOf(p, assets[..|assets| - 1]) + if IsListed(p, last) then [last] else []
  }

  function GetAssetsIn(p: Pool, account: Address): seq<Address> {
    ListedOf(p, AssetsOf(p, account))
  }

  // ----------------------------------------------------------- membership

  function AddToMarket(p: Pool, v: Address, account: Address): Result<Pool> {
    var _ :- Require(IsListed(p, v), MarketNotListed);
    if IsMember(p, v, account) then Ok(p)
    else
      var info := p.markets[v];
      Ok(p.(markets := p.markets[v := info.(accountMembership := info.accountMembership + {account})],
            accountAssets := p.accountAssets[account := AssetsOf(p, account) + [v]]))
  }

  /** The first position of `v`, or the length. */
  function IndexOf(assets: seq<Address>, v: Address): (i: nat)
    ensures i <= |assets| && (i < |assets| <==> v in assets)
    ensures i < |assets| ==> assets[i] == v && v !in assets[..i]
  {
    if assets == [] then 0
    else if assets[0] == v then 0
    else
      assert assets == [assets[0]] + assets[1..];
      assert forall j :: 0 < j <= IndexOf(assets[1..], v) ==> assets[..j] == [assets[0]] + assets[1..][..j - 1];
      1 + IndexOf(assets[1..], v)
  }

  /** The last market moves into the place of the one that leaves. */
  function SwapRemove(assets: seq<Address>, i: nat): seq<Address>
    requires i < |assets|
  {
    assets[i := assets[|assets| - 1]][..|assets| - 1]
  }

  /** Only without debt there, and after the liquidity check, which reads the whole holding as redeemed. */
  function CheckExitAllowed(p: Pool, v: Address, account: Address): Result<()> {
    var _ :- Require(v in p.vTokens, SnapshotError);
    var amountOwed :- L.BorrowBalanceStored(p.vTokens[v], account);
    var _ :- L.ExchangeRateStored(p.vTokens[v]);
    var _ :- Require(amountOwed == 0, NonzeroBorrowBalance);
    CheckRedeemAllowed(p, v, account, Get(p.vTokens[v].accountTokens, account))
  }

  function ExitMarket(p: Pool, v: Address, account: Address): Result<Pool> {
    var _ :- CheckExitAllowed(p, v, account);
    LeaveMarket(p, v, account)
  }

  function LeaveMarket(p: Pool, v: Address, account: Address): Result<Pool> {
    if !IsMember(p, v, account) then Ok(p)
    else
      var info, assets := p.markets[v], AssetsOf(p, account);
      var i := IndexOf(assets, v);
      var _ :- Require(i < |assets|, ArithmeticPanic);
      Ok(p.(markets := p.markets[v := info.(accountMembership := info.accountMembership - {account})],
            accountAssets := p.accountAssets[account := SwapRemove(assets, i)]))
  }

  /** Allowed once the market's caps and collateral factor are zero. */
  function UnlistMarket(p: Pool, v: Address): Result<Pool> {
    var _ :- Require(IsListed(p, v), MarketNotListed);
    var _ :- Require(Get(p.borrowCaps, v) == 0 && Get(p.supplyCaps, v) == 0, UnlistNotAllowed);
    var _ :- Require(p.markets[v].collateralFactor == 0, UnlistNotAllowed);
    Ok(p.(markets := p.markets[v := p.markets[v].(isListed := false)]))
  }

  /** Lists a new market contract; a market already in `allMarkets` cannot come back. */
  function SupportMarket(p: Pool, v: Address, ledger: L.Market): Result<Pool> {
    var _ :- Require(!IsListed(p, v), MarketAlreadyListed);
    var _ :- Require(v !in p.allMarkets, MarketAlreadyListed);
    var members := if v in p.markets then p.markets[v].accountMembership else {};
    Ok(p.(markets := p.markets[v := MarketInfo(true, 0, 0, members)], allMarkets := p.allMarkets + [v],
          vTokens := p.vTokens[v := ledger]))
  }

  function SetCollateralFactor(p: Pool, v: Address, collateralFactor: nat, liquidationThreshold: nat): Result<Pool> {
    var _ :- Require(IsListed(p, v), MarketNotListed);
    var _ :- Require(collateralFactor <= MAX_COLLATERAL_FACTOR, InvalidCollateralFactor);
    var _ :- Require(liquidationThreshold <= EXP_SCALE, InvalidLiquidationThreshold);
    var _ :- Require(collateralFactor <= liquidationThreshold, InvalidLiquidationThreshold);
    var _ :- Require(collateralFactor == 0 || Get(p.prices, v) != 0, PriceError);
    Ok(p.(markets := p.markets[v := p.markets[v].(collateralFactor := collateralFactor,
                                                  liquidationThreshold := liquidationThreshold)]))
  }

  // ------------------------------------------------------------ liquidity

  datatype Weight = CollateralFactor | LiquidationThreshold

  function WeightOf(p: Pool, v: Address, w: Weight): nat {
    if v !in p.markets then 0
    else if w.CollateralFactor? then p.markets[v].collateralFactor else p.markets[v].liquidationThreshold
  }

  /** The account's figures in one market; reading them reverts with the market's own arithmetic. */
  function View(p: Pool, v: Address, account: Address, w: Weight): Result<Asset> {
    var _ :- Require(v in p.vTokens, SnapshotError);
    var ledger := p.vTokens[v];
    var borrowBalance :- L.BorrowBalanceStored(ledger, account);
    var exchangeRate :- L.ExchangeRateStored(ledger);
    Ok(Asset(Get(ledger.accountTokens, account), borrowBalance, exchangeRate, Get(p.prices, v), WeightOf(p, v, w)))
  }

  function EntriesFor(p: Pool, assets: seq<Address>, account: Address, w: Weight): (r: seq<Entry>)
    ensures |r| == |assets|
    ensures forall i :: 0 <= i < |r| ==> r[i] == Entry(assets[i], View(p, assets[i], account, w))
  {
    seq(|assets|, i requires 0 <= i < |assets| => Entry(assets[i], View(p, assets[i], account, w)))
  }

  function Entries(p: Pool, account: Address, w: Weight): seq<Entry> {
    EntriesFor(p, GetAssetsIn(p, account), account, w)
  }

  function CheckRedeemAllowed(p: Pool, v: Address, redeemer: Address, redeemTokens: nat): Result<()> {
    var _ :- Require(IsListed(p, v), MarketNotListed);
    if !IsMember(p, v, redeemer) then Ok(())
    else
      var s :- Hypothetical(Entries(p, redeemer, CollateralFactor), Change(v, redeemTokens, 0));
      var _ :- Require(s.shortfall == 0, InsufficientLiquidity);
      Ok(())
  }

  // ------------------------------------------------------- market actions

  function WithLedger(p: Pool, v: Address, ledger: L.Market): Pool {
    p.(vTokens := p.vTokens[v := ledger])
  }

  function Redeem(p: Pool, v: Address, redeemer: Address, redeemTokens: nat, redeemAmount: nat): Result<Pool> {
    var _ :- Require(v in p.vTokens, SnapshotError);
    var q :- L.RedeemQuote(p.vTokens[v], redeemTokens, redeemAmount);
    var _ :- CheckRedeemAllowed(p, v, redeemer, q.tokens);
    var ledger :- L.RedeemFresh(p.vTokens[v], redeemer, redeemTokens, redeemAmount);
    Ok(WithLedger(p, v, ledger))
  }

  function Transfer(p: Pool, v: Address, spender: Address, src: Address, dst: Address, tokens: nat): Result<Pool> {
    var _ :- Require(v in p.vTokens, SnapshotError);
    var _ :- CheckRedeemAllowed(p, v, src, tokens);
    var ledger :- L.TransferTokens(p.vTokens[v], spender, src, dst, tokens);
    Ok(WithLedger(p, v, ledger))
  }

  /** The supply at the stored rate together with the requested amount must be within the cap. */
  function CheckSupplyCap(p: Pool, v: Address, mintAmount: nat): Result<()>
    requires v in p.vTokens
  {
    var cap := Get(p.supplyCaps, v);
    if cap == MAX_UINT256 then Ok(())
    else
      var exchangeRate :- L.ExchangeRateStored(p.vTokens[v]);
      var nextTotalSupply :- MulScalarTruncateAddUInt(exchangeRate, p.vTokens[v].totalSupply, mintAmount);
      var _ :- Require(nextTotalSupply <= cap, SupplyCapExceeded);
      Ok(())
  }

  function Mint(p: Pool, v: Address, minter: Address, mintAmount: nat, lost: nat): Result<Pool> {
    var _ :- Require(IsListed(p, v) && v in p.vTokens, MarketNotListed);
    var _ :- CheckSupplyCap(p, v, mintAmount);
    var ledger :- L.MintFresh(p.vTokens[v], minter, mintAmount, lost);
    Ok(WithLedger(p, v, ledger))
  }

  function CheckBorrowCap(p: Pool, v: Address, borrowAmount: nat): Result<()>
    requires v in p.vTokens
  {
    var cap := Get(p.borrowCaps, v);
    if cap == MAX_UINT256 then Ok(())
    else
      var withAmount :- Add(p.vTokens[v].totalBorrows, borrowAmount);
      var nextTotalBorrows :- Add(withAmount, p.vTokens[v].badDebt);
      var _ :- Require(nextTotalBorrows <= cap, BorrowCapExceeded);
      Ok(())
  }

  /** Enters the borrower if needed, then lets the borrow through only if it leaves no shortfall. */
  function PreBorrowHook(p: Pool, v: Address, borrower: Address, borrowAmount: nat): Result<Pool> {
    var _ :- Require(IsListed(p, v), MarketNotListed);
    var _ :- Require(v in p.vTokens, SnapshotError);
    var entered :- AddToMarket(p, v, borrower);
    var _ :- Require(Get(p.prices, v) != 0, PriceError);
    var _ :- CheckBorrowCap(p, v, borrowAmount);
    var s :- Hypothetical(Entries(entered, borrower, CollateralFactor), Change(v, 0, borrowAmount));
    var _ :- Require(s.shortfall == 0, InsufficientLiquidity);
    Ok(entered)
  }

  function Borrow(p: Pool, v: Address, borrower: Address, borrowAmount: nat): Result<Pool> {
    var entered :- PreBorrowHook(p, v, borrower, borrowAmount);
    var _ :- Require(v in entered.vTokens, SnapshotError);
    var ledger :- L.BorrowFresh(entered.vTokens[v], borrower, borrowAmount);
    Ok(WithLedger(entered, v, ledger))
  }

  // --------------------------------------------------------- liquidations

  /** Tokens of collateral for a repayment, at current prices and rate. */
  function SeizeTokensFor(p: Pool, borrowed: Address, collateral: Address, exchangeRate: nat,
                          repaid: nat): Result<nat> {
    var _ :- Require(Get(p.prices, borrowed) != 0 && Get(p.prices, collateral) != 0, PriceError);
    var numerator :- MulScalarTruncate(p.liquidationIncentive, Get(p.prices, borrowed));
    var denominator :- MulScalarTruncate(Get(p.prices, collateral), exchangeRate);
    var ratio :- DivExp(numerator, denominator);
    MulScalarTruncate(ratio, repaid)
  }

  /**
   * `lost` is what the repayment loses on the way. The rest is what a liquidation brings up to date before it starts:
   * the slot, the rates at which its two markets accrue, and the prices the oracle then reports.
   */
  datatype LiquidationOrder = LiquidationOrder(
    collateral: Address,
    borrowed: Address,
    repayAmount: nat,
    lost: nat,
    now: nat,
    borrowedRate: nat,
    collateralRate: nat,
    prices: map<Address, nat>)

  function AccrueMarket(p: Pool, v: Address, now: nat, borrowRate: nat): Result<Pool> {
    var _ :- Require(v in p.vTokens, SnapshotError);
    var ledger :- L.AccrueInterest(p.vTokens[v], now, borrowRate);
    Ok(WithLedger(p, v, ledger))
  }

  /** Both markets accrue, in one slot only once if they are the same, and the prices are updated. */
  function Refresh(p: Pool, o: LiquidationOrder): Result<Pool> {
    var accrued :- AccrueMarket(p, o.borrowed, o.now, o.borrowedRate);
    var both :- AccrueMarket(accrued, o.collateral, o.now, o.collateralRate);
    Ok(both.(prices := both.prices + o.prices))
  }

  /** Takes from the borrower the collateral that matches a repayment. */
  function SeizeFor(p: Pool, liquidator: Address, borrower: Address, borrowed: Address, collateral: Address,
                    repaid: nat):
    Result<Pool>
  {
    var _ :- Require(collateral in p.vTokens, SnapshotError);
    var ledger := p.vTokens[collateral];
    var exchangeRate :- L.ExchangeRateStored(ledger);
    var seizeTokens :- SeizeTokensFor(p, borrowed, collateral, exchangeRate, repaid);
    var _ :- Require(seizeTokens <= Get(ledger.accountTokens, borrower), LiquidateSeizeTooMuch);
    var _ :- Require(IsMember(p, collateral, borrower), MarketNotCollateral);
    var seized :- L.SeizeTokens(ledger, liquidator, borrower, seizeTokens, p.liquidationIncentive);
    Ok(WithLedger(p, collateral, seized))
  }

  /** Repays part of a debt and seizes the matching collateral, in two markets or in one. */
  function RepayAndSeize(p: Pool, liquidator: Address, borrower: Address, o: LiquidationOrder): Result<Pool> {
    var _ :- Require(borrower != liquidator, LiquidateLiquidatorIsBorrower);
    var _ :- Require(o.repayAmount != 0, LiquidateCloseAmountIsZero);
    var _ :- Require(o.repayAmount != MAX_UINT256, LiquidateCloseAmountIsUintMax);
    var _ :- Require(o.borrowed in p.vTokens, SnapshotError);
    var before := p.vTokens[o.borrowed];
    var repaid :- L.RepayBorrowFresh(before, borrower, o.repayAmount, o.lost);
    var actualRepayAmount :- Sub(repaid.cash, before.cash);
    SeizeFor(WithLedger(p, o.borrowed, repaid), liquidator, borrower, o.borrowed, o.collateral, actualRepayAmount)
  }

  /** Only an account above the size limit and in shortfall. */
  function CheckShortfall(p: Pool, borrower: Address): Result<()> {
    var s :- Current(Entries(p, borrower, LiquidationThreshold));
    var _ :- Require(s.totals.totalCollateral > p.minLiquidatableCollateral, MinimalCollateralViolated);
    Require(s.shortfall != 0, InsufficientShortfall)
  }

  /** No more than the close factor's part of the debt. */
  function CheckCloseFactor(p: Pool, borrowBalance: nat, repayAmount: nat): Result<()> {
    var maxClose :- MulScalarTruncate(p.closeFactor, borrowBalance);
    Require(repayAmount <= maxClose, TooMuchRepay)
  }

  /** What the pool checks before a repayment: the size limit, the shortfall and the close factor, or only the debt. */
  function PreLiquidateHook(p: Pool, borrower: Address, o: LiquidationOrder, skipLiquidityCheck: bool): Result<()> {
    var _ :- Require(IsListed(p, o.borrowed) && IsListed(p, o.collateral), MarketNotListed);
    var _ :- Require(o.borrowed in p.vTokens, SnapshotError);
    var borrowBalance :- L.BorrowBalanceStored(p.vTokens[o.borrowed], borrower);
    if skipLiquidityCheck then Require(o.repayAmount <= borrowBalance, TooMuchRepay)
    else
      var _ :- CheckShortfall(p, borrower);
      CheckCloseFactor(p, borrowBalance, o.repayAmount)
  }

  function LiquidateBorrowFresh(p: Pool, liquidator: Address, borrower: Address, o: LiquidationOrder,
                                skipLiquidityCheck: bool): Result<Pool>
  {
    var _ :- PreLiquidateHook(p, borrower, o, skipLiquidityCheck);
    RepayAndSeize(p, liquidator, borrower, o)
  }

  /** The single-market liquidation, on the figures both markets have after accruing. */
  function LiquidateBorrow(p: Pool, liquidator: Address, borrower: Address, o: LiquidationOrder): Result<Pool> {
    var current :- Refresh(p, o);
    LiquidateBorrowFresh(current, liquidator, borrower, o, false)
  }

  // -------------------------------------------------- small-account exits

  /** The share of each debt that healing asks the liquidator to repay. */
  function HealPercentage(s: AccountLiquiditySnapshot, incentive: nat, limit: nat): Result<nat> {
    var _ :- Require(s.totals.totalCollateral <= limit, CollateralExceedsThreshold);
    var _ :- Require(s.shortfall != 0, InsufficientShortfall);
    var scaledBorrows :- MulScalarTruncate(s.totals.borrows, incentive);
    var percentage :- DivExp(s.totals.totalCollateral, scaledBorrows);
    var _ :- Require(percentage <= EXP_SCALE, CollateralExceedsThreshold);
    Ok(percentage)
  }

  /** Whether the collateral covers every debt with the incentive on top. */
  function LiquidateGuard(s: AccountLiquiditySnapshot, incentive: nat, limit: nat): Result<()> {
    var _ :- Require(s.totals.totalCollateral <= limit, CollateralExceedsThreshold);
    var collateralToSeize :- MulScalarTruncate(incentive, s.totals.borrows);
    var _ :- Require(collateralToSeize < s.totals.totalCollateral, InsufficientCollateral);
    var _ :- Require(s.shortfall != 0, InsufficientShortfall);
    Ok(())
  }

  /** Takes all of the account's tokens in one market, repays a share of its debt there and writes off the rest. */
  function HealMarket(p: Pool, v: Address, liquidator: Address, user: Address, percentage: nat,
                      lost: nat): Result<Pool> {
    var _ :- Require(v in p.vTokens, SnapshotError);
    var ledger := p.vTokens[v];
    var tokens := Get(ledger.accountTokens, user);
    var borrowBalance :- L.BorrowBalanceStored(ledger, user);
    var _ :- L.ExchangeRateStored(ledger);
    var repaymentAmount :- MulScalarTruncate(percentage, borrowBalance);
    var _ :- Require(tokens == 0 || IsMember(p, v, user), MarketNotCollateral);
    var seized :- if tokens == 0 then Ok(ledger)
                  else L.SeizeTokens(ledger, liquidator, user, tokens, p.liquidationIncentive);
    var healed :- if borrowBalance == 0 then Ok(seized) else L.HealBorrow(seized, user, repaymentAmount, lost);
    Ok(WithLedger(p, v, healed))
  }

  function HealMarkets(p: Pool, assets: seq<Address>, liquidator: Address, user: Address, percentage: nat,
                       lost: map<Address, nat>): Result<Pool>
  {
    if assets == [] then Ok(p)
    else
      var q :- HealMarkets(p, assets[..|assets| - 1], liquidator, user, percentage, lost);
      HealMarket(q, assets[|assets| - 1], liquidator, user, percentage, Get(lost, assets[|assets| - 1]))
  }

  function HealAccount(p: Pool, liquidator: Address, user: Address, lost: map<Address, nat>): Result<Pool> {
    var s :- Current(Entries(p, user, LiquidationThreshold));
    var percentage :- HealPercentage(s, p.liquidationIncentive, p.minLiquidatableCollateral);
    HealMarkets(p, GetAssetsIn(p, user), liquidator, user, percentage, lost)
  }

  /** One order of an account liquidation: no close factor, but never more than the debt, all on current figures. */
  function ExecuteOrder(p: Pool, liquidator: Address, borrower: Address, o: LiquidationOrder): Result<Pool> {
    var _ :- Require(IsListed(p, o.borrowed) && IsListed(p, o.collateral), MarketNotListed);
    var current :- Refresh(p, o);
    LiquidateBorrowFresh(current, liquidator, borrower, o, true)
  }

  function ExecuteOrders(p: Pool, liquidator: Address, borrower: Address, orders: seq<LiquidationOrder>): Result<Pool> {
    if orders == [] then Ok(p)
    else
      var q :- ExecuteOrders(p, liquidator, borrower, orders[..|orders| - 1]);
      ExecuteOrder(q, liquidator, borrower, orders[|orders| - 1])
  }

  predicate NoDebtIn(p: Pool, assets: seq<Address>, account: Address) {
    forall v :: v in assets ==>
      v in p.vTokens && L.BorrowBalanceStored(p.vTokens[v], account) == Ok(0) && L.ExchangeRateStored(p.vTokens[v]).Ok?
  }

  function LiquidateAccount(p: Pool, liquidator: Address, borrower: Address,
                            orders: seq<LiquidationOrder>): Result<Pool> {
    var s :- Current(Entries(p, borrower, LiquidationThreshold));
    var _ :- LiquidateGuard(s, p.liquidationIncentive, p.minLiquidatableCollateral);
    var q :- ExecuteOrders(p, liquidator, borrower, orders);
    var _ :- Require(NoDebtIn(q, GetAssetsIn(q, borrower), borrower), NonzeroBalanceAfterLiquidation);
    Ok(q)
  }
}
