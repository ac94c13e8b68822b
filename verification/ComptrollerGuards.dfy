/** What each entry point of a pool demands, read off the figures before the call. */
module ComptrollerGuards {
  import opened Evm
  import opened ExponentialNoError
  import opened Sums
  import L = VTokenLedger
  import opened VTokenMoves
  import opened VTokenRates
  import opened VTokenRuns
  import opened Liquidity
  import opened ComptrollerPool
  import opened ComptrollerSafety

  // -------------------------------------------------------- configuration

  /** The pool's three numbers: the close factor within its bounds, the incentive at least one, the limit any. */
  lemma NumbersAreSet(p: Pool, closeFactor: nat, incentive: nat, limit: nat)
    ensures SetCloseFactor(p, closeFactor).Ok? <==> MIN_CLOSE_FACTOR <= closeFactor <= MAX_CLOSE_FACTOR
    ensures SetCloseFactor(p, closeFactor).Ok? ==>
              SetCloseFactor(p, closeFactor).value == p.(closeFactor := closeFactor)
    ensures SetLiquidationIncentive(p, incentive).Ok? <==> EXP_SCALE <= incentive
    ensures SetLiquidationIncentive(p, incentive).Ok? ==>
              SetLiquidationIncentive(p, incentive).value == p.(liquidationIncentive := incentive)
    ensures AddPool(closeFactor, incentive, limit).Ok? ==>
              AddPool(closeFactor, incentive, limit).value ==
              NO_POOL.(closeFactor := closeFactor, liquidationIncentive := incentive,
                       minLiquidatableCollateral := limit)
  {
  }

  /** Factors are set for a listed market, in order and within their bounds, and a positive one only with a price. */
  lemma FactorsAreSet(p: Pool, v: Address, factor: nat, threshold: nat)
    ensures var r := SetCollateralFactor(p, v, factor, threshold);
            && (r.Ok? <==> && IsListed(p, v) && factor <= MAX_COLLATERAL_FACTOR && factor <= threshold <= EXP_SCALE
                           && (factor != 0 ==> Get(p.prices, v) != 0))
            && (r.Ok? ==> && v in r.value.markets && r.value == p.(markets := r.value.markets)
                          && WeightOf(r.value, v, CollateralFactor) == factor
                          && WeightOf(r.value, v, LiquidationThreshold) == threshold
                          && (forall u, w :: u != v ==> WeightOf(r.value, u, w) == WeightOf(p, u, w))
                          && (forall u :: IsListed(r.value, u) <==> IsListed(p, u))
                          && forall u, a :: IsMember(r.value, u, a) <==> IsMember(p, u, a))
  {
  }

  /** A market comes onto the list once, with no weight, and leaves it only without caps and collateral factor. */
  lemma ListingMoves(p: Pool, v: Address, ledger: L.Market)
    ensures var r := SupportMarket(p, v, ledger);
            && (r.Ok? <==> !IsListed(p, v) && v !in p.allMarkets)
            && (r.Ok? ==> && r.value == p.(markets := r.value.markets, allMarkets := p.allMarkets + [v],
                                           vTokens := p.vTokens[v := ledger])
                          && (forall u :: IsListed(r.value, u) <==> IsListed(p, u) || u == v)
                          && (forall w :: WeightOf(r.value, v, w) == 0)
                          && forall u, a :: IsMember(r.value, u, a) <==> IsMember(p, u, a))
    ensures var r := UnlistMarket(p, v);
            && (r.Ok? <==> && IsListed(p, v) && Get(p.borrowCaps, v) == 0 && Get(p.supplyCaps, v) == 0
                           && WeightOf(p, v, CollateralFactor) == 0)
            && (r.Ok? ==> && r.value == p.(markets := r.value.markets)
                          && (forall u :: IsListed(r.value, u) <==> IsListed(p, u) && u != v)
                          && (forall u, w :: WeightOf(r.value, u, w) == WeightOf(p, u, w))
                          && forall u, a :: IsMember(r.value, u, a) <==> IsMember(p, u, a))
  {
  }

  // ---------------------------------------------------------- what is read

  /** One market's figures: tokens, debt, stored rate, price, and the weight asked for, zero in an unknown market. */
  lemma ViewExactly(p: Pool, v: Address, account: Address, w: Weight)
    ensures var r := View(p, v, account, w);
            && (r.Ok? <==> && v in p.vTokens && L.BorrowBalanceStored(p.vTokens[v], account).Ok?
                           && L.ExchangeRateStored(p.vTokens[v]).Ok?)
            && (r.Ok? ==>
                  && r.value.tokens == Get(p.vTokens[v].accountTokens, account)
                  && L.BorrowBalanceStored(p.vTokens[v], account) == Ok(r.value.borrowBalance)
                  && L.ExchangeRateStored(p.vTokens[v]) == Ok(r.value.exchangeRate)
                  && r.value.price == Get(p.prices, v)
                  && r.value.weight == if v !in p.markets then 0
                                       else if w.CollateralFactor? then p.markets[v].collateralFactor
                                       else p.markets[v].liquidationThreshold)
  {
  }

  /** An account's entries are the figures of its listed markets, in the order of its list. */
  lemma EntriesExactly(p: Pool, account: Address, w: Weight)
    ensures var entries, assets := Entries(p, account, w), GetAssetsIn(p, account);
            && |entries| == |assets|
            && forall i :: 0 <= i < |assets| ==> entries[i] == Entry(assets[i], View(p, assets[i], account, w))
  {
  }

  // ------------------------------------------------------- market actions

  /** The account's figures can be read and, after the change, its weighted collateral covers its debts. */
  predicate StaysCovered(p: Pool, account: Address, c: Change) {
    var entries := Entries(p, account, CollateralFactor);
    var t := SumWorth(entries, c);
    AllFit(entries, c) && Words(t) && t.borrows + t.effects <= t.weightedCollateral
  }

  lemma WithdrawalExactly(p: Pool, v: Address, account: Address, tokens: nat)
    ensures CheckRedeemAllowed(p, v, account, tokens).Ok? <==>
            IsListed(p, v) && (IsMember(p, v, account) ==> StaysCovered(p, account, Change(v, tokens, 0)))
  {
    CoverExactly(p, account, Change(v, tokens, 0));
  }

  /** The tokens a request burns. */
  function Burning(tokensIn: nat, amountIn: nat, rate: nat): nat {
    if tokensIn != 0 then tokensIn else if rate == 0 then 0 else TokensNeeded(rate, amountIn)
  }

  /** A redemption needs a listed market that can pay it and, of a member, that it stays covered. */
  lemma RedeemExactly(p: Pool, v: Address, redeemer: Address, tokensIn: nat, amountIn: nat)
    requires v in p.vTokens && L.ExchangeRateStored(p.vTokens[v]).Ok? && (tokensIn == 0 || amountIn == 0)
    ensures var burning := Burning(tokensIn, amountIn, L.ExchangeRateStored(p.vTokens[v]).value);
            var paid := L.RedeemFresh(p.vTokens[v], redeemer, tokensIn, amountIn);
            && (Redeem(p, v, redeemer, tokensIn, amountIn).Ok? <==>
                  && IsListed(p, v) && paid.Ok?
                  && (IsMember(p, v, redeemer) ==> StaysCovered(p, redeemer, Change(v, burning, 0))))
            && (Redeem(p, v, redeemer, tokensIn, amountIn).Ok? ==>
                  Redeem(p, v, redeemer, tokensIn, amountIn).value == WithLedger(p, v, paid.value))
  {
    var rate := L.ExchangeRateStored(p.vTokens[v]).value;
    if L.RedeemFresh(p.vTokens[v], redeemer, tokensIn, amountIn).Ok? {
      QuoteBurns(p.vTokens[v], tokensIn, amountIn, rate);
      WithdrawalExactly(p, v, redeemer, Burning(tokensIn, amountIn, rate));
    }
  }

  lemma QuoteBurns(s: L.Market, tokensIn: nat, amountIn: nat, rate: nat)
    requires L.ExchangeRateStored(s) == Ok(rate) && L.RedeemQuote(s, tokensIn, amountIn).Ok?
    ensures L.RedeemQuote(s, tokensIn, amountIn).value.tokens == Burning(tokensIn, amountIn, rate)
  {
    if tokensIn == 0 {
      DivFloors(amountIn * EXP_SCALE, rate);
      FloorsUnique(DivExp(amountIn, rate).value, amountIn * EXP_SCALE / rate, amountIn * EXP_SCALE, rate);
    }
  }

  /** A transfer needs what a redemption of the same tokens needs of its sender. */
  lemma TransferExactly(p: Pool, v: Address, spender: Address, src: Address, dst: Address, tokens: nat)
    requires v in p.vTokens
    ensures var moved := L.TransferTokens(p.vTokens[v], spender, src, dst, tokens);
            && (Transfer(p, v, spender, src, dst, tokens).Ok? <==>
                  && IsListed(p, v) && moved.Ok?
                  && (IsMember(p, v, src) ==> StaysCovered(p, src, Change(v, tokens, 0))))
            && (Transfer(p, v, spender, src, dst, tokens).Ok? ==>
                  Transfer(p, v, spender, src, dst, tokens).value == WithLedger(p, v, moved.value))
  {
    WithdrawalExactly(p, v, src, tokens);
  }

  /** A mint needs a listed market whose supply, at the stored rate and with the amount, stays within the cap. */
  lemma MintExactly(p: Pool, v: Address, minter: Address, amount: nat, lost: nat)
    requires v in p.vTokens && L.ExchangeRateStored(p.vTokens[v]).Ok?
    ensures var rate, supply := L.ExchangeRateStored(p.vTokens[v]).value, p.vTokens[v].totalSupply;
            var cap, minted := Get(p.supplyCaps, v), L.MintFresh(p.vTokens[v], minter, amount, lost);
            && (Mint(p, v, minter, amount, lost).Ok? <==>
                  && IsListed(p, v) && minted.Ok?
                  && (cap != MAX_UINT256 ==>
                        && rate * supply <= MAX_UINT256 && Trunc(rate, supply) + amount <= MAX_UINT256
                        && Trunc(rate, supply) + amount <= cap))
            && (Mint(p, v, minter, amount, lost).Ok? ==>
                  Mint(p, v, minter, amount, lost).value == WithLedger(p, v, minted.value))
  {
    TruncAddIs(L.ExchangeRateStored(p.vTokens[v]).value, p.vTokens[v].totalSupply, amount);
  }

  predicate WithinBorrowCap(p: Pool, v: Address, amount: nat)
    requires v in p.vTokens
  {
    var cap, borrows := Get(p.borrowCaps, v), p.vTokens[v].totalBorrows + amount + p.vTokens[v].badDebt;
    cap == MAX_UINT256 || (borrows <= cap && borrows <= MAX_UINT256)
  }

  /** A borrow needs a listed market with a price, room below the cap, cash, and cover once the market is entered. */
  lemma BorrowExactly(p: Pool, v: Address, borrower: Address, amount: nat)
    requires v in p.vTokens
    ensures var entered, lent := AddToMarket(p, v, borrower), L.BorrowFresh(p.vTokens[v], borrower, amount);
            && (Borrow(p, v, borrower, amount).Ok? <==>
                  && IsListed(p, v) && entered.Ok? && Get(p.prices, v) != 0 && WithinBorrowCap(p, v, amount)
                  && StaysCovered(entered.value, borrower, Change(v, 0, amount)) && lent.Ok?)
            && (Borrow(p, v, borrower, amount).Ok? ==>
                  Borrow(p, v, borrower, amount).value == WithLedger(entered.value, v, lent.value))
  {
    if IsListed(p, v) {
      var entered := AddToMarket(p, v, borrower).value;
      EnterMovesNothing(p, v, borrower, entered);
      CoverExactly(entered, borrower, Change(v, 0, amount));
      CapExactly(p, v, amount);
    }
  }

  lemma CoverExactly(p: Pool, account: Address, c: Change)
    ensures var s := Hypothetical(Entries(p, account, CollateralFactor), c);
            s.Ok? && s.value.shortfall == 0 <==> StaysCovered(p, account, c)
  {
    AdmitsExactly(Entries(p, account, CollateralFactor), c);
  }

  lemma CapExactly(p: Pool, v: Address, amount: nat)
    requires v in p.vTokens
    ensures CheckBorrowCap(p, v, amount).Ok? <==> WithinBorrowCap(p, v, amount)
  {
  }

  /** An account leaves a listed market it owes nothing in, if without its tokens there it stays covered. */
  lemma ExitExactly(p: Pool, v: Address, account: Address)
    requires ListsAgree(p) && v in p.vTokens
    ensures ExitMarket(p, v, account).Ok? <==>
              && L.BorrowBalanceStored(p.vTokens[v], account) == Ok(0) && L.ExchangeRateStored(p.vTokens[v]).Ok?
              && IsListed(p, v)
              && (IsMember(p, v, account) ==>
                    StaysCovered(p, account, Change(v, Get(p.vTokens[v].accountTokens, account), 0)))
  {
    WithdrawalExactly(p, v, account, Get(p.vTokens[v].accountTokens, account));
    if IsMember(p, v, account) { assert v in AssetsOf(p, account); }
  }

  // --------------------------------------------------------- liquidations

  /** The seizure ratio: the incentive's worth of the borrowed token over the collateral token's, truncated thrice. */
  function SeizureRatio(p: Pool, borrowed: Address, collateral: Address, rate: nat): (ratio: nat)
    ensures 0 < Trunc(Get(p.prices, collateral), rate) ==>
              Floors(ratio, Trunc(p.liquidationIncentive, Get(p.prices, borrowed)) * EXP_SCALE,
                     Trunc(Get(p.prices, collateral), rate))
  {
    var numerator, denominator := Trunc(p.liquidationIncentive, Get(p.prices, borrowed)),
                                  Trunc(Get(p.prices, collateral), rate);
    if denominator == 0 then 0
    else
      DivFloors(numerator * EXP_SCALE, denominator);
      numerator * EXP_SCALE / denominator
  }

  /** Both prices are known and every product fits. */
  predicate CanMatch(p: Pool, borrowed: Address, collateral: Address, rate: nat, repaid: nat) {
    var priceBorrowed, priceCollateral := Get(p.prices, borrowed), Get(p.prices, collateral);
    && priceBorrowed != 0 && priceCollateral != 0
    && p.liquidationIncentive * priceBorrowed <= MAX_UINT256 && priceCollateral * rate <= MAX_UINT256
    && Trunc(p.liquidationIncentive, priceBorrowed) * EXP_SCALE <= MAX_UINT256 && 0 < Trunc(priceCollateral, rate)
    && SeizureRatio(p, borrowed, collateral, rate) * repaid <= MAX_UINT256
  }

  /** The tokens that match a repayment are the truncated product of ratio and repayment. */
  lemma MatchingTokensExactly(p: Pool, borrowed: Address, collateral: Address, rate: nat, repaid: nat)
    ensures SeizeTokensFor(p, borrowed, collateral, rate, repaid).Ok? <==>
            CanMatch(p, borrowed, collateral, rate, repaid)
    ensures CanMatch(p, borrowed, collateral, rate, repaid) ==>
              SeizeTokensFor(p, borrowed, collateral, rate, repaid) ==
              Ok(Trunc(SeizureRatio(p, borrowed, collateral, rate), repaid))
  {
    var priceBorrowed, priceCollateral := Get(p.prices, borrowed), Get(p.prices, collateral);
    if p.liquidationIncentive * priceBorrowed <= MAX_UINT256 && priceCollateral * rate <= MAX_UINT256 {
      TruncIs(p.liquidationIncentive, priceBorrowed);
      TruncIs(priceCollateral, rate);
      RatioIsComputed(p, borrowed, collateral, rate);
      var ratio := SeizureRatio(p, borrowed, collateral, rate);
      if ratio * repaid <= MAX_UINT256 { TruncIs(ratio, repaid); }
    }
  }

  lemma RatioIsComputed(p: Pool, borrowed: Address, collateral: Address, rate: nat)
    ensures var numerator, denominator := Trunc(p.liquidationIncentive, Get(p.prices, borrowed)),
                                          Trunc(Get(p.prices, collateral), rate);
            0 < denominator && numerator * EXP_SCALE <= MAX_UINT256 ==>
              DivExp(numerator, denominator) == Ok(SeizureRatio(p, borrowed, collateral, rate))
  {
    var numerator, denominator := Trunc(p.liquidationIncentive, Get(p.prices, borrowed)),
                                  Trunc(Get(p.prices, collateral), rate);
    if 0 < denominator && numerator * EXP_SCALE <= MAX_UINT256 {
      FloorsUnique(DivExp(numerator, denominator).value, SeizureRatio(p, borrowed, collateral, rate),
                   numerator * EXP_SCALE, denominator);
    }
  }

  /** An account that can be read, above the small-account limit, whose weighted collateral is below its debts. */
  predicate InShortfall(p: Pool, borrower: Address) {
    var entries := Entries(p, borrower, LiquidationThreshold);
    var t := SumWorth(entries, NO_CHANGE);
    && AllFit(entries, NO_CHANGE) && Words(t)
    && p.minLiquidatableCollateral < t.totalCollateral && t.weightedCollateral < t.borrows
  }

  predicate WithinCloseFactor(p: Pool, debt: nat, amount: nat) {
    p.closeFactor * debt <= MAX_UINT256 && amount <= Trunc(p.closeFactor, debt)
  }

  /**
   * Who may be liquidated, and how far. Forced: up to the whole debt. Otherwise only an account in shortfall, and only
   * up to the close factor's part of the debt.
   */
  predicate MayLiquidate(p: Pool, borrower: Address, o: LiquidationOrder, forced: bool) {
    && IsListed(p, o.borrowed) && IsListed(p, o.collateral)
    && o.borrowed in p.vTokens && L.BorrowBalanceStored(p.vTokens[o.borrowed], borrower).Ok?
    && var debt := L.BorrowBalanceStored(p.vTokens[o.borrowed], borrower).value;
       if forced then o.repayAmount <= debt else InShortfall(p, borrower) && WithinCloseFactor(p, debt, o.repayAmount)
  }

  lemma ShortfallExactly(p: Pool, borrower: Address)
    ensures CheckShortfall(p, borrower).Ok? <==> InShortfall(p, borrower)
  {
    CurrentExactly(Entries(p, borrower, LiquidationThreshold));
  }

  lemma CloseFactorExactly(p: Pool, debt: nat, amount: nat)
    ensures CheckCloseFactor(p, debt, amount).Ok? <==> WithinCloseFactor(p, debt, amount)
  {
    if p.closeFactor * debt <= MAX_UINT256 { TruncIs(p.closeFactor, debt); }
  }

  lemma HookExactly(p: Pool, borrower: Address, o: LiquidationOrder, forced: bool)
    ensures PreLiquidateHook(p, borrower, o, forced).Ok? <==> MayLiquidate(p, borrower, o, forced)
  {
    if o.borrowed in p.vTokens && L.BorrowBalanceStored(p.vTokens[o.borrowed], borrower).Ok? {
      ShortfallExactly(p, borrower);
      CloseFactorExactly(p, L.BorrowBalanceStored(p.vTokens[o.borrowed], borrower).value, o.repayAmount);
    }
  }

  /** On the refreshed figures a single-market liquidation is admitted, and then repays and seizes. */
  lemma LiquidateBorrowExactly(p: Pool, liquidator: Address, borrower: Address, o: LiquidationOrder)
    ensures var current, r := Refresh(p, o), LiquidateBorrow(p, liquidator, borrower, o);
            && (r.Ok? <==> current.Ok? && MayLiquidate(current.value, borrower, o, false) &&
                           RepayAndSeize(current.value, liquidator, borrower, o).Ok?)
            && (r.Ok? ==> r == RepayAndSeize(current.value, liquidator, borrower, o))
  {
    if Refresh(p, o).Ok? { HookExactly(Refresh(p, o).value, borrower, o, false); }
  }

  /** A market that accrued in this slot does not accrue again. */
  lemma AccruesOnceASlot(s: L.Market, now: nat, borrowRate: nat, t: L.Market, again: nat)
    requires L.AccrueInterest(s, now, borrowRate) == Ok(t)
    ensures L.AccrueInterest(t, now, again) == Ok(t)
  {
    if now != s.accrualSlot { AccrualReserves(s, now, borrowRate, t); }
  }

  /** Refreshing accrues both markets of an order, a single one once, and takes over the oracle's prices. */
  lemma RefreshExactly(p: Pool, o: LiquidationOrder)
    requires o.borrowed in p.vTokens && o.collateral in p.vTokens
    ensures var first := L.AccrueInterest(p.vTokens[o.borrowed], o.now, o.borrowedRate);
            var second := if o.collateral == o.borrowed then first
                          else L.AccrueInterest(p.vTokens[o.collateral], o.now, o.collateralRate);
            && (Refresh(p, o).Ok? <==> first.Ok? && second.Ok?)
            && (Refresh(p, o).Ok? ==>
                  Refresh(p, o).value ==
                  p.(vTokens := p.vTokens[o.borrowed := first.value][o.collateral := second.value],
                     prices := p.prices + o.prices))
  {
    var first := L.AccrueInterest(p.vTokens[o.borrowed], o.now, o.borrowedRate);
    if first.Ok? {
      AccruesOnceASlot(p.vTokens[o.borrowed], o.now, o.borrowedRate, first.value, o.collateralRate);
    }
  }

  lemma RefreshKeepsListing(p: Pool, o: LiquidationOrder)
    requires Refresh(p, o).Ok?
    ensures Refresh(p, o).value == p.(vTokens := Refresh(p, o).value.vTokens, prices := p.prices + o.prices)
  {
  }

  /** An order of a liquidation in full is a forced one. */
  lemma ExecuteOrderExactly(p: Pool, liquidator: Address, borrower: Address, o: LiquidationOrder)
    ensures var current, r := Refresh(p, o), ExecuteOrder(p, liquidator, borrower, o);
            && (r.Ok? <==> current.Ok? && MayLiquidate(current.value, borrower, o, true) &&
                           RepayAndSeize(current.value, liquidator, borrower, o).Ok?)
            && (r.Ok? ==> r == RepayAndSeize(current.value, liquidator, borrower, o))
  {
    if Refresh(p, o).Ok? {
      RefreshKeepsListing(p, o);
      HookExactly(Refresh(p, o).value, borrower, o, true);
    }
  }

  // -------------------------------------------------- small-account exits

  /** The debts with the incentive on top. */
  function WithIncentive(t: Totals, incentive: nat): nat {
    Trunc(t.borrows, incentive)
  }

  /** The share of each debt that the collateral pays for: all of it over the debts with the incentive. */
  function HealingShare(t: Totals, incentive: nat): (share: nat)
    ensures 0 < WithIncentive(t, incentive) ==>
              Floors(share, t.totalCollateral * EXP_SCALE, WithIncentive(t, incentive))
  {
    if WithIncentive(t, incentive) == 0 then 0
    else
      DivFloors(t.totalCollateral * EXP_SCALE, WithIncentive(t, incentive));
      t.totalCollateral * EXP_SCALE / WithIncentive(t, incentive)
  }

  /** A small account in shortfall whose collateral pays for at most the whole of its debts. */
  predicate MayHeal(t: Totals, incentive: nat, limit: nat) {
    && t.totalCollateral <= limit && t.weightedCollateral < t.borrows
    && t.borrows * incentive <= MAX_UINT256 && t.totalCollateral * EXP_SCALE <= MAX_UINT256
    && 0 < WithIncentive(t, incentive) && HealingShare(t, incentive) <= EXP_SCALE
  }

  /** A small account in shortfall whose collateral exceeds its debts with the incentive. */
  predicate MayLiquidateInFull(t: Totals, incentive: nat, limit: nat) {
    && t.totalCollateral <= limit && t.weightedCollateral < t.borrows
    && t.borrows * incentive <= MAX_UINT256 && WithIncentive(t, incentive) < t.totalCollateral
  }

  /** The two guards on an account's plain sums, and the share that healing then takes. */
  lemma SmallAccountsExactly(entries: seq<Entry>, incentive: nat, limit: nat)
    requires Current(entries).Ok?
    ensures var s, t := Current(entries).value, SumWorth(entries, NO_CHANGE);
            && (HealPercentage(s, incentive, limit).Ok? <==> MayHeal(t, incentive, limit))
            && (MayHeal(t, incentive, limit) ==>
                  HealPercentage(s, incentive, limit) == Ok(HealingShare(t, incentive)))
            && (LiquidateGuard(s, incentive, limit).Ok? <==> MayLiquidateInFull(t, incentive, limit))
  {
    CurrentExactly(entries);
    var t := SumWorth(entries, NO_CHANGE);
    assert incentive * t.borrows == t.borrows * incentive;
    if t.borrows * incentive <= MAX_UINT256 {
      TruncIs(t.borrows, incentive);
      TruncIs(incentive, t.borrows);
      var owed := WithIncentive(t, incentive);
      if 0 < owed && t.totalCollateral * EXP_SCALE <= MAX_UINT256 {
        FloorsUnique(DivExp(t.totalCollateral, owed).value, HealingShare(t, incentive), t.totalCollateral * EXP_SCALE,
                     owed);
      }
    }
  }
}
