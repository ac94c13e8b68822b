/** The two ways out for a small account in shortfall: healing, which may leave bad debt, and liquidation in full. */
module ComptrollerExits {
  import opened Evm
  import opened ExponentialNoError
  import opened Sums
  import L = VTokenLedger
  import opened VTokenMoves
  import opened VTokenRuns
  import opened VTokenRates
  import opened Liquidity
  import opened ComptrollerPool
  import opened ComptrollerSafety
  import opened ComptrollerGuards

  // --------------------------------------------------------------- guards

  /** The two guards as comparisons of the collateral with the debt plus incentive. */
  lemma GuardsMeasure(s: AccountLiquiditySnapshot, incentive: nat, limit: nat)
    requires EXP_SCALE <= incentive && 0 < s.shortfall <= s.totals.borrows && s.totals.totalCollateral <= limit
    requires incentive * s.totals.borrows <= MAX_UINT256 && s.totals.totalCollateral * EXP_SCALE <= MAX_UINT256
    ensures var owed := Trunc(incentive, s.totals.borrows);
            && 0 < owed
            && (LiquidateGuard(s, incentive, limit).Ok? <==> owed < s.totals.totalCollateral)
            && (HealPercentage(s, incentive, limit).Ok? <==>
                s.totals.totalCollateral * EXP_SCALE < owed * (EXP_SCALE + 1))
  {
    var owed := Trunc(incentive, s.totals.borrows);
    OwedCoversDebt(incentive, s.totals.borrows);
    AtMostWhole(DivExp(s.totals.totalCollateral, owed).value, s.totals.totalCollateral, owed);
  }

  lemma OwedCoversDebt(incentive: nat, borrows: nat)
    requires EXP_SCALE <= incentive && incentive * borrows <= MAX_UINT256
    ensures borrows <= Trunc(incentive, borrows)
    ensures MulScalarTruncate(incentive, borrows) == Ok(Trunc(incentive, borrows)) ==
            MulScalarTruncate(borrows, incentive)
  {
    assert borrows * incentive == incentive * borrows;
    TruncIs(incentive, borrows);
    TruncIs(borrows, incentive);
    Grow(EXP_SCALE, incentive, borrows);
    FloorsAtLeast(borrows, Trunc(incentive, borrows), incentive * borrows, EXP_SCALE);
  }

  /** A share rounds down to at most the whole exactly when it is less than one unit above it. */
  lemma AtMostWhole(percentage: nat, collateral: nat, owed: nat)
    requires 0 < owed && Floors(percentage, collateral * EXP_SCALE, owed)
    ensures percentage <= EXP_SCALE <==> collateral * EXP_SCALE < owed * (EXP_SCALE + 1)
  {
    if percentage <= EXP_SCALE { Grow(percentage + 1, EXP_SCALE + 1, owed); }
    else { Grow(EXP_SCALE + 1, percentage, owed); }
  }

  lemma WaysOutMeasure(s: AccountLiquiditySnapshot, incentive: nat, limit: nat)
    requires EXP_SCALE <= incentive && 0 < s.shortfall <= s.totals.borrows && s.totals.totalCollateral <= limit
    requires incentive * s.totals.borrows <= MAX_UINT256 && s.totals.totalCollateral * EXP_SCALE <= MAX_UINT256
    ensures HealPercentage(s, incentive, limit).Ok? || LiquidateGuard(s, incentive, limit).Ok?
    ensures var owed := Trunc(incentive, s.totals.borrows);
            var surplus := s.totals.totalCollateral - owed;
            HealPercentage(s, incentive, limit).Ok? && LiquidateGuard(s, incentive, limit).Ok? <==>
            0 < surplus && surplus * EXP_SCALE < owed
  {
    GuardsMeasure(s, incentive, limit);
  }

  /**
   * At least one way out is open to every small account in shortfall, and both are open exactly in the rounding window
   * just above the debt plus incentive.
   */
  lemma OneWayOutIsOpen(p: Pool, user: Address)
    requires EXP_SCALE <= p.liquidationIncentive && Current(Entries(p, user, LiquidationThreshold)).Ok?
    requires var s := Current(Entries(p, user, LiquidationThreshold)).value;
             && 0 < s.shortfall && s.totals.totalCollateral <= p.minLiquidatableCollateral
             && p.liquidationIncentive * s.totals.borrows <= MAX_UINT256
             && s.totals.totalCollateral * EXP_SCALE <= MAX_UINT256
    ensures var s := Current(Entries(p, user, LiquidationThreshold)).value;
            var heal := HealPercentage(s, p.liquidationIncentive, p.minLiquidatableCollateral);
            var liquidate := LiquidateGuard(s, p.liquidationIncentive, p.minLiquidatableCollateral);
            var owed := Trunc(p.liquidationIncentive, s.totals.borrows);
            var surplus := s.totals.totalCollateral - owed;
            && (heal.Ok? || liquidate.Ok?)
            && (heal.Ok? && liquidate.Ok? <==> 0 < surplus && surplus * EXP_SCALE < owed)
  {
    var entries := Entries(p, user, LiquidationThreshold);
    SnapshotIsSum(entries, NO_CHANGE);
    NoEffects(entries);
    WaysOutMeasure(Current(entries).value, p.liquidationIncentive, p.minLiquidatableCollateral);
  }

  // -------------------------------------------------------------- healing

  /** A market before and after an account was healed in it. */
  ghost predicate Healed(s: L.Market, t: L.Market, user: Address, percentage: nat, lost: nat) {
    && L.BorrowBalanceStored(s, user).Ok?
    && var balance := L.BorrowBalanceStored(s, user).value;
       var repaid := L.Delivered(Trunc(percentage, balance), lost);
       && repaid <= balance
       && Get(t.accountTokens, user) == 0 && L.BorrowBalanceStored(t, user) == Ok(0)
       && t.totalBorrows == s.totalBorrows - balance
       && t.badDebt == s.badDebt + balance - repaid
       && t.totalReserves == s.totalReserves
       && 0 <= Net(s) && Floors(s.cash + repaid - t.cash, Rate(s) * (s.totalSupply - t.totalSupply), EXP_SCALE)
  }

  /** No tokens were created, and the ones left are worth no less. */
  ghost predicate Kept(s: L.Market, t: L.Market) {
    Inv(t) && t.totalSupply <= s.totalSupply && (t.totalSupply == 0 || (Inv(s) && Rate(s) <= Rate(t)))
  }

  lemma SeizeKeeps(s: L.Market, liquidator: Address, borrower: Address, tokens: nat, incentive: nat, t: L.Market)
    requires Inv(s) && L.SeizeTokens(s, liquidator, borrower, tokens, incentive) == Ok(t)
    ensures Kept(s, t) && t.accountBorrows == s.accountBorrows && t.borrowIndex == s.borrowIndex
    ensures t == s.(cash := t.cash, totalSupply := t.totalSupply, accountTokens := t.accountTokens) && t.cash <= s.cash
    ensures Floors(s.cash - t.cash, Rate(s) * (s.totalSupply - t.totalSupply), EXP_SCALE)
    ensures borrower != liquidator && Get(t.accountTokens, borrower) == Get(s.accountTokens, borrower) - tokens
  {
    RateIsStored(s);
    RateFallsExactlyWhenEmptied(s, L.Seize(liquidator, borrower, tokens, incentive), t);
  }

  lemma HealBorrowKeeps(s: L.Market, borrower: Address, amount: nat, lost: nat, t: L.Market)
    requires Inv(s) && L.HealBorrow(s, borrower, amount, lost) == Ok(t)
    ensures Kept(s, t)
  {
    RateFallsExactlyWhenEmptied(s, L.Heal(borrower, amount, lost), t);
  }

  lemma RepayKeeps(s: L.Market, borrower: Address, amount: nat, lost: nat, t: L.Market)
    requires Inv(s) && L.RepayBorrowFresh(s, borrower, amount, lost) == Ok(t)
    ensures Kept(s, t) && t.badDebt == s.badDebt && s.cash <= t.cash
  {
    RateFallsExactlyWhenEmptied(s, L.RepayBorrow(borrower, amount, lost), t);
  }

  lemma ShareOfDebt(percentage: nat, balance: nat)
    requires percentage <= EXP_SCALE
    ensures Trunc(percentage, balance) <= balance
  {
    Grow(percentage, EXP_SCALE, balance);
    FloorsMonotone(Trunc(percentage, balance), percentage * balance, balance, EXP_SCALE * balance, EXP_SCALE);
  }

  /** The market after the account's tokens in it were seized, if there are any. */
  function AfterSeizure(p: Pool, v: Address, liquidator: Address, user: Address): Result<L.Market>
    requires v in p.vTokens
  {
    var tokens := Get(p.vTokens[v].accountTokens, user);
    if tokens == 0 then Ok(p.vTokens[v])
    else L.SeizeTokens(p.vTokens[v], liquidator, user, tokens, p.liquidationIncentive)
  }

  lemma AfterSeizureKeeps(p: Pool, v: Address, liquidator: Address, user: Address, t: L.Market)
    requires v in p.vTokens && Inv(p.vTokens[v]) && AfterSeizure(p, v, liquidator, user) == Ok(t)
    ensures var s := p.vTokens[v];
            && Kept(s, t) && t == s.(cash := t.cash, totalSupply := t.totalSupply, accountTokens := t.accountTokens)
            && Floors(s.cash - t.cash, Rate(s) * (s.totalSupply - t.totalSupply), EXP_SCALE)
            && Get(t.accountTokens, user) == 0
  {
    var tokens := Get(p.vTokens[v].accountTokens, user);
    if tokens != 0 { SeizeKeeps(p.vTokens[v], liquidator, user, tokens, p.liquidationIncentive, t); }
  }

  lemma HealMarketParts(p: Pool, v: Address, liquidator: Address, user: Address, percentage: nat, lost: nat, q: Pool)
    returns (seized: L.Market, balance: nat)
    requires v in p.vTokens && HealMarket(p, v, liquidator, user, percentage, lost) == Ok(q)
    ensures L.BorrowBalanceStored(p.vTokens[v], user) == Ok(balance) && percentage * balance <= MAX_UINT256
    ensures AfterSeizure(p, v, liquidator, user) == Ok(seized)
    ensures v in q.vTokens && q == WithLedger(p, v, q.vTokens[v])
    ensures if balance == 0 then q.vTokens[v] == seized
            else L.HealBorrow(seized, user, Trunc(percentage, balance), lost) == Ok(q.vTokens[v])
  {
    balance := L.BorrowBalanceStored(p.vTokens[v], user).value;
    TruncIs(percentage, balance);
    seized := AfterSeizure(p, v, liquidator, user).value;
  }

  lemma HealMarketSettles(p: Pool, v: Address, liquidator: Address, user: Address, percentage: nat, lost: nat, q: Pool)
    requires v in p.vTokens && Inv(p.vTokens[v]) && percentage <= EXP_SCALE
    requires HealMarket(p, v, liquidator, user, percentage, lost) == Ok(q)
    ensures v in q.vTokens && q == WithLedger(p, v, q.vTokens[v])
    ensures Healed(p.vTokens[v], q.vTokens[v], user, percentage, lost) && Kept(p.vTokens[v], q.vTokens[v])
  {
    var seized, balance := HealMarketParts(p, v, liquidator, user, percentage, lost, q);
    ShareOfDebt(percentage, balance);
    AfterSeizureKeeps(p, v, liquidator, user, seized);
    SameDebts(p.vTokens[v], seized, user);
    if balance != 0 {
      HealMoves(seized, user, Trunc(percentage, balance), lost, balance);
      HealBorrowKeeps(seized, user, Trunc(percentage, balance), lost, q.vTokens[v]);
    }
  }

  lemma SameDebts(s: L.Market, t: L.Market, account: Address)
    requires t.accountBorrows == s.accountBorrows && t.borrowIndex == s.borrowIndex
    ensures L.BorrowBalanceStored(t, account) == L.BorrowBalanceStored(s, account)
  {
  }

  /** Every market of the list is healed, and no other market is touched. */
  ghost predicate AllHealed(p: Pool, assets: seq<Address>, user: Address, percentage: nat, lost: map<Address, nat>,
                            q: Pool) {
    && q == p.(vTokens := q.vTokens) && q.vTokens.Keys == p.vTokens.Keys
    && (forall v :: v in p.vTokens && v !in assets ==> q.vTokens[v] == p.vTokens[v])
    && (forall v :: v in assets ==>
          v in p.vTokens && Healed(p.vTokens[v], q.vTokens[v], user, percentage, Get(lost, v)) &&
          Kept(p.vTokens[v], q.vTokens[v]))
  }

  lemma OneMoreHealed(p: Pool, init: seq<Address>, v: Address, user: Address, percentage: nat, lost: map<Address,
                      nat>, r: Pool, q: Pool)
    requires AllHealed(p, init, user, percentage, lost, r) && v !in init
    requires v in r.vTokens && v in q.vTokens && q == WithLedger(r, v, q.vTokens[v])
    requires Healed(r.vTokens[v], q.vTokens[v], user, percentage, Get(lost, v)) && Kept(r.vTokens[v], q.vTokens[v])
    ensures AllHealed(p, init + [v], user, percentage, lost, q)
  {
  }

  /** The loop heals the markets one by one, in whatever order they are listed. */
  lemma {:induction false} HealMarketsSettles(p: Pool, assets: seq<Address>, liquidator: Address, user: Address,
                                              percentage: nat, lost: map<Address, nat>, q: Pool)
    requires LedgersKept(p) && NoDuplicates(assets) && percentage <= EXP_SCALE
    requires HealMarkets(p, assets, liquidator, user, percentage, lost) == Ok(q)
    ensures AllHealed(p, assets, user, percentage, lost, q)
  {
    if assets != [] {
      var init, last := assets[..|assets| - 1], assets[|assets| - 1];
      assert assets == init + [last] && last !in init;
      var r := HealMarkets(p, init, liquidator, user, percentage, lost).value;
      HealMarketsSettles(p, init, liquidator, user, percentage, lost, r);
      HealMarketSettles(r, last, liquidator, user, percentage, Get(lost, last), q);
      OneMoreHealed(p, init, last, user, percentage, lost, r, q);
    }
  }

  lemma AfterSeizureExactly(p: Pool, v: Address, liquidator: Address, user: Address)
    requires v in p.vTokens && L.ExchangeRateStored(p.vTokens[v]).Ok?
    ensures var s := p.vTokens[v];
            var tokens, seized := Get(s.accountTokens, user), AfterSeizure(p, v, liquidator, user);
            && (seized.Ok? <==> tokens == 0 || CanSeize(s, liquidator, user, tokens, p.liquidationIncentive))
            && (seized.Ok? ==> seized.value.cash == s.cash - PaidForPart(s, tokens, p.liquidationIncentive))
  {
    SeizesExactly(p.vTokens[v], liquidator, user, Get(p.vTokens[v].accountTokens, user), p.liquidationIncentive);
  }

  /**
   * Healing one market goes through exactly when its figures can be read; the user's tokens there, if any, are those of
   * a member and can be seized by another account, the protocol's part paid in cash; and the debt has not drifted above
   * the recorded total, where no payment helps.
   */
  lemma HealMarketExactly(p: Pool, v: Address, liquidator: Address, user: Address, percentage: nat, lost: nat)
    requires v in p.vTokens && Inv(p.vTokens[v]) && percentage <= EXP_SCALE
    ensures HealMarket(p, v, liquidator, user, percentage, lost).Ok? <==>
            CanHeal(p, v, liquidator, user, percentage, lost)
  {
    if L.BorrowBalanceStored(p.vTokens[v], user).Ok? && L.ExchangeRateStored(p.vTokens[v]).Ok? {
      AfterSeizureExactly(p, v, liquidator, user);
      HealMarketOnSeized(p, v, liquidator, user, percentage, lost);
    }
  }

  predicate CanHeal(p: Pool, v: Address, liquidator: Address, user: Address, percentage: nat, lost: nat)
    requires v in p.vTokens
  {
    var s := p.vTokens[v];
    && L.BorrowBalanceStored(s, user).Ok? && L.ExchangeRateStored(s).Ok?
    && var tokens, balance := Get(s.accountTokens, user), L.BorrowBalanceStored(s, user).value;
       var repayment := Trunc(percentage, balance);
       var paid := L.Delivered(repayment, lost);
       && percentage * balance <= MAX_UINT256
       && (tokens != 0 ==> IsMember(p, v, user) && CanSeize(s, liquidator, user, tokens, p.liquidationIncentive))
       && balance <= s.totalBorrows
       && (repayment != 0 ==> s.cash - PaidForPart(s, tokens, p.liquidationIncentive) + paid <= MAX_UINT256)
       && (paid < balance ==> s.badDebt + (balance - paid) <= MAX_UINT256)
  }

  /** The same with the seizure's outcome. */
  lemma HealMarketOnSeized(p: Pool, v: Address, liquidator: Address, user: Address, percentage: nat, lost: nat)
    requires v in p.vTokens && Inv(p.vTokens[v]) && percentage <= EXP_SCALE
    requires L.BorrowBalanceStored(p.vTokens[v], user).Ok? && L.ExchangeRateStored(p.vTokens[v]).Ok?
    ensures var s, seized := p.vTokens[v], AfterSeizure(p, v, liquidator, user);
            var balance := L.BorrowBalanceStored(s, user).value;
            var repayment := Trunc(percentage, balance);
            var paid := L.Delivered(repayment, lost);
            HealMarket(p, v, liquidator, user, percentage, lost).Ok? <==>
              && percentage * balance <= MAX_UINT256
              && (Get(s.accountTokens, user) != 0 ==> IsMember(p, v, user))
              && seized.Ok?
              && balance <= s.totalBorrows
              && (repayment != 0 ==> seized.value.cash + paid <= MAX_UINT256)
              && (paid < balance ==> s.badDebt + (balance - paid) <= MAX_UINT256)
  {
    var s, seized := p.vTokens[v], AfterSeizure(p, v, liquidator, user);
    var balance := L.BorrowBalanceStored(s, user).value;
    if percentage * balance <= MAX_UINT256 {
      TruncIs(percentage, balance);
      ShareOfDebt(percentage, balance);
      if seized.Ok? {
        AfterSeizureKeeps(p, v, liquidator, user, seized.value);
        SameDebts(s, seized.value, user);
        HealMoves(seized.value, user, Trunc(percentage, balance), lost, balance);
      }
    }
  }

  /** Healing a market reads and changes that market only. */
  lemma HealMarketIsLocal(p: Pool, r: Pool, v: Address, liquidator: Address, user: Address, percentage: nat, lost: nat)
    requires r == p.(vTokens := r.vTokens) && v in p.vTokens && v in r.vTokens && r.vTokens[v] == p.vTokens[v]
    ensures HealMarket(r, v, liquidator, user, percentage, lost).Ok? <==>
            HealMarket(p, v, liquidator, user, percentage, lost).Ok?
  {
  }

  ghost predicate EachHeals(p: Pool, assets: seq<Address>, liquidator: Address, user: Address, percentage: nat,
                            lost: map<Address, nat>) {
    forall v :: v in assets ==> HealMarket(p, v, liquidator, user, percentage, Get(lost, v)).Ok?
  }

  lemma {:induction false} HealMarketsExactly(p: Pool, assets: seq<Address>, liquidator: Address, user: Address,
                                              percentage: nat, lost: map<Address, nat>)
    requires LedgersKept(p) && NoDuplicates(assets) && percentage <= EXP_SCALE
    requires forall v :: v in assets ==> v in p.vTokens
    ensures HealMarkets(p, assets, liquidator, user, percentage, lost).Ok? <==>
            EachHeals(p, assets, liquidator, user, percentage, lost)
  {
    if assets != [] {
      var init, last := assets[..|assets| - 1], assets[|assets| - 1];
      assert assets == init + [last] && last !in init;
      HealMarketsExactly(p, init, liquidator, user, percentage, lost);
      var before := HealMarkets(p, init, liquidator, user, percentage, lost);
      if before.Ok? {
        HealMarketsSettles(p, init, liquidator, user, percentage, lost, before.value);
        HealMarketIsLocal(p, before.value, last, liquidator, user, percentage, Get(lost, last));
      }
    }
  }

  /**
   * Healing an account goes through exactly when its figures can be read, its sums admit it, and each of its markets,
   * on its own, can be healed for the share of the debts that its collateral pays for.
   */
  lemma HealAccountExactly(p: Pool, liquidator: Address, user: Address, lost: map<Address, nat>)
    requires PoolInv(p)
    ensures var entries := Entries(p, user, LiquidationThreshold);
            var t := SumWorth(entries, NO_CHANGE);
            HealAccount(p, liquidator, user, lost).Ok? <==>
              && AllFit(entries, NO_CHANGE) && Words(t)
              && MayHeal(t, p.liquidationIncentive, p.minLiquidatableCollateral)
              && forall v :: v in GetAssetsIn(p, user) ==>
                   v in p.vTokens &&
                   CanHeal(p, v, liquidator, user, HealingShare(t, p.liquidationIncentive), Get(lost, v))
  {
    var entries := Entries(p, user, LiquidationThreshold);
    var t := SumWorth(entries, NO_CHANGE);
    CurrentExactly(entries);
    ListedNoDuplicates(p, AssetsOf(p, user));
    forall v | v in GetAssetsIn(p, user) ensures v in p.vTokens { assert v in p.markets; }
    if Current(entries).Ok? {
      SmallAccountsExactly(entries, p.liquidationIncentive, p.minLiquidatableCollateral);
      if MayHeal(t, p.liquidationIncentive, p.minLiquidatableCollateral) {
        var share := HealingShare(t, p.liquidationIncentive);
        HealMarketsExactly(p, GetAssetsIn(p, user), liquidator, user, share, lost);
        forall v | v in GetAssetsIn(p, user)
          ensures HealMarket(p, v, liquidator, user, share, Get(lost, v)).Ok? <==>
                  CanHeal(p, v, liquidator, user, share, Get(lost, v))
        {
          HealMarketExactly(p, v, liquidator, user, share, Get(lost, v));
        }
      }
    }
  }

  lemma WorthNothing(a: Asset, modified: bool)
    requires a.tokens == 0 == a.borrowBalance
    ensures Worth(a, modified, NO_CHANGE) == ZERO
  {
  }

  /** An account with neither tokens nor debt in any of its markets has nothing in its snapshot. */
  lemma {:induction false} NothingLeft(entries: seq<Entry>)
    requires forall e :: e in entries && e.asset.Ok? ==> e.asset.value.tokens == 0 == e.asset.value.borrowBalance
    ensures SumWorth(entries, NO_CHANGE) == ZERO
  {
    if entries != [] {
      var last := entries[|entries| - 1];
      NothingLeft(entries[..|entries| - 1]);
      if last.asset.Ok? { WorthNothing(last.asset.value, last.id == NO_CHANGE.id); }
    }
  }

  /** What an accepted healing starts from, on plain sums. */
  lemma HealingParts(p: Pool, liquidator: Address, user: Address, lost: map<Address, nat>, q: Pool)
    requires HealAccount(p, liquidator, user, lost) == Ok(q)
    ensures var t := SumWorth(Entries(p, user, LiquidationThreshold), NO_CHANGE);
            && MayHeal(t, p.liquidationIncentive, p.minLiquidatableCollateral)
            && HealMarkets(p, GetAssetsIn(p, user), liquidator, user, HealingShare(t, p.liquidationIncentive), lost) ==
               Ok(q)
  {
    SmallAccountsExactly(Entries(p, user, LiquidationThreshold), p.liquidationIncentive, p.minLiquidatableCollateral);
  }

  /**
   * Healing settles a small account in shortfall: in every listed market it was in, its tokens and its debt are gone,
   * the share of the debt that all its collateral pays for is repaid, bad debt rises by exactly the rest; all other
   * markets are untouched; the new snapshot is empty.
   */
  lemma HealingSettlesTheAccount(p: Pool, liquidator: Address, user: Address, lost: map<Address, nat>, q: Pool)
    requires PoolInv(p) && HealAccount(p, liquidator, user, lost) == Ok(q)
    ensures var t := SumWorth(Entries(p, user, LiquidationThreshold), NO_CHANGE);
            && MayHeal(t, p.liquidationIncentive, p.minLiquidatableCollateral)
            && AllHealed(p, GetAssetsIn(p, user), user, HealingShare(t, p.liquidationIncentive), lost, q)
    ensures forall w :: SumWorth(Entries(q, user, w), NO_CHANGE) == ZERO
  {
    var share := HealingShare(SumWorth(Entries(p, user, LiquidationThreshold), NO_CHANGE), p.liquidationIncentive);
    HealingParts(p, liquidator, user, lost, q);
    ListedNoDuplicates(p, AssetsOf(p, user));
    HealMarketsSettles(p, GetAssetsIn(p, user), liquidator, user, share, lost, q);
    forall w ensures SumWorth(Entries(q, user, w), NO_CHANGE) == ZERO { HealedIsEmpty(p, user, share, lost, q, w); }
  }

  /**
   * For some share, which is the account's collateral over its debts with the incentive rounded down: what arrives of
   * that share of the debt counts as repaid, and the rest of the debt becomes bad debt.
   */
  ghost predicate RepaidByCollateral(s: L.Market, t: L.Market, user: Address, account: Totals, incentive: nat,
                                     lost: nat) {
    && L.BorrowBalanceStored(s, user).Ok?
    && var debt := L.BorrowBalanceStored(s, user).value;
       exists share: nat ::
         && Floors(share, account.totalCollateral * EXP_SCALE, account.borrows * incentive / EXP_SCALE)
         && var repaid := L.Delivered(Trunc(share, debt), lost);
            && repaid <= debt && t.totalBorrows == s.totalBorrows - debt && t.badDebt == s.badDebt + (debt - repaid)
  }

  lemma HealedByCollateral(s: L.Market, t: L.Market, user: Address, account: Totals, incentive: nat, lost: nat)
    requires 0 < WithIncentive(account, incentive)
    requires Healed(s, t, user, HealingShare(account, incentive), lost)
    ensures RepaidByCollateral(s, t, user, account, incentive, lost)
  {
    assert Floors(HealingShare(account, incentive), account.totalCollateral * EXP_SCALE,
                  account.borrows * incentive / EXP_SCALE);
  }

  /** So in every market of a healed account the collateral pays for its share of the debt, and the rest is lost. */
  lemma HealingRepaysTheShare(p: Pool, liquidator: Address, user: Address, lost: map<Address, nat>, q: Pool)
    requires PoolInv(p) && HealAccount(p, liquidator, user, lost) == Ok(q)
    ensures var account := SumWorth(Entries(p, user, LiquidationThreshold), NO_CHANGE);
            forall v :: v in GetAssetsIn(p, user) ==>
              v in p.vTokens && v in q.vTokens &&
              RepaidByCollateral(p.vTokens[v], q.vTokens[v], user, account, p.liquidationIncentive, Get(lost, v))
  {
    HealingSettlesTheAccount(p, liquidator, user, lost, q);
    var account := SumWorth(Entries(p, user, LiquidationThreshold), NO_CHANGE);
    forall v | v in GetAssetsIn(p, user)
      ensures v in p.vTokens && v in q.vTokens
      ensures RepaidByCollateral(p.vTokens[v], q.vTokens[v], user, account, p.liquidationIncentive, Get(lost, v))
    {
      HealedByCollateral(p.vTokens[v], q.vTokens[v], user, account, p.liquidationIncentive, Get(lost, v));
    }
  }

  lemma HealedIsEmpty(p: Pool, user: Address, percentage: nat, lost: map<Address, nat>, q: Pool, w: Weight)
    requires AllHealed(p, GetAssetsIn(p, user), user, percentage, lost, q)
    ensures SumWorth(Entries(q, user, w), NO_CHANGE) == ZERO
  {
    ListedOfSame(p, q, AssetsOf(p, user));
    forall e | e in Entries(q, user, w) && e.asset.Ok?
      ensures e.asset.value.tokens == 0 == e.asset.value.borrowBalance
    {
      var i :| 0 <= i < |Entries(q, user, w)| && Entries(q, user, w)[i] == e;
      assert GetAssetsIn(p, user)[i] in GetAssetsIn(p, user);
    }
    NothingLeft(Entries(q, user, w));
  }

  // -------------------------------------------------- liquidation in full

  /** Orders accrue, move tokens and repay debt; they never create bad debt, tokens or membership. */
  ghost predicate Liquidated(p: Pool, q: Pool) {
    && q == p.(vTokens := q.vTokens, prices := q.prices) && q.vTokens.Keys == p.vTokens.Keys
    && forall v :: v in p.vTokens ==> q.vTokens[v].badDebt == p.vTokens[v].badDebt && Kept(p.vTokens[v], q.vTokens[v])
  }

  lemma RepayAndSeizeLiquidates(p: Pool, liquidator: Address, borrower: Address, o: LiquidationOrder, q: Pool)
    requires LedgersKept(p) && RepayAndSeize(p, liquidator, borrower, o) == Ok(q)
    ensures Liquidated(p, q) && LedgersKept(q)
  {
    var repaid, paid := RepayThenSeize(p, liquidator, borrower, o, q);
    RepaymentLiquidates(p, o.borrowed, borrower, o.repayAmount, o.lost, repaid);
    SeizeForLiquidates(WithLedger(p, o.borrowed, repaid), liquidator, borrower, o.borrowed, o.collateral, paid, q);
    LiquidatedTransitively(p, WithLedger(p, o.borrowed, repaid), q);
  }

  lemma RepayThenSeize(p: Pool, liquidator: Address, borrower: Address, o: LiquidationOrder, q: Pool)
    returns (repaid: L.Market, paid: nat)
    requires RepayAndSeize(p, liquidator, borrower, o) == Ok(q)
    ensures o.borrowed in p.vTokens
    ensures L.RepayBorrowFresh(p.vTokens[o.borrowed], borrower, o.repayAmount, o.lost) == Ok(repaid)
    ensures paid == repaid.cash - p.vTokens[o.borrowed].cash
    ensures SeizeFor(WithLedger(p, o.borrowed, repaid), liquidator, borrower, o.borrowed, o.collateral, paid) == Ok(q)
  {
    repaid := L.RepayBorrowFresh(p.vTokens[o.borrowed], borrower, o.repayAmount, o.lost).value;
    paid := repaid.cash - p.vTokens[o.borrowed].cash;
    assert Sub(repaid.cash, p.vTokens[o.borrowed].cash) == Ok(paid);
  }

  lemma RepaymentLiquidates(p: Pool, v: Address, borrower: Address, amount: nat, lost: nat, repaid: L.Market)
    requires LedgersKept(p) && v in p.vTokens && L.RepayBorrowFresh(p.vTokens[v], borrower, amount, lost) == Ok(repaid)
    ensures Liquidated(p, WithLedger(p, v, repaid)) && LedgersKept(WithLedger(p, v, repaid))
  {
    RepayKeeps(p.vTokens[v], borrower, amount, lost, repaid);
    KeptLedger(p, v, repaid);
  }

  lemma KeptLedger(p: Pool, v: Address, ledger: L.Market)
    requires LedgersKept(p) && v in p.vTokens && Kept(p.vTokens[v], ledger) && ledger.badDebt == p.vTokens[v].badDebt
    ensures Liquidated(p, WithLedger(p, v, ledger)) && LedgersKept(WithLedger(p, v, ledger))
  {
  }

  lemma LiquidatedTransitively(p: Pool, r: Pool, q: Pool)
    requires Liquidated(p, r) && Liquidated(r, q)
    ensures Liquidated(p, q)
  {
  }

  lemma SeizeForLiquidates(p: Pool, liquidator: Address, borrower: Address, borrowed: Address, collateral: Address,
                           amount: nat, q: Pool)
    requires LedgersKept(p) && SeizeFor(p, liquidator, borrower, borrowed, collateral, amount) == Ok(q)
    ensures Liquidated(p, q) && LedgersKept(q)
  {
    var before := p.vTokens[collateral];
    var tokens := SeizeTokensFor(p, borrowed, collateral, L.ExchangeRateStored(before).value, amount).value;
    SeizeKeeps(before, liquidator, borrower, tokens, p.liquidationIncentive, q.vTokens[collateral]);
  }

  /** What leaves the borrower goes to the liquidator or out of the supply; debts are not touched. */
  ghost predicate SeizureShared(s: L.Market, t: L.Market, liquidator: Address, borrower: Address) {
    && t == s.(cash := t.cash, totalSupply := t.totalSupply, accountTokens := t.accountTokens)
    && borrower != liquidator
    && Get(t.accountTokens, liquidator) - Get(s.accountTokens, liquidator) ==
       Get(s.accountTokens, borrower) - Get(t.accountTokens, borrower) - (s.totalSupply - t.totalSupply)
    && forall a :: a != liquidator && a != borrower ==> Get(t.accountTokens, a) == Get(s.accountTokens, a)
  }

  lemma SeizeForTakes(p: Pool, liquidator: Address, borrower: Address, borrowed: Address, collateral: Address,
                      amount: nat, q: Pool)
    requires SeizeFor(p, liquidator, borrower, borrowed, collateral, amount) == Ok(q)
    ensures collateral in p.vTokens && collateral in q.vTokens && IsMember(p, collateral, borrower)
    ensures L.ExchangeRateStored(p.vTokens[collateral]).Ok?
    ensures var tokens := SeizeTokensFor(p, borrowed, collateral, L.ExchangeRateStored(p.vTokens[collateral]).value,
                                         amount);
            && tokens.Ok?
            && Get(q.vTokens[collateral].accountTokens, borrower) ==
               Get(p.vTokens[collateral].accountTokens, borrower) - tokens.value
    ensures SeizureShared(p.vTokens[collateral], q.vTokens[collateral], liquidator, borrower)
    ensures forall v :: v in p.vTokens && v != collateral ==> v in q.vTokens && q.vTokens[v] == p.vTokens[v]
  {
  }

  lemma SeizeForKeepsDebts(p: Pool, liquidator: Address, borrower: Address, borrowed: Address, collateral: Address,
                           amount: nat, v: Address, q: Pool)
    requires v in p.vTokens && SeizeFor(p, liquidator, borrower, borrowed, collateral, amount) == Ok(q)
    ensures v in q.vTokens && q.vTokens[v].totalBorrows == p.vTokens[v].totalBorrows
    ensures q.vTokens[v].accountBorrows == p.vTokens[v].accountBorrows
    ensures q.vTokens[v].borrowIndex == p.vTokens[v].borrowIndex
  {
    SeizeForTakes(p, liquidator, borrower, borrowed, collateral, amount, q);
  }

  /** A liquidation takes what arrived off the borrower's debt and off the recorded total. */
  lemma LiquidationRepays(p: Pool, liquidator: Address, borrower: Address, o: LiquidationOrder, balance: nat, q: Pool)
    requires LedgersKept(p) && RepayAndSeize(p, liquidator, borrower, o) == Ok(q)
    requires o.borrowed in p.vTokens && L.BorrowBalanceStored(p.vTokens[o.borrowed], borrower) == Ok(balance)
    ensures o.borrowed in q.vTokens
    ensures var s, t := p.vTokens[o.borrowed], q.vTokens[o.borrowed];
            var paid := L.Delivered(if o.repayAmount < balance then o.repayAmount else balance, o.lost);
            && t.totalBorrows == s.totalBorrows - paid
            && (balance * s.borrowIndex <= MAX_UINT256 ==> L.BorrowBalanceStored(t, borrower) == Ok(balance - paid))
            && OtherDebtsKept(s, t, borrower)
  {
    var repaid, paid := RepayThenSeize(p, liquidator, borrower, o, q);
    RepayMoves(p.vTokens[o.borrowed], borrower, o.repayAmount, o.lost, balance);
    SeizeForKeepsDebts(WithLedger(p, o.borrowed, repaid), liquidator, borrower, o.borrowed, o.collateral, paid,
                       o.borrowed, q);
    SameDebts(repaid, q.vTokens[o.borrowed], borrower);
  }

  /**
   * And from the borrower it takes exactly the tokens that match what arrived at the rate before the call, even when
   * both happen in one market; the liquidator gets them, less what leaves the supply.
   */
  lemma LiquidationSeizes(p: Pool, liquidator: Address, borrower: Address, o: LiquidationOrder, balance: nat, q: Pool)
    requires LedgersKept(p) && RepayAndSeize(p, liquidator, borrower, o) == Ok(q)
    requires o.borrowed in p.vTokens && L.BorrowBalanceStored(p.vTokens[o.borrowed], borrower) == Ok(balance)
    ensures o.collateral in p.vTokens && L.ExchangeRateStored(p.vTokens[o.collateral]).Ok?
    ensures o.collateral in q.vTokens && IsMember(p, o.collateral, borrower)
    ensures var s, t := p.vTokens[o.collateral], q.vTokens[o.collateral];
            var paid := L.Delivered(if o.repayAmount < balance then o.repayAmount else balance, o.lost);
            var tokens := SeizeTokensFor(p, o.borrowed, o.collateral, L.ExchangeRateStored(s).value, paid);
            && tokens.Ok?
            && Get(t.accountTokens, borrower) == Get(s.accountTokens, borrower) - tokens.value
            && Get(t.accountTokens, liquidator) ==
               Get(s.accountTokens, liquidator) + tokens.value - (s.totalSupply - t.totalSupply)
            && forall a :: a != liquidator && a != borrower ==> Get(t.accountTokens, a) == Get(s.accountTokens, a)
  {
    var repaid, paid := RepayThenSeize(p, liquidator, borrower, o, q);
    RepayMoves(p.vTokens[o.borrowed], borrower, o.repayAmount, o.lost, balance);
    RepaymentKeepsRate(p.vTokens[o.borrowed], borrower, o.repayAmount, o.lost, repaid);
    SeizeForTakes(WithLedger(p, o.borrowed, repaid), liquidator, borrower, o.borrowed, o.collateral, paid, q);
    SameSeizure(p, WithLedger(p, o.borrowed, repaid), o.borrowed, o.collateral);
  }

  /** The borrower is a member of the collateral market, and tokens there match the repayment and can be seized. */
  predicate CanTake(p: Pool, c: L.Market, liquidator: Address, borrower: Address, borrowed: Address,
                    collateral: Address, repaid: nat) {
    && L.ExchangeRateStored(c).Ok? && IsMember(p, collateral, borrower)
    && var rate := L.ExchangeRateStored(c).value;
       && CanMatch(p, borrowed, collateral, rate, repaid)
       && CanSeize(c, liquidator, borrower, Trunc(SeizureRatio(p, borrowed, collateral, rate), repaid),
                   p.liquidationIncentive)
  }

  lemma SeizeForExactly(p: Pool, liquidator: Address, borrower: Address, borrowed: Address, collateral: Address,
                        repaid: nat)
    requires collateral in p.vTokens
    ensures SeizeFor(p, liquidator, borrower, borrowed, collateral, repaid).Ok? <==>
            CanTake(p, p.vTokens[collateral], liquidator, borrower, borrowed, collateral, repaid)
  {
    if L.ExchangeRateStored(p.vTokens[collateral]).Ok? {
      var rate := L.ExchangeRateStored(p.vTokens[collateral]).value;
      MatchingTokensExactly(p, borrowed, collateral, rate, repaid);
      SeizesExactly(p.vTokens[collateral], liquidator, borrower,
                    Trunc(SeizureRatio(p, borrowed, collateral, rate), repaid), p.liquidationIncentive);
    }
  }

  /**
   * Repaying and seizing goes through exactly for another account, for an amount that is neither nothing nor the
   * largest word, when the repayment fits and matching collateral can be taken.
   */
  lemma RepayAndSeizeExactly(p: Pool, liquidator: Address, borrower: Address, o: LiquidationOrder, balance: nat)
    requires LedgersKept(p) && o.borrowed in p.vTokens && o.collateral in p.vTokens
    requires L.BorrowBalanceStored(p.vTokens[o.borrowed], borrower) == Ok(balance)
    ensures var s, c := p.vTokens[o.borrowed], CollateralAfter(p, borrower, o);
            var paid := L.Delivered(if o.repayAmount < balance then o.repayAmount else balance, o.lost);
            RepayAndSeize(p, liquidator, borrower, o).Ok? <==>
              && borrower != liquidator && o.repayAmount != 0 && o.repayAmount != MAX_UINT256
              && paid <= s.totalBorrows && s.cash + paid <= MAX_UINT256
              && CanTake(p, c, liquidator, borrower, o.borrowed, o.collateral, paid)
  {
    RepayMoves(p.vTokens[o.borrowed], borrower, o.repayAmount, o.lost, balance);
    var r := L.RepayBorrowFresh(p.vTokens[o.borrowed], borrower, o.repayAmount, o.lost);
    RepayAndSeizeSteps(p, liquidator, borrower, o, r);
    if r.Ok? {
      var paid := L.Delivered(if o.repayAmount < balance then o.repayAmount else balance, o.lost);
      SeizeForAfterRepayment(p, r.value, liquidator, borrower, o.borrowed, o.collateral, paid);
    }
  }

  lemma SeizeForAfterRepayment(p: Pool, s: L.Market, liquidator: Address, borrower: Address, borrowed: Address,
                               collateral: Address, repaid: nat)
    requires borrowed in p.vTokens && collateral in p.vTokens
    ensures SeizeFor(WithLedger(p, borrowed, s), liquidator, borrower, borrowed, collateral, repaid).Ok? <==>
            CanTake(p, if collateral == borrowed then s else p.vTokens[collateral], liquidator, borrower, borrowed,
                    collateral, repaid)
  {
    var q := WithLedger(p, borrowed, s);
    SeizeForExactly(q, liquidator, borrower, borrowed, collateral, repaid);
    TakingIgnoresLedgers(p, q, q.vTokens[collateral], liquidator, borrower, borrowed, collateral, repaid);
  }

  lemma RepayAndSeizeSteps(p: Pool, liquidator: Address, borrower: Address, o: LiquidationOrder, r: Result<L.Market>)
    requires o.borrowed in p.vTokens
    requires r == L.RepayBorrowFresh(p.vTokens[o.borrowed], borrower, o.repayAmount, o.lost)
    requires r.Ok? ==> p.vTokens[o.borrowed].cash <= r.value.cash
    ensures RepayAndSeize(p, liquidator, borrower, o).Ok? <==>
              && borrower != liquidator && o.repayAmount != 0 && o.repayAmount != MAX_UINT256 && r.Ok?
              && SeizeFor(WithLedger(p, o.borrowed, r.value), liquidator, borrower, o.borrowed, o.collateral,
                          r.value.cash - p.vTokens[o.borrowed].cash).Ok?
  {
  }

  lemma TakingIgnoresLedgers(p: Pool, q: Pool, c: L.Market, liquidator: Address, borrower: Address, borrowed: Address,
                             collateral: Address, repaid: nat)
    requires q == p.(vTokens := q.vTokens)
    ensures CanTake(q, c, liquidator, borrower, borrowed, collateral, repaid) <==>
            CanTake(p, c, liquidator, borrower, borrowed, collateral, repaid)
  {
  }

  /** The collateral market once the repayment is in, which may have gone to the same market. */
  function CollateralAfter(p: Pool, borrower: Address, o: LiquidationOrder): L.Market
    requires o.borrowed in p.vTokens && o.collateral in p.vTokens
  {
    var repaid := L.RepayBorrowFresh(p.vTokens[o.borrowed], borrower, o.repayAmount, o.lost);
    if o.collateral == o.borrowed && repaid.Ok? then repaid.value else p.vTokens[o.collateral]
  }

  lemma RepaymentKeepsRate(s: L.Market, borrower: Address, amount: nat, lost: nat, t: L.Market)
    requires Inv(s) && L.RepayBorrowFresh(s, borrower, amount, lost) == Ok(t)
    ensures t.accountTokens == s.accountTokens && t.totalSupply == s.totalSupply
    ensures L.ExchangeRateStored(t).Ok? ==> L.ExchangeRateStored(s) == L.ExchangeRateStored(t)
  {
    if L.ExchangeRateStored(t).Ok? && s.totalSupply != 0 {
      assert Net(t) == Net(s);
      FloorsUnique(L.ExchangeRateStored(t).value, L.ExchangeRateStored(s).value, Net(s) * EXP_SCALE, s.totalSupply);
    }
  }

  lemma SameSeizure(p: Pool, r: Pool, borrowed: Address, collateral: Address)
    requires r.prices == p.prices && r.liquidationIncentive == p.liquidationIncentive
    ensures forall rate, amount ::
              SeizeTokensFor(r, borrowed, collateral, rate, amount) ==
                  SeizeTokensFor(p, borrowed, collateral, rate, amount)
  {
  }

  lemma AccrualLiquidates(p: Pool, v: Address, now: nat, borrowRate: nat, q: Pool)
    requires LedgersKept(p) && AccrueMarket(p, v, now, borrowRate) == Ok(q)
    ensures Liquidated(p, q) && LedgersKept(q)
  {
    AccrualKeeps(p.vTokens[v], now, borrowRate, q.vTokens[v]);
    KeptLedger(p, v, q.vTokens[v]);
  }

  lemma AccrualKeeps(s: L.Market, now: nat, borrowRate: nat, t: L.Market)
    requires Inv(s) && L.AccrueInterest(s, now, borrowRate) == Ok(t)
    ensures Kept(s, t) && t.badDebt == s.badDebt
  {
    RateFallsExactlyWhenEmptied(s, L.Accrue(now, borrowRate), t);
    AccrualGrowsNet(s, now, borrowRate, t);
  }

  lemma RefreshLiquidates(p: Pool, o: LiquidationOrder, q: Pool)
    requires LedgersKept(p) && Refresh(p, o) == Ok(q)
    ensures Liquidated(p, q) && LedgersKept(q)
  {
    var accrued := AccrueMarket(p, o.borrowed, o.now, o.borrowedRate).value;
    var both := AccrueMarket(accrued, o.collateral, o.now, o.collateralRate).value;
    AccrualLiquidates(p, o.borrowed, o.now, o.borrowedRate, accrued);
    AccrualLiquidates(accrued, o.collateral, o.now, o.collateralRate, both);
    LiquidatedTransitively(p, accrued, both);
  }

  lemma OrderLiquidates(p: Pool, liquidator: Address, borrower: Address, o: LiquidationOrder, q: Pool)
    requires LedgersKept(p) && ExecuteOrder(p, liquidator, borrower, o) == Ok(q)
    ensures Liquidated(p, q) && LedgersKept(q)
  {
    var current := Refresh(p, o).value;
    RefreshLiquidates(p, o, current);
    RepayAndSeizeLiquidates(current, liquidator, borrower, o, q);
    LiquidatedTransitively(p, current, q);
  }

  lemma {:induction false} OrdersLiquidate(p: Pool, liquidator: Address, borrower: Address,
                                           orders: seq<LiquidationOrder>, q: Pool)
    requires LedgersKept(p) && ExecuteOrders(p, liquidator, borrower, orders) == Ok(q)
    ensures Liquidated(p, q) && LedgersKept(q)
  {
    if orders != [] {
      var init := orders[..|orders| - 1];
      var r := ExecuteOrders(p, liquidator, borrower, init).value;
      OrdersLiquidate(p, liquidator, borrower, init, r);
      OrderLiquidates(r, liquidator, borrower, orders[|orders| - 1], q);
      LiquidatedTransitively(p, r, q);
    }
  }

  lemma OrdersOfOne(p: Pool, liquidator: Address, borrower: Address, o: LiquidationOrder)
    ensures ExecuteOrders(p, liquidator, borrower, [o]) == ExecuteOrder(p, liquidator, borrower, o)
  {
    assert [o][..0] == [];
  }

  /** Orders run one after the other, each on what the ones before left. */
  lemma {:induction false} OrdersOfParts(p: Pool, liquidator: Address, borrower: Address, a: seq<LiquidationOrder>,
                                         b: seq<LiquidationOrder>)
    ensures ExecuteOrders(p, liquidator, borrower, a + b) ==
            match ExecuteOrders(p, liquidator, borrower, a)
            case Ok(q) => ExecuteOrders(q, liquidator, borrower, b)
            case Revert(e) => Revert(e)
    decreases |b|
  {
    if b == [] {
      assert a + b == a;
    } else {
      assert (a + b)[..|a + b| - 1] == a + b[..|b| - 1] && (a + b)[|a + b| - 1] == b[|b| - 1];
      OrdersOfParts(p, liquidator, borrower, a, b[..|b| - 1]);
    }
  }

  /** A liquidation in full goes through exactly when the sums admit it, its orders do, and no debt is left. */
  lemma LiquidateAccountExactly(p: Pool, liquidator: Address, borrower: Address, orders: seq<LiquidationOrder>)
    ensures var entries := Entries(p, borrower, LiquidationThreshold);
            var t := SumWorth(entries, NO_CHANGE);
            var ordered, r := ExecuteOrders(p, liquidator, borrower, orders),
                              LiquidateAccount(p, liquidator, borrower, orders);
            && (r.Ok? <==>
                  && AllFit(entries, NO_CHANGE) && Words(t)
                  && MayLiquidateInFull(t, p.liquidationIncentive, p.minLiquidatableCollateral)
                  && ordered.Ok?
                  && forall v :: v in GetAssetsIn(ordered.value, borrower) ==>
                       && v in ordered.value.vTokens && L.ExchangeRateStored(ordered.value.vTokens[v]).Ok?
                       && L.BorrowBalanceStored(ordered.value.vTokens[v], borrower) == Ok(0))
            && (r.Ok? ==> r == ordered)
  {
    var entries := Entries(p, borrower, LiquidationThreshold);
    CurrentExactly(entries);
    if Current(entries).Ok? {
      SmallAccountsExactly(entries, p.liquidationIncentive, p.minLiquidatableCollateral);
    }
  }

  /**
   * Liquidation in full is for small accounts in shortfall whose collateral exceeds the debts with the incentive. It
   * leaves the account without debt in any of its markets, and every market without new bad debt.
   */
  lemma LiquidationSettlesWithoutBadDebt(p: Pool, liquidator: Address, borrower: Address,
                                         orders: seq<LiquidationOrder>, q: Pool)
    requires PoolInv(p) && LiquidateAccount(p, liquidator, borrower, orders) == Ok(q)
    ensures MayLiquidateInFull(SumWorth(Entries(p, borrower, LiquidationThreshold), NO_CHANGE), p.liquidationIncentive,
                               p.minLiquidatableCollateral)
    ensures Liquidated(p, q) && LedgersKept(q)
    ensures GetAssetsIn(q, borrower) == GetAssetsIn(p, borrower)
    ensures forall v :: v in GetAssetsIn(p, borrower) ==>
              v in q.vTokens && L.BorrowBalanceStored(q.vTokens[v], borrower) == Ok(0)
  {
    LiquidateAccountExactly(p, liquidator, borrower, orders);
    OrdersLiquidate(p, liquidator, borrower, orders, q);
    ListedOfSame(p, q, AssetsOf(p, borrower));
  }

  // ------------------------------------------------------- seized amounts

  /**
   * The seized tokens at the collateral's truncated price are worth no more than the repayment with the incentive on
   * top.
   */
  lemma SeizedWithinIncentive(p: Pool, borrowed: Address, collateral: Address, rate: nat, repaid: nat, tokens: nat)
    requires SeizeTokensFor(p, borrowed, collateral, rate, repaid) == Ok(tokens)
    ensures tokens * Trunc(Get(p.prices, collateral), rate) <=
            Trunc(p.liquidationIncentive, Get(p.prices, borrowed)) * repaid
  {
    TruncIs(p.liquidationIncentive, Get(p.prices, borrowed));
    TruncIs(Get(p.prices, collateral), rate);
    var numerator, denominator := Trunc(p.liquidationIncentive, Get(p.prices, borrowed)),
                                  Trunc(Get(p.prices, collateral), rate);
    SeizedWorth(numerator, denominator, DivExp(numerator, denominator).value, repaid, tokens);
  }

  lemma SeizedWorth(numerator: nat, denominator: nat, ratio: nat, repaid: nat, tokens: nat)
    requires Floors(ratio, numerator * EXP_SCALE, denominator) && Floors(tokens, ratio * repaid, EXP_SCALE)
    ensures tokens * denominator <= numerator * repaid
  {
    Grow(tokens * EXP_SCALE, ratio * repaid, denominator);
    Grow(ratio * denominator, numerator * EXP_SCALE, repaid);
    assert tokens * EXP_SCALE * denominator == tokens * denominator * EXP_SCALE;
    assert numerator * EXP_SCALE * repaid == numerator * repaid * EXP_SCALE;
    assert ratio * repaid * denominator == ratio * denominator * repaid;
  }

  /** At fixed prices and rate, seizing is one truncated product with a fixed ratio. */
  lemma FixedRatio(p: Pool, borrowed: Address, collateral: Address, rate: nat, repaid: nat) returns (ratio: nat)
    requires SeizeTokensFor(p, borrowed, collateral, rate, repaid).Ok?
    ensures forall amount :: SeizeTokensFor(p, borrowed, collateral, rate, amount) == MulScalarTruncate(ratio, amount)
  {
    var numerator := MulScalarTruncate(p.liquidationIncentive, Get(p.prices, borrowed)).value;
    ratio := DivExp(numerator, MulScalarTruncate(Get(p.prices, collateral), rate).value).value;
  }

  /** Repaying in parts never seizes more than repaying at once. */
  lemma {:induction false} SplittingSeizesNoMore(p: Pool, borrowed: Address, collateral: Address, rate: nat,
                                                 parts: seq<nat>)
    requires SeizeTokensFor(p, borrowed, collateral, rate, Total(parts)).Ok?
    ensures Seized(p, borrowed, collateral, rate, parts).Ok?
    ensures Seized(p, borrowed, collateral, rate, parts).value <=
            SeizeTokensFor(p, borrowed, collateral, rate, Total(parts)).value
  {
    if parts != [] {
      var init, last := parts[..|parts| - 1], parts[|parts| - 1];
      var ratio := FixedRatio(p, borrowed, collateral, rate, Total(parts));
      PartsOfProduct(ratio, Total(init), last);
      assert SeizeTokensFor(p, borrowed, collateral, rate, Total(init)).Ok?;
      assert SeizeTokensFor(p, borrowed, collateral, rate, last).Ok?;
      SplittingSeizesNoMore(p, borrowed, collateral, rate, init);
    }
  }

  lemma PartsOfProduct(ratio: nat, x: nat, y: nat)
    requires MulScalarTruncate(ratio, x + y).Ok?
    ensures MulScalarTruncate(ratio, x).Ok? && MulScalarTruncate(ratio, y).Ok?
    ensures MulScalarTruncate(ratio, x).value + MulScalarTruncate(ratio, y).value <=
            MulScalarTruncate(ratio, x + y).value
  {
    assert ratio * (x + y) == ratio * x + ratio * y;
    FloorsOfSum(MulScalarTruncate(ratio, x).value, ratio * x, MulScalarTruncate(ratio, y).value, ratio * y,
                MulScalarTruncate(ratio, x + y).value, EXP_SCALE);
  }

  function Total(parts: seq<nat>): nat {
    if parts == [] then 0 else Total(parts[..|parts| - 1]) + parts[|parts| - 1]
  }

  /** The tokens seized over a sequence of repayments. */
  function Seized(p: Pool, borrowed: Address, collateral: Address, rate: nat, parts: seq<nat>): Result<nat> {
    if parts == [] then Ok(0)
    else
      var before :- Seized(p, borrowed, collateral, rate, parts[..|parts| - 1]);
      var now :- SeizeTokensFor(p, borrowed, collateral, rate, parts[|parts| - 1]);
      Ok(before + now)
  }
}
