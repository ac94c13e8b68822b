/** What the comptroller's checks guarantee about the states they admit. */
module ComptrollerSafety {
  import opened Evm
  import opened ExponentialNoError
  import opened Sums
  import L = VTokenLedger
  import opened VTokenRuns
  import opened VTokenRates
  import opened Liquidity
  import opened ComptrollerPool

  // ----------------------------------------------------------- invariant

  /** The account's list holds a market, once, exactly when the market's membership flag is set. */
  ghost predicate ListsAgree(p: Pool) {
    forall a :: NoDuplicates(AssetsOf(p, a)) && forall v :: v in AssetsOf(p, a) <==> IsMember(p, v, a)
  }

  predicate FactorsOrdered(p: Pool) {
    forall v :: v in p.markets ==> p.markets[v].collateralFactor <= p.markets[v].liquidationThreshold <= EXP_SCALE
  }

  ghost predicate LedgersKept(p: Pool) {
    (forall v :: v in p.markets ==> v in p.vTokens) && forall v :: v in p.vTokens ==> Inv(p.vTokens[v])
  }

  ghost predicate PoolInv(p: Pool) {
    && ListsAgree(p)
    && FactorsOrdered(p)
    && LedgersKept(p)
    && NoDuplicates(p.allMarkets) && (forall v :: IsListed(p, v) ==> v in p.allMarkets)
    && EXP_SCALE <= p.liquidationIncentive
  }

  lemma AddedPoolInv(closeFactor: nat, incentive: nat, minLiquidatableCollateral: nat, p: Pool)
    requires AddPool(closeFactor, incentive, minLiquidatableCollateral) == Ok(p)
    ensures PoolInv(p)
  {
  }

  // ---------------------------------------------------------- asset lists

  lemma ListedOfOne(p: Pool, v: Address)
    ensures ListedOf(p, [v]) == if IsListed(p, v) then [v] else []
  {
    assert [v][..0] == [];
  }

  /** Filtering goes place by place, so order and repetitions stay. */
  lemma {:induction false} ListedOfParts(p: Pool, a: seq<Address>, b: seq<Address>)
    ensures ListedOf(p, a + b) == ListedOf(p, a) + ListedOf(p, b)
    decreases |b|
  {
    if b == [] {
      assert a + b == a;
    } else {
      var init, last := b[..|b| - 1], b[|b| - 1];
      assert (a + b)[..|a + b| - 1] == a + init && (a + b)[|a + b| - 1] == last;
      ListedOfParts(p, a, init);
      var kept := if IsListed(p, last) then [last] else [];
      assert ListedOf(p, a) + (ListedOf(p, init) + kept) == (ListedOf(p, a) + ListedOf(p, init)) + kept;
    }
  }

  lemma {:induction false} ListedNoDuplicates(p: Pool, assets: seq<Address>)
    requires NoDuplicates(assets)
    ensures NoDuplicates(ListedOf(p, assets))
  {
    if assets != [] { ListedNoDuplicates(p, assets[..|assets| - 1]); }
  }

  lemma {:induction false} ListedOfSame(p: Pool, q: Pool, assets: seq<Address>)
    requires forall v :: v in assets ==> IsListed(p, v) == IsListed(q, v)
    ensures ListedOf(p, assets) == ListedOf(q, assets)
  {
    if assets != [] { ListedOfSame(p, q, assets[..|assets| - 1]); }
  }

  /** Filling the gap with the last market keeps every other market, once. */
  lemma SwapRemoveKeepsOthers(assets: seq<Address>, i: nat)
    requires NoDuplicates(assets) && i < |assets|
    ensures NoDuplicates(SwapRemove(assets, i))
    ensures forall v :: v in SwapRemove(assets, i) <==> v in assets && v != assets[i]
    ensures |SwapRemove(assets, i)| == |assets| - 1
  {
    var r, n := SwapRemove(assets, i), |assets| - 1;
    forall v | v in assets && v != assets[i] ensures v in r {
      var k :| 0 <= k <= n && assets[k] == v;
      assert r[if k == n then i else k] == v;
    }
  }

  lemma EnterKeepsLists(p: Pool, v: Address, account: Address, q: Pool)
    requires ListsAgree(p) && AddToMarket(p, v, account) == Ok(q)
    ensures ListsAgree(q) && IsMember(q, v, account)
    ensures forall u, a :: IsMember(q, u, a) <==> IsMember(p, u, a) || (u == v && a == account)
    ensures forall u :: IsListed(q, u) == IsListed(p, u)
  {
    if !IsMember(p, v, account) {
      assert v !in AssetsOf(p, account) && AssetsOf(q, account) == AssetsOf(p, account) + [v];
      forall a ensures NoDuplicates(AssetsOf(q, a)) && forall u :: u in AssetsOf(q, a) <==> IsMember(q, u, a) {
        if a != account { assert AssetsOf(q, a) == AssetsOf(p, a); }
      }
    }
  }

  lemma LeaveKeepsLists(p: Pool, v: Address, account: Address, q: Pool)
    requires ListsAgree(p) && LeaveMarket(p, v, account) == Ok(q)
    ensures ListsAgree(q)
    ensures forall u, a :: IsMember(q, u, a) <==> IsMember(p, u, a) && !(u == v && a == account)
    ensures forall u :: IsListed(q, u) == IsListed(p, u)
    ensures q.vTokens == p.vTokens && q.prices == p.prices
  {
    if IsMember(p, v, account) {
      var i := IndexOf(AssetsOf(p, account), v);
      assert AssetsOf(q, account) == SwapRemove(AssetsOf(p, account), i);
      SwapRemoveKeepsOthers(AssetsOf(p, account), i);
      forall a ensures NoDuplicates(AssetsOf(q, a)) && forall u :: u in AssetsOf(q, a) <==> IsMember(q, u, a) {
        if a != account { assert AssetsOf(q, a) == AssetsOf(p, a); }
      }
    }
  }

  /** Leaving takes one market off one account's list and touches nothing else. */
  lemma ExitKeepsLists(p: Pool, v: Address, account: Address, q: Pool)
    requires ListsAgree(p) && ExitMarket(p, v, account) == Ok(q)
    ensures ListsAgree(q)
    ensures forall u, a :: IsMember(q, u, a) <==> IsMember(p, u, a) && !(u == v && a == account)
    ensures forall u :: IsListed(q, u) == IsListed(p, u)
    ensures q.vTokens == p.vTokens && q.prices == p.prices
  {
    assert LeaveMarket(p, v, account) == Ok(q);
    LeaveKeepsLists(p, v, account, q);
  }

  /** The check inside an exit never fails to find the market: the two records agree. */
  lemma ExitFindsTheMarket(p: Pool, v: Address, account: Address)
    requires ListsAgree(p) && IsMember(p, v, account)
    ensures IndexOf(AssetsOf(p, account), v) < |AssetsOf(p, account)|
  {
  }

  // ------------------------------------------------- what a check promises

  lemma EntriesDistinct(p: Pool, account: Address, w: Weight)
    requires ListsAgree(p)
    ensures DistinctIds(Entries(p, account, w))
  {
    ListedNoDuplicates(p, AssetsOf(p, account));
  }

  /** Changing one market's ledger changes one entry. */
  lemma EntriesAfterLedger(p: Pool, v: Address, ledger: L.Market, account: Address, w: Weight, i: nat)
    requires ListsAgree(p) && i < |GetAssetsIn(p, account)| && GetAssetsIn(p, account)[i] == v
    ensures Entries(WithLedger(p, v, ledger), account, w) ==
            Entries(p, account, w)[i := Entry(v, View(WithLedger(p, v, ledger), v, account, w))]
  {
    var q := WithLedger(p, v, ledger);
    ListedOfSame(p, q, AssetsOf(p, account));
    ListedNoDuplicates(p, AssetsOf(p, account));
    assert GetAssetsIn(q, account) == GetAssetsIn(p, account);
    var after := Entries(p, account, w)[i := Entry(v, View(q, v, account, w))];
    forall j | 0 <= j < |after| ensures Entries(q, account, w)[j] == after[j] {
      var u := GetAssetsIn(p, account)[j];
      if j != i { assert u != v && View(q, u, account, w) == View(p, u, account, w); }
    }
  }

  lemma HoldingWithinSupply(s: L.Market, account: Address)
    requires Inv(s)
    ensures Get(s.accountTokens, account) <= s.totalSupply
  {
    if account in s.accountTokens {
      SumAtLeast(s.accountTokens, account);
    } else {
      SumNonNegative(s.accountTokens);
    }
  }

  /** A ledger in which the account owes `borrowed` more and holds `redeemed` fewer tokens, at no lower a rate. */
  ghost predicate Drawn(s: L.Market, t: L.Market, account: Address, redeemed: nat, borrowed: nat) {
    && Inv(s) && Inv(t)
    && redeemed <= Get(s.accountTokens, account)
    && Get(t.accountTokens, account) == Get(s.accountTokens, account) - redeemed
    && (t.totalSupply == 0 || Rate(s) <= Rate(t))
    && (L.BorrowBalanceStored(s, account).Ok? && L.BorrowBalanceStored(t, account).Ok? ==>
          L.BorrowBalanceStored(t, account).value == L.BorrowBalanceStored(s, account).value + borrowed)
  }

  lemma BorrowDraws(s: L.Market, borrower: Address, amount: nat, t: L.Market)
    requires Inv(s) && L.BorrowFresh(s, borrower, amount) == Ok(t)
    ensures Drawn(s, t, borrower, 0, amount)
  {
    var owed := L.BorrowBalanceStored(s, borrower).value + amount;
    assert L.Snapshot(t, borrower) == L.BorrowSnapshot(owed, s.borrowIndex);
    if owed != 0 && L.BorrowBalanceStored(t, borrower).Ok? {
      FloorsUnique(L.BorrowBalanceStored(t, borrower).value, owed, owed * s.borrowIndex, s.borrowIndex);
    }
    RateFallsExactlyWhenEmptied(s, L.Borrow(borrower, amount), t);
  }

  lemma RedeemDraws(s: L.Market, redeemer: Address, tokensIn: nat, amountIn: nat, t: L.Market)
    requires Inv(s) && L.RedeemFresh(s, redeemer, tokensIn, amountIn) == Ok(t) && (tokensIn == 0 || amountIn == 0)
    ensures Drawn(s, t, redeemer, L.RedeemQuote(s, tokensIn, amountIn).value.tokens, 0)
  {
    var op := if tokensIn > 0 then L.Redeem(redeemer, tokensIn) else L.RedeemUnderlying(redeemer, amountIn);
    assert L.Step(s, op) == Ok(t);
    RateFallsExactlyWhenEmptied(s, op, t);
  }

  lemma TransferDraws(s: L.Market, spender: Address, src: Address, dst: Address, tokens: nat, t: L.Market)
    requires Inv(s) && L.TransferTokens(s, spender, src, dst, tokens) == Ok(t)
    ensures Drawn(s, t, src, tokens, 0)
  {
    RateFallsExactlyWhenEmptied(s, L.Transfer(spender, src, dst, tokens), t);
  }

  lemma DrawnChangesEntry(p: Pool, v: Address, account: Address, ledger: L.Market, w: Weight, c: Change)
    requires v in p.vTokens && Drawn(p.vTokens[v], ledger, account, c.redeemTokens, c.borrowAmount)
    requires View(p, v, account, w).Ok? && View(WithLedger(p, v, ledger), v, account, w).Ok?
    ensures Changed(View(p, v, account, w).value, View(WithLedger(p, v, ledger), v, account, w).value, c)
  {
    RateIsStored(p.vTokens[v]);
    RateIsStored(ledger);
    HoldingWithinSupply(ledger, account);
  }

  /** Readable snapshots before and after mean the changed market itself was readable before and after. */
  lemma CheckCoversLedger(p: Pool, v: Address, account: Address, c: Change, ledger: L.Market, i: nat)
    requires ListsAgree(p) && i < |GetAssetsIn(p, account)| && GetAssetsIn(p, account)[i] == v
    requires Hypothetical(Entries(p, account, CollateralFactor), c).Ok?
    requires Current(Entries(WithLedger(p, v, ledger), account, CollateralFactor)).Ok?
    ensures var es, q := Entries(p, account, CollateralFactor), WithLedger(p, v, ledger);
            && DistinctIds(es) && es[i] == Entry(v, View(p, v, account, CollateralFactor)) && es[i].asset.Ok?
            && View(q, v, account, CollateralFactor).Ok?
            && Entries(q, account, CollateralFactor) == es[i := Entry(v, View(q, v, account, CollateralFactor))]
  {
    var es, q := Entries(p, account, CollateralFactor), WithLedger(p, v, ledger);
    EntriesDistinct(p, account, CollateralFactor);
    EntriesAfterLedger(p, v, ledger, account, CollateralFactor, i);
    SnapshotIsSum(es, c);
    SnapshotIsSum(Entries(q, account, CollateralFactor), NO_CHANGE);
    assert es[i] in es;
    assert Entries(q, account, CollateralFactor)[i] in Entries(q, account, CollateralFactor);
  }

  /** The account was checked against a change, and nothing was left to spare. */
  predicate NothingToSpare(p: Pool, account: Address, c: Change) {
    var s := Hypothetical(Entries(p, account, CollateralFactor), c);
    s.Ok? && s.value.liquidity == 0
  }

  /**
   * Whatever the hypothetical check admits leaves the account, looked at again, with a shortfall of at most one unit.
   */
  lemma AdmittedDraw(p: Pool, v: Address, account: Address, ledger: L.Market, c: Change)
    requires ListsAgree(p) && v in p.vTokens && v in GetAssetsIn(p, account)
    requires c.id == v && (c.redeemTokens == 0 || c.borrowAmount == 0)
    requires Drawn(p.vTokens[v], ledger, account, c.redeemTokens, c.borrowAmount)
    requires Hypothetical(Entries(p, account, CollateralFactor), c).Ok?
    requires Hypothetical(Entries(p, account, CollateralFactor), c).value.shortfall == 0
    requires Current(Entries(WithLedger(p, v, ledger), account, CollateralFactor)).Ok?
    ensures View(p, v, account, CollateralFactor).Ok?
    ensures View(WithLedger(p, v, ledger), v, account, CollateralFactor).Ok?
    ensures var q := WithLedger(p, v, ledger);
            var a, b := View(p, v, account, CollateralFactor).value, View(q, v, account, CollateralFactor).value;
            var s := Current(Entries(q, account, CollateralFactor)).value;
            && s.shortfall <= 1
            && (s.shortfall == 1 <==> NothingToSpare(p, account, c) && RoundingCost(a, b, c) == 1)
  {
    var i :| 0 <= i < |GetAssetsIn(p, account)| && GetAssetsIn(p, account)[i] == v;
    CheckCoversLedger(p, v, account, c, ledger, i);
    DrawnChangesEntry(p, v, account, ledger, CollateralFactor, c);
    AdmittedChangeIsSafe(Entries(p, account, CollateralFactor), i,
                         Entry(v, View(WithLedger(p, v, ledger), v, account, CollateralFactor)), c);
  }

  lemma CheckGivesSnapshot(p: Pool, v: Address, account: Address, tokens: nat)
    requires ListsAgree(p) && IsMember(p, v, account) && CheckRedeemAllowed(p, v, account, tokens).Ok?
    ensures v in GetAssetsIn(p, account)
    ensures var s := Hypothetical(Entries(p, account, CollateralFactor), Change(v, tokens, 0));
            s.Ok? && s.value.shortfall == 0
  {
    assert v in AssetsOf(p, account);
  }

  lemma HookGivesSnapshot(p: Pool, v: Address, borrower: Address, amount: nat, entered: Pool)
    requires ListsAgree(p) && PreBorrowHook(p, v, borrower, amount) == Ok(entered)
    ensures ListsAgree(entered) && v in entered.vTokens && entered.vTokens == p.vTokens
    ensures v in GetAssetsIn(entered, borrower)
    ensures var s := Hypothetical(Entries(entered, borrower, CollateralFactor), Change(v, 0, amount));
            s.Ok? && s.value.shortfall == 0
  {
    EnterKeepsLists(p, v, borrower, entered);
    assert v in AssetsOf(entered, borrower);
  }

  /** After an accepted mint all tokens, at the rate of the call, are worth at most the cap. */
  lemma AcceptedMintWithinCap(p: Pool, v: Address, minter: Address, amount: nat, lost: nat, q: Pool)
    requires LedgersKept(p) && Mint(p, v, minter, amount, lost) == Ok(q)
    ensures v in p.vTokens && v in q.vTokens && IsListed(q, v)
    ensures Get(q.supplyCaps, v) == MAX_UINT256 ||
            Trunc(Rate(p.vTokens[v]), q.vTokens[v].totalSupply) <= Get(q.supplyCaps, v)
  {
    if Get(p.supplyCaps, v) != MAX_UINT256 {
      var s, t := p.vTokens[v], q.vTokens[v];
      RateIsStored(s);
      MintFacts(s, minter, amount, lost, t);
      TruncAddIs(Rate(s), s.totalSupply, amount);
      SupplyAfterMint(Rate(s), s.totalSupply, t.totalSupply - s.totalSupply, L.Delivered(amount, lost));
    }
  }

  lemma SupplyAfterMint(rate: nat, supply: nat, minted: nat, paid: nat)
    requires Floors(minted, paid * EXP_SCALE, rate)
    ensures Trunc(rate, supply + minted) <= Trunc(rate, supply) + paid
  {
    assert rate * (supply + minted) == rate * supply + minted * rate;
    var before, after := Trunc(rate, supply), Trunc(rate, supply + minted);
    if before + paid < after { Grow(before + paid + 1, after, EXP_SCALE); }
  }

  /** An accepted borrow enters the borrower and stays within the market's cap, bad debt included. */
  lemma AcceptedBorrowWithinCap(p: Pool, v: Address, borrower: Address, amount: nat, q: Pool)
    requires ListsAgree(p) && Borrow(p, v, borrower, amount) == Ok(q)
    ensures v in q.vTokens && IsListed(q, v) && IsMember(q, v, borrower) && Get(q.prices, v) != 0
    ensures Get(q.borrowCaps, v) == MAX_UINT256 ||
            q.vTokens[v].totalBorrows + q.vTokens[v].badDebt <= Get(q.borrowCaps, v)
  {
    var entered := PreBorrowHook(p, v, borrower, amount).value;
    EnterKeepsLists(p, v, borrower, entered);
    HookChecks(p, v, borrower, amount, entered);
    EnterMovesNothing(p, v, borrower, entered);
    CapChecked(p, v, amount);
    BorrowAddsToTotal(entered.vTokens[v], borrower, amount, q.vTokens[v]);
  }

  lemma HookChecks(p: Pool, v: Address, borrower: Address, amount: nat, entered: Pool)
    requires PreBorrowHook(p, v, borrower, amount) == Ok(entered)
    ensures AddToMarket(p, v, borrower) == Ok(entered) && v in p.vTokens && Get(p.prices, v) != 0
    ensures CheckBorrowCap(p, v, amount).Ok?
  {
  }

  lemma EnterMovesNothing(p: Pool, v: Address, account: Address, q: Pool)
    requires AddToMarket(p, v, account) == Ok(q)
    ensures IsListed(p, v) && q == p.(markets := q.markets, accountAssets := q.accountAssets)
  {
  }

  lemma CapChecked(p: Pool, v: Address, amount: nat)
    requires v in p.vTokens && CheckBorrowCap(p, v, amount).Ok?
    ensures Get(p.borrowCaps, v) == MAX_UINT256 ||
            p.vTokens[v].totalBorrows + amount + p.vTokens[v].badDebt <= Get(p.borrowCaps, v)
  {
  }

  lemma BorrowAddsToTotal(s: L.Market, borrower: Address, amount: nat, t: L.Market)
    requires L.BorrowFresh(s, borrower, amount) == Ok(t)
    ensures t.totalBorrows == s.totalBorrows + amount && t.badDebt == s.badDebt
  {
  }

  lemma SameRate(s: L.Market, t: L.Market)
    requires 0 <= Net(s) && Net(t) == Net(s) && t.totalSupply == s.totalSupply
    requires t.initialExchangeRate == s.initialExchangeRate
    requires L.ExchangeRateStored(s).Ok? && L.ExchangeRateStored(t).Ok?
    ensures L.ExchangeRateStored(t) == L.ExchangeRateStored(s)
  {
    RateIsStored(s);
    RateIsStored(t);
  }

  /** A borrow leaves the collateral and its terms as they were. */
  lemma BorrowCost(p: Pool, v: Address, borrower: Address, amount: nat, ledger: L.Market)
    requires v in p.vTokens && Inv(p.vTokens[v]) && L.BorrowFresh(p.vTokens[v], borrower, amount) == Ok(ledger)
    requires View(p, v, borrower, CollateralFactor).Ok?
    requires View(WithLedger(p, v, ledger), v, borrower, CollateralFactor).Ok?
    ensures var a := View(p, v, borrower, CollateralFactor).value;
            var b := View(WithLedger(p, v, ledger), v, borrower, CollateralFactor).value;
            a.borrowBalance == L.BorrowBalanceStored(p.vTokens[v], borrower).value &&
            RoundingCost(a, b, Change(v, 0, amount)) ==
            Trunc(a.price, a.borrowBalance + amount) - Trunc(a.price, a.borrowBalance) - Trunc(a.price, amount)
  {
    BorrowDraws(p.vTokens[v], borrower, amount, ledger);
    SameRate(p.vTokens[v], ledger);
  }

  /** A borrow is an entry followed by a step of one ledger. */
  lemma BorrowSplits(p: Pool, v: Address, borrower: Address, amount: nat, q: Pool)
    returns (entered: Pool, ledger: L.Market)
    requires Borrow(p, v, borrower, amount) == Ok(q)
    ensures PreBorrowHook(p, v, borrower, amount) == Ok(entered) && v in entered.vTokens
    ensures AddToMarket(p, v, borrower) == Ok(entered)
    ensures L.BorrowFresh(entered.vTokens[v], borrower, amount) == Ok(ledger) && q == WithLedger(entered, v, ledger)
  {
    entered := PreBorrowHook(p, v, borrower, amount).value;
    ledger := L.BorrowFresh(entered.vTokens[v], borrower, amount).value;
  }

  lemma AdmittedSplits(p: Pool, v: Address, borrower: Address, amount: nat, q: Pool)
    returns (entered: Pool, ledger: L.Market)
    requires ListsAgree(p) && Borrow(p, v, borrower, amount) == Ok(q)
    ensures AddToMarket(p, v, borrower) == Ok(entered) && v in p.vTokens && ListsAgree(entered)
    ensures entered.vTokens == p.vTokens && entered.prices == p.prices && v in GetAssetsIn(entered, borrower)
    ensures L.BorrowFresh(entered.vTokens[v], borrower, amount) == Ok(ledger) && q == WithLedger(entered, v, ledger)
    ensures var s := Hypothetical(Entries(entered, borrower, CollateralFactor), Change(v, 0, amount));
            s.Ok? && s.value.shortfall == 0
  {
    entered, ledger := BorrowSplits(p, v, borrower, amount, q);
    HookGivesSnapshot(p, v, borrower, amount, entered);
    EnterMovesNothing(p, v, borrower, entered);
  }

  /**
   * The shortfall a borrow leaves is at most one unit, which appears exactly when the check found nothing to spare and
   * the loan's worth, truncated apart from the debt's, loses it.
   */
  predicate AtMostAUnit(p: Pool, v: Address, borrower: Address, amount: nat, q: Pool) {
    && v in p.vTokens && L.BorrowBalanceStored(p.vTokens[v], borrower).Ok?
    && Current(Entries(q, borrower, CollateralFactor)).Ok?
    && var shortfall := Current(Entries(q, borrower, CollateralFactor)).value.shortfall;
       var debt, price := L.BorrowBalanceStored(p.vTokens[v], borrower).value, Get(p.prices, v);
       && shortfall <= 1
       && (shortfall == 1 <==>
           NothingToSpare(p, borrower, Change(v, 0, amount)) &&
           Trunc(price, debt + amount) == Trunc(price, debt) + Trunc(price, amount) + 1)
  }

  /** The debt that a borrow adds, after the account entered the market. */
  lemma AdmittedDebt(p: Pool, v: Address, borrower: Address, amount: nat, ledger: L.Market)
    requires ListsAgree(p) && v in p.vTokens && Inv(p.vTokens[v]) && v in GetAssetsIn(p, borrower)
    requires L.BorrowFresh(p.vTokens[v], borrower, amount) == Ok(ledger)
    requires Hypothetical(Entries(p, borrower, CollateralFactor), Change(v, 0, amount)).Ok?
    requires Hypothetical(Entries(p, borrower, CollateralFactor), Change(v, 0, amount)).value.shortfall == 0
    requires Current(Entries(WithLedger(p, v, ledger), borrower, CollateralFactor)).Ok?
    ensures AtMostAUnit(p, v, borrower, amount, WithLedger(p, v, ledger))
  {
    BorrowDraws(p.vTokens[v], borrower, amount, ledger);
    AdmittedDraw(p, v, borrower, ledger, Change(v, 0, amount));
    BorrowCost(p, v, borrower, amount, ledger);
  }

  /** An accepted borrow, once the borrower has entered the market. */
  lemma AdmittedBorrow(p: Pool, v: Address, borrower: Address, amount: nat, q: Pool)
    requires PoolInv(p) && Borrow(p, v, borrower, amount) == Ok(q)
    requires Current(Entries(q, borrower, CollateralFactor)).Ok?
    ensures AddToMarket(p, v, borrower).Ok?
    ensures AtMostAUnit(AddToMarket(p, v, borrower).value, v, borrower, amount, q)
  {
    var entered, ledger := AdmittedSplits(p, v, borrower, amount, q);
    AdmittedDebt(entered, v, borrower, amount, ledger);
  }

  /** The truncated worth of the parts, what stays at its own price, falls one unit short of the whole. */
  predicate LosesAUnit(before: Asset, after: Asset, tokens: nat) {
    Trunc(WeightedPrice(before), before.tokens) ==
    Trunc(WeightedPrice(after), after.tokens) + Trunc(WeightedPrice(before), tokens) + 1
  }

  /** The same for a redemption: the unit appears when the tokens redeemed and kept are worth one unit less apart. */
  lemma AdmittedRedeem(p: Pool, v: Address, redeemer: Address, tokensIn: nat, amountIn: nat, q: Pool)
    requires PoolInv(p) && IsMember(p, v, redeemer) && Redeem(p, v, redeemer, tokensIn, amountIn) == Ok(q)
    requires tokensIn == 0 || amountIn == 0
    requires Current(Entries(q, redeemer, CollateralFactor)).Ok?
    ensures v in p.vTokens && L.RedeemQuote(p.vTokens[v], tokensIn, amountIn).Ok?
    ensures View(p, v, redeemer, CollateralFactor).Ok? && View(q, v, redeemer, CollateralFactor).Ok?
    ensures var shortfall := Current(Entries(q, redeemer, CollateralFactor)).value.shortfall;
            var tokens := L.RedeemQuote(p.vTokens[v], tokensIn, amountIn).value.tokens;
            var a, b := View(p, v, redeemer, CollateralFactor).value, View(q, v, redeemer, CollateralFactor).value;
            && b.tokens == a.tokens - tokens
            && shortfall <= 1
            && (shortfall == 1 <==> NothingToSpare(p, redeemer, Change(v, tokens, 0)) && LosesAUnit(a, b, tokens))
  {
    var tokens := L.RedeemQuote(p.vTokens[v], tokensIn, amountIn).value.tokens;
    CheckGivesSnapshot(p, v, redeemer, tokens);
    var ledger := L.RedeemFresh(p.vTokens[v], redeemer, tokensIn, amountIn).value;
    RedeemDraws(p.vTokens[v], redeemer, tokensIn, amountIn, ledger);
    AdmittedDraw(p, v, redeemer, ledger, Change(v, tokens, 0));
    DrawnChangesEntry(p, v, redeemer, ledger, CollateralFactor, Change(v, tokens, 0));
    NoLoanNoCost(View(p, v, redeemer, CollateralFactor).value, View(q, v, redeemer, CollateralFactor).value, v, tokens);
  }

  lemma NoLoanNoCost(a: Asset, b: Asset, v: Address, tokens: nat)
    requires Changed(a, b, Change(v, tokens, 0))
    ensures RoundingCost(a, b, Change(v, tokens, 0)) == 1 <==> LosesAUnit(a, b, tokens)
  {
    TruncOfSum(a.price, a.borrowBalance, 0);
    assert Trunc(a.price, 0) == 0;
  }

  /** And for a transfer, which leaves the rate alone. */
  lemma AdmittedTransfer(p: Pool, v: Address, spender: Address, src: Address, dst: Address, tokens: nat, q: Pool)
    requires PoolInv(p) && IsMember(p, v, src) && Transfer(p, v, spender, src, dst, tokens) == Ok(q)
    requires Current(Entries(q, src, CollateralFactor)).Ok?
    ensures View(p, v, src, CollateralFactor).Ok?
    ensures var shortfall := Current(Entries(q, src, CollateralFactor)).value.shortfall;
            var a := View(p, v, src, CollateralFactor).value;
            && tokens <= a.tokens
            && shortfall <= 1
            && (shortfall == 1 <==>
                NothingToSpare(p, src, Change(v, tokens, 0)) &&
                LosesAUnit(a, a.(tokens := a.tokens - tokens), tokens))
  {
    CheckGivesSnapshot(p, v, src, tokens);
    var ledger := L.TransferTokens(p.vTokens[v], spender, src, dst, tokens).value;
    TransferDraws(p.vTokens[v], spender, src, dst, tokens, ledger);
    AdmittedDraw(p, v, src, ledger, Change(v, tokens, 0));
    TransferCost(p, v, spender, src, dst, tokens, ledger);
  }

  lemma TransferCost(p: Pool, v: Address, spender: Address, src: Address, dst: Address, tokens: nat, ledger: L.Market)
    requires v in p.vTokens && Inv(p.vTokens[v])
    requires L.TransferTokens(p.vTokens[v], spender, src, dst, tokens) == Ok(ledger)
    requires View(p, v, src, CollateralFactor).Ok?
    requires View(WithLedger(p, v, ledger), v, src, CollateralFactor).Ok?
    ensures var a := View(p, v, src, CollateralFactor).value;
            var b := View(WithLedger(p, v, ledger), v, src, CollateralFactor).value;
            && tokens <= a.tokens && b == a.(tokens := a.tokens - tokens)
            && (RoundingCost(a, b, Change(v, tokens, 0)) == 1 <==> LosesAUnit(a, b, tokens))
  {
    TransferDraws(p.vTokens[v], spender, src, dst, tokens, ledger);
    SameRate(p.vTokens[v], ledger);
    DrawnChangesEntry(p, v, src, ledger, CollateralFactor, Change(v, tokens, 0));
    NoLoanNoCost(View(p, v, src, CollateralFactor).value,
                 View(WithLedger(p, v, ledger), v, src, CollateralFactor).value, v, tokens);
  }

  // -------------------------------------------------------- after an exit

  lemma {:induction false} OnceEach(entries: seq<Entry>, e: Entry)
    requires DistinctIds(entries)
    ensures multiset(entries)[e] == if e in entries then 1 else 0
  {
    if entries != [] {
      var init, last := entries[..|entries| - 1], entries[|entries| - 1];
      OnceEach(init, e);
      assert entries == init + [last];
    }
  }

  lemma SameEntries(a: seq<Entry>, b: seq<Entry>)
    requires DistinctIds(a) && DistinctIds(b) && forall e :: e in a <==> e in b
    ensures multiset(a) == multiset(b)
  {
    forall e ensures multiset(a)[e] == multiset(b)[e] {
      OnceEach(a, e);
      OnceEach(b, e);
    }
  }

  /** Leaving a market takes its entry off the account's entries and changes no other, whatever the order. */
  lemma ExitTakesOneEntry(p: Pool, v: Address, account: Address, q: Pool, w: Weight, i: nat)
    requires ListsAgree(p) && LeaveMarket(p, v, account) == Ok(q)
    requires i < |GetAssetsIn(p, account)| && GetAssetsIn(p, account)[i] == v
    ensures var es := Entries(p, account, w);
            multiset(Entries(q, account, w)) == multiset(es[..i] + es[i + 1..])
  {
    var es, fs := Entries(p, account, w), Entries(q, account, w);
    var rest := es[..i] + es[i + 1..];
    assert DistinctIds(es) && DistinctIds(rest) by { EntriesDistinct(p, account, w); }
    assert DistinctIds(fs) by {
      LeaveKeepsLists(p, v, account, q);
      EntriesDistinct(q, account, w);
    }
    forall e ensures e in fs <==> e in rest {
      LeaveTakesEntry(p, v, account, q, w, e);
      WithoutOne(es, i, e);
    }
    SameEntries(fs, rest);
  }

  lemma LeaveTakesEntry(p: Pool, v: Address, account: Address, q: Pool, w: Weight, e: Entry)
    requires ListsAgree(p) && LeaveMarket(p, v, account) == Ok(q) && IsMember(p, v, account)
    ensures e in Entries(q, account, w) <==> e in Entries(p, account, w) && e.id != v
  {
    LeaveKeepsViews(p, v, account, q, w);
    EntryMembers(p, account, w, e);
    EntryMembers(q, account, w, e);
  }

  lemma LeaveKeepsViews(p: Pool, v: Address, account: Address, q: Pool, w: Weight)
    requires ListsAgree(p) && LeaveMarket(p, v, account) == Ok(q) && IsMember(p, v, account)
    ensures forall u :: u in GetAssetsIn(q, account) <==> u in GetAssetsIn(p, account) && u != v
    ensures forall u :: View(q, u, account, w) == View(p, u, account, w)
  {
    LeaveKeepsLists(p, v, account, q);
    forall u ensures u in AssetsOf(q, account) <==> u in AssetsOf(p, account) && u != v {}
    forall u ensures WeightOf(q, u, w) == WeightOf(p, u, w) {}
  }

  lemma EntryMembers(p: Pool, account: Address, w: Weight, e: Entry)
    ensures e in Entries(p, account, w) <==>
            e.id in GetAssetsIn(p, account) && e == Entry(e.id, View(p, e.id, account, w))
  {
    if e.id in GetAssetsIn(p, account) && e == Entry(e.id, View(p, e.id, account, w)) {
      var j :| 0 <= j < |GetAssetsIn(p, account)| && GetAssetsIn(p, account)[j] == e.id;
      assert Entries(p, account, w)[j] == e;
    }
  }

  lemma WithoutOne(es: seq<Entry>, i: nat, e: Entry)
    requires DistinctIds(es) && i < |es|
    ensures e in es[..i] + es[i + 1..] <==> e in es && e.id != es[i].id
  {
    if e in es && e.id != es[i].id {
      var j :| 0 <= j < |es| && es[j] == e;
      assert (es[..i] + es[i + 1..])[if j < i then j else j - 1] == e;
    }
  }

  /** An accepted exit leaves the member exactly the liquidity the check predicted, and no shortfall. */
  lemma ExitLeavesPrediction(p: Pool, v: Address, account: Address, q: Pool)
    requires ListsAgree(p) && IsMember(p, v, account) && ExitMarket(p, v, account) == Ok(q)
    ensures v in p.vTokens
    ensures var c := Change(v, Get(p.vTokens[v].accountTokens, account), 0);
            var predicted, after := Hypothetical(Entries(p, account, CollateralFactor), c),
                                    Current(Entries(q, account, CollateralFactor));
            && predicted.Ok? && after.Ok?
            && after.value.liquidity == predicted.value.liquidity && after.value.shortfall == 0
  {
    var tokens := Get(p.vTokens[v].accountTokens, account);
    CheckGivesSnapshot(p, v, account, tokens);
    EntriesDistinct(p, account, CollateralFactor);
    var i :| 0 <= i < |GetAssetsIn(p, account)| && GetAssetsIn(p, account)[i] == v;
    var es := Entries(p, account, CollateralFactor);
    SnapshotIsSum(es, Change(v, tokens, 0));
    assert es[i] in es;
    ExitIsExact(es, i, Change(v, tokens, 0));
    ExitTakesOneEntry(p, v, account, q, CollateralFactor, i);
    SnapshotIgnoresOrder(es[..i] + es[i + 1..], Entries(q, account, CollateralFactor), NO_CHANGE);
  }

  lemma ThresholdWeighsMore(p: Pool, v: Address, account: Address)
    requires FactorsOrdered(p) && v in p.markets
    requires View(p, v, account, CollateralFactor).Ok? && View(p, v, account, LiquidationThreshold).Ok?
    ensures NoWorse(View(p, v, account, CollateralFactor).value, View(p, v, account, LiquidationThreshold).value)
  {
  }

  /** An account without a shortfall under collateral factors has none under liquidation thresholds. */
  lemma SafeUnderFactorsIsSafeUnderThresholds(p: Pool, account: Address)
    requires PoolInv(p)
    requires Current(Entries(p, account, CollateralFactor)).Ok? &&
             Current(Entries(p, account, LiquidationThreshold)).Ok?
    requires Current(Entries(p, account, CollateralFactor)).value.shortfall == 0
    ensures Current(Entries(p, account, LiquidationThreshold)).value.shortfall == 0
  {
    var a, b := Entries(p, account, CollateralFactor), Entries(p, account, LiquidationThreshold);
    SnapshotIsSum(a, NO_CHANGE);
    SnapshotIsSum(b, NO_CHANGE);
    forall i | 0 <= i < |a| ensures a[i].asset.Ok? && b[i].asset.Ok? && NoWorse(a[i].asset.value, b[i].asset.value) {
      assert a[i] in a && b[i] in b;
      var v := GetAssetsIn(p, account)[i];
      assert v in GetAssetsIn(p, account);
      ThresholdWeighsMore(p, v, account);
    }
    ShortfallMonotone(a, b);
  }
}
