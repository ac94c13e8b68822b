/**
 * The comptroller contract: its storage changed in place by loops over an account's markets. A call works on a copy of
 * the storage and commits it at the end, so that a revert on the way leaves no trace.
 */
module Comptroller {
  import opened Evm
  import opened ExponentialNoError
  import opened Sums
  import L = VTokenLedger
  import opened Liquidity
  import opened ComptrollerPool
  import opened ComptrollerSafety

  /** Entering several markets, in order. */
  function EnterAll(p: Pool, vTokens: seq<Address>, account: Address): Result<Pool> {
    if vTokens == [] then Ok(p)
    else
      var q :- EnterAll(p, vTokens[..|vTokens| - 1], account);
      AddToMarket(q, vTokens[|vTokens| - 1], account)
  }

  /**
   * Entering goes through exactly when every market given is listed; then the account is a member of those and of what
   * it was in before, once each, and nobody else's membership moves.
   */
  lemma {:induction false} EnterAllExactly(p: Pool, vTokens: seq<Address>, account: Address)
    requires ListsAgree(p)
    ensures EnterAll(p, vTokens, account).Ok? <==> forall v :: v in vTokens ==> IsListed(p, v)
    ensures EnterAll(p, vTokens, account).Ok? ==>
              var q := EnterAll(p, vTokens, account).value;
              && ListsAgree(q) && q == p.(markets := q.markets, accountAssets := q.accountAssets)
              && (forall v :: IsListed(q, v) == IsListed(p, v))
              && forall v, a :: IsMember(q, v, a) <==> IsMember(p, v, a) || (v in vTokens && a == account)
  {
    if vTokens != [] {
      var init, last := vTokens[..|vTokens| - 1], vTokens[|vTokens| - 1];
      assert vTokens == init + [last];
      EnterAllExactly(p, init, account);
      if EnterAll(p, init, account).Ok? && IsListed(p, last) {
        var r := EnterAll(p, init, account).value;
        EnterKeepsLists(r, last, account, AddToMarket(r, last, account).value);
        EnterMovesNothing(r, last, account, AddToMarket(r, last, account).value);
      }
    }
  }

  class Comptroller {
    var markets: map<Address, MarketInfo>
    var accountAssets: map<Address, seq<Address>>
    var allMarkets: seq<Address>
    var ledgers: map<Address, L.Market>
    var prices: map<Address, nat>
    var borrowCaps: map<Address, nat>
    var supplyCaps: map<Address, nat>
    var closeFactor: nat
    var liquidationIncentive: nat
    var minLiquidatableCollateral: nat

    function State(): Pool
      reads this
    {
      Pool(markets, accountAssets, allMarkets, ledgers, prices, borrowCaps, supplyCaps, closeFactor,
           liquidationIncentive, minLiquidatableCollateral)
    }

    /** The comptroller as the registry leaves it when it adds the pool. */
    constructor (closeFactor: nat, liquidationIncentive: nat, minLiquidatableCollateral: nat)
      requires MIN_CLOSE_FACTOR <= closeFactor <= MAX_CLOSE_FACTOR && EXP_SCALE <= liquidationIncentive
      ensures AddPool(closeFactor, liquidationIncentive, minLiquidatableCollateral) == Ok(State()) && PoolInv(State())
    {
      markets, accountAssets, allMarkets, ledgers := map[], map[], [], map[];
      prices, borrowCaps, supplyCaps := map[], map[], map[];
      this.closeFactor, this.liquidationIncentive := closeFactor, liquidationIncentive;
      this.minLiquidatableCollateral := minLiquidatableCollateral;
      new;
      AddedPoolInv(closeFactor, liquidationIncentive, minLiquidatableCollateral, State());
    }

    method Commit(p: Pool)
      modifies this
      ensures State() == p
    {
      markets, accountAssets, allMarkets, ledgers := p.markets, p.accountAssets, p.allMarkets, p.vTokens;
      prices, borrowCaps, supplyCaps, closeFactor := p.prices, p.borrowCaps, p.supplyCaps, p.closeFactor;
      liquidationIncentive, minLiquidatableCollateral := p.liquidationIncentive, p.minLiquidatableCollateral;
    }

    method EnterMarkets(vTokens: seq<Address>, account: Address) returns (r: Result<()>)
      modifies this
      ensures Carried(EnterAll(old(State()), vTokens, account), old(State()), State(), r)
    {
      var entered := Ok(State());
      for i := 0 to |vTokens|
        invariant unchanged(this) && entered == EnterAll(State(), vTokens[..i], account)
      {
        assert vTokens[..i + 1][..i] == vTokens[..i];
        if entered.Ok? { entered := AddToMarket(entered.value, vTokens[i], account); }
      }
      assert vTokens[..|vTokens|] == vTokens;
      if entered.Revert? { return Revert(entered.error); }
      Commit(entered.value);
      r := Ok(());
    }

    /** The account's markets that are still listed, in the order of its list. */
    method GetAssetsIn(account: Address) returns (assetsIn: seq<Address>)
      ensures assetsIn == ComptrollerPool.GetAssetsIn(State(), account)
    {
      var accountAssets := AssetsOf(State(), account);
      assetsIn := [];
      for i := 0 to |accountAssets|
        invariant assetsIn == ListedOf(State(), accountAssets[..i])
      {
        assert accountAssets[..i + 1][..i] == accountAssets[..i];
        if IsListed(State(), accountAssets[i]) { assetsIn := assetsIn + [accountAssets[i]]; }
      }
      assert accountAssets[..|accountAssets|] == accountAssets;
    }

    method GetHypotheticalLiquiditySnapshot(account: Address, c: Change, w: Weight)
      returns (r: Result<AccountLiquiditySnapshot>)
      ensures r == Hypothetical(Entries(State(), account, w), c)
    {
      var assets := GetAssetsIn(account);
      ghost var entries := Entries(State(), account, w);
      var totals := Ok(ZERO);
      for i := 0 to |assets|
        invariant totals == Accumulate(entries[..i], c)
      {
        assert entries[..i + 1][..i] == entries[..i];
        if totals.Ok? {
          var asset := View(State(), assets[i], account, w);
          totals := if asset.Revert? then Revert(asset.error)
                    else AddAsset(totals.value, asset.value, assets[i] == c.id, c);
        }
      }
      assert entries[..|assets|] == entries;
      r := if totals.Revert? then Revert(totals.error) else Balance(totals.value);
    }

    static method FindAsset(userAssetList: seq<Address>, v: Address) returns (assetIndex: nat)
      ensures assetIndex == IndexOf(userAssetList, v)
    {
      var len := |userAssetList|;
      assetIndex := len;
      for i := 0 to len
        invariant assetIndex == len && v !in userAssetList[..i]
      {
        if userAssetList[i] == v {
          assetIndex := i;
          break;
        }
      }
      FirstIndex(userAssetList, v, assetIndex);
    }

    /** Finds the market in the account's list, moves the last one into its place and drops the last place. */
    method ExitMarket(v: Address, account: Address) returns (r: Result<()>)
      modifies this
      ensures Carried(ComptrollerPool.ExitMarket(old(State()), v, account), old(State()), State(), r)
    {
      var _ :- CheckExitAllowed(State(), v, account);
      if !IsMember(State(), v, account) { return Ok(()); }
      var userAssetList := AssetsOf(State(), account);
      var len := |userAssetList|;
      var assetIndex := FindAsset(userAssetList, v);
      var _ :- Require(assetIndex < len, ArithmeticPanic);
      var storedList := userAssetList[assetIndex := userAssetList[len - 1]];
      storedList := storedList[..len - 1];
      markets := markets[v := markets[v].(accountMembership := markets[v].accountMembership - {account})];
      accountAssets := accountAssets[account := storedList];
      r := Ok(());
    }

    method HealEach(assets: seq<Address>, liquidator: Address, user: Address, percentage: nat, lost: map<Address, nat>)
      returns (r: Result<Pool>)
      ensures r == HealMarkets(State(), assets, liquidator, user, percentage, lost)
    {
      r := Ok(State());
      for i := 0 to |assets|
        invariant r == HealMarkets(State(), assets[..i], liquidator, user, percentage, lost)
      {
        assert assets[..i + 1][..i] == assets[..i];
        if r.Ok? { r := HealMarket(r.value, assets[i], liquidator, user, percentage, Get(lost, assets[i])); }
      }
      assert assets[..|assets|] == assets;
    }

    method HealAccount(liquidator: Address, user: Address, lost: map<Address, nat>) returns (r: Result<()>)
      modifies this
      ensures Carried(ComptrollerPool.HealAccount(old(State()), liquidator, user, lost), old(State()), State(), r)
    {
      var userAssets := GetAssetsIn(user);
      var snapshot := GetHypotheticalLiquiditySnapshot(user, NO_CHANGE, LiquidationThreshold);
      if snapshot.Revert? { return Revert(snapshot.error); }
      var percentage :- HealPercentage(snapshot.value, liquidationIncentive, minLiquidatableCollateral);
      var healed := HealEach(userAssets, liquidator, user, percentage, lost);
      if healed.Revert? { return Revert(healed.error); }
      Commit(healed.value);
      r := Ok(());
    }

    method ExecuteEach(liquidator: Address, borrower: Address, orders: seq<LiquidationOrder>) returns (r: Result<Pool>)
      ensures r == ExecuteOrders(State(), liquidator, borrower, orders)
    {
      r := Ok(State());
      for i := 0 to |orders|
        invariant r == ExecuteOrders(State(), liquidator, borrower, orders[..i])
      {
        assert orders[..i + 1][..i] == orders[..i];
        if r.Ok? { r := ExecuteOrder(r.value, liquidator, borrower, orders[i]); }
      }
      assert orders[..|orders|] == orders;
    }

    method CheckNoDebt(p: Pool, borrowMarkets: seq<Address>, borrower: Address) returns (settled: bool)
      ensures settled == NoDebtIn(p, borrowMarkets, borrower)
    {
      for i := 0 to |borrowMarkets|
        invariant NoDebtIn(p, borrowMarkets[..i], borrower)
      {
        if !NoDebtIn(p, [borrowMarkets[i]], borrower) {
          assert borrowMarkets[i] in borrowMarkets;
          return false;
        }
      }
      assert borrowMarkets[..|borrowMarkets|] == borrowMarkets;
      settled := true;
    }

    method LiquidateAccount(liquidator: Address, borrower: Address,
                            orders: seq<LiquidationOrder>) returns (r: Result<()>)
      modifies this
      ensures Carried(ComptrollerPool.LiquidateAccount(old(State()), liquidator, borrower, orders), old(State()),
                      State(), r)
    {
      var snapshot := GetHypotheticalLiquiditySnapshot(borrower, NO_CHANGE, LiquidationThreshold);
      if snapshot.Revert? { return Revert(snapshot.error); }
      var _ :- LiquidateGuard(snapshot.value, liquidationIncentive, minLiquidatableCollateral);
      var executed := ExecuteEach(liquidator, borrower, orders);
      if executed.Revert? { return Revert(executed.error); }
      var settled := CheckNoDebt(executed.value, ComptrollerPool.GetAssetsIn(executed.value, borrower), borrower);
      var _ :- Require(settled, NonzeroBalanceAfterLiquidation);
      Commit(executed.value);
      r := Ok(());
    }
  }

  lemma FirstIndex(assets: seq<Address>, v: Address, i: nat)
    requires i <= |assets| && v !in assets[..i] && (i < |assets| ==> assets[i] == v)
    ensures i == IndexOf(assets, v)
  {
  }
}
