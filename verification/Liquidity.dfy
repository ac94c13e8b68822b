/** Account liquidity: a checked fold over the markets an account is in, and what the fold means. */
module Liquidity {
  import opened Evm
  import opened ExponentialNoError

  /** What one market contributes: the account's balances there, the market's rate, its price and its weight. */
  datatype Asset = Asset(tokens: nat, borrowBalance: nat, exchangeRate: nat, price: nat, weight: nat)

  /** A market the account is in; reading it may revert. */
  datatype Entry = Entry(id: Address, asset: Result<Asset>)

  datatype Totals = Totals(weightedCollateral: nat, totalCollateral: nat, borrows: nat, effects: nat)

  datatype AccountLiquiditySnapshot = AccountLiquiditySnapshot(totals: Totals, liquidity: nat, shortfall: nat)

  /** A hypothetical change: tokens redeemed from and underlying borrowed from one market. */
  datatype Change = Change(id: Address, redeemTokens: nat, borrowAmount: nat)

  const ZERO: Totals := Totals(0, 0, 0, 0)

  /** The conversion factors from tokens to the unit of account, without and with the weight. */
  datatype Prices = Prices(vToken: nat, weighted: nat)

  function PricesOf(a: Asset): Result<Prices> {
    var _ :- Require(a.price != 0, PriceError);
    var vTokenPrice :- MulScalarTruncate(a.exchangeRate, a.price);
    var weightedVTokenPrice :- MulScalarTruncate(a.weight, vTokenPrice);
    Ok(Prices(vTokenPrice, weightedVTokenPrice))
  }

  function AddBalances(t: Totals, a: Asset, p: Prices): Result<Totals> {
    var weightedCollateral :- MulScalarTruncateAddUInt(p.weighted, a.tokens, t.weightedCollateral);
    var totalCollateral :- MulScalarTruncateAddUInt(p.vToken, a.tokens, t.totalCollateral);
    var borrows :- MulScalarTruncateAddUInt(a.price, a.borrowBalance, t.borrows);
    Ok(Totals(weightedCollateral, totalCollateral, borrows, t.effects))
  }

  function AddEffects(t: Totals, a: Asset, p: Prices, c: Change): Result<Totals> {
    var redeemEffect :- MulScalarTruncateAddUInt(p.weighted, c.redeemTokens, t.effects);
    var effects :- MulScalarTruncateAddUInt(a.price, c.borrowAmount, redeemEffect);
    Ok(t.(effects := effects))
  }

  function AddAsset(t: Totals, a: Asset, modified: bool, c: Change): Result<Totals> {
    var p :- PricesOf(a);
    var withBalances :- AddBalances(t, a, p);
    if modified then AddEffects(withBalances, a, p, c) else Ok(withBalances)
  }

  /** The fold, in list order. */
  function Accumulate(entries: seq<Entry>, c: Change): Result<Totals> {
    if entries == [] then Ok(ZERO)
    else
      var last := entries[|entries| - 1];
      var t :- Accumulate(entries[..|entries| - 1], c);
      var asset :- last.asset;
      AddAsset(t, asset, last.id == c.id, c)
  }

  function Balance(t: Totals): Result<AccountLiquiditySnapshot> {
    var borrowPlusEffects :- Add(t.borrows, t.effects);
    Ok(if t.weightedCollateral > borrowPlusEffects
       then AccountLiquiditySnapshot(t, t.weightedCollateral - borrowPlusEffects, 0)
       else AccountLiquiditySnapshot(t, 0, borrowPlusEffects - t.weightedCollateral))
  }

  function Hypothetical(entries: seq<Entry>, c: Change): Result<AccountLiquiditySnapshot> {
    var totals :- Accumulate(entries, c);
    Balance(totals)
  }

  /** No change at all: the zero address is never a market the account is in. */
  const NO_CHANGE: Change := Change(Address(0), 0, 0)

  function Current(entries: seq<Entry>): Result<AccountLiquiditySnapshot> {
    Hypothetical(entries, NO_CHANGE)
  }

  // ------------------------------------------------ the fold as plain sums

  function Trunc(a: nat, b: nat): (q: nat)
    ensures Floors(q, a * b, EXP_SCALE)
  {
    DivFloors(a * b, EXP_SCALE);
    a * b / EXP_SCALE
  }

  function TokenPrice(a: Asset): nat {
    Trunc(a.exchangeRate, a.price)
  }

  function WeightedPrice(a: Asset): nat {
    Trunc(a.weight, TokenPrice(a))
  }

  /** The contribution of one asset, were words unbounded. */
  function Worth(a: Asset, modified: bool, c: Change): Totals {
    Totals(Trunc(WeightedPrice(a), a.tokens), Trunc(TokenPrice(a), a.tokens), Trunc(a.price, a.borrowBalance),
           if modified then Trunc(WeightedPrice(a), c.redeemTokens) + Trunc(a.price, c.borrowAmount) else 0)
  }

  /** Every product the fold takes for this asset fits a word. */
  predicate Fits(a: Asset, modified: bool, c: Change) {
    && a.price != 0
    && a.exchangeRate * a.price <= MAX_UINT256
    && a.weight * TokenPrice(a) <= MAX_UINT256
    && WeightedPrice(a) * a.tokens <= MAX_UINT256
    && TokenPrice(a) * a.tokens <= MAX_UINT256
    && a.price * a.borrowBalance <= MAX_UINT256
    && (modified ==> WeightedPrice(a) * c.redeemTokens <= MAX_UINT256 && a.price * c.borrowAmount <= MAX_UINT256)
  }

  function Plus(t: Totals, u: Totals): Totals {
    Totals(t.weightedCollateral + u.weightedCollateral, t.totalCollateral + u.totalCollateral,
           t.borrows + u.borrows, t.effects + u.effects)
  }

  predicate Words(t: Totals) {
    t.weightedCollateral <= MAX_UINT256 && t.totalCollateral <= MAX_UINT256 &&
    t.borrows <= MAX_UINT256 && t.effects <= MAX_UINT256
  }

  lemma TruncIs(a: nat, b: nat)
    requires a * b <= MAX_UINT256
    ensures MulScalarTruncate(a, b) == Ok(Trunc(a, b))
  {
    FloorsUnique(MulScalarTruncate(a, b).value, Trunc(a, b), a * b, EXP_SCALE);
  }

  lemma TruncAddIs(a: nat, b: nat, addend: nat)
    ensures MulScalarTruncateAddUInt(a, b, addend) ==
            if a * b <= MAX_UINT256 && Trunc(a, b) + addend <= MAX_UINT256 then Ok(Trunc(a, b) + addend)
            else Revert(ArithmeticPanic)
  {
    if a * b <= MAX_UINT256 { TruncIs(a, b); }
  }

  lemma PricesAre(a: Asset)
    ensures PricesOf(a).Ok? <==> a.price != 0 && a.exchangeRate * a.price <= MAX_UINT256 &&
                                 a.weight * TokenPrice(a) <= MAX_UINT256
    ensures PricesOf(a).Ok? ==> PricesOf(a).value == Prices(TokenPrice(a), WeightedPrice(a))
  {
    if a.exchangeRate * a.price <= MAX_UINT256 {
      TruncIs(a.exchangeRate, a.price);
      if a.weight * TokenPrice(a) <= MAX_UINT256 { TruncIs(a.weight, TokenPrice(a)); }
    }
  }

  /** A step of the fold adds the asset's worth, and succeeds exactly when everything fits. */
  lemma AddAssetIs(t: Totals, a: Asset, modified: bool, c: Change)
    requires Words(t)
    ensures AddAsset(t, a, modified, c).Ok? <==> Fits(a, modified, c) && Words(Plus(t, Worth(a, modified, c)))
    ensures AddAsset(t, a, modified, c).Ok? ==> AddAsset(t, a, modified, c).value == Plus(t, Worth(a, modified, c))
  {
    PricesAre(a);
    TruncAddIs(WeightedPrice(a), a.tokens, t.weightedCollateral);
    TruncAddIs(TokenPrice(a), a.tokens, t.totalCollateral);
    TruncAddIs(a.price, a.borrowBalance, t.borrows);
    TruncAddIs(WeightedPrice(a), c.redeemTokens, t.effects);
    TruncAddIs(a.price, c.borrowAmount, t.effects + Trunc(WeightedPrice(a), c.redeemTokens));
  }

  predicate AllFit(entries: seq<Entry>, c: Change) {
    forall e :: e in entries ==> e.asset.Ok? && Fits(e.asset.value, e.id == c.id, c)
  }

  function EntryWorth(e: Entry, c: Change): Totals {
    if e.asset.Ok? then Worth(e.asset.value, e.id == c.id, c) else ZERO
  }

  function SumWorth(entries: seq<Entry>, c: Change): Totals {
    if entries == [] then ZERO
    else Plus(SumWorth(entries[..|entries| - 1], c), EntryWorth(entries[|entries| - 1], c))
  }

  /** The fold is the plain sum, and it reverts exactly when some entry or some sum does not fit. */
  lemma {:induction false} AccumulateIsSum(entries: seq<Entry>, c: Change)
    ensures Accumulate(entries, c).Ok? <==> AllFit(entries, c) && Words(SumWorth(entries, c))
    ensures Accumulate(entries, c).Ok? ==> Accumulate(entries, c).value == SumWorth(entries, c)
  {
    if entries != [] {
      var init, last := entries[..|entries| - 1], entries[|entries| - 1];
      AccumulateIsSum(init, c);
      assert entries == init + [last];
      if Accumulate(init, c).Ok? && last.asset.Ok? {
        AddAssetIs(SumWorth(init, c), last.asset.value, last.id == c.id, c);
      }
    }
  }

  lemma SnapshotIsSum(entries: seq<Entry>, c: Change)
    requires Hypothetical(entries, c).Ok?
    ensures var s, t := Hypothetical(entries, c).value, SumWorth(entries, c);
            s.totals == t && AllFit(entries, c) &&
            s.liquidity - s.shortfall == t.weightedCollateral - (t.borrows + t.effects) &&
            (s.liquidity == 0 || s.shortfall == 0)
  {
    AccumulateIsSum(entries, c);
  }

  /** An account's own snapshot can be taken exactly when everything fits, and then compares plain sums. */
  lemma CurrentExactly(entries: seq<Entry>)
    ensures var t := SumWorth(entries, NO_CHANGE);
            && (Current(entries).Ok? <==> AllFit(entries, NO_CHANGE) && Words(t))
            && (Current(entries).Ok? ==>
                  && Current(entries).value.totals == t
                  && (Current(entries).value.shortfall != 0 <==> t.weightedCollateral < t.borrows))
  {
    AccumulateIsSum(entries, NO_CHANGE);
    NoEffects(entries);
  }

  /** The check admits a change exactly when everything fits and the collateral covers debts and effects. */
  lemma AdmitsExactly(entries: seq<Entry>, c: Change)
    ensures var t := SumWorth(entries, c);
            Hypothetical(entries, c).Ok? && Hypothetical(entries, c).value.shortfall == 0 <==>
            AllFit(entries, c) && Words(t) && t.borrows + t.effects <= t.weightedCollateral
  {
    AccumulateIsSum(entries, c);
  }

  // ------------------------------------------------------ order of markets

  lemma {:induction false} SumWithout(entries: seq<Entry>, i: nat, c: Change)
    requires i < |entries|
    ensures SumWorth(entries, c) == Plus(SumWorth(entries[..i] + entries[i + 1..], c), EntryWorth(entries[i], c))
  {
    var n := |entries| - 1;
    var rest := entries[..i] + entries[i + 1..];
    if i == n {
      assert rest == entries[..n];
    } else {
      SumWithout(entries[..n], i, c);
      assert rest[..n - 1] == entries[..n][..i] + entries[..n][i + 1..];
      assert rest[n - 1] == entries[n];
    }
  }

  lemma {:induction false} SumOfPermutation(a: seq<Entry>, b: seq<Entry>, c: Change)
    requires multiset(a) == multiset(b)
    ensures SumWorth(a, c) == SumWorth(b, c)
    decreases |a|
  {
    assert |a| == |multiset(a)| == |multiset(b)| == |b|;
    if a != [] {
      var n := |a| - 1;
      assert a == a[..n] + [a[n]];
      assert a[n] in multiset(b);
      var i :| 0 <= i < |b| && b[i] == a[n];
      var rest := b[..i] + b[i + 1..];
      assert b == b[..i] + [b[i]] + b[i + 1..];
      assert multiset(rest) == multiset(b) - multiset{b[i]} == multiset(a[..n]);
      SumOfPermutation(a[..n], rest, c);
      SumWithout(b, i, c);
    }
  }

  /** The snapshot does not depend on the order in which an account entered its markets. */
  lemma SnapshotIgnoresOrder(a: seq<Entry>, b: seq<Entry>, c: Change)
    requires multiset(a) == multiset(b)
    ensures Hypothetical(a, c).Ok? <==> Hypothetical(b, c).Ok?
    ensures Hypothetical(a, c).Ok? ==> Hypothetical(a, c) == Hypothetical(b, c)
  {
    AccumulateIsSum(a, c);
    AccumulateIsSum(b, c);
    SumOfPermutation(a, b, c);
    assert forall e :: e in a <==> e in multiset(a);
    assert forall e :: e in b <==> e in multiset(b);
  }

  // -------------------------------------------------- better and worse off

  /** At least as much collateral at least as highly valued, and no more debt. */
  predicate NoWorse(a: Asset, b: Asset) {
    b.price == a.price && a.weight <= b.weight && a.exchangeRate <= b.exchangeRate && a.tokens <= b.tokens &&
    b.borrowBalance <= a.borrowBalance
  }

  lemma TruncMonotone(a: nat, b: nat, a': nat, b': nat)
    requires a <= a' && b <= b'
    ensures Trunc(a, b) <= Trunc(a', b')
  {
    Grow(a, a', b);
    Grow(b, b', a');
    FloorsMonotone(Trunc(a, b), a * b, Trunc(a', b'), a' * b', EXP_SCALE);
  }

  lemma WorthNoWorse(a: Asset, b: Asset, modified: bool, c: Change)
    requires NoWorse(a, b)
    ensures Worth(a, modified, c).weightedCollateral <= Worth(b, modified, c).weightedCollateral
    ensures Worth(b, modified, c).borrows <= Worth(a, modified, c).borrows
  {
    TruncMonotone(a.exchangeRate, a.price, b.exchangeRate, b.price);
    TruncMonotone(a.weight, TokenPrice(a), b.weight, TokenPrice(b));
    TruncMonotone(WeightedPrice(a), a.tokens, WeightedPrice(b), b.tokens);
    TruncMonotone(b.price, b.borrowBalance, a.price, a.borrowBalance);
  }

  predicate EntriesNoWorse(a: seq<Entry>, b: seq<Entry>) {
    |a| == |b| &&
    forall i :: 0 <= i < |a| ==> a[i].asset.Ok? && b[i].asset.Ok? && a[i].id == b[i].id &&
                                 NoWorse(a[i].asset.value, b[i].asset.value)
  }

  lemma {:induction false} SumNoWorse(a: seq<Entry>, b: seq<Entry>)
    requires EntriesNoWorse(a, b)
    ensures SumWorth(a, NO_CHANGE).weightedCollateral <= SumWorth(b, NO_CHANGE).weightedCollateral
    ensures SumWorth(b, NO_CHANGE).borrows <= SumWorth(a, NO_CHANGE).borrows
  {
    if a != [] {
      var n := |a| - 1;
      SumNoWorse(a[..n], b[..n]);
      WorthNoWorse(a[n].asset.value, b[n].asset.value, a[n].id == NO_CHANGE.id, NO_CHANGE);
    }
  }

  /**
   * More weight, tokens or rate, or less debt, never deepens the shortfall. In particular an account that is safe under
   * its collateral factors is safe under its liquidation thresholds, which are at least as large.
   */
  lemma ShortfallMonotone(a: seq<Entry>, b: seq<Entry>)
    requires EntriesNoWorse(a, b) && Current(a).Ok? && Current(b).Ok?
    ensures Current(b).value.shortfall <= Current(a).value.shortfall
    ensures Current(b).value.shortfall == 0 || Current(b).value.liquidity == 0
  {
    SnapshotIsSum(a, NO_CHANGE);
    SnapshotIsSum(b, NO_CHANGE);
    SumNoWorse(a, b);
    NoEffects(a);
    NoEffects(b);
  }

  // -------------------------------------- the check against what it admits

  predicate DistinctIds(entries: seq<Entry>) {
    forall i, j :: 0 <= i < j < |entries| ==> entries[i].id != entries[j].id
  }

  lemma {:induction false} NoEffects(entries: seq<Entry>)
    ensures SumWorth(entries, NO_CHANGE).effects == 0
  {
    if entries != [] { NoEffects(entries[..|entries| - 1]); }
  }

  /** Only the changed market has an effect. */
  lemma {:induction false} EffectsOfChange(entries: seq<Entry>, i: nat, c: Change)
    requires DistinctIds(entries) && i < |entries| && entries[i].id == c.id
    ensures SumWorth(entries, c) == SumWorth(entries, NO_CHANGE).(effects := EntryWorth(entries[i], c).effects)
  {
    SumWithout(entries, i, c);
    SumWithout(entries, i, NO_CHANGE);
    SameWithoutChange(entries[..i] + entries[i + 1..], c);
    NoEffects(entries);
  }

  lemma {:induction false} SameWithoutChange(entries: seq<Entry>, c: Change)
    requires forall e :: e in entries ==> e.id != c.id
    ensures SumWorth(entries, c) == SumWorth(entries, NO_CHANGE)
  {
    NoEffects(entries);
    if entries != [] { SameWithoutChange(entries[..|entries| - 1], c); }
  }

  lemma ReplaceEntry(entries: seq<Entry>, i: nat, e: Entry, c: Change)
    requires i < |entries|
    ensures Plus(SumWorth(entries, c), EntryWorth(e, c)) ==
            Plus(SumWorth(entries[i := e], c), EntryWorth(entries[i], c))
  {
    SumWithout(entries, i, c);
    SumWithout(entries[i := e], i, c);
    assert entries[i := e][..i] + entries[i := e][i + 1..] == entries[..i] + entries[i + 1..];
  }

  /** An asset after the change went through: tokens redeemed at a rate that did not fall, underlying borrowed. */
  predicate Changed(a: Asset, b: Asset, c: Change) {
    && b.price == a.price && b.weight == a.weight
    && c.redeemTokens <= a.tokens && b.tokens == a.tokens - c.redeemTokens
    && (b.tokens == 0 || a.exchangeRate <= b.exchangeRate)
    && b.borrowBalance == a.borrowBalance + c.borrowAmount
  }

  /**
   * Rounding the parts costs at most one unit of collateral, and at most one unit of debt, against rounding the whole.
   */
  lemma ChangedWorth(a: Asset, b: Asset, c: Change)
    requires Changed(a, b, c)
    ensures Worth(a, true, c).weightedCollateral <=
            Worth(b, false, NO_CHANGE).weightedCollateral + Trunc(WeightedPrice(a), c.redeemTokens) +
            (if c.redeemTokens == 0 then 0 else 1)
    ensures Worth(b, false, NO_CHANGE).borrows <=
            Worth(a, true, c).borrows + Trunc(a.price, c.borrowAmount) + (if c.borrowAmount == 0 then 0 else 1)
  {
    TruncOfSum(WeightedPrice(a), b.tokens, c.redeemTokens);
    TruncOfSum(a.price, a.borrowBalance, c.borrowAmount);
    if b.tokens != 0 {
      TruncMonotone(a.exchangeRate, a.price, b.exchangeRate, b.price);
      TruncMonotone(a.weight, TokenPrice(a), b.weight, TokenPrice(b));
      TruncMonotone(WeightedPrice(a), b.tokens, WeightedPrice(b), b.tokens);
    }
  }

  lemma TruncOfSum(p: nat, x: nat, y: nat)
    ensures Trunc(p, x) + Trunc(p, y) <= Trunc(p, x + y) <= Trunc(p, x) + Trunc(p, y) + (if y == 0 then 0 else 1)
  {
    assert p * (x + y) == p * x + p * y;
    FloorsOfSum(Trunc(p, x), p * x, Trunc(p, y), p * y, Trunc(p, x + y), EXP_SCALE);
    if y == 0 { FloorsUnique(Trunc(p, x), Trunc(p, x + y), p * x, EXP_SCALE); }
  }

  /** What truncating the parts of a change apart costs the account, against truncating what it leaves. */
  function RoundingCost(a: Asset, b: Asset, c: Change): int {
    (Trunc(WeightedPrice(a), a.tokens) - Trunc(WeightedPrice(b), b.tokens) - Trunc(WeightedPrice(a), c.redeemTokens)) +
    (Trunc(b.price, b.borrowBalance) - Trunc(a.price, a.borrowBalance) - Trunc(a.price, c.borrowAmount))
  }

  lemma TotalsAfterChange(entries: seq<Entry>, i: nat, after: Entry, c: Change)
    requires DistinctIds(entries) && i < |entries| && entries[i].id == c.id == after.id
    requires entries[i].asset.Ok? && after.asset.Ok?
    ensures var t, u := SumWorth(entries, c), SumWorth(entries[i := after], NO_CHANGE);
            u.borrows - u.weightedCollateral ==
            t.borrows + t.effects - t.weightedCollateral + RoundingCost(entries[i].asset.value, after.asset.value, c)
  {
    var a, b := entries[i].asset.value, after.asset.value;
    EffectsOfChange(entries, i, c);
    ReplaceEntry(entries, i, after, NO_CHANGE);
    assert EntryWorth(entries[i], NO_CHANGE).weightedCollateral == Worth(a, true, c).weightedCollateral;
    assert EntryWorth(entries[i], NO_CHANGE).borrows == Worth(a, true, c).borrows;
    assert EntryWorth(after, NO_CHANGE).weightedCollateral == Worth(b, false, NO_CHANGE).weightedCollateral;
    assert EntryWorth(after, NO_CHANGE).borrows == Worth(b, false, NO_CHANGE).borrows;
  }

  /**
   * A redemption or a borrow that the hypothetical check admits leaves, when the account is looked at again, no
   * shortfall or one of a single unit; it leaves that unit exactly when the check found nothing to spare and the
   * truncated parts come to one unit less than the truncated whole.
   */
  lemma AdmittedChangeIsSafe(entries: seq<Entry>, i: nat, after: Entry, c: Change)
    requires DistinctIds(entries) && i < |entries| && entries[i].id == c.id == after.id
    requires c.redeemTokens == 0 || c.borrowAmount == 0
    requires Hypothetical(entries, c).Ok? && Hypothetical(entries, c).value.shortfall == 0
    requires entries[i].asset.Ok? && after.asset.Ok? && Changed(entries[i].asset.value, after.asset.value, c)
    requires Current(entries[i := after]).Ok?
    ensures Current(entries[i := after]).value.shortfall <= 1
    ensures Current(entries[i := after]).value.shortfall == 1 <==>
            Hypothetical(entries, c).value.liquidity == 0 &&
            RoundingCost(entries[i].asset.value, after.asset.value, c) == 1
  {
    SnapshotIsSum(entries, c);
    SnapshotIsSum(entries[i := after], NO_CHANGE);
    NoEffects(entries[i := after]);
    TotalsAfterChange(entries, i, after, c);
    ChangedWorth(entries[i].asset.value, after.asset.value, c);
  }

  /** An account with one debt and no collateral. */
  lemma DebtOnly(id: Address, debt: nat, rate: nat, price: nat, c: Change)
    requires price != 0 && rate * price <= MAX_UINT256
    requires price * debt <= MAX_UINT256 && price * c.borrowAmount <= MAX_UINT256
    requires Trunc(price, debt) + Trunc(price, c.borrowAmount) <= MAX_UINT256
    ensures var owed, effects := Trunc(price, debt), if id == c.id then Trunc(price, c.borrowAmount) else 0;
            Hypothetical([Entry(id, Ok(Asset(0, debt, rate, price, 0)))], c) ==
            Ok(AccountLiquiditySnapshot(Totals(0, 0, owed, effects), 0, owed + effects))
  {
    var a := Asset(0, debt, rate, price, 0);
    var entries := [Entry(id, Ok(a))];
    assert WeightedPrice(a) == 0 && Trunc(0, 0) == Trunc(0, c.redeemTokens) == Trunc(TokenPrice(a), 0) == 0;
    assert SumWorth(entries, c) == Plus(ZERO, EntryWorth(entries[0], c));
    assert AllFit(entries, c);
    AccumulateIsSum(entries, c);
  }

  /** Leaving a market after the check for redeeming everything there leaves exactly the predicted figures. */
  lemma ExitIsExact(entries: seq<Entry>, i: nat, c: Change)
    requires DistinctIds(entries) && i < |entries| && entries[i].id == c.id
    requires Hypothetical(entries, c).Ok?
    requires entries[i].asset.Ok? && entries[i].asset.value.borrowBalance == 0
    requires c.redeemTokens == entries[i].asset.value.tokens && c.borrowAmount == 0
    ensures var rest := entries[..i] + entries[i + 1..];
            && Current(rest).Ok?
            && Current(rest).value.liquidity == Hypothetical(entries, c).value.liquidity
            && Current(rest).value.shortfall == Hypothetical(entries, c).value.shortfall
  {
    var rest := entries[..i] + entries[i + 1..];
    AccumulateIsSum(entries, c);
    AccumulateIsSum(rest, NO_CHANGE);
    EffectsOfChange(entries, i, c);
    SumWithout(entries, i, NO_CHANGE);
    NoEffects(rest);
    forall e | e in rest ensures e.asset.Ok? && Fits(e.asset.value, e.id == NO_CHANGE.id, NO_CHANGE) {
      assert e in entries;
    }
  }
}
