/** A run of one pool, from its registration on, that meets the limits of what the checks promise. */
module ComptrollerWitness {
  import opened Evm
  import opened ExponentialNoError
  import opened Sums
  import L = VTokenLedger
  import opened Liquidity
  import opened ComptrollerPool
  import opened ComptrollerSafety
  import opened ComptrollerExits
  import opened ComptrollerRuns

  const HALF: nat := EXP_SCALE / 2

  /** The accounts of the run: a market, its one supplier, and a member without collateral. */
  datatype Cast = Cast(v: Address, lender: Address, borrower: Address)

  predicate Apart(c: Cast) {
    c.v != NO_CHANGE.id && c.lender != c.borrower
  }

  function Registered(): Pool {
    NO_POOL.(closeFactor := MIN_CLOSE_FACTOR, liquidationIncentive := EXP_SCALE)
  }

  lemma RegisteredIsAdded()
    ensures AddPool(MIN_CLOSE_FACTOR, EXP_SCALE, 0) == Ok(Registered())
  {
  }

  /** The pool is set up with one market at a price of one half and without limits, ten are supplied to it. */
  function Openings(c: Cast): seq<PoolOp> {
    [Configure(Support(c.v, 0, EXP_SCALE, 0, EXP_SCALE)), Configure(Price(c.v, HALF)),
     Configure(BorrowCap(c.v, MAX_UINT256)), Configure(SupplyCap(c.v, MAX_UINT256)),
     Act(MintIn(c.v, c.lender, 10, 0)), Configure(Enter(c.v, c.borrower))]
  }

  /** The pool with one listed market. */
  function Listed(v: Address, ledger: L.Market): Pool {
    Registered().(markets := map[v := MarketInfo(true, 0, 0, {})], allMarkets := [v], vTokens := map[v := ledger])
  }

  /** The ledger with ten supplied, of which some are owed at an index of one. */
  function Lent(c: Cast, owed: nat): L.Market
    requires owed <= 10
  {
    var debts := if owed == 0 then map[] else map[c.borrower := L.BorrowSnapshot(owed, EXP_SCALE)];
    L.Initial(0, EXP_SCALE, 0, EXP_SCALE).(cash := 10 - owed, totalBorrows := owed, totalSupply := 10,
                                           accountTokens := map[c.lender := 10], accountBorrows := debts)
  }

  /** The pool at a price of one half, with the borrower entered. */
  function HalfPriced(c: Cast, ledger: L.Market): Pool {
    Listed(c.v, ledger).(markets := map[c.v := MarketInfo(true, 0, 0, {c.borrower})],
                         accountAssets := map[c.borrower := [c.v]], prices := map[c.v := HALF],
                         borrowCaps := map[c.v := MAX_UINT256], supplyCaps := map[c.v := MAX_UINT256])
  }

  // -------------------------------------------------------- step by step

  lemma Configured(p: Pool, ops: seq<PoolOp>, q: Pool)
    requires ops != [] && ops[0].Configure? && ConfigurationStep(p, ops[0].configuration) == Ok(q)
    ensures RunPool(p, ops) == RunPool(q, ops[1..])
  {
    assert PoolStep(p, ops[0]) == Ok(q);
  }

  lemma Acted(p: Pool, ops: seq<PoolOp>, q: Pool)
    requires ops != [] && ops[0].Act? && MarketStep(p, ops[0].action) == Ok(q)
    ensures RunPool(p, ops) == RunPool(q, ops[1..])
  {
    assert PoolStep(p, ops[0]) == Ok(q);
  }

  lemma Lists(c: Cast)
    ensures SupportNew(Registered(), c.v, L.Initial(0, EXP_SCALE, 0, EXP_SCALE)) ==
            Ok(Listed(c.v, L.Initial(0, EXP_SCALE, 0, EXP_SCALE)))
  {
    assert NO_POOL.allMarkets + [c.v] == [c.v];
    assert NO_POOL.markets[c.v := MarketInfo(true, 0, 0, {})] == map[c.v := MarketInfo(true, 0, 0, {})];
  }

  lemma Supplies(c: Cast, p: Pool)
    requires p == Listed(c.v, L.Initial(0, EXP_SCALE, 0, EXP_SCALE)).(supplyCaps := map[c.v := MAX_UINT256],
                                                                       prices := p.prices, borrowCaps := p.borrowCaps)
    ensures Mint(p, c.v, c.lender, 10, 0) == Ok(WithLedger(p, c.v, Lent(c, 0)))
  {
    var s := L.Initial(0, EXP_SCALE, 0, EXP_SCALE);
    assert L.ExchangeRateStored(s) == Ok(EXP_SCALE) && DivExp(10, EXP_SCALE) == Ok(10);
    assert L.MintFresh(s, c.lender, 10, 0) == Ok(Lent(c, 0));
  }

  lemma Enters(c: Cast, p: Pool)
    requires p == HalfPriced(c, Lent(c, 0)).(markets := map[c.v := MarketInfo(true, 0, 0, {})], accountAssets := map[])
    ensures AddToMarket(p, c.v, c.borrower) == Ok(HalfPriced(c, Lent(c, 0)))
  {
    assert AssetsOf(p, c.borrower) + [c.v] == [c.v];
    assert p.markets[c.v].accountMembership + {c.borrower} == {c.borrower};
    assert p.markets[c.v := MarketInfo(true, 0, 0, {c.borrower})] == map[c.v := MarketInfo(true, 0, 0, {c.borrower})];
  }

  /** The market priced and without limits, before anything is supplied. */
  function Open(c: Cast): Pool {
    Listed(c.v, L.Initial(0, EXP_SCALE, 0, EXP_SCALE)).(prices := map[c.v := HALF],
                                                        borrowCaps := map[c.v := MAX_UINT256],
                                                        supplyCaps := map[c.v := MAX_UINT256])
  }

  lemma Opens(c: Cast)
    ensures RunPool(Registered(), Openings(c)) == RunPool(Open(c), Openings(c)[4..])
  {
    var ops := Openings(c);
    var listed := Listed(c.v, L.Initial(0, EXP_SCALE, 0, EXP_SCALE));
    var priced := listed.(prices := map[c.v := HALF]);
    var capped := priced.(borrowCaps := map[c.v := MAX_UINT256]);
    Lists(c);
    Configured(Registered(), ops, listed);
    Configured(listed, ops[1..], priced);
    Configured(priced, ops[2..], capped);
    Configured(capped, ops[3..], Open(c));
    assert ops[1..][1..] == ops[2..] && ops[2..][1..] == ops[3..] && ops[3..][1..] == ops[4..];
  }

  lemma Fills(c: Cast)
    ensures RunPool(Open(c), Openings(c)[4..]) == HalfPriced(c, Lent(c, 0))
  {
    var ops := Openings(c)[4..];
    var supplied := WithLedger(Open(c), c.v, Lent(c, 0));
    Supplies(c, Open(c));
    Acted(Open(c), ops, supplied);
    Enters(c, supplied);
    Configured(supplied, ops[1..], HalfPriced(c, Lent(c, 0)));
    assert ops[1..][1..] == [];
  }

  lemma BorrowsOne(c: Cast, owed: nat)
    requires owed <= 1
    ensures L.BorrowFresh(Lent(c, owed), c.borrower, 1) == Ok(Lent(c, owed + 1))
  {
    var s := Lent(c, owed);
    LentReads(c, owed);
    assert L.WithBorrow(s, c.borrower, owed + 1) == map[c.borrower := L.BorrowSnapshot(owed + 1, EXP_SCALE)];
  }

  lemma LentReads(c: Cast, owed: nat)
    requires owed <= 2
    ensures L.BorrowBalanceStored(Lent(c, owed), c.borrower) == Ok(owed)
    ensures L.ExchangeRateStored(Lent(c, owed)) == Ok(EXP_SCALE)
  {
    var s := Lent(c, owed);
    assert L.Snapshot(s, c.borrower) == if owed == 0 then L.BorrowSnapshot(0, 0) else L.BorrowSnapshot(owed, EXP_SCALE);
  }

  /** The borrower's only entry, a debt without collateral. */
  lemma OneEntry(c: Cast, ledger: L.Market, owed: nat, w: Weight)
    requires L.BorrowBalanceStored(ledger, c.borrower) == Ok(owed) && Get(ledger.accountTokens, c.borrower) == 0
    requires L.ExchangeRateStored(ledger) == Ok(EXP_SCALE)
    ensures GetAssetsIn(HalfPriced(c, ledger), c.borrower) == [c.v]
    ensures Entries(HalfPriced(c, ledger), c.borrower, w) == [Entry(c.v, Ok(Asset(0, owed, EXP_SCALE, HALF, 0)))]
  {
    var p := HalfPriced(c, ledger);
    assert IsListed(p, c.v) && AssetsOf(p, c.borrower) == [c.v] && [c.v][..0] == [];
    assert ListedOf(p, []) == [] && ListedOf(p, [c.v]) == [c.v];
    assert View(p, c.v, c.borrower, w) == Ok(Asset(0, owed, EXP_SCALE, HALF, 0));
  }

  lemma HookAdmits(c: Cast, owed: nat)
    requires Apart(c) && owed <= 1
    ensures PreBorrowHook(HalfPriced(c, Lent(c, owed)), c.v, c.borrower, 1) == Ok(HalfPriced(c, Lent(c, owed)))
  {
    LentReads(c, owed);
    OneEntry(c, Lent(c, owed), owed, CollateralFactor);
    DebtOnly(c.v, owed, EXP_SCALE, HALF, Change(c.v, 0, 1));
  }

  lemma HalfPricedBorrow(c: Cast, owed: nat)
    requires Apart(c) && owed <= 1
    ensures Borrow(HalfPriced(c, Lent(c, owed)), c.v, c.borrower, 1) == Ok(HalfPriced(c, Lent(c, owed + 1)))
  {
    HookAdmits(c, owed);
    BorrowsOne(c, owed);
    assert WithLedger(HalfPriced(c, Lent(c, owed)), c.v, Lent(c, owed + 1)) == HalfPriced(c, Lent(c, owed + 1));
  }

  lemma RunOn(p: Pool, a: seq<PoolOp>, b: seq<PoolOp>)
    ensures RunPool(p, a + b) == RunPool(RunPool(p, a), b)
    decreases |a|
  {
    if a == [] {
      assert a + b == b;
    } else {
      assert (a + b)[1..] == a[1..] + b;
      RunOn(ApplyPool(p, a[0]), a[1..], b);
    }
  }

  lemma KeptFromRegistration(ops: seq<PoolOp>)
    ensures PoolInv(RunPool(Registered(), ops))
  {
    RegisteredIsAdded();
    AddedPoolInv(MIN_CLOSE_FACTOR, EXP_SCALE, 0, Registered());
    PoolRunKeepsInv(Registered(), ops);
  }

  // ---------------------------------------------------- one unit of shortfall

  function BorrowOne(c: Cast): PoolOp {
    Act(BorrowFrom(c.v, c.borrower, 1))
  }

  lemma BorrowActs(c: Cast)
    requires Apart(c)
    ensures MarketStep(HalfPriced(c, Lent(c, 0)), BorrowOne(c).action) == Ok(HalfPriced(c, Lent(c, 1)))
  {
    HalfPricedBorrow(c, 0);
  }

  lemma OneBorrowed(c: Cast)
    requires Apart(c)
    ensures RunPool(Registered(), Openings(c) + [BorrowOne(c)]) == HalfPriced(c, Lent(c, 1))
  {
    Opens(c);
    Fills(c);
    RunOn(Registered(), Openings(c), [BorrowOne(c)]);
    BorrowActs(c);
    Acted(HalfPriced(c, Lent(c, 0)), [BorrowOne(c)], HalfPriced(c, Lent(c, 1)));
    assert [BorrowOne(c)][1..] == [];
  }

  predicate OneShort(p: Pool, account: Address, w: Weight) {
    Current(Entries(p, account, w)).Ok? && Current(Entries(p, account, w)).value.shortfall == 1
  }

  lemma TwoAreOneShort(c: Cast)
    requires Apart(c)
    ensures OneShort(HalfPriced(c, Lent(c, 2)), c.borrower, CollateralFactor)
  {
    LentReads(c, 2);
    OneEntry(c, Lent(c, 2), 2, CollateralFactor);
    DebtOnly(c.v, 2, EXP_SCALE, HALF, NO_CHANGE);
  }

  /**
   * The bound of one unit is met: in a pool's own run two borrows of half a unit's worth are admitted, and leave one
   * short.
   */
  lemma ShortfallOfOneHappens(c: Cast)
    requires Apart(c)
    ensures var p := RunPool(Registered(), Openings(c) + [BorrowOne(c)]);
            var q := Borrow(p, c.v, c.borrower, 1);
            q.Ok? && OneShort(q.value, c.borrower, CollateralFactor)
  {
    OneBorrowed(c);
    HalfPricedBorrow(c, 1);
    TwoAreOneShort(c);
  }

  // ------------------------------------------------------------ no way out

  /** Two accruals at half a unit a slot: the debt of one has grown to two, the recorded total has not. */
  function Drift(c: Cast): seq<PoolOp> {
    [Act(InMarket(c.v, L.Accrue(1, HALF))), Act(InMarket(c.v, L.Accrue(2, HALF)))]
  }

  function Accrued(c: Cast, now: nat, index: nat): L.Market {
    Lent(c, 1).(accrualSlot := now, reduceReservesSlot := now, borrowIndex := index)
  }

  /** In one slot at half a unit the index grows by half, a debt of one by nothing. */
  lemma HalfGrowth(index: nat)
    requires index <= 3 * EXP_SCALE
    ensures Mul(HALF, 1) == Ok(HALF) && MulScalarTruncate(HALF, 1) == Ok(0)
    ensures MulScalarTruncateAddUInt(0, 0, 0) == Ok(0)
    ensures MulScalarTruncateAddUInt(HALF, index, index) == Ok(index + index / 2)
  {
    assert HALF * index == index * HALF && EXP_SCALE == 2 * HALF;
    FloorsUnique(MulScalarTruncate(HALF, index).value, index / 2, HALF * index, EXP_SCALE);
  }

  lemma AccruesOnce(c: Cast)
    ensures L.AccrueInterest(Lent(c, 1), 1, HALF) == Ok(Accrued(c, 1, 3 * HALF))
  {
    HalfGrowth(EXP_SCALE);
  }

  lemma AccruesAgain(c: Cast)
    ensures L.AccrueInterest(Accrued(c, 1, 3 * HALF), 2, HALF) == Ok(Accrued(c, 2, 9 * HALF / 2))
  {
    HalfGrowth(3 * HALF);
  }

  lemma AccruesInPool(c: Cast, ledger: L.Market, now: nat, accrued: L.Market)
    requires L.AccrueInterest(ledger, now, HALF) == Ok(accrued)
    ensures MarketStep(HalfPriced(c, ledger), InMarket(c.v, L.Accrue(now, HALF))) == Ok(HalfPriced(c, accrued))
  {
    assert L.Step(ledger, L.Accrue(now, HALF)) == Ok(accrued);
    assert WithLedger(HalfPriced(c, ledger), c.v, accrued) == HalfPriced(c, accrued);
  }

  lemma DriftSteps(c: Cast)
    ensures RunPool(HalfPriced(c, Lent(c, 1)), Drift(c)) == HalfPriced(c, Accrued(c, 2, 9 * HALF / 2))
  {
    var once, again := Accrued(c, 1, 3 * HALF), Accrued(c, 2, 9 * HALF / 2);
    AccruesOnce(c);
    AccruesInPool(c, Lent(c, 1), 1, once);
    Acted(HalfPriced(c, Lent(c, 1)), Drift(c), HalfPriced(c, once));
    AccruesAgain(c);
    AccruesInPool(c, once, 2, again);
    Acted(HalfPriced(c, once), Drift(c)[1..], HalfPriced(c, again));
    assert Drift(c)[1..][1..] == [];
  }

  lemma Drifts(c: Cast)
    requires Apart(c)
    ensures RunPool(Registered(), Openings(c) + [BorrowOne(c)] + Drift(c)) == HalfPriced(c, Accrued(c, 2, 9 * HALF / 2))
  {
    OneBorrowed(c);
    RunOn(Registered(), Openings(c) + [BorrowOne(c)], Drift(c));
    DriftSteps(c);
  }

  lemma DriftedReads(c: Cast)
    ensures var s := Accrued(c, 2, 9 * HALF / 2);
            && L.BorrowBalanceStored(s, c.borrower) == Ok(2) && L.ExchangeRateStored(s) == Ok(EXP_SCALE)
            && s.totalBorrows == 1
  {
  }

  lemma DriftedHealReverts(c: Cast, liquidator: Address, lost: map<Address, nat>)
    requires Apart(c)
    ensures HealMarkets(HalfPriced(c, Accrued(c, 2, 9 * HALF / 2)), [c.v], liquidator, c.borrower, 0, lost) ==
            Revert(ArithmeticPanic)
  {
    var p := HalfPriced(c, Accrued(c, 2, 9 * HALF / 2));
    DriftedReads(c);
    assert [c.v][..0] == [] && HealMarkets(p, [], liquidator, c.borrower, 0, lost) == Ok(p);
    assert HealMarket(p, c.v, liquidator, c.borrower, 0, Get(lost, c.v)) == Revert(ArithmeticPanic);
  }

  /** The guard of healing passes and asks for nothing, and neither way out can be taken. */
  ghost predicate Stuck(p: Pool, account: Address) {
    && OneShort(p, account, LiquidationThreshold)
    && HealPercentage(Current(Entries(p, account, LiquidationThreshold)).value, p.liquidationIncentive,
                      p.minLiquidatableCollateral) == Ok(0)
    && (forall liquidator, lost :: HealAccount(p, liquidator, account, lost) == Revert(ArithmeticPanic))
    && (forall liquidator, orders :: LiquidateAccount(p, liquidator, account, orders) == Revert(InsufficientCollateral))
  }

  lemma DriftedIsStuck(c: Cast)
    requires Apart(c)
    ensures Stuck(HalfPriced(c, Accrued(c, 2, 9 * HALF / 2)), c.borrower)
  {
    var ledger := Accrued(c, 2, 9 * HALF / 2);
    var p := HalfPriced(c, ledger);
    DriftedReads(c);
    OneEntry(c, ledger, 2, LiquidationThreshold);
    DriftedSnapshot(c);
    DriftedGuards(Current(Entries(p, c.borrower, LiquidationThreshold)).value);
    forall liquidator, lost: map<Address, nat>
      ensures HealAccount(p, liquidator, c.borrower, lost) == Revert(ArithmeticPanic)
    {
      DriftedHealReverts(c, liquidator, lost);
    }
  }

  lemma DriftedSnapshot(c: Cast)
    requires Apart(c)
    ensures Current([Entry(c.v, Ok(Asset(0, 2, EXP_SCALE, HALF, 0)))]) ==
            Ok(AccountLiquiditySnapshot(Totals(0, 0, 1, 0), 0, 1))
  {
    DebtOnly(c.v, 2, EXP_SCALE, HALF, NO_CHANGE);
    assert Trunc(HALF, 2) == 1;
  }

  lemma DriftedGuards(s: AccountLiquiditySnapshot)
    requires s == AccountLiquiditySnapshot(Totals(0, 0, 1, 0), 0, 1)
    ensures HealPercentage(s, EXP_SCALE, 0) == Ok(0)
    ensures LiquidateGuard(s, EXP_SCALE, 0) == Revert(InsufficientCollateral)
  {
    TruncIs(EXP_SCALE, 1);
    TruncIs(1, EXP_SCALE);
  }

  /**
   * Passing the guard is not enough: a pool's own run leaves an account in shortfall for which the guard of healing
   * passes, and still no one can heal it, and no list of orders liquidates it in full.
   */
  lemma NoWayOutHappens(c: Cast)
    requires Apart(c)
    ensures var p := RunPool(Registered(), Openings(c) + [BorrowOne(c)] + Drift(c));
            PoolInv(p) && Stuck(p, c.borrower)
  {
    KeptFromRegistration(Openings(c) + [BorrowOne(c)] + Drift(c));
    Drifts(c);
    DriftedIsStuck(c);
  }
}
