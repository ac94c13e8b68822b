/** What every run of a whole pool keeps. */
module ComptrollerRuns {
  import opened Evm
  import opened ExponentialNoError
  import opened Sums
  import L = VTokenLedger
  import opened VTokenRuns
  import opened VTokenRates
  import opened Liquidity
  import opened ComptrollerPool
  import opened ComptrollerSafety
  import opened ComptrollerExits

  /** Steps that touch lists, factors and numbers, and no ledger but a new one. */
  datatype Configuration =
    | Enter(v: Address, account: Address)
    | Exit(v: Address, account: Address)
    | Support(v: Address, now: nat, initialExchangeRate: nat, reserveFactor: nat, maxBorrowRate: nat)
    | Unlist(v: Address)
    | Factors(v: Address, collateralFactor: nat, liquidationThreshold: nat)
    | Incentive(incentive: nat)
    | Price(v: Address, price: nat)
    | BorrowCap(v: Address, cap: nat)
    | SupplyCap(v: Address, cap: nat)
    | CloseFactor(closeFactor: nat)
    | CollateralLimit(limit: nat)

  /** Steps of one market, the limited ones behind their hooks. */
  datatype MarketAction =
    | InMarket(v: Address, op: L.Op)
    | MintIn(v: Address, minter: Address, amount: nat, lost: nat)
    | BorrowFrom(v: Address, borrower: Address, amount: nat)
    | RedeemFrom(v: Address, redeemer: Address, tokens: nat, amount: nat)
    | TransferIn(v: Address, spender: Address, src: Address, dst: Address, tokens: nat)

  datatype Liquidation =
    | ToCloseFactor(liquidator: Address, borrower: Address, order: LiquidationOrder)
    | Forced(liquidator: Address, borrower: Address, order: LiquidationOrder)
    | InFull(liquidator: Address, borrower: Address, orders: seq<LiquidationOrder>)
    | Healing(liquidator: Address, borrower: Address, losses: map<Address, nat>)

  datatype PoolOp =
    | Configure(configuration: Configuration)
    | Act(action: MarketAction)
    | Liquidate(liquidation: Liquidation)

  /** Market entry points that the comptroller neither limits nor follows. */
  predicate Unchecked(op: L.Op) {
    !op.Mint? && !op.Borrow? && !op.Redeem? && !op.RedeemUnderlying? && !op.Transfer? && !op.Seize? && !op.Heal?
  }

  function LedgerStep(p: Pool, v: Address, op: L.Op): Result<Pool> {
    var _ :- Require(v in p.vTokens && Unchecked(op), MarketNotListed);
    var ledger :- L.Step(p.vTokens[v], op);
    Ok(WithLedger(p, v, ledger))
  }

  function SupportNew(p: Pool, v: Address, ledger: L.Market): Result<Pool> {
    var _ :- Require(v !in p.vTokens && ledger.reserveFactor <= L.MAX_RESERVE_FACTOR, SetReserveFactorBoundsCheck);
    SupportMarket(p, v, ledger)
  }

  function RedeemStep(p: Pool, v: Address, redeemer: Address, tokens: nat, amount: nat): Result<Pool> {
    var _ :- Require(tokens == 0 || amount == 0, InvalidInput);
    Redeem(p, v, redeemer, tokens, amount)
  }

  function ConfigurationStep(p: Pool, c: Configuration): Result<Pool> {
    match c
    case Enter(v, account) => AddToMarket(p, v, account)
    case Exit(v, account) => ExitMarket(p, v, account)
    case Support(v, now, rate, factor, cap) => SupportNew(p, v, L.Initial(now, rate, factor, cap))
    case Unlist(v) => UnlistMarket(p, v)
    case Factors(v, factor, threshold) => SetCollateralFactor(p, v, factor, threshold)
    case Incentive(incentive) => SetLiquidationIncentive(p, incentive)
    case Price(v, price) => Ok(p.(prices := p.prices[v := price]))
    case BorrowCap(v, cap) => Ok(p.(borrowCaps := p.borrowCaps[v := cap]))
    case SupplyCap(v, cap) => Ok(p.(supplyCaps := p.supplyCaps[v := cap]))
    case CloseFactor(closeFactor) => SetCloseFactor(p, closeFactor)
    case CollateralLimit(limit) => Ok(p.(minLiquidatableCollateral := limit))
  }

  function MarketStep(p: Pool, a: MarketAction): Result<Pool> {
    match a
    case InMarket(v, op) => LedgerStep(p, v, op)
    case MintIn(v, minter, amount, lost) => Mint(p, v, minter, amount, lost)
    case BorrowFrom(v, borrower, amount) => Borrow(p, v, borrower, amount)
    case RedeemFrom(v, redeemer, tokens, amount) => RedeemStep(p, v, redeemer, tokens, amount)
    case TransferIn(v, spender, src, dst, tokens) => Transfer(p, v, spender, src, dst, tokens)
  }

  function LiquidationStep(p: Pool, l: Liquidation): Result<Pool> {
    match l
    case ToCloseFactor(liquidator, borrower, order) => LiquidateBorrow(p, liquidator, borrower, order)
    case Forced(liquidator, borrower, order) => ExecuteOrder(p, liquidator, borrower, order)
    case InFull(liquidator, borrower, orders) => LiquidateAccount(p, liquidator, borrower, orders)
    case Healing(liquidator, user, lost) => HealAccount(p, liquidator, user, lost)
  }

  function PoolStep(p: Pool, op: PoolOp): Result<Pool> {
    match op
    case Configure(c) => ConfigurationStep(p, c)
    case Act(a) => MarketStep(p, a)
    case Liquidate(l) => LiquidationStep(p, l)
  }

  function ApplyPool(p: Pool, op: PoolOp): Pool {
    match PoolStep(p, op)
    case Ok(q) => q
    case Revert(_) => p
  }

  function RunPool(p: Pool, ops: seq<PoolOp>): Pool
    decreases |ops|
  {
    if ops == [] then p else RunPool(ApplyPool(p, ops[0]), ops[1..])
  }

  /** Every market is still there, and its rate fell only if its last token was burned. */
  ghost predicate RatesHold(p: Pool, q: Pool) {
    forall v :: v in p.vTokens ==>
      v in q.vTokens && Inv(p.vTokens[v]) && Inv(q.vTokens[v]) &&
      (q.vTokens[v].totalSupply == 0 || Rate(p.vTokens[v]) <= Rate(q.vTokens[v]))
  }

  // -------------------------------------------------- steps by their reach

  lemma SameLists(p: Pool, q: Pool)
    requires ListsAgree(p) && q.accountAssets == p.accountAssets
    requires forall v, a :: IsMember(q, v, a) <==> IsMember(p, v, a)
    ensures ListsAgree(q)
  {
    forall a ensures NoDuplicates(AssetsOf(q, a)) && forall v :: v in AssetsOf(q, a) <==> IsMember(q, v, a) {
      assert AssetsOf(q, a) == AssetsOf(p, a);
    }
  }

  lemma EnterKeeps(p: Pool, v: Address, account: Address, q: Pool)
    requires PoolInv(p) && AddToMarket(p, v, account) == Ok(q)
    ensures PoolInv(q) && q.vTokens == p.vTokens
  {
    EnterKeepsLists(p, v, account, q);
  }

  lemma LeaveKeeps(p: Pool, v: Address, account: Address, q: Pool)
    requires PoolInv(p) && LeaveMarket(p, v, account) == Ok(q)
    ensures PoolInv(q) && q.vTokens == p.vTokens
  {
    LeaveKeepsLists(p, v, account, q);
  }

  lemma UnlistKeeps(p: Pool, v: Address, q: Pool)
    requires PoolInv(p) && UnlistMarket(p, v) == Ok(q)
    ensures PoolInv(q) && q.vTokens == p.vTokens
  {
    SameLists(p, q);
  }

  lemma FactorsKeep(p: Pool, v: Address, factor: nat, threshold: nat, q: Pool)
    requires PoolInv(p) && SetCollateralFactor(p, v, factor, threshold) == Ok(q)
    ensures PoolInv(q) && q.vTokens == p.vTokens
  {
    SameLists(p, q);
  }

  /** Prices, caps and the incentive are no part of any list or ledger. */
  lemma NumbersKeep(p: Pool, q: Pool)
    requires PoolInv(p) && EXP_SCALE <= q.liquidationIncentive
    requires q == p.(prices := q.prices, borrowCaps := q.borrowCaps, supplyCaps := q.supplyCaps,
                     closeFactor := q.closeFactor, liquidationIncentive := q.liquidationIncentive,
                     minLiquidatableCollateral := q.minLiquidatableCollateral)
    ensures PoolInv(q) && q.vTokens == p.vTokens
  {
    SameLists(p, q);
  }

  lemma SupportKeeps(p: Pool, v: Address, ledger: L.Market, q: Pool)
    requires PoolInv(p) && SupportNew(p, v, ledger) == Ok(q) && Inv(ledger)
    ensures PoolInv(q) && q.vTokens == p.vTokens[v := ledger] && v !in p.vTokens
  {
    SameLists(p, q);
  }

  /** Steps that change ledgers and prices only. */
  lemma LedgersOnlyKeep(p: Pool, q: Pool)
    requires PoolInv(p) && q == p.(vTokens := q.vTokens, prices := q.prices) && q.vTokens.Keys == p.vTokens.Keys
    requires forall v :: v in q.vTokens ==> Inv(q.vTokens[v])
    ensures PoolInv(q)
  {
    SameLists(p, q);
  }

  lemma OneLedgerKeeps(p: Pool, v: Address, op: L.Op, ledger: L.Market)
    requires PoolInv(p) && v in p.vTokens && L.Step(p.vTokens[v], op) == Ok(ledger)
    ensures PoolInv(WithLedger(p, v, ledger)) && RatesHold(p, WithLedger(p, v, ledger))
  {
    RateFallsExactlyWhenEmptied(p.vTokens[v], op, ledger);
    LedgersOnlyKeep(p, WithLedger(p, v, ledger));
  }

  lemma BorrowIsAStep(s: L.Market, borrower: Address, amount: nat)
    ensures L.Step(s, L.Borrow(borrower, amount)) == L.BorrowFresh(s, borrower, amount)
  {
  }

  lemma BorrowKeeps(p: Pool, v: Address, borrower: Address, amount: nat, q: Pool)
    requires PoolInv(p) && Borrow(p, v, borrower, amount) == Ok(q)
    ensures PoolInv(q) && RatesHold(p, q)
  {
    var entered, ledger := BorrowSplits(p, v, borrower, amount, q);
    EnterKeeps(p, v, borrower, entered);
    BorrowIsAStep(entered.vTokens[v], borrower, amount);
    OneLedgerKeeps(entered, v, L.Borrow(borrower, amount), ledger);
    assert RatesHold(p, q) by { assert RatesHold(entered, q); }
  }

  lemma RedeemKeeps(p: Pool, v: Address, redeemer: Address, tokens: nat, amount: nat, q: Pool)
    requires PoolInv(p) && RedeemStep(p, v, redeemer, tokens, amount) == Ok(q)
    ensures PoolInv(q) && RatesHold(p, q)
  {
    var ledger := L.RedeemFresh(p.vTokens[v], redeemer, tokens, amount).value;
    OneLedgerKeeps(p, v, if tokens > 0 then L.Redeem(redeemer, tokens) else L.RedeemUnderlying(redeemer, amount),
                   ledger);
  }

  lemma MintInKeeps(p: Pool, v: Address, minter: Address, amount: nat, lost: nat, q: Pool)
    requires PoolInv(p) && Mint(p, v, minter, amount, lost) == Ok(q)
    ensures PoolInv(q) && RatesHold(p, q)
  {
    OneLedgerKeeps(p, v, L.Mint(minter, amount, lost), L.MintFresh(p.vTokens[v], minter, amount, lost).value);
  }

  lemma TransferKeeps(p: Pool, v: Address, spender: Address, src: Address, dst: Address, tokens: nat, q: Pool)
    requires PoolInv(p) && Transfer(p, v, spender, src, dst, tokens) == Ok(q)
    ensures PoolInv(q) && RatesHold(p, q)
  {
    OneLedgerKeeps(p, v, L.Transfer(spender, src, dst, tokens),
                   L.TransferTokens(p.vTokens[v], spender, src, dst, tokens).value);
  }

  lemma LiquidatedKeeps(p: Pool, q: Pool)
    requires PoolInv(p) && Liquidated(p, q)
    ensures PoolInv(q) && RatesHold(p, q)
  {
    LedgersOnlyKeep(p, q);
  }

  lemma HealKeeps(p: Pool, liquidator: Address, user: Address, lost: map<Address, nat>, q: Pool)
    requires PoolInv(p) && HealAccount(p, liquidator, user, lost) == Ok(q)
    ensures PoolInv(q) && RatesHold(p, q)
  {
    HealingSettlesTheAccount(p, liquidator, user, lost, q);
    forall v | v in q.vTokens ensures Inv(q.vTokens[v]) {
      if v in GetAssetsIn(p, user) { assert Kept(p.vTokens[v], q.vTokens[v]); }
    }
    LedgersOnlyKeep(p, q);
  }

  lemma LiquidateBorrowKeeps(p: Pool, liquidator: Address, borrower: Address, order: LiquidationOrder, q: Pool)
    requires PoolInv(p) && LiquidateBorrow(p, liquidator, borrower, order) == Ok(q)
    ensures PoolInv(q) && RatesHold(p, q)
  {
    var current := Refresh(p, order).value;
    RefreshLiquidates(p, order, current);
    RepayAndSeizeLiquidates(current, liquidator, borrower, order, q);
    LiquidatedTransitively(p, current, q);
    LiquidatedKeeps(p, q);
  }

  lemma ExecuteOrderKeeps(p: Pool, liquidator: Address, borrower: Address, order: LiquidationOrder, q: Pool)
    requires PoolInv(p) && ExecuteOrder(p, liquidator, borrower, order) == Ok(q)
    ensures PoolInv(q) && RatesHold(p, q)
  {
    OrderLiquidates(p, liquidator, borrower, order, q);
    LiquidatedKeeps(p, q);
  }

  lemma LiquidateAccountKeeps(p: Pool, liquidator: Address, borrower: Address, orders: seq<LiquidationOrder>, q: Pool)
    requires PoolInv(p) && LiquidateAccount(p, liquidator, borrower, orders) == Ok(q)
    ensures PoolInv(q) && RatesHold(p, q)
  {
    LiquidationSettlesWithoutBadDebt(p, liquidator, borrower, orders, q);
    LiquidatedKeeps(p, q);
  }

  // ------------------------------------------------------------ whole runs

  lemma LiquidationKeeps(p: Pool, l: Liquidation, q: Pool)
    requires PoolInv(p) && LiquidationStep(p, l) == Ok(q)
    ensures PoolInv(q) && RatesHold(p, q)
  {
    match l
    case ToCloseFactor(liquidator, borrower, order) => LiquidateBorrowKeeps(p, liquidator, borrower, order, q);
    case Forced(liquidator, borrower, order) => ExecuteOrderKeeps(p, liquidator, borrower, order, q);
    case InFull(liquidator, borrower, orders) => LiquidateAccountKeeps(p, liquidator, borrower, orders, q);
    case Healing(liquidator, user, lost) => HealKeeps(p, liquidator, user, lost, q);
  }

  lemma MarketActionKeeps(p: Pool, a: MarketAction, q: Pool)
    requires PoolInv(p) && MarketStep(p, a) == Ok(q)
    ensures PoolInv(q) && RatesHold(p, q)
  {
    match a
    case InMarket(v, op) => OneLedgerKeeps(p, v, op, L.Step(p.vTokens[v], op).value);
    case MintIn(v, minter, amount, lost) => MintInKeeps(p, v, minter, amount, lost, q);
    case BorrowFrom(v, borrower, amount) => BorrowKeeps(p, v, borrower, amount, q);
    case RedeemFrom(v, redeemer, tokens, amount) => RedeemKeeps(p, v, redeemer, tokens, amount, q);
    case TransferIn(v, spender, src, dst, tokens) => TransferKeeps(p, v, spender, src, dst, tokens, q);
  }

  lemma ConfigurationKeeps(p: Pool, c: Configuration, q: Pool)
    requires PoolInv(p) && ConfigurationStep(p, c) == Ok(q)
    ensures PoolInv(q) && forall v :: v in p.vTokens ==> v in q.vTokens && q.vTokens[v] == p.vTokens[v]
  {
    match c
    case Enter(v, account) => EnterKeeps(p, v, account, q);
    case Exit(v, account) => LeaveKeeps(p, v, account, q);
    case Support(v, now, rate, factor, cap) =>
      InitialInv(now, rate, factor, cap);
      SupportKeeps(p, v, L.Initial(now, rate, factor, cap), q);
    case Unlist(v) => UnlistKeeps(p, v, q);
    case Factors(v, factor, threshold) => FactorsKeep(p, v, factor, threshold, q);
    case _ => NumbersKeep(p, q);
  }

  lemma PoolStepKeeps(p: Pool, op: PoolOp, q: Pool)
    requires PoolInv(p) && PoolStep(p, op) == Ok(q)
    ensures PoolInv(q) && RatesHold(p, q)
  {
    match op
    case Configure(c) => ConfigurationKeeps(p, c, q);
    case Act(a) => MarketActionKeeps(p, a, q);
    case Liquidate(l) => LiquidationKeeps(p, l, q);
  }

  /** A market keeps at least one token at every state of the run in which it exists. */
  predicate NeverEmptiedIn(p: Pool, ops: seq<PoolOp>, v: Address)
    decreases |ops|
  {
    ops == [] ||
    var q := ApplyPool(p, ops[0]);
    (v in q.vTokens && q.vTokens[v].totalSupply != 0) && NeverEmptiedIn(q, ops[1..], v)
  }

  /**
   * Over every run of a pool - entering, leaving, supplying, borrowing, repaying, liquidating, healing, recovering, in
   * any markets and any order - lists and flags agree, books balance, and no market's rate falls while it has tokens.
   */
  lemma {:induction false} PoolRunKeeps(p: Pool, ops: seq<PoolOp>, v: Address)
    requires PoolInv(p) && v in p.vTokens && NeverEmptiedIn(p, ops, v)
    ensures var q := RunPool(p, ops);
            PoolInv(q) && v in q.vTokens && Inv(p.vTokens[v]) && Inv(q.vTokens[v]) &&
            Rate(p.vTokens[v]) <= Rate(q.vTokens[v])
    decreases |ops|
  {
    if ops != [] {
      if PoolStep(p, ops[0]).Ok? { PoolStepKeeps(p, ops[0], ApplyPool(p, ops[0])); }
      PoolRunKeeps(ApplyPool(p, ops[0]), ops[1..], v);
    }
  }

  lemma {:induction false} PoolRunKeepsInv(p: Pool, ops: seq<PoolOp>)
    requires PoolInv(p)
    ensures PoolInv(RunPool(p, ops))
    decreases |ops|
  {
    if ops != [] {
      if PoolStep(p, ops[0]).Ok? { PoolStepKeeps(p, ops[0], ApplyPool(p, ops[0])); }
      PoolRunKeepsInv(ApplyPool(p, ops[0]), ops[1..]);
    }
  }
}
