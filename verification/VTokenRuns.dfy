/** What every run of a market keeps: its books balance, and one token never loses value to rounding. */
module VTokenRuns {
  import opened Evm
  import opened ExponentialNoError
  import opened Sums
  import opened VTokenLedger

  /** The underlying that belongs to suppliers. */
  function Net(s: Market): int {
    s.cash + s.totalBorrows + s.badDebt - s.totalReserves
  }

  ghost predicate SnapshotsOrdered(s: Market) {
    forall a :: a in s.accountBorrows && s.accountBorrows[a].principal != 0 ==>
      0 < s.accountBorrows[a].interestIndex <= s.borrowIndex
  }

  ghost predicate Inv(s: Market) {
    && s.totalSupply == Sum(s.accountTokens)
    && 0 <= Net(s)
    && EXP_SCALE <= s.borrowIndex
    && SnapshotsOrdered(s)
    && s.reserveFactor <= MAX_RESERVE_FACTOR
  }

  lemma InitialInv(now: nat, initialExchangeRate: nat, reserveFactor: nat, maxBorrowRate: nat)
    requires reserveFactor <= MAX_RESERVE_FACTOR
    ensures Inv(Initial(now, initialExchangeRate, reserveFactor, maxBorrowRate))
  {
  }

  /** Interest never takes anything off a debt. */
  lemma BalanceAtLeastPrincipal(s: Market, account: Address)
    requires Inv(s) && BorrowBalanceStored(s, account).Ok?
    ensures Snapshot(s, account).principal <= BorrowBalanceStored(s, account).value
  {
    var debt := Snapshot(s, account);
    if debt.principal != 0 {
      Grow(debt.interestIndex, s.borrowIndex, debt.principal);
      FloorsAtLeast(debt.principal, BorrowBalanceStored(s, account).value, debt.principal * s.borrowIndex,
                    debt.interestIndex);
    }
  }

  // ------------------------------------------------------------- backing

  /** The exchange rate as a number, whatever its size. */
  function Rate(s: Market): nat
    requires 0 <= Net(s)
  {
    if s.totalSupply == 0 then s.initialExchangeRate else Net(s) * EXP_SCALE / s.totalSupply
  }

  lemma RateIsStored(s: Market)
    requires 0 <= Net(s) && ExchangeRateStored(s).Ok?
    ensures ExchangeRateStored(s).value == Rate(s)
  {
    if s.totalSupply != 0 {
      DivFloors(Net(s) * EXP_SCALE, s.totalSupply);
      FloorsUnique(ExchangeRateStored(s).value, Rate(s), Net(s) * EXP_SCALE, s.totalSupply);
    }
  }

  /** Every token is backed by at least `rate`. */
  predicate Backed(s: Market, rate: nat) {
    rate * s.totalSupply <= Net(s) * EXP_SCALE
  }

  lemma BackedAtRate(s: Market)
    requires 0 <= Net(s)
    ensures Backed(s, Rate(s))
  {
    if s.totalSupply != 0 { DivFloors(Net(s) * EXP_SCALE, s.totalSupply); }
  }

  lemma BackedGivesRate(s: Market, rate: nat)
    requires 0 <= Net(s) && s.totalSupply != 0 && Backed(s, rate)
    ensures rate <= Rate(s)
  {
    DivFloors(Net(s) * EXP_SCALE, s.totalSupply);
    FloorsAtLeast(rate, Rate(s), Net(s) * EXP_SCALE, s.totalSupply);
  }

  /** Paying out at most the rate for each token burned leaves the others backed. */
  lemma BurnKeepsBacking(rate: nat, supply: nat, net: int, burned: nat, paid: nat)
    requires rate * supply <= net * EXP_SCALE && burned <= supply && Floors(paid, rate * burned, EXP_SCALE)
    ensures rate * (supply - burned) <= (net - paid) * EXP_SCALE && paid <= net
  {
    assert rate * (supply - burned) == rate * supply - rate * burned;
    assert 0 <= rate * (supply - burned);
  }

  lemma MintKeepsBacking(rate: nat, supply: nat, net: int, paid: nat, minted: nat)
    requires rate * supply <= net * EXP_SCALE && Floors(minted, paid * EXP_SCALE, rate)
    ensures rate * (supply + minted) <= (net + paid) * EXP_SCALE
  {
    assert rate * (supply + minted) == rate * supply + minted * rate;
  }

  // ------------------------------------------------------ one-step effects

  /** How an accepted operation may change what suppliers own and how many tokens there are. */
  lemma StepKeepsBacking(s: Market, op: Op, t: Market)
    requires Inv(s) && Step(s, op) == Ok(t)
    ensures 0 <= Net(t) && Backed(t, Rate(s)) && t.initialExchangeRate == s.initialExchangeRate
  {
    BackedAtRate(s);
    match op
    case Accrue(now, borrowRate) => AccrualGrowsNet(s, now, borrowRate, t);
    case Mint(minter, amount, lost) => MintBacking(s, minter, amount, lost, t);
    case Redeem(redeemer, tokens) => RedeemBacking(s, redeemer, tokens, 0, t);
    case RedeemUnderlying(redeemer, amount) => RedeemBacking(s, redeemer, 0, amount, t);
    case Seize(liquidator, borrower, tokens, incentive) => SeizeBacking(s, liquidator, borrower, tokens, incentive, t);
    case _ => OthersKeepValue(s, op, t);
  }

  lemma OthersKeepValue(s: Market, op: Op, t: Market)
    requires !op.Accrue? && !op.Mint? && !op.Redeem? && !op.RedeemUnderlying? && !op.Seize?
    requires Step(s, op) == Ok(t)
    ensures Net(s) <= Net(t) && t.totalSupply == s.totalSupply && t.initialExchangeRate == s.initialExchangeRate
  {
  }

  /** What an accrual adds: interest and index growth by the same simple factor, a cut of the interest to reserves. */
  lemma AccrualFacts(s: Market, now: nat, borrowRate: nat, t: Market)
    requires AccrueInterest(s, now, borrowRate) == Ok(t) && now != s.accrualSlot
    ensures s.accrualSlot <= now && s.totalBorrows <= t.totalBorrows && s.borrowIndex <= t.borrowIndex
    ensures Floors(t.totalBorrows - s.totalBorrows, borrowRate * (now - s.accrualSlot) * s.totalBorrows, EXP_SCALE)
    ensures Floors(t.borrowIndex - s.borrowIndex, borrowRate * (now - s.accrualSlot) * s.borrowIndex, EXP_SCALE)
    ensures t.accountBorrows == s.accountBorrows
  {
  }

  lemma AccrualGrowsNet(s: Market, now: nat, borrowRate: nat, t: Market)
    requires Inv(s) && AccrueInterest(s, now, borrowRate) == Ok(t)
    ensures Net(s) <= Net(t) && t.totalSupply == s.totalSupply && t.initialExchangeRate == s.initialExchangeRate
  {
    if s.accrualSlot != now {
      var factor := Mul(borrowRate, now - s.accrualSlot).value;
      var interest := MulScalarTruncate(factor, s.totalBorrows).value;
      var reserves := MulScalarTruncateAddUInt(s.reserveFactor, interest, s.totalReserves).value;
      CutAtMostWhole(reserves - s.totalReserves, s.reserveFactor, interest);
    }
  }

  lemma CutAtMostWhole(cut: nat, factor: nat, whole: nat)
    requires factor <= EXP_SCALE && Floors(cut, factor * whole, EXP_SCALE)
    ensures cut <= whole
  {
    assert (EXP_SCALE - factor) * whole >= 0;
  }

  /** What a mint moves, in terms of the rate. */
  lemma MintFacts(s: Market, minter: Address, amount: nat, lost: nat, t: Market)
    requires 0 <= Net(s) && MintFresh(s, minter, amount, lost) == Ok(t)
    ensures t.cash == s.cash + Delivered(amount, lost) && Net(t) == Net(s) + Delivered(amount, lost)
    ensures s.totalSupply <= t.totalSupply && t.initialExchangeRate == s.initialExchangeRate
    ensures Floors(t.totalSupply - s.totalSupply, Delivered(amount, lost) * EXP_SCALE, Rate(s))
  {
    RateIsStored(s);
  }

  lemma MintBacking(s: Market, minter: Address, amount: nat, lost: nat, t: Market)
    requires Inv(s) && MintFresh(s, minter, amount, lost) == Ok(t) && Backed(s, Rate(s))
    ensures 0 <= Net(t) && Backed(t, Rate(s))
  {
    MintFacts(s, minter, amount, lost, t);
    MintKeepsBacking(Rate(s), s.totalSupply, Net(s), Delivered(amount, lost), t.totalSupply - s.totalSupply);
  }

  /** What a redemption moves, in terms of the rate. */
  lemma RedeemFacts(s: Market, redeemer: Address, tokens: nat, amount: nat, t: Market)
    requires 0 <= Net(s) && RedeemFresh(s, redeemer, tokens, amount) == Ok(t)
    ensures t.totalSupply <= s.totalSupply && t.cash < s.cash && Net(t) == Net(s) - (s.cash - t.cash)
    ensures tokens != 0 ==> t.totalSupply == s.totalSupply - tokens
    ensures t.initialExchangeRate == s.initialExchangeRate
    ensures Floors(s.cash - t.cash, Rate(s) * (s.totalSupply - t.totalSupply), EXP_SCALE)
  {
    RateIsStored(s);
  }

  lemma RedeemBacking(s: Market, redeemer: Address, tokens: nat, amount: nat, t: Market)
    requires Inv(s) && RedeemFresh(s, redeemer, tokens, amount) == Ok(t) && Backed(s, Rate(s))
    ensures 0 <= Net(t) && Backed(t, Rate(s))
  {
    RedeemFacts(s, redeemer, tokens, amount, t);
    BurnKeepsBacking(Rate(s), s.totalSupply, Net(s), s.totalSupply - t.totalSupply, s.cash - t.cash);
  }

  lemma SeizeBacking(s: Market, liquidator: Address, borrower: Address, tokens: nat, incentive: nat, t: Market)
    requires Inv(s) && SeizeTokens(s, liquidator, borrower, tokens, incentive) == Ok(t) && Backed(s, Rate(s))
    ensures 0 <= Net(t) && Backed(t, Rate(s))
  {
    RateIsStored(s);
    BurnKeepsBacking(Rate(s), s.totalSupply, Net(s), s.totalSupply - t.totalSupply, s.cash - t.cash);
  }

  // ------------------------------------------------------------ invariant

  /** Moving tokens between two accounts, some of them out of existence. */
  lemma TwoUpdates(m: map<Address, nat>, a: Address, b: Address, x: nat, y: nat)
    requires a != b
    ensures Sum(m[a := x][b := y]) == Sum(m) - Get(m, a) - Get(m, b) + x + y
  {
    SumUpdate(m, a, x);
    SumUpdate(m[a := x], b, y);
  }

  lemma MintSupply(s: Market, minter: Address, amount: nat, lost: nat, t: Market)
    requires Inv(s) && MintFresh(s, minter, amount, lost) == Ok(t)
    ensures t.totalSupply == Sum(t.accountTokens)
  {
    SumUpdate(s.accountTokens, minter, t.accountTokens[minter]);
  }

  lemma RedeemSupply(s: Market, redeemer: Address, tokens: nat, amount: nat, t: Market)
    requires Inv(s) && RedeemFresh(s, redeemer, tokens, amount) == Ok(t)
    ensures t.totalSupply == Sum(t.accountTokens)
  {
    SumUpdate(s.accountTokens, redeemer, t.accountTokens[redeemer]);
  }

  lemma TransferSupply(s: Market, spender: Address, src: Address, dst: Address, tokens: nat, t: Market)
    requires Inv(s) && TransferTokens(s, spender, src, dst, tokens) == Ok(t)
    ensures t.totalSupply == Sum(t.accountTokens)
  {
    TwoUpdates(s.accountTokens, src, dst, t.accountTokens[src], t.accountTokens[dst]);
  }

  lemma SeizeSupply(s: Market, liquidator: Address, borrower: Address, tokens: nat, incentive: nat, t: Market)
    requires Inv(s) && SeizeTokens(s, liquidator, borrower, tokens, incentive) == Ok(t)
    ensures t.totalSupply == Sum(t.accountTokens)
  {
    SeizeMoves(s, liquidator, borrower, tokens, incentive, t);
    TwoUpdates(s.accountTokens, borrower, liquidator, t.accountTokens[borrower], t.accountTokens[liquidator]);
  }

  /** What leaves the borrower reaches the liquidator or leaves the supply. */
  lemma SeizeMoves(s: Market, liquidator: Address, borrower: Address, tokens: nat, incentive: nat, t: Market)
    requires SeizeTokens(s, liquidator, borrower, tokens, incentive) == Ok(t)
    ensures borrower != liquidator && borrower in t.accountTokens && liquidator in t.accountTokens
    ensures var x, y := t.accountTokens[borrower], t.accountTokens[liquidator];
            t.accountTokens == s.accountTokens[borrower := x][liquidator := y]
    ensures t.accountTokens[borrower] - Get(s.accountTokens, borrower) +
            t.accountTokens[liquidator] - Get(s.accountTokens, liquidator)
         == t.totalSupply - s.totalSupply
  {
  }

  lemma OthersKeepTokens(s: Market, op: Op, t: Market)
    requires !op.Mint? && !op.Redeem? && !op.RedeemUnderlying? && !op.Transfer? && !op.Seize?
    requires Step(s, op) == Ok(t)
    ensures t.accountTokens == s.accountTokens && t.totalSupply == s.totalSupply
  {
  }

  lemma BalancesFollowSupply(s: Market, op: Op, t: Market)
    requires Inv(s) && Step(s, op) == Ok(t)
    ensures t.totalSupply == Sum(t.accountTokens)
  {
    match op
    case Mint(minter, amount, lost) => MintSupply(s, minter, amount, lost, t);
    case Redeem(redeemer, tokens) => RedeemSupply(s, redeemer, tokens, 0, t);
    case RedeemUnderlying(redeemer, amount) => RedeemSupply(s, redeemer, 0, amount, t);
    case Transfer(spender, src, dst, tokens) => TransferSupply(s, spender, src, dst, tokens, t);
    case Seize(liquidator, borrower, tokens, incentive) => SeizeSupply(s, liquidator, borrower, tokens, incentive, t);
    case _ => OthersKeepTokens(s, op, t);
  }

  lemma SnapshotsStayOrdered(s: Market, op: Op, t: Market)
    requires Inv(s) && Step(s, op) == Ok(t)
    ensures SnapshotsOrdered(t) && s.borrowIndex <= t.borrowIndex
  {
    match op
    case Accrue(_, _) =>
    case Borrow(_, _) =>
    case RepayBorrow(_, _, _) =>
    case Heal(_, _, _) =>
    case _ => OthersKeepDebts(s, op, t);
  }

  lemma OthersKeepDebts(s: Market, op: Op, t: Market)
    requires !op.Accrue? && !op.Borrow? && !op.RepayBorrow? && !op.Heal?
    requires Step(s, op) == Ok(t)
    ensures t.accountBorrows == s.accountBorrows && t.borrowIndex == s.borrowIndex && t.totalBorrows == s.totalBorrows
  {
  }

  lemma ReserveFactorBounded(s: Market, op: Op, t: Market)
    requires s.reserveFactor <= MAX_RESERVE_FACTOR && Step(s, op) == Ok(t)
    ensures t.reserveFactor <= MAX_RESERVE_FACTOR
  {
  }

  lemma StepKeepsInv(s: Market, op: Op, t: Market)
    requires Inv(s) && Step(s, op) == Ok(t)
    ensures Inv(t) && s.borrowIndex <= t.borrowIndex
  {
    StepKeepsBacking(s, op, t);
    BalancesFollowSupply(s, op, t);
    SnapshotsStayOrdered(s, op, t);
    ReserveFactorBounded(s, op, t);
  }

  /** In every reachable state the books balance. */
  lemma {:induction false} RunKeepsInv(s: Market, ops: seq<Op>)
    requires Inv(s)
    ensures Inv(Run(s, ops))
    decreases |ops|
  {
    if ops != [] {
      if Step(s, ops[0]).Ok? { StepKeepsInv(s, ops[0], Apply(s, ops[0])); }
      RunKeepsInv(Apply(s, ops[0]), ops[1..]);
    }
  }
}
