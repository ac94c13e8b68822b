/** What each debt and transfer operation of a market moves, when it goes through, and what it leaves alone. */
module VTokenMoves {
  import opened Evm
  import opened ExponentialNoError
  import opened Sums
  import opened VTokenLedger
  import opened VTokenRuns

  ghost predicate OtherDebtsKept(s: Market, t: Market, borrower: Address) {
    t.borrowIndex == s.borrowIndex && forall a :: a != borrower ==> Snapshot(t, a) == Snapshot(s, a)
  }

  /** A debt recorded at the current index reads back as it was recorded. */
  lemma RecordedReadsBack(s: Market, borrower: Address, balance: nat)
    requires 0 < s.borrowIndex && balance * s.borrowIndex <= MAX_UINT256
    requires Snapshot(s, borrower) == BorrowSnapshot(balance, s.borrowIndex)
    ensures BorrowBalanceStored(s, borrower) == Ok(balance)
  {
    if balance != 0 {
      FloorsUnique(BorrowBalanceStored(s, borrower).value, balance, balance * s.borrowIndex, s.borrowIndex);
    }
  }

  /** A borrow goes through exactly when the cash above the reserves covers it and the books have room for it. */
  lemma BorrowMoves(s: Market, borrower: Address, amount: nat, balance: nat)
    requires Inv(s) && BorrowBalanceStored(s, borrower) == Ok(balance)
    ensures BorrowFresh(s, borrower, amount).Ok? <==>
              s.totalReserves + amount <= s.cash &&
              balance + amount <= MAX_UINT256 && s.totalBorrows + amount <= MAX_UINT256
    ensures BorrowFresh(s, borrower, amount).Ok? ==>
              var t := BorrowFresh(s, borrower, amount).value;
              && t == s.(cash := s.cash - amount, totalBorrows := s.totalBorrows + amount,
                         accountBorrows := t.accountBorrows)
              && OtherDebtsKept(s, t, borrower)
              && ((balance + amount) * s.borrowIndex <= MAX_UINT256 ==>
                  BorrowBalanceStored(t, borrower) == Ok(balance + amount))
  {
    if BorrowFresh(s, borrower, amount).Ok? && (balance + amount) * s.borrowIndex <= MAX_UINT256 {
      RecordedReadsBack(BorrowFresh(s, borrower, amount).value, borrower, balance + amount);
    }
  }

  /** A repayment takes no more than the debt; what arrives comes off the debt and off the recorded total alike. */
  lemma RepayMoves(s: Market, borrower: Address, amount: nat, lost: nat, balance: nat)
    requires Inv(s) && BorrowBalanceStored(s, borrower) == Ok(balance)
    ensures var paid := Delivered(if amount < balance then amount else balance, lost);
            var r := RepayBorrowFresh(s, borrower, amount, lost);
            && paid <= balance
            && (r.Ok? <==> paid <= s.totalBorrows && s.cash + paid <= MAX_UINT256)
            && (r.Ok? ==>
                 && r.value == s.(cash := s.cash + paid, totalBorrows := s.totalBorrows - paid,
                                  accountBorrows := r.value.accountBorrows)
                 && OtherDebtsKept(s, r.value, borrower)
                 && (balance * s.borrowIndex <= MAX_UINT256 ==>
                     BorrowBalanceStored(r.value, borrower) == Ok(balance - paid)))
  {
    var paid := Delivered(if amount < balance then amount else balance, lost);
    if RepayBorrowFresh(s, borrower, amount, lost).Ok? && balance * s.borrowIndex <= MAX_UINT256 {
      Grow(balance - paid, balance, s.borrowIndex);
      RecordedReadsBack(RepayBorrowFresh(s, borrower, amount, lost).value, borrower, balance - paid);
    }
  }

  /** Healing ends the debt: what arrives comes off the total as repaid, the rest of the debt moves to bad debt. */
  lemma HealMoves(s: Market, borrower: Address, amount: nat, lost: nat, balance: nat)
    requires Inv(s) && BorrowBalanceStored(s, borrower) == Ok(balance)
    ensures var paid, r := Delivered(amount, lost), HealBorrow(s, borrower, amount, lost);
            r.Ok? <==> && paid <= balance <= s.totalBorrows
                       && (amount != 0 ==> s.cash + paid <= MAX_UINT256)
                       && (paid < balance ==> s.badDebt + (balance - paid) <= MAX_UINT256)
    ensures HealBorrow(s, borrower, amount, lost).Ok? ==>
              var paid, t := Delivered(amount, lost), HealBorrow(s, borrower, amount, lost).value;
              && paid <= balance && t.cash == s.cash + paid && t.totalReserves == s.totalReserves
              && t.totalBorrows == s.totalBorrows - balance && t.badDebt == s.badDebt + (balance - paid)
              && t.accountTokens == s.accountTokens && Net(t) == Net(s)
              && OtherDebtsKept(s, t, borrower) && BorrowBalanceStored(t, borrower) == Ok(0)
  {
  }

  /**
   * An accrual adds the reserve factor's cut of the interest to the reserves; when a reduction is due it then pays out
   * the smaller of cash and reserves, so that one of them ends at zero.
   */
  lemma AccrualReserves(s: Market, now: nat, borrowRate: nat, t: Market)
    requires AccrueInterest(s, now, borrowRate) == Ok(t) && now != s.accrualSlot
    ensures var reserves := t.totalReserves + (s.cash - t.cash);
            && Floors(reserves - s.totalReserves, s.reserveFactor * (t.totalBorrows - s.totalBorrows), EXP_SCALE)
            && t.cash <= s.cash
            && if now - s.reduceReservesSlot < s.reduceReservesDelta
               then t.cash == s.cash && t.reduceReservesSlot == s.reduceReservesSlot
               else (t.cash == 0 || t.totalReserves == 0) && t.reduceReservesSlot == now
    ensures t.accrualSlot == now && s.reduceReservesSlot <= now && borrowRate <= s.maxBorrowRate
  {
  }

  /**
   * An accrual goes through exactly when its rate is not absurd, neither the accrual nor the reduction of reserves lies
   * in the future, and interest, index and cut fit.
   */
  lemma AccruesExactly(s: Market, now: nat, borrowRate: nat)
    requires now != s.accrualSlot
    ensures var factor := borrowRate * (now - s.accrualSlot);
            AccrueInterest(s, now, borrowRate).Ok? <==>
              && borrowRate <= s.maxBorrowRate && s.accrualSlot <= now && s.reduceReservesSlot <= now
              && factor <= MAX_UINT256 && factor * s.totalBorrows <= MAX_UINT256
              && var interest := factor * s.totalBorrows / EXP_SCALE;
                 && interest + s.totalBorrows <= MAX_UINT256
                 && s.reserveFactor * interest <= MAX_UINT256
                 && s.reserveFactor * interest / EXP_SCALE + s.totalReserves <= MAX_UINT256
                 && factor * s.borrowIndex <= MAX_UINT256
                 && factor * s.borrowIndex / EXP_SCALE + s.borrowIndex <= MAX_UINT256
  {
    if s.accrualSlot <= now {
      var factor := borrowRate * (now - s.accrualSlot);
      TruncatesTo(factor, s.totalBorrows);
      TruncatesTo(factor, s.borrowIndex);
      TruncatesTo(s.reserveFactor, factor * s.totalBorrows / EXP_SCALE);
    }
  }

  // ------------------------------------------------------ supply and cash

  /** A mint goes through exactly when the rate is positive and there is room; the minter gets what its payment buys. */
  lemma MintMoves(s: Market, minter: Address, amount: nat, lost: nat, rate: nat)
    requires ExchangeRateStored(s) == Ok(rate)
    ensures var paid, r := Delivered(amount, lost), MintFresh(s, minter, amount, lost);
            var minted := if rate == 0 then 0 else paid * EXP_SCALE / rate;
            && (r.Ok? <==> && rate != 0 && s.cash + paid <= MAX_UINT256 && paid * EXP_SCALE <= MAX_UINT256
                           && s.totalSupply + minted <= MAX_UINT256
                           && Get(s.accountTokens, minter) + minted <= MAX_UINT256)
            && (r.Ok? ==>
                  r.value == s.(cash := s.cash + paid, totalSupply := s.totalSupply + minted,
                                accountTokens := s.accountTokens[minter := Get(s.accountTokens, minter) + minted]))
  {
    var paid := Delivered(amount, lost);
    if rate != 0 && paid * EXP_SCALE <= MAX_UINT256 {
      DivFloors(paid * EXP_SCALE, rate);
      FloorsUnique(DivExp(paid, rate).value, paid * EXP_SCALE / rate, paid * EXP_SCALE, rate);
    }
  }

  /**
   * A redemption of tokens goes through exactly when they are worth something, the redeemer has them, and the cash
   * above the reserves pays for them.
   */
  lemma RedeemMoves(s: Market, redeemer: Address, tokens: nat, rate: nat)
    requires ExchangeRateStored(s) == Ok(rate) && 0 < tokens
    ensures var paid, r := rate * tokens / EXP_SCALE, RedeemFresh(s, redeemer, tokens, 0);
            && (r.Ok? <==> && rate * tokens <= MAX_UINT256 && 0 < paid && s.totalReserves + paid <= s.cash
                           && tokens <= s.totalSupply && tokens <= Get(s.accountTokens, redeemer))
            && (r.Ok? ==>
                  r.value == s.(cash := s.cash - paid, totalSupply := s.totalSupply - tokens,
                                accountTokens := s.accountTokens[redeemer := Get(s.accountTokens, redeemer) - tokens]))
  {
    TruncatesTo(rate, tokens);
  }

  /** The tokens for an amount: its quotient, and one more if that pays something but not the amount itself. */
  function TokensNeeded(rate: nat, amount: nat): nat
    requires rate != 0
  {
    var rounded := amount * EXP_SCALE / rate;
    if rounded * rate / EXP_SCALE == 0 || rounded * rate / EXP_SCALE == amount then rounded else rounded + 1
  }

  /** A redemption of an amount is a redemption of the tokens it needs, if it needs any. */
  lemma RedeemUnderlyingMoves(s: Market, redeemer: Address, amount: nat, rate: nat)
    requires ExchangeRateStored(s) == Ok(rate) && rate != 0
    ensures var needed, r := TokensNeeded(rate, amount), RedeemFresh(s, redeemer, 0, amount);
            && (r.Ok? <==> && amount * EXP_SCALE <= MAX_UINT256 && needed <= MAX_UINT256 && 0 < needed
                           && RedeemFresh(s, redeemer, needed, 0).Ok?)
            && (r.Ok? ==> r == RedeemFresh(s, redeemer, needed, 0))
  {
    if amount * EXP_SCALE <= MAX_UINT256 {
      var rounded := amount * EXP_SCALE / rate;
      DivFloors(amount * EXP_SCALE, rate);
      FloorsUnique(DivExp(amount, rate).value, rounded, amount * EXP_SCALE, rate);
      if TokensNeeded(rate, amount) == 0 { TruncatesTo(rate, 0); }
    }
  }

  /**
   * A transfer goes through exactly between two accounts, for tokens the one has, the other has room for and, where the
   * spender's allowance is limited, the allowance covers; then it lowers a limited allowance by exactly the tokens.
   */
  lemma TransferMoves(s: Market, spender: Address, src: Address, dst: Address, tokens: nat)
    ensures var allowance := Get(s.transferAllowances, (src, spender));
            var limited := spender != src && allowance != MAX_UINT256;
            var r := TransferTokens(s, spender, src, dst, tokens);
            && (r.Ok? <==> && src != dst && tokens <= (if limited then allowance else MAX_UINT256)
                           && tokens <= Get(s.accountTokens, src)
                           && Get(s.accountTokens, dst) + tokens <= MAX_UINT256)
            && (r.Ok? ==>
                  && r.value == s.(accountTokens := r.value.accountTokens,
                                   transferAllowances := r.value.transferAllowances)
                  && Get(r.value.accountTokens, src) == Get(s.accountTokens, src) - tokens
                  && Get(r.value.accountTokens, dst) == Get(s.accountTokens, dst) + tokens
                  && (forall a :: a != src && a != dst ==> Get(r.value.accountTokens, a) == Get(s.accountTokens, a))
                  && Get(r.value.transferAllowances, (src, spender)) == allowance - (if limited then tokens else 0)
                  && forall k ::
                       k != (src, spender) ==> Get(r.value.transferAllowances, k) == Get(s.transferAllowances, k))
  {
  }

  /**
   * Auction proceeds come in exactly up to the recorded bad debt, which falls by as much as cash rises: suppliers' net
   * assets stay, and no debt is recovered twice.
   */
  lemma RecoverMoves(s: Market, recovered: nat)
    ensures var r := BadDebtRecovered(s, recovered);
            && (r.Ok? <==> recovered <= s.badDebt && s.cash + recovered <= MAX_UINT256)
            && (r.Ok? ==> r.value == s.(cash := s.cash + recovered, badDebt := s.badDebt - recovered) &&
                          Net(r.value) == Net(s))
  {
  }

  /** Over any run of recoveries alone the bad debt that is gone is the cash that came in. */
  lemma {:induction false} RecoveriesAddUp(s: Market, ops: seq<Op>)
    requires forall op :: op in ops ==> op.Recover?
    ensures var t := Run(s, ops);
            t.badDebt <= s.badDebt && t == s.(cash := s.cash + (s.badDebt - t.badDebt), badDebt := t.badDebt)
    decreases |ops|
  {
    if ops != [] {
      assert ops[0] in ops && forall op :: op in ops[1..] ==> op in ops;
      RecoverMoves(s, ops[0].recovered);
      RecoveriesAddUp(Apply(s, ops[0]), ops[1..]);
    }
  }

  /** Reserves are paid out of cash, within both and once a slot, and paid in as cash; net assets do not move. */
  lemma ReservesMove(s: Market, now: nat, paidOut: nat, paidIn: nat, lost: nat)
    ensures var out, arrived := ReduceReserves(s, now, paidOut), Delivered(paidIn, lost);
            && (out.Ok? <==> now == s.reduceReservesSlot || (paidOut <= s.cash && paidOut <= s.totalReserves))
            && (out.Ok? ==>
                  if now == s.reduceReservesSlot then out.value == s
                  else out.value == s.(cash := s.cash - paidOut, totalReserves := s.totalReserves - paidOut))
            && (AddReserves(s, paidIn, lost).Ok? <==>
                s.cash + arrived <= MAX_UINT256 && s.totalReserves + arrived <= MAX_UINT256)
            && (AddReserves(s, paidIn, lost).Ok? ==>
                  AddReserves(s, paidIn, lost).value ==
                  s.(cash := s.cash + arrived, totalReserves := s.totalReserves + arrived))
  {
  }

  /**
   * What a market can be given: a cut of at most everything, a seizure share within the surplus, a positive distance
   * between reductions.
   */
  lemma NumbersAreSet(s: Market, share: nat, incentive: nat, delta: nat)
    ensures Step(s, ReductionDelta(delta)) ==
            if 0 < delta then Ok(s.(reduceReservesDelta := delta)) else Revert(InvalidInput)
    ensures SetReserveFactor(s, share) ==
            if share <= EXP_SCALE then Ok(s.(reserveFactor := share)) else Revert(SetReserveFactorBoundsCheck)
    ensures SetProtocolSeizeShare(s, share, incentive).Ok? <==>
            share + EXP_SCALE <= incentive && share + EXP_SCALE <= MAX_UINT256
    ensures SetProtocolSeizeShare(s, share, incentive).Ok? ==>
              SetProtocolSeizeShare(s, share, incentive).value == s.(protocolSeizeShare := share)
  {
  }

  // ---------------------------------------------------------- allowances

  /** An approval replaces the one allowance it names, for any spender but the zero address. */
  lemma AllowsExactly(s: Market, src: Address, spender: Address, amount: nat)
    ensures var r := Approve(s, src, spender, amount);
            && (r.Ok? <==> spender != Address(0))
            && (r.Ok? ==>
                  && r.value == s.(transferAllowances := r.value.transferAllowances)
                  && Get(r.value.transferAllowances, (src, spender)) == amount
                  && forall k ::
                       k != (src, spender) ==> Get(r.value.transferAllowances, k) == Get(s.transferAllowances, k))
  {
  }

  /** What an accepted step moves of an owner's tokens on another account's word. */
  function Spent(s: Market, op: Op, owner: Address, spender: Address): nat {
    if op.Transfer? && op.src == owner && op.spender == spender && Step(s, op).Ok? then op.tokens else 0
  }

  function SpentOver(s: Market, ops: seq<Op>, owner: Address, spender: Address): nat
    decreases |ops|
  {
    if ops == [] then 0 else Spent(s, ops[0], owner, spender) + SpentOver(Apply(s, ops[0]), ops[1..], owner, spender)
  }

  /** What the owner allowed the spender over a run, every approval counted in full. */
  function Allowed(ops: seq<Op>, owner: Address, spender: Address): nat {
    if ops == [] then 0
    else
      (if ops[0].Allow? && ops[0].src == owner && ops[0].spender == spender then ops[0].amount else 0) +
      Allowed(ops[1..], owner, spender)
  }

  /** The owner never sets the allowance that is not used up. */
  predicate Limited(ops: seq<Op>, owner: Address, spender: Address) {
    forall op :: op in ops && op.Allow? && op.src == owner && op.spender == spender ==> op.amount < MAX_UINT256
  }

  lemma StepUsesAllowance(s: Market, op: Op, owner: Address, spender: Address)
    requires spender != owner && Get(s.transferAllowances, (owner, spender)) < MAX_UINT256
    requires Limited([op], owner, spender)
    ensures var now := Get(Apply(s, op).transferAllowances, (owner, spender));
            now < MAX_UINT256 &&
            now + Spent(s, op, owner, spender) <=
            Get(s.transferAllowances, (owner, spender)) + Allowed([op], owner, spender)
  {
    assert [op][1..] == [] && op in [op];
    if Step(s, op).Ok? && !op.Transfer? && !op.Allow? { OthersKeepAllowances(s, op, Apply(s, op)); }
  }

  lemma OthersKeepAllowances(s: Market, op: Op, t: Market)
    requires Step(s, op) == Ok(t) && !op.Transfer? && !op.Allow?
    ensures t.transferAllowances == s.transferAllowances
  {
    match op
    case Redeem(redeemer, tokens) => RedeemKeepsAllowances(s, redeemer, tokens, 0, t);
    case RedeemUnderlying(redeemer, amount) => RedeemKeepsAllowances(s, redeemer, 0, amount, t);
    case Accrue(now, borrowRate) => AccrualKeepsAllowances(s, now, borrowRate, t);
    case _ =>
  }

  lemma RedeemKeepsAllowances(s: Market, redeemer: Address, tokens: nat, amount: nat, t: Market)
    requires RedeemFresh(s, redeemer, tokens, amount) == Ok(t)
    ensures t.transferAllowances == s.transferAllowances
  {
  }

  lemma AccrualKeepsAllowances(s: Market, now: nat, borrowRate: nat, t: Market)
    requires AccrueInterest(s, now, borrowRate) == Ok(t)
    ensures t.transferAllowances == s.transferAllowances
  {
  }

  /**
   * Over every run a spender moves no more of an owner's tokens than the allowance it had and what the owner allowed it
   * since, as long as the owner never gives it the unlimited one.
   */
  lemma {:induction false} SpentWithinAllowance(s: Market, ops: seq<Op>, owner: Address, spender: Address)
    requires spender != owner && Get(s.transferAllowances, (owner, spender)) < MAX_UINT256
    requires Limited(ops, owner, spender)
    ensures SpentOver(s, ops, owner, spender) + Get(Run(s, ops).transferAllowances, (owner, spender)) <=
            Get(s.transferAllowances, (owner, spender)) + Allowed(ops, owner, spender)
    decreases |ops|
  {
    if ops != [] {
      assert Limited([ops[0]], owner, spender) by { assert ops[0] in ops; }
      StepUsesAllowance(s, ops[0], owner, spender);
      assert [ops[0]][1..] == [];
      assert forall op :: op in ops[1..] ==> op in ops;
      SpentWithinAllowance(Apply(s, ops[0]), ops[1..], owner, spender);
    }
  }
}
