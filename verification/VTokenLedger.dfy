/** One lending market as a value: its storage, and what each entry point writes back or reverts with. */
module VTokenLedger {
  import opened Evm
  import opened ExponentialNoError
  import opened Sums

  datatype BorrowSnapshot = BorrowSnapshot(principal: nat, interestIndex: nat)

  /** `cash` is the market's own balance of the underlying token. */
  datatype Market = Market(
    cash: nat,
    totalBorrows: nat,
    totalReserves: nat,
    badDebt: nat,
    totalSupply: nat,
    borrowIndex: nat,
    accrualSlot: nat,
    reduceReservesSlot: nat,
    accountTokens: map<Address, nat>,
    accountBorrows: map<Address, BorrowSnapshot>,
    transferAllowances: map<(Address, Address), nat>,
    reserveFactor: nat,
    protocolSeizeShare: nat,
    initialExchangeRate: nat,
    maxBorrowRate: nat,
    reduceReservesDelta: nat)

  const DEFAULT_PROTOCOL_SEIZE_SHARE: nat := 50_000_000_000_000_000
  const MAX_RESERVE_FACTOR: nat := EXP_SCALE

  /** The storage `initialize` leaves behind. */
  function Initial(now: nat, initialExchangeRate: nat, reserveFactor: nat, maxBorrowRate: nat): Market {
    Market(0, 0, 0, 0, 0, EXP_SCALE, now, 0, map[], map[], map[],
           reserveFactor, DEFAULT_PROTOCOL_SEIZE_SHARE, initialExchangeRate, maxBorrowRate, 0)
  }

  /** What reaches the market when `amount` is sent and the token keeps `lost` of it. */
  function Delivered(amount: nat, lost: nat): nat {
    if lost <= amount then amount - lost else 0
  }

  // ---------------------------------------------------------------- views

  function ExchangeRateStored(s: Market): Result<nat> {
    if s.totalSupply == 0 then Ok(s.initialExchangeRate)
    else
      var cashPlusBorrows :- Add(s.cash, s.totalBorrows);
      var gross :- Add(cashPlusBorrows, s.badDebt);
      var net :- Sub(gross, s.totalReserves);
      MulDiv(net, EXP_SCALE, s.totalSupply)
  }

  function Snapshot(s: Market, account: Address): BorrowSnapshot {
    if account in s.accountBorrows then s.accountBorrows[account] else BorrowSnapshot(0, 0)
  }

  function BorrowBalanceStored(s: Market, account: Address): Result<nat> {
    var snapshot := Snapshot(s, account);
    if snapshot.principal == 0 then Ok(0)
    else MulDiv(snapshot.principal, s.borrowIndex, snapshot.interestIndex)
  }

  // ------------------------------------------------------------- interest

  function AccrueInterest(s: Market, now: nat, borrowRate: nat): Result<Market> {
    if s.accrualSlot == now then Ok(s)
    else
      var _ :- Require(borrowRate <= s.maxBorrowRate, BorrowRateAbsurdlyHigh);
      var slotDelta :- Sub(now, s.accrualSlot);
      var simpleInterestFactor :- Mul(borrowRate, slotDelta);
      var interestAccumulated :- MulScalarTruncate(simpleInterestFactor, s.totalBorrows);
      var totalBorrowsNew :- Add(interestAccumulated, s.totalBorrows);
      var totalReservesNew :- MulScalarTruncateAddUInt(s.reserveFactor, interestAccumulated, s.totalReserves);
      var borrowIndexNew :- MulScalarTruncateAddUInt(simpleInterestFactor, s.borrowIndex, s.borrowIndex);
      var accrued := s.(accrualSlot := now, borrowIndex := borrowIndexNew,
                        totalBorrows := totalBorrowsNew, totalReserves := totalReservesNew);
      var sinceReduction :- Sub(now, s.reduceReservesSlot);
      ReduceIfDue(accrued, now, sinceReduction)
  }

  /** Once enough slots have passed, the reserves are paid out as far as cash goes. */
  function ReduceIfDue(s: Market, now: nat, sinceReduction: nat): (r: Result<Market>)
    ensures r.Ok?
  {
    if sinceReduction < s.reduceReservesDelta then Ok(s)
    else
      ReduceReservesFresh(s.(reduceReservesSlot := now), if s.cash < s.totalReserves then s.cash else s.totalReserves)
  }

  function ReduceReservesFresh(s: Market, reduceAmount: nat): Result<Market> {
    if reduceAmount == 0 then Ok(s)
    else
      var _ :- Require(reduceAmount <= s.cash, ReduceReservesCashNotAvailable);
      var _ :- Require(reduceAmount <= s.totalReserves, ReduceReservesCashValidation);
      Ok(s.(totalReserves := s.totalReserves - reduceAmount, cash := s.cash - reduceAmount))
  }

  /** The public `reduceReserves`, after its accrual: at most one reduction a slot. */
  function ReduceReserves(s: Market, now: nat, reduceAmount: nat): Result<Market> {
    if s.reduceReservesSlot == now then Ok(s) else ReduceReservesFresh(s, reduceAmount)
  }

  function AddReserves(s: Market, amount: nat, lost: nat): Result<Market> {
    var cash :- Add(s.cash, Delivered(amount, lost));
    var totalReserves :- Add(s.totalReserves, Delivered(amount, lost));
    Ok(s.(cash := cash, totalReserves := totalReserves))
  }

  // -------------------------------------------------------------- supply

  function MintFresh(s: Market, minter: Address, mintAmount: nat, lost: nat): Result<Market> {
    var exchangeRate :- ExchangeRateStored(s);
    var actualMintAmount := Delivered(mintAmount, lost);
    var cash :- Add(s.cash, actualMintAmount);
    var mintTokens :- DivExp(actualMintAmount, exchangeRate);
    var totalSupply :- Add(s.totalSupply, mintTokens);
    var balanceAfter :- Add(Get(s.accountTokens, minter), mintTokens);
    Ok(s.(cash := cash, totalSupply := totalSupply, accountTokens := s.accountTokens[minter := balanceAfter]))
  }

  /** How many tokens pay for an amount of underlying: rounded up, but only from a nonzero rounded-down value. */
  function TokensForUnderlying(exchangeRate: nat, redeemAmount: nat): Result<nat> {
    var redeemTokens :- DivExp(redeemAmount, exchangeRate);
    // fits: the product is at most redeemAmount * EXP_SCALE
    var roundedAmount := redeemTokens * exchangeRate / EXP_SCALE;
    if roundedAmount != 0 && roundedAmount != redeemAmount then Add(redeemTokens, 1) else Ok(redeemTokens)
  }

  datatype Quote = Quote(tokens: nat, amount: nat)

  /** The tokens a redemption burns and what they pay; exactly one of the requests is nonzero on the entry points. */
  function RedeemQuote(s: Market, redeemTokensIn: nat, redeemAmountIn: nat): Result<Quote> {
    var exchangeRate :- ExchangeRateStored(s);
    var redeemTokens :- if redeemTokensIn > 0 then Ok(redeemTokensIn)
                        else TokensForUnderlying(exchangeRate, redeemAmountIn);
    var redeemAmount :- MulScalarTruncate(exchangeRate, redeemTokens);
    var _ :- Require(redeemAmount != 0, RedeemAmountIsZero);
    Ok(Quote(redeemTokens, redeemAmount))
  }

  function RedeemFresh(s: Market, redeemer: Address, redeemTokensIn: nat, redeemAmountIn: nat): Result<Market> {
    var q :- RedeemQuote(s, redeemTokensIn, redeemAmountIn);
    var available :- Sub(s.cash, s.totalReserves);
    var _ :- Require(q.amount <= available, RedeemTransferOutNotPossible);
    var totalSupply :- Sub(s.totalSupply, q.tokens);
    var balanceAfter :- Sub(Get(s.accountTokens, redeemer), q.tokens);
    Ok(s.(cash := s.cash - q.amount, totalSupply := totalSupply,
          accountTokens := s.accountTokens[redeemer := balanceAfter]))
  }

  /** What a spender may move of another account's tokens; its own it may all move. */
  function StartingAllowance(s: Market, spender: Address, src: Address): nat {
    if spender == src then MAX_UINT256 else Get(s.transferAllowances, (src, spender))
  }

  /** The largest word stands for an allowance that is not used up. */
  function TransferTokens(s: Market, spender: Address, src: Address, dst: Address, tokens: nat): Result<Market> {
    var _ :- Require(src != dst, TransferNotAllowed);
    var allowanceNew :- Sub(StartingAllowance(s, spender, src), tokens);
    var srcTokensNew :- Sub(Get(s.accountTokens, src), tokens);
    var dstTokensNew :- Add(Get(s.accountTokens, dst), tokens);
    Ok(s.(accountTokens := s.accountTokens[src := srcTokensNew][dst := dstTokensNew],
          transferAllowances := if StartingAllowance(s, spender, src) == MAX_UINT256 then s.transferAllowances
                                else s.transferAllowances[(src, spender) := allowanceNew]))
  }

  function Approve(s: Market, src: Address, spender: Address, amount: nat): Result<Market> {
    var _ :- Require(spender != Address(0), ZeroAddressNotAllowed);
    Ok(s.(transferAllowances := s.transferAllowances[(src, spender) := amount]))
  }

  function SeizeTokens(s: Market, liquidator: Address, borrower: Address, seizeTokens: nat,
                       incentive: nat): Result<Market> {
    var _ :- Require(borrower != liquidator, LiquidateSeizeLiquidatorIsBorrower);
    var numerator :- MulScalarTruncate(seizeTokens, s.protocolSeizeShare);
    var protocolSeizeTokens :- DivExp(numerator, incentive);
    var liquidatorSeizeTokens :- Sub(seizeTokens, protocolSeizeTokens);
    var exchangeRate :- ExchangeRateStored(s);
    var protocolSeizeAmount :- MulScalarTruncate(exchangeRate, protocolSeizeTokens);
    var totalSupply :- Sub(s.totalSupply, protocolSeizeTokens);
    var borrowerTokens :- Sub(Get(s.accountTokens, borrower), seizeTokens);
    var liquidatorTokens :- Add(Get(s.accountTokens, liquidator), liquidatorSeizeTokens);
    var _ :- Require(protocolSeizeAmount <= s.cash, TransferFailed);
    Ok(s.(cash := s.cash - protocolSeizeAmount, totalSupply := totalSupply,
          accountTokens := s.accountTokens[borrower := borrowerTokens][liquidator := liquidatorTokens]))
  }

  // -------------------------------------------------------------- borrows

  function WithBorrow(s: Market, borrower: Address, principal: nat): map<Address, BorrowSnapshot> {
    s.accountBorrows[borrower := BorrowSnapshot(principal, s.borrowIndex)]
  }

  function BorrowFresh(s: Market, borrower: Address, borrowAmount: nat): Result<Market> {
    var available :- Sub(s.cash, s.totalReserves);
    var _ :- Require(borrowAmount <= available, BorrowCashNotAvailable);
    var accountBorrowsPrev :- BorrowBalanceStored(s, borrower);
    var accountBorrowsNew :- Add(accountBorrowsPrev, borrowAmount);
    var totalBorrowsNew :- Add(s.totalBorrows, borrowAmount);
    Ok(s.(cash := s.cash - borrowAmount, totalBorrows := totalBorrowsNew,
          accountBorrows := WithBorrow(s, borrower, accountBorrowsNew)))
  }

  /** What a repayment of `repayAmount` asks the payer for. */
  function RepayAmountFinal(repayAmount: nat, accountBorrowsPrev: nat): nat {
    if repayAmount >= accountBorrowsPrev then accountBorrowsPrev else repayAmount
  }

  function RepayBorrowFresh(s: Market, borrower: Address, repayAmount: nat, lost: nat): Result<Market> {
    var accountBorrowsPrev :- BorrowBalanceStored(s, borrower);
    var actualRepayAmount := Delivered(RepayAmountFinal(repayAmount, accountBorrowsPrev), lost);
    var cash :- Add(s.cash, actualRepayAmount);
    var accountBorrowsNew :- Sub(accountBorrowsPrev, actualRepayAmount);
    var totalBorrowsNew :- Sub(s.totalBorrows, actualRepayAmount);
    Ok(s.(cash := cash, totalBorrows := totalBorrowsNew,
          accountBorrows := WithBorrow(s, borrower, accountBorrowsNew)))
  }

  /** Settles the whole debt: part is repaid, the rest becomes bad debt. */
  function HealBorrow(s: Market, borrower: Address, repayAmount: nat, lost: nat): Result<Market> {
    var accountBorrowsPrev :- BorrowBalanceStored(s, borrower);
    var actualRepayAmount := Delivered(repayAmount, lost);
    var cash :- if repayAmount == 0 then Ok(s.cash) else Add(s.cash, actualRepayAmount);
    var afterRepayment :- Sub(s.totalBorrows, actualRepayAmount);
    var badDebtDelta :- Sub(accountBorrowsPrev, actualRepayAmount);
    var badDebtNew :- if badDebtDelta == 0 then Ok(s.badDebt) else Add(s.badDebt, badDebtDelta);
    var totalBorrowsNew :- Sub(afterRepayment, badDebtDelta);
    Ok(s.(cash := cash, badDebt := badDebtNew, totalBorrows := totalBorrowsNew,
          accountBorrows := WithBorrow(s, borrower, 0)))
  }

  /** Auction proceeds reach the market, which then writes off as much bad debt. */
  function BadDebtRecovered(s: Market, recovered: nat): Result<Market> {
    var cash :- Add(s.cash, recovered);
    var _ :- Require(recovered <= s.badDebt, TooMuchRecovered);
    Ok(s.(cash := cash, badDebt := s.badDebt - recovered))
  }

  // -------------------------------------------------------- configuration

  function SetReserveFactor(s: Market, reserveFactor: nat): Result<Market> {
    var _ :- Require(reserveFactor <= MAX_RESERVE_FACTOR, SetReserveFactorBoundsCheck);
    Ok(s.(reserveFactor := reserveFactor))
  }

  function SetProtocolSeizeShare(s: Market, share: nat, incentive: nat): Result<Market> {
    var sharePlusOne :- Add(share, EXP_SCALE);
    var _ :- Require(sharePlusOne <= incentive, ProtocolSeizeShareTooBig);
    Ok(s.(protocolSeizeShare := share))
  }

  // ----------------------------------------------------------------- runs

  datatype Op =
    | Accrue(now: nat, borrowRate: nat)
    | Mint(minter: Address, mintAmount: nat, lost: nat)
    | Redeem(redeemer: Address, redeemTokens: nat)
    | RedeemUnderlying(redeemer: Address, redeemAmount: nat)
    | Transfer(spender: Address, src: Address, dst: Address, tokens: nat)
    | Allow(src: Address, spender: Address, amount: nat)
    | Borrow(borrower: Address, borrowAmount: nat)
    | RepayBorrow(borrower: Address, repayAmount: nat, lost: nat)
    | Seize(liquidator: Address, borrower: Address, seizeTokens: nat, incentive: nat)
    | Heal(borrower: Address, repayAmount: nat, lost: nat)
    | Reduce(now: nat, reduceAmount: nat)
    | Reserve(amount: nat, lost: nat)
    | Recover(recovered: nat)
    | Donate(amount: nat)
    | ReserveFactor(reserveFactor: nat)
    | SeizeShare(share: nat, incentive: nat)
    | ReductionDelta(delta: nat)

  function Step(s: Market, op: Op): Result<Market> {
    match op
    case Accrue(now, borrowRate) => AccrueInterest(s, now, borrowRate)
    case Mint(minter, amount, lost) => MintFresh(s, minter, amount, lost)
    case Redeem(redeemer, tokens) => RedeemFresh(s, redeemer, tokens, 0)
    case RedeemUnderlying(redeemer, amount) => RedeemFresh(s, redeemer, 0, amount)
    case Transfer(spender, src, dst, tokens) => TransferTokens(s, spender, src, dst, tokens)
    case Allow(src, spender, amount) => Approve(s, src, spender, amount)
    case Borrow(borrower, amount) => BorrowFresh(s, borrower, amount)
    case RepayBorrow(borrower, amount, lost) => RepayBorrowFresh(s, borrower, amount, lost)
    case Seize(liquidator, borrower, tokens, incentive) => SeizeTokens(s, liquidator, borrower, tokens, incentive)
    case Heal(borrower, amount, lost) => HealBorrow(s, borrower, amount, lost)
    case Reduce(now, amount) => ReduceReserves(s, now, amount)
    case Reserve(amount, lost) => AddReserves(s, amount, lost)
    case Recover(recovered) => BadDebtRecovered(s, recovered)
    case Donate(amount) => var cash :- Add(s.cash, amount); Ok(s.(cash := cash))
    case ReserveFactor(factor) => SetReserveFactor(s, factor)
    case SeizeShare(share, incentive) => SetProtocolSeizeShare(s, share, incentive)
    case ReductionDelta(delta) => var _ :- Require(delta > 0, InvalidInput); Ok(s.(reduceReservesDelta := delta))
  }

  /** A reverted step leaves the market as it was. */
  function Apply(s: Market, op: Op): Market {
    match Step(s, op)
    case Ok(t) => t
    case Revert(_) => s
  }

  function Run(s: Market, ops: seq<Op>): Market
    decreases |ops|
  {
    if ops == [] then s else Run(Apply(s, ops[0]), ops[1..])
  }
}
