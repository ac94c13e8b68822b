/** The market contract: storage updated in place, each entry point proved against its transition. */
module VToken {
  import opened Evm
  import opened ExponentialNoError
  import opened Sums
  import L = VTokenLedger
  import opened VTokenRuns

  class VToken {
    var cash: nat
    var totalBorrows: nat
    var totalReserves: nat
    var badDebt: nat
    var totalSupply: nat
    var borrowIndex: nat
    var accrualSlot: nat
    var reduceReservesSlot: nat
    var accountTokens: map<Address, nat>
    var accountBorrows: map<Address, L.BorrowSnapshot>
    var transferAllowances: map<(Address, Address), nat>
    var reserveFactor: nat
    var protocolSeizeShare: nat
    const initialExchangeRate: nat
    const maxBorrowRate: nat
    var reduceReservesDelta: nat

    function State(): L.Market
      reads this
    {
      L.Market(cash, totalBorrows, totalReserves, badDebt, totalSupply, borrowIndex, accrualSlot, reduceReservesSlot,
               accountTokens, accountBorrows, transferAllowances, reserveFactor, protocolSeizeShare,
               initialExchangeRate, maxBorrowRate, reduceReservesDelta)
    }

    constructor (now: nat, initialExchangeRate: nat, reserveFactor: nat, maxBorrowRate: nat)
      requires 0 < initialExchangeRate && reserveFactor <= L.MAX_RESERVE_FACTOR
      ensures State() == L.Initial(now, initialExchangeRate, reserveFactor, maxBorrowRate) && Inv(State())
    {
      cash, totalBorrows, totalReserves, badDebt, totalSupply := 0, 0, 0, 0, 0;
      borrowIndex, accrualSlot, reduceReservesSlot, reduceReservesDelta := EXP_SCALE, now, 0, 0;
      accountTokens, accountBorrows, transferAllowances := map[], map[], map[];
      this.reserveFactor, protocolSeizeShare := reserveFactor, L.DEFAULT_PROTOCOL_SEIZE_SHARE;
      this.initialExchangeRate, this.maxBorrowRate := initialExchangeRate, maxBorrowRate;
    }

    method AccrueInterest(now: nat, borrowRate: nat) returns (r: Result<()>)
      modifies this
      ensures Carried(L.AccrueInterest(old(State()), now, borrowRate), old(State()), State(), r)
    {
      if accrualSlot == now { return Ok(()); }
      var _ :- Require(borrowRate <= maxBorrowRate, BorrowRateAbsurdlyHigh);
      var slotDelta :- Sub(now, accrualSlot);
      var simpleInterestFactor :- Mul(borrowRate, slotDelta);
      var interestAccumulated :- MulScalarTruncate(simpleInterestFactor, totalBorrows);
      var totalBorrowsNew :- Add(interestAccumulated, totalBorrows);
      var totalReservesNew :- MulScalarTruncateAddUInt(reserveFactor, interestAccumulated, totalReserves);
      var borrowIndexNew :- MulScalarTruncateAddUInt(simpleInterestFactor, borrowIndex, borrowIndex);
      var sinceReduction :- Sub(now, reduceReservesSlot);
      accrualSlot := now;
      borrowIndex := borrowIndexNew;
      totalBorrows := totalBorrowsNew;
      totalReserves := totalReservesNew;
      r := ReduceIfDue(now, sinceReduction);
    }

    method ReduceIfDue(now: nat, sinceReduction: nat) returns (r: Result<()>)
      modifies this`cash, this`totalReserves, this`reduceReservesSlot
      ensures r.Ok? && L.ReduceIfDue(old(State()), now, sinceReduction) == Ok(State())
    {
      r := Ok(());
      if sinceReduction >= reduceReservesDelta {
        reduceReservesSlot := now;
        if cash < totalReserves {
          r := ReduceReservesFresh(cash);
        } else {
          r := ReduceReservesFresh(totalReserves);
        }
      }
    }

    method ReduceReservesFresh(reduceAmount: nat) returns (r: Result<()>)
      modifies this`cash, this`totalReserves
      ensures Carried(L.ReduceReservesFresh(old(State()), reduceAmount), old(State()), State(), r)
    {
      if reduceAmount == 0 { return Ok(()); }
      var _ :- Require(reduceAmount <= cash, ReduceReservesCashNotAvailable);
      var _ :- Require(reduceAmount <= totalReserves, ReduceReservesCashValidation);
      totalReserves := totalReserves - reduceAmount;
      cash := cash - reduceAmount;
      r := Ok(());
    }

    method ReduceReserves(now: nat, reduceAmount: nat) returns (r: Result<()>)
      modifies this`cash, this`totalReserves
      ensures Carried(L.ReduceReserves(old(State()), now, reduceAmount), old(State()), State(), r)
    {
      if reduceReservesSlot == now { return Ok(()); }
      r := ReduceReservesFresh(reduceAmount);
    }

    method AddReservesFresh(amount: nat, lost: nat) returns (r: Result<()>)
      modifies this`cash, this`totalReserves
      ensures Carried(L.AddReserves(old(State()), amount, lost), old(State()), State(), r)
    {
      var cashNew :- Add(cash, L.Delivered(amount, lost));
      var totalReservesNew :- Add(totalReserves, L.Delivered(amount, lost));
      cash := cashNew;
      totalReserves := totalReservesNew;
      r := Ok(());
    }

    method MintFresh(minter: Address, mintAmount: nat, lost: nat) returns (r: Result<()>)
      modifies this`cash, this`totalSupply, this`accountTokens
      ensures Carried(L.MintFresh(old(State()), minter, mintAmount, lost), old(State()), State(), r)
    {
      var exchangeRate :- L.ExchangeRateStored(State());
      var actualMintAmount := L.Delivered(mintAmount, lost);
      var cashNew :- Add(cash, actualMintAmount);
      var mintTokens :- DivExp(actualMintAmount, exchangeRate);
      var totalSupplyNew :- Add(totalSupply, mintTokens);
      var balanceAfter :- Add(Get(accountTokens, minter), mintTokens);
      cash := cashNew;
      totalSupply := totalSupplyNew;
      accountTokens := accountTokens[minter := balanceAfter];
      r := Ok(());
    }

    method RedeemFresh(redeemer: Address, redeemTokensIn: nat, redeemAmountIn: nat) returns (r: Result<()>)
      modifies this`cash, this`totalSupply, this`accountTokens
      ensures Carried(L.RedeemFresh(old(State()), redeemer, redeemTokensIn, redeemAmountIn), old(State()), State(), r)
    {
      var exchangeRate :- L.ExchangeRateStored(State());
      var redeemTokens := redeemTokensIn;
      if redeemTokensIn == 0 {
        redeemTokens :- DivExp(redeemAmountIn, exchangeRate);
        var roundedAmount := redeemTokens * exchangeRate / EXP_SCALE;
        if roundedAmount != 0 && roundedAmount != redeemAmountIn {
          redeemTokens :- Add(redeemTokens, 1);
        }
      }
      var redeemAmount :- MulScalarTruncate(exchangeRate, redeemTokens);
      var _ :- Require(redeemAmount != 0, RedeemAmountIsZero);
      var available :- Sub(cash, totalReserves);
      var _ :- Require(redeemAmount <= available, RedeemTransferOutNotPossible);
      var totalSupplyNew :- Sub(totalSupply, redeemTokens);
      var balanceAfter :- Sub(Get(accountTokens, redeemer), redeemTokens);
      totalSupply := totalSupplyNew;
      accountTokens := accountTokens[redeemer := balanceAfter];
      cash := cash - redeemAmount;
      r := Ok(());
    }

    method Approve(src: Address, spender: Address, amount: nat) returns (r: Result<()>)
      modifies this`transferAllowances
      ensures Carried(L.Approve(old(State()), src, spender, amount), old(State()), State(), r)
    {
      var _ :- Require(spender != Address(0), ZeroAddressNotAllowed);
      transferAllowances := transferAllowances[(src, spender) := amount];
      r := Ok(());
    }

    method TransferTokens(spender: Address, src: Address, dst: Address, tokens: nat) returns (r: Result<()>)
      modifies this`accountTokens, this`transferAllowances
      ensures Carried(L.TransferTokens(old(State()), spender, src, dst, tokens), old(State()), State(), r)
    {
      var _ :- Require(src != dst, TransferNotAllowed);
      var startingAllowance := MAX_UINT256;
      if spender != src { startingAllowance := Get(transferAllowances, (src, spender)); }
      var allowanceNew :- Sub(startingAllowance, tokens);
      var srcTokensNew :- Sub(Get(accountTokens, src), tokens);
      var dstTokensNew :- Add(Get(accountTokens, dst), tokens);
      accountTokens := accountTokens[src := srcTokensNew];
      accountTokens := accountTokens[dst := dstTokensNew];
      if startingAllowance != MAX_UINT256 {
        transferAllowances := transferAllowances[(src, spender) := allowanceNew];
      }
      r := Ok(());
    }

    method Seize(liquidator: Address, borrower: Address, seizeTokens: nat, incentive: nat) returns (r: Result<()>)
      modifies this`cash, this`totalSupply, this`accountTokens
      ensures Carried(L.SeizeTokens(old(State()), liquidator, borrower, seizeTokens, incentive), old(State()), State(),
                      r)
    {
      var _ :- Require(borrower != liquidator, LiquidateSeizeLiquidatorIsBorrower);
      var numerator :- MulScalarTruncate(seizeTokens, protocolSeizeShare);
      var protocolSeizeTokens :- DivExp(numerator, incentive);
      var liquidatorSeizeTokens :- Sub(seizeTokens, protocolSeizeTokens);
      var exchangeRate :- L.ExchangeRateStored(State());
      var protocolSeizeAmount :- MulScalarTruncate(exchangeRate, protocolSeizeTokens);
      var totalSupplyNew :- Sub(totalSupply, protocolSeizeTokens);
      var borrowerTokens :- Sub(Get(accountTokens, borrower), seizeTokens);
      var liquidatorTokens :- Add(Get(accountTokens, liquidator), liquidatorSeizeTokens);
      var _ :- Require(protocolSeizeAmount <= cash, TransferFailed);
      totalSupply := totalSupplyNew;
      accountTokens := accountTokens[borrower := borrowerTokens];
      accountTokens := accountTokens[liquidator := liquidatorTokens];
      cash := cash - protocolSeizeAmount;
      r := Ok(());
    }

    method BorrowFresh(borrower: Address, borrowAmount: nat) returns (r: Result<()>)
      modifies this`cash, this`totalBorrows, this`accountBorrows
      ensures Carried(L.BorrowFresh(old(State()), borrower, borrowAmount), old(State()), State(), r)
    {
      var available :- Sub(cash, totalReserves);
      var _ :- Require(borrowAmount <= available, BorrowCashNotAvailable);
      var accountBorrowsPrev :- L.BorrowBalanceStored(State(), borrower);
      var accountBorrowsNew :- Add(accountBorrowsPrev, borrowAmount);
      var totalBorrowsNew :- Add(totalBorrows, borrowAmount);
      accountBorrows := accountBorrows[borrower := L.BorrowSnapshot(accountBorrowsNew, borrowIndex)];
      totalBorrows := totalBorrowsNew;
      cash := cash - borrowAmount;
      r := Ok(());
    }

    method RepayBorrowFresh(borrower: Address, repayAmount: nat, lost: nat) returns (r: Result<()>)
      modifies this`cash, this`totalBorrows, this`accountBorrows
      ensures Carried(L.RepayBorrowFresh(old(State()), borrower, repayAmount, lost), old(State()), State(), r)
    {
      var accountBorrowsPrev :- L.BorrowBalanceStored(State(), borrower);
      var repayAmountFinal := repayAmount;
      if repayAmount >= accountBorrowsPrev { repayAmountFinal := accountBorrowsPrev; }
      var actualRepayAmount := L.Delivered(repayAmountFinal, lost);
      var cashNew :- Add(cash, actualRepayAmount);
      var accountBorrowsNew :- Sub(accountBorrowsPrev, actualRepayAmount);
      var totalBorrowsNew :- Sub(totalBorrows, actualRepayAmount);
      accountBorrows := accountBorrows[borrower := L.BorrowSnapshot(accountBorrowsNew, borrowIndex)];
      totalBorrows := totalBorrowsNew;
      cash := cashNew;
      r := Ok(());
    }

    method HealBorrow(borrower: Address, repayAmount: nat, lost: nat) returns (r: Result<()>)
      modifies this`cash, this`totalBorrows, this`badDebt, this`accountBorrows
      ensures Carried(L.HealBorrow(old(State()), borrower, repayAmount, lost), old(State()), State(), r)
    {
      var accountBorrowsPrev :- L.BorrowBalanceStored(State(), borrower);
      var totalBorrowsNew, cashNew, badDebtNew, actualRepayAmount := totalBorrows, cash, badDebt, 0;
      if repayAmount != 0 {
        actualRepayAmount := L.Delivered(repayAmount, lost);
        cashNew :- Add(cash, actualRepayAmount);
        totalBorrowsNew :- Sub(totalBorrowsNew, actualRepayAmount);
      }
      var badDebtDelta :- Sub(accountBorrowsPrev, actualRepayAmount);
      if badDebtDelta != 0 {
        badDebtNew :- Add(badDebt, badDebtDelta);
        totalBorrowsNew :- Sub(totalBorrowsNew, badDebtDelta);
      }
      badDebt := badDebtNew;
      accountBorrows := accountBorrows[borrower := L.BorrowSnapshot(0, borrowIndex)];
      totalBorrows := totalBorrowsNew;
      cash := cashNew;
      r := Ok(());
    }

    method BadDebtRecovered(recovered: nat) returns (r: Result<()>)
      modifies this`cash, this`badDebt
      ensures Carried(L.BadDebtRecovered(old(State()), recovered), old(State()), State(), r)
    {
      var cashNew :- Add(cash, recovered);
      var _ :- Require(recovered <= badDebt, TooMuchRecovered);
      cash := cashNew;
      badDebt := badDebt - recovered;
      r := Ok(());
    }
  }
}
