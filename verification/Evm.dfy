/** Addresses, checked unsigned 256-bit words, and the ways a call can revert. */
module Evm {

  datatype Address = Address(id: nat)

  datatype Option<+T> = None | Some(value: T)

  const MAX_UINT256: nat := 0xFFFFFFFF_FFFFFFFF_FFFFFFFF_FFFFFFFF_FFFFFFFF_FFFFFFFF_FFFFFFFF_FFFFFFFF

  datatype Error =
    | ArithmeticPanic | DivisionByZeroPanic
    // VToken
    | TransferFailed | RedeemAmountIsZero | RedeemTransferOutNotPossible | BorrowCashNotAvailable
    | BorrowRateAbsurdlyHigh | ReduceReservesCashNotAvailable | ReduceReservesCashValidation
    | TransferNotAllowed | LiquidateSeizeLiquidatorIsBorrower | TooMuchRecovered
    | SetReserveFactorBoundsCheck | InvalidInput | ProtocolSeizeShareTooBig | ZeroAddressNotAllowed
    | LiquidateLiquidatorIsBorrower | LiquidateCloseAmountIsZero | LiquidateCloseAmountIsUintMax | LiquidateSeizeTooMuch
    // Comptroller
    | MarketNotListed | MarketAlreadyListed | PriceError | InsufficientLiquidity | NonzeroBorrowBalance
    | BorrowCapExceeded | SupplyCapExceeded | CloseFactorOutOfBounds
    | InvalidCollateralFactor | InvalidLiquidationThreshold | InvalidLiquidationIncentive
    | MarketNotCollateral | CollateralExceedsThreshold | InsufficientShortfall | InsufficientCollateral
    | TooMuchRepay | UnlistNotAllowed | NonzeroBalanceAfterLiquidation | SnapshotError | MinimalCollateralViolated
    // Shortfall and TokenDebtTracker
    | AuctionRestarted | NoOngoingAuction | AuctionIsStale | AuctionNotStale | BidIsZero | BidAboveMaxBps
    | BidNotHighest | WaitingForNextBidder | AuctionsArePaused | AuctionOngoing | PoolBadDebtTooLow
    | InsufficientBalance | InsufficientDebt
    // RewardsDistributor
    | IndexExceeds224Bits | RewardingSlotInPast | RewardsLocked
    // TwoKinksInterestRateModel
    | NegativeValueNotAllowed | InvalidKink | InvalidBlocksPerYear
    // Governance commands
    | CommandFailed | NotConfigured | NotDeployed

  datatype Result<+T> = Ok(value: T) | Revert(error: Error) {
    predicate IsFailure() { Revert? }

    function PropagateFailure<U>(): Result<U>
      requires Revert?
    {
      Revert(error)
    }

    function Extract(): T
      requires Ok?
    {
      value
    }
  }

  function Require(condition: bool, error: Error): Result<()> {
    if condition then Ok(()) else Revert(error)
  }

  /** A transition was carried out, or it reverted and left no trace. */
  predicate Carried<S(==)>(transition: Result<S>, before: S, after: S, r: Result<()>) {
    match transition
    case Ok(s) => r.Ok? && after == s
    case Revert(e) => r == Revert(e) && after == before
  }

  predicate NoDuplicates<T(==)>(s: seq<T>) {
    forall i, j :: 0 <= i < j < |s| ==> s[i] != s[j]
  }

  /** `q` is `x / d` rounded down. */
  predicate Floors(q: int, x: int, d: int) {
    q * d <= x < q * d + d
  }

  function Add(a: nat, b: nat): Result<nat> {
    if a + b <= MAX_UINT256 then Ok(a + b) else Revert(ArithmeticPanic)
  }

  function Sub(a: nat, b: nat): Result<nat> {
    if b <= a then Ok(a - b) else Revert(ArithmeticPanic)
  }

  function Mul(a: nat, b: nat): Result<nat> {
    if a * b <= MAX_UINT256 then Ok(a * b) else Revert(ArithmeticPanic)
  }

  function Div(a: nat, b: nat): (r: Result<nat>)
    ensures r.Ok? <==> b != 0
    ensures r.Ok? ==> Floors(r.value, a, b)
  {
    if b == 0 then Revert(DivisionByZeroPanic)
    else
      DivFloors(a, b);
      Ok(a / b)
  }

  lemma DivFloors(a: nat, b: nat)
    requires b != 0
    ensures Floors(a / b, a, b) && a / b >= 0
  {
    assert a == (a / b) * b + a % b;
  }
}
