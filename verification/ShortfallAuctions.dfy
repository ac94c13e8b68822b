/**
 * The shortfall contract as a value: auctions of bad debt, the bids it holds in escrow, and debts to blocked receivers.
 */
module ShortfallAuctions {
  import opened Evm
  import opened ExponentialNoError
  import opened Sums
  import L = VTokenLedger

  const MAX_BPS: nat := 10_000

  datatype AuctionType = LargePoolDebt | LargeRiskFund

  datatype AuctionStatus = NotStarted | Started | Ended

  datatype Auction = Auction(
    startSlot: nat,
    auctionType: AuctionType,
    status: AuctionStatus,
    markets: seq<Address>,
    seizedRiskFund: nat,
    highestBidder: Option<Address>,
    highestBidBps: nat,
    highestBidSlot: nat,
    startBidBps: nat,
    marketDebt: map<Address, nat>,
    bidAmount: map<Address, nat>)

  const NO_AUCTION: Auction := Auction(0, LargePoolDebt, NotStarted, [], 0, None, 0, 0, 0, map[], map[])

  /**
   * `held` are the contract's own token balances, `sent` what it has transferred out to each receiver so far, `badDebt`
   * the bad debt each market records; debts and transfers are keyed by token and receiver.
   */
  datatype State = State(
    auctions: map<Address, Auction>,
    held: map<Address, nat>,
    tokenDebt: map<(Address, Address), nat>,
    totalTokenDebt: map<Address, nat>,
    sent: map<(Address, Address), nat>,
    badDebt: map<Address, nat>,
    underlying: map<Address, Address>,
    comptrollerOf: map<Address, Address>,
    baseAsset: Address,
    minimumPoolBadDebt: nat,
    incentiveBps: nat,
    nextBidderLimit: nat,
    waitForFirstBidder: nat,
    auctionsPaused: bool)

  const DEFAULT_INCENTIVE_BPS: nat := 1000

  /** The storage `initialize` leaves behind, over markets with the given underlying tokens, pools and bad debts. */
  function Initialized(minimumPoolBadDebt: nat, nextBidderLimit: nat, waitForFirstBidder: nat, baseAsset: Address,
                       underlying: map<Address, Address>, comptrollerOf: map<Address, Address>,
                       badDebt: map<Address, nat>): State {
    State(map[], map[], map[], map[], map[], badDebt, underlying, comptrollerOf, baseAsset, minimumPoolBadDebt,
          DEFAULT_INCENTIVE_BPS, nextBidderLimit, waitForFirstBidder, false)
  }

  function AuctionOf(s: State, comptroller: Address): Auction {
    if comptroller in s.auctions then s.auctions[comptroller] else NO_AUCTION
  }

  function TokenOf(underlying: map<Address, Address>, market: Address): Address {
    if market in underlying then underlying[market] else Address(0)
  }

  // ---------------------------------------------------- transfers and debt

  /** Sends `amount`, or records it as owed when the token refuses the receiver. */
  function TransferOutOrTrackDebt(s: State, token: Address, to: Address, amount: nat, accepted: bool): Result<State> {
    var _ :- Require(amount <= Get(s.held, token), InsufficientBalance);
    if accepted then
      Ok(s.(held := s.held[token := Get(s.held, token) - amount],
            sent := s.sent[(token, to) := Get(s.sent, (token, to)) + amount]))
    else
      var debt :- Add(Get(s.tokenDebt, (token, to)), amount);
      var total :- Add(Get(s.totalTokenDebt, token), amount);
      Ok(s.(tokenDebt := s.tokenDebt[(token, to) := debt], totalTokenDebt := s.totalTokenDebt[token := total]))
  }

  /** The largest word stands for the whole debt. */
  function ClaimTokenDebt(s: State, user: Address, token: Address, requested: nat): Result<State> {
    var owed := Get(s.tokenDebt, (token, user));
    var amount := if requested == MAX_UINT256 then owed else requested;
    var _ :- Require(amount <= owed, InsufficientDebt);
    var total :- Sub(Get(s.totalTokenDebt, token), amount);
    var _ :- Require(amount <= Get(s.held, token), TransferFailed);
    var debt, balance, received := owed - amount, Get(s.held, token) - amount, Get(s.sent, (token, user)) + amount;
    Ok(s.(tokenDebt := s.tokenDebt[(token, user) := debt], totalTokenDebt := s.totalTokenDebt[token := total],
          held := s.held[token := balance], sent := s.sent[(token, user) := received]))
  }

  // --------------------------------------------------------------- starting

  /** The bad debt of some markets in the unit of account. */
  function PoolBadDebt(s: State, markets: seq<Address>, prices: map<Address, nat>): Result<nat> {
    if markets == [] then Ok(0)
    else
      var before :- PoolBadDebt(s, markets[..|markets| - 1], prices);
      var m := markets[|markets| - 1];
      var usdValue :- MulDiv(Get(prices, m), Get(s.badDebt, m), EXP_SCALE);
      Add(before, usdValue)
  }

  datatype Terms = Terms(auctionType: AuctionType, startBidBps: nat, seizedRiskFund: nat)

  /** What is auctioned against what, from the pool's bad debt and the risk fund's value. */
  function AuctionTerms(poolBadDebt: nat, riskFundBalance: nat, incentiveBps: nat): Result<Terms> {
    var incentive :- MulDiv(poolBadDebt, incentiveBps, MAX_BPS);
    var badDebtPlusIncentive :- Add(poolBadDebt, incentive);
    if badDebtPlusIncentive >= riskFundBalance then
      var bpsPlusIncentive :- Add(MAX_BPS, incentiveBps);
      var denominator :- Mul(poolBadDebt, bpsPlusIncentive);
      var startBidBps :- MulDiv(MAX_BPS * MAX_BPS, riskFundBalance, denominator);
      Ok(Terms(LargePoolDebt, startBidBps, riskFundBalance))
    else
      Ok(Terms(LargeRiskFund, MAX_BPS, badDebtPlusIncentive))
  }

  function StartAuction(s: State, now: nat, comptroller: Address, markets: seq<Address>, prices: map<Address, nat>,
                        basePrice: nat, reserves: nat): Result<State>
  {
    var _ :- Require(!s.auctionsPaused, AuctionsArePaused);
    var a := AuctionOf(s, comptroller);
    var _ :- Require(a.status != Started, AuctionOngoing);
    var poolBadDebt :- PoolBadDebt(s, markets, prices);
    var _ :- Require(poolBadDebt >= s.minimumPoolBadDebt, PoolBadDebtTooLow);
    var riskFundBalance :- MulDiv(basePrice, reserves, EXP_SCALE);
    var terms :- AuctionTerms(poolBadDebt, riskFundBalance, s.incentiveBps);
    var started := Auction(now, terms.auctionType, Started, markets, terms.seizedRiskFund, None, 0, 0,
                           terms.startBidBps,
                           map m | m in markets :: Get(s.badDebt, m), a.bidAmount);
    Ok(s.(auctions := s.auctions[comptroller := started]))
  }

  // ---------------------------------------------------------------- bidding

  predicate IsStale(s: State, a: Auction, now: nat) {
    a.highestBidder.None? && now > a.startSlot + s.waitForFirstBidder
  }

  /** A larger part of the debt repaid, or a smaller part of the fund taken. */
  predicate Improves(a: Auction, bidBps: nat) {
    match a.auctionType
    case LargePoolDebt => if a.highestBidder.Some? then bidBps > a.highestBidBps else bidBps >= a.startBidBps
    case LargeRiskFund => if a.highestBidder.Some? then bidBps < a.highestBidBps else bidBps <= a.startBidBps
  }

  /** What a bid makes the bidder send for one market. */
  function BidFor(a: Auction, market: Address, bidBps: nat): Result<nat> {
    if a.auctionType.LargePoolDebt? then MulDiv(Get(a.marketDebt, market), bidBps, MAX_BPS)
    else Ok(Get(a.marketDebt, market))
  }

  datatype Collected = Collected(state: State, bidAmount: map<Address, nat>)

  /** Refunds the previous bid for one market and takes the new one; what arrives is what is recorded. */
  function CollectBid(k: Collected, a: Auction, bidBps: nat, m: Address, accepted: bool, lost: nat): Result<Collected> {
    var token := TokenOf(k.state.underlying, m);
    var s :- if a.highestBidder.None? then Ok(k.state)
             else TransferOutOrTrackDebt(k.state, token, a.highestBidder.value, Get(k.bidAmount, m), accepted);
    var currentBidAmount :- BidFor(a, m, bidBps);
    var received := L.Delivered(currentBidAmount, lost);
    var balance :- Add(Get(s.held, token), received);
    Ok(Collected(s.(held := s.held[token := balance]), k.bidAmount[m := received]))
  }

  /** How the tokens behave during a call: markets whose refund is refused, and what each transfer loses on the way. */
  datatype Tokens = Tokens(refused: set<Address>, lost: map<Address, nat>)

  function CollectBids(k: Collected, a: Auction, bidBps: nat, markets: seq<Address>,
                       tokens: Tokens): Result<Collected> {
    if markets == [] then Ok(k)
    else
      var before :- CollectBids(k, a, bidBps, markets[..|markets| - 1], tokens);
      var m := markets[|markets| - 1];
      CollectBid(before, a, bidBps, m, m !in tokens.refused, Get(tokens.lost, m))
  }

  function CheckBid(s: State, a: Auction, now: nat, bidBps: nat, startSlot: nat): Result<()> {
    var _ :- Require(a.startSlot == startSlot, AuctionRestarted);
    var _ :- Require(a.status == Started, NoOngoingAuction);
    var _ :- Require(!IsStale(s, a, now), AuctionIsStale);
    var _ :- Require(bidBps > 0, BidIsZero);
    var _ :- Require(bidBps <= MAX_BPS, BidAboveMaxBps);
    var _ :- Require(Improves(a, bidBps), BidNotHighest);
    Ok(())
  }

  function PlaceBid(s: State, now: nat, comptroller: Address, bidder: Address, bidBps: nat, startSlot: nat,
                    tokens: Tokens): Result<State>
  {
    var a := AuctionOf(s, comptroller);
    var _ :- CheckBid(s, a, now, bidBps, startSlot);
    var k :- CollectBids(Collected(s, a.bidAmount), a, bidBps, a.markets, tokens);
    Ok(k.state.(auctions := s.auctions[comptroller := a.(highestBidder := Some(bidder), highestBidBps := bidBps,
                                                         highestBidSlot := now, bidAmount := k.bidAmount)]))
  }

  // ---------------------------------------------------------------- closing

  /** Sends one market its bid and reports what arrived as recovered. */
  function SettleMarket(s: State, a: Auction, m: Address, lost: nat): Result<State> {
    var token := TokenOf(s.underlying, m);
    var amount := Get(a.bidAmount, m);
    var _ :- Require(amount <= Get(s.held, token), TransferFailed);
    var recovered := L.Delivered(amount, lost);
    var _ :- Require(recovered <= Get(s.badDebt, m), TooMuchRecovered);
    Ok(s.(held := s.held[token := Get(s.held, token) - amount],
          badDebt := s.badDebt[m := Get(s.badDebt, m) - recovered]))
  }

  function SettleMarkets(s: State, a: Auction, markets: seq<Address>, lost: map<Address, nat>): Result<State> {
    if markets == [] then Ok(s)
    else
      var before :- SettleMarkets(s, a, markets[..|markets| - 1], lost);
      SettleMarket(before, a, markets[|markets| - 1], Get(lost, markets[|markets| - 1]))
  }

  /** The part of the seized fund that the winner takes. */
  function RiskFundBidAmount(a: Auction): Result<nat> {
    if a.auctionType.LargePoolDebt? then Ok(a.seizedRiskFund) else MulDiv(a.seizedRiskFund, a.highestBidBps, MAX_BPS)
  }

  /** The winner's part, after `delivered` has reached the contract from the risk fund that was asked for it. */
  function PayWinner(s: State, a: Auction, delivered: nat, accepted: bool): Result<State>
    requires a.highestBidder.Some?
  {
    var riskFundBidAmount :- RiskFundBidAmount(a);
    var balance :- Add(Get(s.held, s.baseAsset), delivered);
    TransferOutOrTrackDebt(s.(held := s.held[s.baseAsset := balance]), s.baseAsset, a.highestBidder.value,
                           riskFundBidAmount, accepted)
  }

  function CloseAuction(s: State, now: nat, comptroller: Address, tokens: Tokens, delivered: nat,
                        accepted: bool): Result<State> {
    var a := AuctionOf(s, comptroller);
    var _ :- Require(a.status == Started, NoOngoingAuction);
    var _ :- Require(now > a.highestBidSlot + s.nextBidderLimit && a.highestBidder.Some?, WaitingForNextBidder);
    var ended := s.(auctions := s.auctions[comptroller := a.(status := Ended)]);
    var settled :- SettleMarkets(ended, a, a.markets, tokens.lost);
    PayWinner(settled, a, delivered, accepted)
  }

  function RestartAuction(s: State, now: nat, comptroller: Address, markets: seq<Address>, prices: map<Address, nat>,
                          basePrice: nat, reserves: nat): Result<State>
  {
    var a := AuctionOf(s, comptroller);
    var _ :- Require(!s.auctionsPaused, AuctionsArePaused);
    var _ :- Require(a.status == Started, NoOngoingAuction);
    var _ :- Require(IsStale(s, a, now), AuctionNotStale);
    StartAuction(s.(auctions := s.auctions[comptroller := a.(status := Ended)]), now, comptroller, markets, prices,
                 basePrice, reserves)
  }

  // -------------------------------------------------- a fold's last market

  lemma CollectBidsLast(k: Collected, a: Auction, bidBps: nat, ms: seq<Address>, i: nat, tokens: Tokens)
    requires i < |ms|
    ensures CollectBids(k, a, bidBps, ms[..i + 1], tokens) ==
            match CollectBids(k, a, bidBps, ms[..i], tokens)
            case Ok(b) => CollectBid(b, a, bidBps, ms[i], ms[i] !in tokens.refused, Get(tokens.lost, ms[i]))
            case Revert(e) => Revert(e)
  {
    assert ms[..i + 1][..i] == ms[..i];
  }

  lemma SettleMarketsLast(s: State, a: Auction, ms: seq<Address>, i: nat, lost: map<Address, nat>)
    requires i < |ms|
    ensures SettleMarkets(s, a, ms[..i + 1], lost) ==
            match SettleMarkets(s, a, ms[..i], lost)
            case Ok(b) => SettleMarket(b, a, ms[i], Get(lost, ms[i]))
            case Revert(e) => Revert(e)
  {
    assert ms[..i + 1][..i] == ms[..i];
  }

  // -------------------------------------------- which fields a fold touches

  lemma TransferFrame(s: State, token: Address, to: Address, amount: nat, accepted: bool, r: State)
    requires TransferOutOrTrackDebt(s, token, to, amount, accepted) == Ok(r)
    ensures r == s.(held := r.held, tokenDebt := r.tokenDebt, totalTokenDebt := r.totalTokenDebt, sent := r.sent)
  {
  }

  lemma CollectBidFrame(k: Collected, a: Auction, bidBps: nat, m: Address, accepted: bool, lost: nat, r: Collected)
    requires CollectBid(k, a, bidBps, m, accepted, lost) == Ok(r)
    ensures r.state == k.state.(held := r.state.held, tokenDebt := r.state.tokenDebt,
                                totalTokenDebt := r.state.totalTokenDebt, sent := r.state.sent)
  {
    if a.highestBidder.Some? {
      var token, amount := TokenOf(k.state.underlying, m), Get(k.bidAmount, m);
      var refunded := TransferOutOrTrackDebt(k.state, token, a.highestBidder.value, amount, accepted).value;
      TransferFrame(k.state, token, a.highestBidder.value, amount, accepted, refunded);
      assert r.state == refunded.(held := r.state.held);
    }
  }

  lemma {:induction false} CollectBidsFrame(k: Collected, a: Auction, bidBps: nat, ms: seq<Address>, tokens: Tokens,
                                            r: Collected)
    requires CollectBids(k, a, bidBps, ms, tokens) == Ok(r)
    ensures r.state == k.state.(held := r.state.held, tokenDebt := r.state.tokenDebt,
                                totalTokenDebt := r.state.totalTokenDebt, sent := r.state.sent)
  {
    if ms != [] {
      var b := CollectBids(k, a, bidBps, ms[..|ms| - 1], tokens).value;
      CollectBidsFrame(k, a, bidBps, ms[..|ms| - 1], tokens, b);
      var m := ms[|ms| - 1];
      CollectBidFrame(b, a, bidBps, m, m !in tokens.refused, Get(tokens.lost, m), r);
    }
  }

  lemma {:induction false} SettleMarketsFrame(s: State, a: Auction, ms: seq<Address>, lost: map<Address, nat>, r: State)
    requires SettleMarkets(s, a, ms, lost) == Ok(r)
    ensures r == s.(held := r.held, badDebt := r.badDebt)
  {
    if ms != [] {
      SettleMarketsFrame(s, a, ms[..|ms| - 1], lost, SettleMarkets(s, a, ms[..|ms| - 1], lost).value);
    }
  }

  lemma PayWinnerFrame(s: State, a: Auction, delivered: nat, accepted: bool, r: State)
    requires a.highestBidder.Some? && PayWinner(s, a, delivered, accepted) == Ok(r)
    ensures r == s.(held := r.held, tokenDebt := r.tokenDebt, totalTokenDebt := r.totalTokenDebt, sent := r.sent)
  {
  }

  lemma CloseAuctionFrame(s: State, now: nat, comptroller: Address, tokens: Tokens, delivered: nat, accepted: bool,
                          r: State)
    requires CloseAuction(s, now, comptroller, tokens, delivered, accepted) == Ok(r)
    ensures r == s.(auctions := r.auctions, held := r.held, tokenDebt := r.tokenDebt,
                    totalTokenDebt := r.totalTokenDebt,
                    sent := r.sent, badDebt := r.badDebt)
  {
    var a := AuctionOf(s, comptroller);
    var ended := s.(auctions := s.auctions[comptroller := a.(status := Ended)]);
    var settled := SettleMarkets(ended, a, a.markets, tokens.lost).value;
    SettleMarketsFrame(ended, a, a.markets, tokens.lost, settled);
    PayWinnerFrame(settled, a, delivered, accepted, r);
  }
}
