/**
 * The shortfall contract: auctions and debts changed in place, market by market. A call works on a copy of the storage
 * and commits it at the end, so that a revert on the way leaves no trace.
 */
module Shortfall {
  import opened Evm
  import opened ExponentialNoError
  import opened Sums
  import A = ShortfallAuctions
  import opened ShortfallRuns
  import opened ShortfallSafety

  class Shortfall {
    var auctions: map<Address, A.Auction>
    var held: map<Address, nat>
    var tokenDebt: map<(Address, Address), nat>
    var totalTokenDebt: map<Address, nat>
    var sent: map<(Address, Address), nat>
    var badDebt: map<Address, nat>
    const underlying: map<Address, Address>
    const comptrollerOf: map<Address, Address>
    const baseAsset: Address
    var minimumPoolBadDebt: nat
    var incentiveBps: nat
    var nextBidderLimit: nat
    var waitForFirstBidder: nat
    var auctionsPaused: bool

    function State(): A.State
      reads this
    {
      A.State(auctions, held, tokenDebt, totalTokenDebt, sent, badDebt, underlying, comptrollerOf, baseAsset,
              minimumPoolBadDebt, incentiveBps, nextBidderLimit, waitForFirstBidder, auctionsPaused)
    }

    constructor (minimumPoolBadDebt: nat, nextBidderLimit: nat, waitForFirstBidder: nat, baseAsset: Address,
                 underlying: map<Address, Address>, comptrollerOf: map<Address, Address>, badDebt: map<Address, nat>)
      requires 0 < minimumPoolBadDebt && 0 < nextBidderLimit && 0 < waitForFirstBidder
      ensures State() == A.Initialized(minimumPoolBadDebt, nextBidderLimit, waitForFirstBidder, baseAsset, underlying,
                                       comptrollerOf, badDebt)
      ensures Booked(State()) && Solvent(State())
    {
      auctions, held, tokenDebt, totalTokenDebt, sent := map[], map[], map[], map[], map[];
      this.badDebt, this.underlying := badDebt, underlying;
      this.comptrollerOf, this.baseAsset := comptrollerOf, baseAsset;
      this.minimumPoolBadDebt, incentiveBps := minimumPoolBadDebt, A.DEFAULT_INCENTIVE_BPS;
      this.nextBidderLimit, this.waitForFirstBidder, auctionsPaused := nextBidderLimit, waitForFirstBidder, false;
      new;
      InitializedIsBookedAndSolvent(minimumPoolBadDebt, nextBidderLimit, waitForFirstBidder, baseAsset, underlying,
                                    comptrollerOf, badDebt);
    }

    /** Balances, debts and auctions take the values reached by a call; configuration is no part of a call. */
    method Commit(s: A.State)
      modifies this`auctions, this`held, this`tokenDebt, this`totalTokenDebt, this`sent, this`badDebt
      ensures State() == old(State()).(auctions := s.auctions, held := s.held, tokenDebt := s.tokenDebt,
                                       totalTokenDebt := s.totalTokenDebt, sent := s.sent, badDebt := s.badDebt)
    {
      auctions, held, tokenDebt := s.auctions, s.held, s.tokenDebt;
      totalTokenDebt, sent, badDebt := s.totalTokenDebt, s.sent, s.badDebt;
    }

    /** Refunds the previous bid and takes the new one in every market of the auction, in order; a revert stays. */
    method CollectEach(a: A.Auction, bidBps: nat, tokens: A.Tokens) returns (r: Result<A.Collected>)
      ensures r == A.CollectBids(A.Collected(State(), a.bidAmount), a, bidBps, a.markets, tokens)
    {
      var start := A.Collected(State(), a.bidAmount);
      r := Ok(start);
      for i := 0 to |a.markets|
        invariant r == A.CollectBids(start, a, bidBps, a.markets[..i], tokens)
      {
        var m := a.markets[i];
        A.CollectBidsLast(start, a, bidBps, a.markets, i, tokens);
        if r.Ok? { r := A.CollectBid(r.value, a, bidBps, m, m !in tokens.refused, Get(tokens.lost, m)); }
      }
      assert a.markets[..|a.markets|] == a.markets;
    }

    method PlaceBid(now: nat, comptroller: Address, bidder: Address, bidBps: nat, startSlot: nat, tokens: A.Tokens)
      returns (r: Result<()>)
      modifies this
      ensures Carried(A.PlaceBid(old(State()), now, comptroller, bidder, bidBps, startSlot, tokens), old(State()),
                      State(), r)
    {
      var auction := A.AuctionOf(State(), comptroller);
      var _ :- Require(auction.startSlot == startSlot, AuctionRestarted);
      var _ :- Require(auction.status == A.Started, NoOngoingAuction);
      var _ :- Require(!A.IsStale(State(), auction, now), AuctionIsStale);
      var _ :- Require(bidBps > 0, BidIsZero);
      var _ :- Require(bidBps <= A.MAX_BPS, BidAboveMaxBps);
      var _ :- Require(A.Improves(auction, bidBps), BidNotHighest);
      var collected := CollectEach(auction, bidBps, tokens);
      if collected.Revert? { return Revert(collected.error); }
      A.CollectBidsFrame(A.Collected(State(), auction.bidAmount), auction, bidBps, auction.markets, tokens,
                         collected.value);
      var best := auction.(highestBidder := Some(bidder), highestBidBps := bidBps, highestBidSlot := now,
                           bidAmount := collected.value.bidAmount);
      Commit(collected.value.state.(auctions := auctions[comptroller := best]));
      r := Ok(());
    }

    /** Sends every market its bid and writes off what arrived. */
    method SettleEach(s: A.State, a: A.Auction, lost: map<Address, nat>) returns (r: Result<A.State>)
      ensures r == A.SettleMarkets(s, a, a.markets, lost)
    {
      r := Ok(s);
      for i := 0 to |a.markets|
        invariant r == A.SettleMarkets(s, a, a.markets[..i], lost)
      {
        A.SettleMarketsLast(s, a, a.markets, i, lost);
        if r.Ok? { r := A.SettleMarket(r.value, a, a.markets[i], Get(lost, a.markets[i])); }
      }
      assert a.markets[..|a.markets|] == a.markets;
    }

    method CloseAuction(now: nat, comptroller: Address, tokens: A.Tokens, delivered: nat, accepted: bool)
      returns (r: Result<()>)
      modifies this
      ensures Carried(A.CloseAuction(old(State()), now, comptroller, tokens, delivered, accepted), old(State()),
                      State(), r)
    {
      var start := State();
      var auction := A.AuctionOf(start, comptroller);
      var _ :- Require(auction.status == A.Started, NoOngoingAuction);
      var _ :- Require(now > auction.highestBidSlot + nextBidderLimit && auction.highestBidder.Some?,
                       WaitingForNextBidder);
      var ended := start.(auctions := auctions[comptroller := auction.(status := A.Ended)]);
      var settled := SettleEach(ended, auction, tokens.lost);
      if settled.Revert? { return Revert(settled.error); }
      var paid :- A.PayWinner(settled.value, auction, delivered, accepted);
      A.CloseAuctionFrame(start, now, comptroller, tokens, delivered, accepted, paid);
      Commit(paid);
      r := Ok(());
    }

    method SumBadDebt(markets: seq<Address>, prices: map<Address, nat>) returns (r: Result<nat>)
      ensures r == A.PoolBadDebt(State(), markets, prices)
    {
      r := Ok(0);
      for i := 0 to |markets|
        invariant r == A.PoolBadDebt(State(), markets[..i], prices)
      {
        assert markets[..i + 1][..i] == markets[..i];
        if r.Ok? {
          var usdValue := MulDiv(Get(prices, markets[i]), Get(badDebt, markets[i]), EXP_SCALE);
          r := if usdValue.Revert? then usdValue else Add(r.value, usdValue.value);
        }
      }
      assert markets[..|markets|] == markets;
    }

    method StartAuction(now: nat, comptroller: Address, markets: seq<Address>, prices: map<Address, nat>,
                        basePrice: nat,
                        reserves: nat) returns (r: Result<()>)
      modifies this`auctions
      ensures Carried(A.StartAuction(old(State()), now, comptroller, markets, prices, basePrice, reserves),
                      old(State()), State(), r)
    {
      var _ :- Require(!auctionsPaused, AuctionsArePaused);
      var auction := A.AuctionOf(State(), comptroller);
      var _ :- Require(auction.status != A.Started, AuctionOngoing);
      var summed := SumBadDebt(markets, prices);
      if summed.Revert? { return Revert(summed.error); }
      var poolBadDebt := summed.value;
      var _ :- Require(poolBadDebt >= minimumPoolBadDebt, PoolBadDebtTooLow);
      var riskFundBalance :- MulDiv(basePrice, reserves, EXP_SCALE);
      var terms :- A.AuctionTerms(poolBadDebt, riskFundBalance, incentiveBps);
      var marketDebt := map m | m in markets :: Get(badDebt, m);
      auctions := auctions[comptroller := A.Auction(now, terms.auctionType, A.Started, markets, terms.seizedRiskFund,
                                                    None, 0, 0,
                                                    terms.startBidBps, marketDebt, auction.bidAmount)];
      r := Ok(());
    }

    method RestartAuction(now: nat, comptroller: Address, markets: seq<Address>, prices: map<Address, nat>,
                          basePrice: nat,
                          reserves: nat) returns (r: Result<()>)
      modifies this`auctions
      ensures Carried(A.RestartAuction(old(State()), now, comptroller, markets, prices, basePrice, reserves),
                      old(State()), State(), r)
    {
      var auction := A.AuctionOf(State(), comptroller);
      var _ :- Require(!auctionsPaused, AuctionsArePaused);
      var _ :- Require(auction.status == A.Started, NoOngoingAuction);
      var _ :- Require(A.IsStale(State(), auction, now), AuctionNotStale);
      var before := auctions;
      auctions := auctions[comptroller := auction.(status := A.Ended)];
      r := StartAuction(now, comptroller, markets, prices, basePrice, reserves);
      if r.Revert? { auctions := before; }
    }

    method ClaimTokenDebt(user: Address, token: Address, requested: nat) returns (r: Result<()>)
      modifies this
      ensures Carried(A.ClaimTokenDebt(old(State()), user, token, requested), old(State()), State(), r)
    {
      var owedAmount := Get(tokenDebt, (token, user));
      var amount := if requested == MAX_UINT256 then owedAmount else requested;
      var _ :- Require(amount <= owedAmount, InsufficientDebt);
      var total :- Sub(Get(totalTokenDebt, token), amount);
      var _ :- Require(amount <= Get(held, token), TransferFailed);
      var debt, balance, received := owedAmount - amount, Get(held, token) - amount, Get(sent, (token, user)) + amount;
      var next := State().(tokenDebt := tokenDebt[(token, user) := debt],
                           totalTokenDebt := totalTokenDebt[token := total], held := held[token := balance],
                           sent := sent[(token, user) := received]);
      assert A.ClaimTokenDebt(State(), user, token, requested) == Ok(next);
      Commit(next);
      r := Ok(());
    }
  }
}
