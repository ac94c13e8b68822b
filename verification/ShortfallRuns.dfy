/** Closing, starting and whole runs of auctions. */
module ShortfallRuns {
  import opened Evm
  import opened ExponentialNoError
  import opened Sums
  import L = VTokenLedger
  import opened ShortfallAuctions
  import opened ShortfallSafety

  // -------------------------------------------------------------- closing

  /** The markets received their bids: escrow left the contract, bad debt fell by exactly what arrived. */
  ghost predicate MarketsSettled(s: State, a: Auction, ms: seq<Address>, lost: map<Address, nat>, r: State) {
    && r == s.(held := r.held, badDebt := r.badDebt)
    && (forall t :: Free(r, t) == Free(s, t) - MarketsEscrow(s.underlying, ms, a.bidAmount, t))
    && (forall m :: m in ms ==>
          Get(r.badDebt, m) == Get(s.badDebt, m) - L.Delivered(Get(a.bidAmount, m), Get(lost, m)))
    && (forall m :: m !in ms ==> Get(r.badDebt, m) == Get(s.badDebt, m))
  }

  lemma SettleMarketMoves(b: State, a: Auction, m: Address, lost: nat, r: State)
    requires SettleMarket(b, a, m, lost) == Ok(r)
    ensures r == b.(held := r.held, badDebt := r.badDebt)
    ensures forall t :: Free(r, t) == Free(b, t) - if TokenOf(b.underlying, m) == t then Get(a.bidAmount, m) else 0
    ensures forall n :: Get(r.badDebt, n) ==
              Get(b.badDebt, n) - if n == m then L.Delivered(Get(a.bidAmount, m), lost) else 0
  {
  }

  lemma OneMoreSettled(s: State, a: Auction, init: seq<Address>, lost: map<Address, nat>, b: State, m: Address,
                       r: State)
    requires m !in init && MarketsSettled(s, a, init, lost, b) && SettleMarket(b, a, m, Get(lost, m)) == Ok(r)
    ensures MarketsSettled(s, a, init + [m], lost, r)
  {
    SettleMarketMoves(b, a, m, Get(lost, m), r);
    forall t ensures Free(r, t) == Free(s, t) - MarketsEscrow(s.underlying, init + [m], a.bidAmount, t) {
      MoreEscrow(s.underlying, init, m, a.bidAmount, t);
    }
  }

  lemma {:induction false} SettleMoves(s: State, a: Auction, ms: seq<Address>, lost: map<Address, nat>, r: State)
    requires NoDuplicates(ms) && SettleMarkets(s, a, ms, lost) == Ok(r)
    ensures MarketsSettled(s, a, ms, lost, r)
  {
    if ms != [] {
      var init, m := ms[..|ms| - 1], ms[|ms| - 1];
      var b := SettleMarkets(s, a, init, lost).value;
      SettleMoves(s, a, init, lost, b);
      OneMoreSettled(s, a, init, lost, b, m, r);
      assert ms == init + [m];
    }
  }

  lemma NextBidIsHeld(s: State, a: Auction, ms: seq<Address>, n: nat, lost: map<Address, nat>, b: State)
    requires NoDuplicates(ms) && n < |ms| && MarketsSettled(s, a, ms[..n], lost, b)
    requires forall t :: MarketsEscrow(s.underlying, ms, a.bidAmount, t) <= Free(s, t)
    ensures Get(a.bidAmount, ms[n]) <= Get(b.held, TokenOf(b.underlying, ms[n]))
    ensures Get(b.badDebt, ms[n]) == Get(s.badDebt, ms[n])
  {
    var m := ms[n];
    var token := TokenOf(s.underlying, m);
    assert ms[..n + 1] == ms[..n] + [m] && m !in ms[..n];
    MoreEscrow(s.underlying, ms[..n], m, a.bidAmount, token);
    EscrowPrefix(s.underlying, ms, n + 1, a.bidAmount, token);
    assert MarketsEscrow(s.underlying, ms, a.bidAmount, token) <= Free(s, token);
    assert Free(b, token) == Free(s, token) - MarketsEscrow(s.underlying, ms[..n], a.bidAmount, token);
  }

  lemma HeldBidSettles(b: State, a: Auction, m: Address, lost: nat)
    requires Get(a.bidAmount, m) <= Get(b.held, TokenOf(b.underlying, m)) && Get(a.bidAmount, m) <= Get(b.badDebt, m)
    ensures SettleMarket(b, a, m, lost).Ok?
  {
  }

  /** With the escrow held and within the recorded debt, every market can be settled. */
  lemma {:induction false} SettleSucceeds(s: State, a: Auction, ms: seq<Address>, n: nat, lost: map<Address, nat>)
    requires NoDuplicates(ms) && n <= |ms|
    requires forall t :: MarketsEscrow(s.underlying, ms, a.bidAmount, t) <= Free(s, t)
    requires forall m :: m in ms ==> Get(a.bidAmount, m) <= Get(s.badDebt, m)
    ensures SettleMarkets(s, a, ms[..n], lost).Ok?
  {
    if n > 0 {
      SettleSucceeds(s, a, ms, n - 1, lost);
      assert ms[..n][..n - 1] == ms[..n - 1];
      var b, m := SettleMarkets(s, a, ms[..n - 1], lost).value, ms[n - 1];
      assert SettleMarket(b, a, m, Get(lost, m)).Ok? by {
        SettleMoves(s, a, ms[..n - 1], lost, b);
        NextBidIsHeld(s, a, ms, n - 1, lost, b);
        assert m in ms;
        HeldBidSettles(b, a, m, Get(lost, m));
      }
    }
  }

  predicate ReadyToClose(s: State, c: Address, now: nat) {
    var a := AuctionOf(s, c);
    a.status == Started && a.highestBidder.Some? && now > a.highestBidSlot + s.nextBidderLimit
  }

  function Closed(s: State, c: Address): State {
    s.(auctions := s.auctions[c := AuctionOf(s, c).(status := Ended)])
  }

  lemma CloseParts(s: State, now: nat, c: Address, tokens: Tokens, delivered: nat, accepted: bool, r: State)
    returns (a: Auction, settled: State)
    requires CloseAuction(s, now, c, tokens, delivered, accepted) == Ok(r)
    ensures a == AuctionOf(s, c) && ReadyToClose(s, c, now) && c in s.auctions
    ensures SettleMarkets(Closed(s, c), a, a.markets, tokens.lost) == Ok(settled)
    ensures PayWinner(settled, a, delivered, accepted) == Ok(r)
  {
    a := AuctionOf(s, c);
    settled := SettleMarkets(Closed(s, c), a, a.markets, tokens.lost).value;
  }

  /** All of the seized fund, or of it the winning bid's percentage, rounded down. */
  function WinnersPart(a: Auction): nat {
    match a.auctionType
    case LargePoolDebt => a.seizedRiskFund
    case LargeRiskFund => a.seizedRiskFund * a.highestBidBps / MAX_BPS
  }

  lemma WinnersPartExactly(a: Auction)
    ensures RiskFundBidAmount(a).Ok? <==>
            a.auctionType.LargeRiskFund? ==> a.seizedRiskFund * a.highestBidBps <= MAX_UINT256
    ensures RiskFundBidAmount(a).Ok? ==> RiskFundBidAmount(a).value == WinnersPart(a)
  {
    var share := a.seizedRiskFund * a.highestBidBps;
    if a.auctionType.LargeRiskFund? && share <= MAX_UINT256 {
      DivFloors(share, MAX_BPS);
      FloorsUnique(RiskFundBidAmount(a).value, share / MAX_BPS, share, MAX_BPS);
    }
  }

  /** The delivery arrives and the winner's part leaves or becomes a debt. */
  lemma PayMoves(s: State, a: Auction, delivered: nat, accepted: bool, r: State)
    requires a.highestBidder.Some? && PayWinner(s, a, delivered, accepted) == Ok(r)
    ensures RiskFundBidAmount(a) == Ok(WinnersPart(a)) && OnlyTokensMoved(s, r)
    ensures forall t :: Free(r, t) == Free(s, t) + if t == s.baseAsset then delivered - WinnersPart(a) else 0
    ensures forall t, u :: Claim(r, t, u) == Claim(s, t, u) +
              if t == s.baseAsset && a.highestBidder == Some(u) then WinnersPart(a) else 0
  {
    WinnersPartExactly(a);
    var funded := s.(held := s.held[s.baseAsset := Get(s.held, s.baseAsset) + delivered]);
    TransferMoves(funded, s.baseAsset, a.highestBidder.value, RiskFundBidAmount(a).value, accepted, r);
  }

  /** Ending an auction releases its escrow. */
  lemma EndingReleases(s: State, c: Address, t: Address)
    requires c in s.auctions
    ensures Surplus(Closed(s, c), t) == Surplus(s, t) + AuctionEscrow(s.underlying, s.auctions[c], t)
  {
    EscrowReplace(s, c, Closed(s, c).auctions[c], Closed(s, c), t);
  }

  /** Each market's bad debt falls by exactly what that market received of its bid, and no other's. */
  lemma CloseRecoversWhatArrives(s: State, now: nat, c: Address, tokens: Tokens, delivered: nat, accepted: bool,
                                 r: State)
    requires AuctionsValid(s) && CloseAuction(s, now, c, tokens, delivered, accepted) == Ok(r)
    ensures var a := AuctionOf(s, c);
            && (forall m :: m in a.markets ==>
                  Get(r.badDebt, m) == Get(s.badDebt, m) - L.Delivered(Get(a.bidAmount, m), Get(tokens.lost, m)))
            && (forall m :: m !in a.markets ==> Get(r.badDebt, m) == Get(s.badDebt, m))
    ensures r.auctions == Closed(s, c).auctions && r.comptrollerOf == s.comptrollerOf && r.underlying == s.underlying
  {
    var a, settled := CloseParts(s, now, c, tokens, delivered, accepted, r);
    SettleMoves(Closed(s, c), a, a.markets, tokens.lost, settled);
    PayWinnerFrame(settled, a, delivered, accepted, r);
  }

  /** The winner is sent or owed its part of the fund, and nobody else anything. */
  lemma ClosePaysTheWinner(s: State, now: nat, c: Address, tokens: Tokens, delivered: nat, accepted: bool, r: State)
    requires CloseAuction(s, now, c, tokens, delivered, accepted) == Ok(r)
    ensures forall t, u :: Claim(r, t, u) == Claim(s, t, u) +
              if t == s.baseAsset && AuctionOf(s, c).highestBidder == Some(u) then WinnersPart(AuctionOf(s, c)) else 0
  {
    var a, settled := CloseParts(s, now, c, tokens, delivered, accepted, r);
    SettleMarketsFrame(Closed(s, c), a, a.markets, tokens.lost, settled);
    PayMoves(settled, a, delivered, accepted, r);
    assert forall t, u :: Claim(settled, t, u) == Claim(s, t, u);
  }

  lemma SettledSurplus(s: State, c: Address, a: Auction, lost: map<Address, nat>, settled: State, paid: int, r: State,
                       t: Address)
    requires c in s.auctions && a == s.auctions[c] && a.status == Started && a.highestBidder.Some?
    requires MarketsSettled(Closed(s, c), a, a.markets, lost, settled)
    requires OnlyTokensMoved(settled, r) && Free(r, t) == Free(settled, t) + paid
    ensures Surplus(r, t) == Surplus(s, t) + paid
  {
    EndingReleases(s, c, t);
    assert Escrows(r, t) == Escrows(Closed(s, c), t);
  }

  /** Only the base asset's surplus moves, by what the risk fund delivered beyond the winner's part. */
  lemma CloseMovesSurplus(s: State, now: nat, c: Address, tokens: Tokens, delivered: nat, accepted: bool, r: State)
    requires AuctionsValid(s) && CloseAuction(s, now, c, tokens, delivered, accepted) == Ok(r)
    ensures forall t :: Surplus(r, t) ==
              Surplus(s, t) + if t == s.baseAsset then delivered - WinnersPart(AuctionOf(s, c)) else 0
  {
    var a, settled := CloseParts(s, now, c, tokens, delivered, accepted, r);
    SettleMoves(Closed(s, c), a, a.markets, tokens.lost, settled);
    PayMoves(settled, a, delivered, accepted, r);
    forall t
      ensures Surplus(r, t) == Surplus(s, t) + if t == s.baseAsset then delivered - WinnersPart(a) else 0
    {
      SettledSurplus(s, c, a, tokens.lost, settled,
                     if t == s.baseAsset then delivered - WinnersPart(a) else 0, r, t);
    }
  }

  lemma CloseKeepsValid(s: State, now: nat, c: Address, tokens: Tokens, delivered: nat, accepted: bool, r: State)
    requires AuctionsValid(s) && CloseAuction(s, now, c, tokens, delivered, accepted) == Ok(r)
    ensures AuctionsValid(r)
  {
    CloseRecoversWhatArrives(s, now, c, tokens, delivered, accepted, r);
    forall d | d in r.auctions ensures AuctionValid(r, d, r.auctions[d]) {
      assert d != c ==> AuctionValid(s, d, s.auctions[d]);
      assert AuctionValid(s, c, s.auctions[c]);
    }
  }

  /**
   * Closing keeps the contract solvent exactly when the risk fund delivers what the base asset's surplus does not
   * cover.
   */
  lemma CloseSolventExactly(s: State, now: nat, c: Address, tokens: Tokens, delivered: nat, accepted: bool, r: State)
    requires AuctionsValid(s) && Solvent(s) && CloseAuction(s, now, c, tokens, delivered, accepted) == Ok(r)
    ensures Solvent(r) <==> WinnersPart(AuctionOf(s, c)) <= delivered + Surplus(s, s.baseAsset)
  {
    CloseMovesSurplus(s, now, c, tokens, delivered, accepted, r);
    assert Surplus(r, s.baseAsset) ==
           Surplus(s, s.baseAsset) + delivered - WinnersPart(AuctionOf(s, c));
  }

  /**
   * In a solvent state an auction that is due can be closed: no market is short of its bid, none is offered more than
   * its bad debt, and a risk fund that delivers in full leaves enough for the winner.
   */
  lemma CloseNeverBlocks(s: State, now: nat, c: Address, tokens: Tokens, delivered: nat, accepted: bool)
    requires AuctionsValid(s) && Solvent(s) && ReadyToClose(s, c, now)
    requires WinnersPart(AuctionOf(s, c)) <= delivered
    ensures CloseAuction(s, now, c, tokens, delivered, accepted).Ok? ||
            CloseAuction(s, now, c, tokens, delivered, accepted) == Revert(ArithmeticPanic)
  {
    var a := AuctionOf(s, c);
    assert c in s.auctions;
    var ended := Closed(s, c);
    assert AuctionValid(s, c, a);
    forall t ensures MarketsEscrow(s.underlying, a.markets, a.bidAmount, t) <= Free(ended, t) {
      EscrowAtLeast(s, c, t);
      assert 0 <= Surplus(s, t);
    }
    WinnersPartExactly(a);
    SettleSucceeds(ended, a, a.markets, |a.markets|, tokens.lost);
    assert a.markets[..|a.markets|] == a.markets;
  }

  /** The winner never takes more than the seized part of the fund. */
  lemma PayoutWithinSeized(a: Auction)
    requires a.highestBidBps <= MAX_BPS
    ensures WinnersPart(a) <= a.seizedRiskFund
  {
    if a.auctionType.LargeRiskFund? {
      Grow(a.highestBidBps, MAX_BPS, a.seizedRiskFund);
      DivFloors(a.seizedRiskFund * a.highestBidBps, MAX_BPS);
      FloorsMonotone(WinnersPart(a), a.seizedRiskFund * a.highestBidBps,
                     a.seizedRiskFund, a.seizedRiskFund * MAX_BPS, MAX_BPS);
    }
  }

  // ------------------------------------------------------------- starting

  /** The bad debt of some markets in the unit of account, rounded down market by market. */
  function DebtWorth(s: State, markets: seq<Address>, prices: map<Address, nat>): nat {
    if markets == [] then 0
    else
      var m := markets[|markets| - 1];
      DebtWorth(s, markets[..|markets| - 1], prices) + Get(prices, m) * Get(s.badDebt, m) / EXP_SCALE
  }

  lemma {:induction false} PoolBadDebtExactly(s: State, markets: seq<Address>, prices: map<Address, nat>)
    ensures var r := PoolBadDebt(s, markets, prices);
            && (r.Ok? <==> && DebtWorth(s, markets, prices) <= MAX_UINT256
                           && forall m :: m in markets ==> Get(prices, m) * Get(s.badDebt, m) <= MAX_UINT256)
            && (r.Ok? ==> r.value == DebtWorth(s, markets, prices))
  {
    if markets != [] {
      var init, m := markets[..|markets| - 1], markets[|markets| - 1];
      assert markets == init + [m];
      PoolBadDebtExactly(s, init, prices);
      TruncatesTo(Get(prices, m), Get(s.badDebt, m));
    }
  }

  /**
   * A fund worth at most the debt with the incentive is auctioned whole, from the percentage of the debt it covers on;
   * a larger one only up to the debt with the incentive, for all of the debt.
   */
  lemma TermsExactly(poolBadDebt: nat, fund: nat, incentiveBps: nat)
    ensures var whole := poolBadDebt + poolBadDebt * incentiveBps / MAX_BPS;
            var base, r := poolBadDebt * (MAX_BPS + incentiveBps), AuctionTerms(poolBadDebt, fund, incentiveBps);
            && (r.Ok? <==>
                  && poolBadDebt * incentiveBps <= MAX_UINT256 && whole <= MAX_UINT256
                  && (fund <= whole ==> && MAX_BPS + incentiveBps <= MAX_UINT256 && 0 < base <= MAX_UINT256
                                        && MAX_BPS * MAX_BPS * fund <= MAX_UINT256))
            && (r.Ok? ==>
                  if fund <= whole
                  then && r.value == Terms(LargePoolDebt, r.value.startBidBps, fund)
                       && Floors(r.value.startBidBps, MAX_BPS * MAX_BPS * fund, base)
                  else r.value == Terms(LargeRiskFund, MAX_BPS, whole))
  {
    var share := poolBadDebt * incentiveBps;
    if share <= MAX_UINT256 {
      DivFloors(share, MAX_BPS);
      FloorsUnique(MulDiv(poolBadDebt, incentiveBps, MAX_BPS).value, share / MAX_BPS, share, MAX_BPS);
    }
  }

  /**
   * An auction starts exactly unless paused or running already, for a pool whose bad debt is worth the minimum, and
   * takes its terms from that worth and the worth of the reserve.
   */
  lemma StartExactly(s: State, now: nat, c: Address, markets: seq<Address>, prices: map<Address, nat>, basePrice: nat,
                     reserves: nat)
    ensures var debt, fund := DebtWorth(s, markets, prices), basePrice * reserves / EXP_SCALE;
            var terms := AuctionTerms(debt, fund, s.incentiveBps);
            var r := StartAuction(s, now, c, markets, prices, basePrice, reserves);
            && (r.Ok? <==>
                  && !s.auctionsPaused && AuctionOf(s, c).status != Started
                  && debt <= MAX_UINT256
                  && (forall m :: m in markets ==> Get(prices, m) * Get(s.badDebt, m) <= MAX_UINT256)
                  && s.minimumPoolBadDebt <= debt && basePrice * reserves <= MAX_UINT256 && terms.Ok?)
            && (r.Ok? ==>
                  && c in r.value.auctions
                  && r.value.auctions[c].auctionType == terms.value.auctionType
                  && r.value.auctions[c].startBidBps == terms.value.startBidBps
                  && r.value.auctions[c].seizedRiskFund == terms.value.seizedRiskFund)
  {
    PoolBadDebtExactly(s, markets, prices);
    TruncatesTo(basePrice, reserves);
  }

  /** A restart is a start of an auction that nobody bid for in time. */
  lemma RestartExactly(s: State, now: nat, c: Address, markets: seq<Address>, prices: map<Address, nat>, basePrice: nat,
                       reserves: nat)
    ensures var a, started := AuctionOf(s, c), StartAuction(Closed(s, c), now, c, markets, prices, basePrice, reserves);
            var r := RestartAuction(s, now, c, markets, prices, basePrice, reserves);
            && (r.Ok? <==> && a.status == Started && a.highestBidder.None? && a.startSlot + s.waitForFirstBidder < now
                           && started.Ok?)
            && (r.Ok? ==> r == started)
  {
  }

  /** A computed start bid is a percentage, and no more is seized than the fund is worth. */
  lemma TermsWithinBounds(poolBadDebt: nat, riskFundBalance: nat, incentiveBps: nat)
    requires AuctionTerms(poolBadDebt, riskFundBalance, incentiveBps).Ok?
    ensures var terms := AuctionTerms(poolBadDebt, riskFundBalance, incentiveBps).value;
            && terms.startBidBps <= MAX_BPS && terms.seizedRiskFund <= riskFundBalance
            && (terms.auctionType.LargePoolDebt? ==> terms.seizedRiskFund == riskFundBalance)
  {
    var incentive := MulDiv(poolBadDebt, incentiveBps, MAX_BPS).value;
    if riskFundBalance <= poolBadDebt + incentive {
      var denominator := poolBadDebt * (MAX_BPS + incentiveBps);
      assert denominator == poolBadDebt * MAX_BPS + poolBadDebt * incentiveBps;
      assert riskFundBalance * MAX_BPS <= denominator;
      var startBid := AuctionTerms(poolBadDebt, riskFundBalance, incentiveBps).value.startBidBps;
      StartBidIsAPercentage(startBid, riskFundBalance, denominator);
    }
  }

  lemma StartBidIsAPercentage(startBid: nat, fund: nat, denominator: nat)
    requires fund * MAX_BPS <= denominator && Floors(startBid, MAX_BPS * MAX_BPS * fund, denominator)
    ensures startBid <= MAX_BPS
  {
    if MAX_BPS < startBid { Grow(MAX_BPS + 1, startBid, denominator); }
  }

  /**
   * The fund is seized in the unit of account but paid out in the base asset. Against the reserve itself, a whole fund
   * is seized within it exactly when the price adds no unit to it, and a part of the fund exactly when the debt with
   * the incentive is a number within it. A price of at most one keeps both within.
   */
  lemma SeizedAgainstReserves(poolBadDebt: nat, basePrice: nat, reserves: nat, riskFundBalance: nat, incentiveBps: nat)
    requires MulDiv(basePrice, reserves, EXP_SCALE) == Ok(riskFundBalance)
    requires AuctionTerms(poolBadDebt, riskFundBalance, incentiveBps).Ok?
    ensures MulDiv(poolBadDebt, incentiveBps, MAX_BPS).Ok?
    ensures var terms := AuctionTerms(poolBadDebt, riskFundBalance, incentiveBps).value;
            var debtPlusIncentive := poolBadDebt + MulDiv(poolBadDebt, incentiveBps, MAX_BPS).value;
            && (terms.auctionType.LargePoolDebt? <==> riskFundBalance <= debtPlusIncentive)
            && (terms.auctionType.LargePoolDebt? ==>
                  (terms.seizedRiskFund <= reserves <==> (basePrice - EXP_SCALE) * reserves < EXP_SCALE))
            && (terms.auctionType.LargeRiskFund? ==>
                  (terms.seizedRiskFund <= reserves <==> debtPlusIncentive <= reserves))
            && (basePrice <= EXP_SCALE ==> terms.seizedRiskFund <= reserves)
  {
    TermsWithinBounds(poolBadDebt, riskFundBalance, incentiveBps);
    assert (basePrice - EXP_SCALE) * reserves == basePrice * reserves - EXP_SCALE * reserves;
    if basePrice <= EXP_SCALE { Grow(basePrice, EXP_SCALE, reserves); }
  }

  /**
   * At a price of two and a reserve of one hundred, a started auction of a thousand of bad debt seizes two hundred, the
   * whole fund, and one of a hundred seizes a hundred and ten, a part of it.
   */
  lemma SeizedAboveReserves(c: Address, m: Address, base: Address, whole: bool)
    ensures var badDebt := if whole then 1000 else 100;
            var s := Initialized(1, 1, 1, base, map[m := base], map[m := c], map[m := badDebt]);
            var started := StartAuction(s, 0, c, [m], map[m := EXP_SCALE], 2 * EXP_SCALE, 100);
            && started.Ok? && c in started.value.auctions
            && started.value.auctions[c].auctionType == (if whole then LargePoolDebt else LargeRiskFund)
            && started.value.auctions[c].seizedRiskFund == if whole then 200 else 110
  {
    var badDebt := if whole then 1000 else 100;
    var s := Initialized(1, 1, 1, base, map[m := base], map[m := c], map[m := badDebt]);
    assert [m][..0] == [];
    assert PoolBadDebt(s, [m], map[m := EXP_SCALE]) == Ok(badDebt);
    assert MulDiv(2 * EXP_SCALE, 100, EXP_SCALE) == Ok(200);
    assert AuctionTerms(badDebt, 200, DEFAULT_INCENTIVE_BPS).Ok?;
  }

  /** The comptroller's own list of markets: each once, each of that comptroller. */
  predicate ListedBy(s: State, c: Address, markets: seq<Address>) {
    NoDuplicates(markets) && forall m :: m in markets ==> m in s.comptrollerOf && s.comptrollerOf[m] == c
  }

  /** A started auction records its markets with their bad debts and waits for a first bid. */
  lemma StartRecords(s: State, now: nat, c: Address, markets: seq<Address>, prices: map<Address, nat>, basePrice: nat,
                     reserves: nat, r: State)
    requires StartAuction(s, now, c, markets, prices, basePrice, reserves) == Ok(r)
    ensures c in r.auctions && r == s.(auctions := s.auctions[c := r.auctions[c]])
    ensures AuctionOf(s, c).status != Started && !s.auctionsPaused
    ensures var a := r.auctions[c];
            && a.status == Started && a.highestBidder.None? && a.startSlot == now && a.markets == markets
            && a.startBidBps <= MAX_BPS
            && forall m :: m in markets ==> Get(a.marketDebt, m) == Get(s.badDebt, m)
  {
    var poolBadDebt := PoolBadDebt(s, markets, prices).value;
    var riskFundBalance := MulDiv(basePrice, reserves, EXP_SCALE).value;
    TermsWithinBounds(poolBadDebt, riskFundBalance, s.incentiveBps);
  }

  lemma StartKeeps(s: State, now: nat, c: Address, markets: seq<Address>, prices: map<Address, nat>, basePrice: nat,
                   reserves: nat, r: State)
    requires AuctionsValid(s) && ListedBy(s, c, markets)
    requires StartAuction(s, now, c, markets, prices, basePrice, reserves) == Ok(r)
    ensures AuctionsValid(r) && r == s.(auctions := r.auctions)
    ensures forall t :: Surplus(r, t) == Surplus(s, t)
  {
    StartRecords(s, now, c, markets, prices, basePrice, reserves, r);
    NewAuctionKeeps(s, c, r);
  }

  /** A new auction over its own pool's markets disturbs no other auction and holds nothing in escrow. */
  lemma NewAuctionKeeps(s: State, c: Address, r: State)
    requires AuctionsValid(s) && AuctionOf(s, c).status != Started
    requires c in r.auctions && r == s.(auctions := s.auctions[c := r.auctions[c]])
    requires var a := r.auctions[c];
             && a.highestBidder.None? && a.startBidBps <= MAX_BPS && ListedBy(s, c, a.markets)
             && forall m :: m in a.markets ==> Get(a.marketDebt, m) == Get(s.badDebt, m)
    ensures AuctionsValid(r) && forall t :: Surplus(r, t) == Surplus(s, t)
  {
    forall d | d in r.auctions ensures AuctionValid(r, d, r.auctions[d]) {
      if d != c { assert AuctionValid(s, d, s.auctions[d]); }
    }
    forall t ensures Surplus(r, t) == Surplus(s, t) { EscrowReplace(s, c, r.auctions[c], r, t); }
  }

  lemma RestartKeeps(s: State, now: nat, c: Address, markets: seq<Address>, prices: map<Address, nat>, basePrice: nat,
                     reserves: nat, r: State)
    requires AuctionsValid(s) && ListedBy(s, c, markets)
    requires RestartAuction(s, now, c, markets, prices, basePrice, reserves) == Ok(r)
    ensures AuctionsValid(r) && r == s.(auctions := r.auctions)
    ensures forall t :: Surplus(r, t) == Surplus(s, t)
  {
    var ended := Closed(s, c);
    StartKeeps(ended, now, c, markets, prices, basePrice, reserves, r);
    forall t ensures Surplus(r, t) == Surplus(s, t) { EndingReleases(s, c, t); }
  }

  // ----------------------------------------------------------- whole runs

  datatype Op =
    | Start(now: nat, c: Address, markets: seq<Address>, prices: map<Address, nat>, basePrice: nat, reserves: nat)
    | Restart(now: nat, c: Address, markets: seq<Address>, prices: map<Address, nat>, basePrice: nat, reserves: nat)
    | Bid(now: nat, c: Address, bidder: Address, bidBps: nat, startSlot: nat, tokens: Tokens)
    | Close(now: nat, c: Address, tokens: Tokens, delivered: nat, accepted: bool)
    | ClaimDebt(user: Address, token: Address, requested: nat)
    | Heal(market: Address, badDebt: nat)
    | Donate(token: Address, amount: nat)
    | Configure(minimumPoolBadDebt: nat, incentiveBps: nat, nextBidderLimit: nat, waitForFirstBidder: nat, paused: bool)

  function Step(s: State, op: Op): Result<State> {
    match op
    case Start(now, c, markets, prices, basePrice, reserves) =>
      var _ :- Require(ListedBy(s, c, markets), InvalidInput);
      StartAuction(s, now, c, markets, prices, basePrice, reserves)
    case Restart(now, c, markets, prices, basePrice, reserves) =>
      var _ :- Require(ListedBy(s, c, markets), InvalidInput);
      RestartAuction(s, now, c, markets, prices, basePrice, reserves)
    case Bid(now, c, bidder, bidBps, startSlot, tokens) => PlaceBid(s, now, c, bidder, bidBps, startSlot, tokens)
    case Close(now, c, tokens, delivered, accepted) => CloseAuction(s, now, c, tokens, delivered, accepted)
    case ClaimDebt(user, token, requested) => ClaimTokenDebt(s, user, token, requested)
    case Heal(market, badDebt) => Ok(s.(badDebt := s.badDebt[market := Get(s.badDebt, market) + badDebt]))
    case Donate(token, amount) => Ok(s.(held := s.held[token := Get(s.held, token) + amount]))
    case Configure(minimum, incentive, limit, wait, paused) =>
      Ok(s.(minimumPoolBadDebt := minimum, incentiveBps := incentive, nextBidderLimit := limit,
            waitForFirstBidder := wait,
            auctionsPaused := paused))
  }

  function Apply(s: State, op: Op): State {
    match Step(s, op)
    case Ok(r) => r
    case Revert(_) => s
  }

  function Run(s: State, ops: seq<Op>): State
    decreases |ops|
  {
    if ops == [] then s else Run(Apply(s, ops[0]), ops[1..])
  }

  /** Every running auction is valid, and the debt totals are the sums of the users' debts. */
  ghost predicate Booked(s: State) {
    AuctionsValid(s) && DebtsAgree(s)
  }

  lemma InitializedIsBookedAndSolvent(minimum: nat, limit: nat, wait: nat, baseAsset: Address,
                                      underlying: map<Address, Address>, comptrollerOf: map<Address, Address>,
                                      badDebt: map<Address, nat>)
    ensures var s := Initialized(minimum, limit, wait, baseAsset, underlying, comptrollerOf, badDebt);
            Booked(s) && Solvent(s) && forall t :: Surplus(s, t) == 0
  {
    var s := Initialized(minimum, limit, wait, baseAsset, underlying, comptrollerOf, badDebt);
    forall t ensures Surplus(s, t) == 0 { assert Escrows(s, t) == map[]; }
    forall t ensures Get(s.totalTokenDebt, t) == Sum(DebtsIn(s, t)) { assert DebtsIn(s, t) == map[]; }
  }

  lemma CloseKeepsDebtsAgree(s: State, now: nat, c: Address, tokens: Tokens, delivered: nat, accepted: bool, r: State)
    requires DebtsAgree(s) && CloseAuction(s, now, c, tokens, delivered, accepted) == Ok(r)
    ensures DebtsAgree(r)
  {
    var a, settled := CloseParts(s, now, c, tokens, delivered, accepted, r);
    SettleMarketsFrame(Closed(s, c), a, a.markets, tokens.lost, settled);
    var funded := settled.(held := settled.held[s.baseAsset := Get(settled.held, s.baseAsset) + delivered]);
    OthersKeepDebtsAgree(s, funded);
    TransferKeepsDebtsAgree(funded, s.baseAsset, a.highestBidder.value, RiskFundBidAmount(a).value, accepted, r);
  }

  /** No auction changed and no market records less bad debt. */
  lemma QuietKeepsValid(s: State, r: State)
    requires AuctionsValid(s) && r.auctions == s.auctions && r.comptrollerOf == s.comptrollerOf
    requires forall m :: Get(s.badDebt, m) <= Get(r.badDebt, m)
    ensures AuctionsValid(r)
  {
    forall c | c in r.auctions ensures AuctionValid(r, c, r.auctions[c]) {
      assert AuctionValid(s, c, s.auctions[c]);
    }
  }

  /** No auction changed, so a surplus moves only with the free balance. */
  lemma QuietMovesSurplus(s: State, r: State, t: Address)
    requires r.auctions == s.auctions && r.underlying == s.underlying
    ensures Surplus(r, t) - Surplus(s, t) == Free(r, t) - Free(s, t)
  {
    assert Escrows(r, t) == Escrows(s, t);
  }

  lemma StepKeepsValid(s: State, op: Op, r: State)
    requires AuctionsValid(s) && Step(s, op) == Ok(r)
    ensures AuctionsValid(r)
  {
    match op
    case Start(now, c, markets, prices, basePrice, reserves) =>
      StartKeeps(s, now, c, markets, prices, basePrice, reserves, r);
    case Restart(now, c, markets, prices, basePrice, reserves) =>
      RestartKeeps(s, now, c, markets, prices, basePrice, reserves, r);
    case Bid(now, c, bidder, bidBps, startSlot, tokens) =>
      BidKeepsValid(s, now, c, bidder, bidBps, startSlot, tokens, r);
    case Close(now, c, tokens, delivered, accepted) => CloseKeepsValid(s, now, c, tokens, delivered, accepted, r);
    case ClaimDebt(user, token, requested) =>
      ClaimMoves(s, user, token, requested, r);
      QuietKeepsValid(s, r);
    case _ => QuietKeepsValid(s, r);
  }

  lemma StepKeepsDebtsAgree(s: State, op: Op, r: State)
    requires Booked(s) && Step(s, op) == Ok(r)
    ensures DebtsAgree(r)
  {
    match op
    case Start(now, c, markets, prices, basePrice, reserves) =>
      StartKeeps(s, now, c, markets, prices, basePrice, reserves, r);
      OthersKeepDebtsAgree(s, r);
    case Restart(now, c, markets, prices, basePrice, reserves) =>
      RestartKeeps(s, now, c, markets, prices, basePrice, reserves, r);
      OthersKeepDebtsAgree(s, r);
    case Bid(now, c, bidder, bidBps, startSlot, tokens) =>
      BidKeepsValid(s, now, c, bidder, bidBps, startSlot, tokens, r);
    case Close(now, c, tokens, delivered, accepted) =>
      CloseKeepsDebtsAgree(s, now, c, tokens, delivered, accepted, r);
    case ClaimDebt(user, token, requested) => ClaimKeepsDebtsAgree(s, user, token, requested, r);
    case _ => OthersKeepDebtsAgree(s, r);
  }

  /**
   * Over every run of any number of auctions, whatever tokens lose or refuse and whatever the risk fund delivers: bids
   * stay within bounds and within what the markets still record, and the debt totals are the sums of the debts.
   */
  lemma {:induction false} RunKeepsBooked(s: State, ops: seq<Op>)
    requires Booked(s)
    ensures Booked(Run(s, ops))
    decreases |ops|
  {
    if ops != [] {
      if Step(s, ops[0]).Ok? {
        StepKeepsValid(s, ops[0], Apply(s, ops[0]));
        StepKeepsDebtsAgree(s, ops[0], Apply(s, ops[0]));
      }
      RunKeepsBooked(Apply(s, ops[0]), ops[1..]);
    }
  }

  // ------------------------------------------------------------- solvency

  /** A close takes no more than the risk fund's delivery and the base asset's surplus; other operations always pass. */
  ghost predicate Covered(s: State, op: Op) {
    op.Close? && Step(s, op).Ok? ==>
      WinnersPart(AuctionOf(s, op.c)) <= op.delivered + Surplus(s, s.baseAsset)
  }

  lemma OtherStepsKeepSolvent(s: State, op: Op, r: State)
    requires AuctionsValid(s) && Solvent(s) && !op.Close? && Step(s, op) == Ok(r)
    ensures Solvent(r)
  {
    forall t ensures 0 <= Surplus(r, t) {
      assert 0 <= Surplus(s, t);
      match op
      case Start(now, c, markets, prices, basePrice, reserves) =>
        StartKeeps(s, now, c, markets, prices, basePrice, reserves, r);
      case Restart(now, c, markets, prices, basePrice, reserves) =>
        RestartKeeps(s, now, c, markets, prices, basePrice, reserves, r);
      case Bid(now, c, bidder, bidBps, startSlot, tokens) =>
        BidKeepsSurplus(s, now, c, bidder, bidBps, startSlot, tokens, r);
      case ClaimDebt(user, token, requested) =>
        ClaimMoves(s, user, token, requested, r);
        QuietMovesSurplus(s, r, t);
      case _ => QuietMovesSurplus(s, r, t);
    }
  }

  lemma StepSolventExactly(s: State, op: Op, r: State)
    requires AuctionsValid(s) && Solvent(s) && Step(s, op) == Ok(r)
    ensures Solvent(r) <==> Covered(s, op)
  {
    if op.Close? {
      CloseSolventExactly(s, op.now, op.c, op.tokens, op.delivered, op.accepted, r);
    } else {
      OtherStepsKeepSolvent(s, op, r);
    }
  }

  ghost predicate AllCovered(s: State, ops: seq<Op>)
    decreases |ops|
  {
    ops == [] || (Covered(s, ops[0]) && AllCovered(Apply(s, ops[0]), ops[1..]))
  }

  ghost predicate SolventThroughout(s: State, ops: seq<Op>)
    decreases |ops|
  {
    Solvent(s) && (ops == [] || SolventThroughout(Apply(s, ops[0]), ops[1..]))
  }

  /**
   * The contract holds every bid in escrow and every tracked debt throughout a run if and only if each close is
   * covered.
   */
  lemma {:induction false} RunSolventExactly(s: State, ops: seq<Op>)
    requires AuctionsValid(s) && Solvent(s)
    ensures SolventThroughout(s, ops) <==> AllCovered(s, ops)
    decreases |ops|
  {
    if ops != [] {
      var t := Apply(s, ops[0]);
      if Step(s, ops[0]).Ok? {
        StepKeepsValid(s, ops[0], t);
        StepSolventExactly(s, ops[0], t);
      }
      if Solvent(t) { RunSolventExactly(t, ops[1..]); }
    }
  }

  /** Pools 11 and 12 have bad debt in one market each, 1000 of another token in the one and 100 of the base asset. */
  function TwoPools(auctions: map<Address, Auction>, held: map<Address, nat>): State {
    var first, second, token, base := Address(1), Address(2), Address(21), Address(20);
    Initialized(1, 1, 1, base, map[first := token, second := base],
                map[first := Address(11), second := Address(12)],
                map[first := 1000, second := 100]).(auctions := auctions, held := held)
  }

  /** As started for the first pool on a reserve of two hundred, and for the second on none. */
  const FIRST: Auction :=
    Auction(0, LargePoolDebt, Started, [Address(1)], 200, None, 0, 0, 1818, map[Address(1) := 1000], map[])

  const SECOND: Auction :=
    Auction(0, LargePoolDebt, Started, [Address(2)], 0, None, 0, 0, 0, map[Address(2) := 100], map[])

  function WithBid(a: Auction, bidder: Address, bidAmount: map<Address, nat>): Auction {
    a.(highestBidder := Some(bidder), highestBidBps := MAX_BPS, highestBidSlot := 0, bidAmount := bidAmount)
  }

  const UNTAXED: Tokens := Tokens({}, map[])

  /** Both auctions are started and bid for in full, all in one slot. */
  function Openings(): seq<Op> {
    [Start(0, Address(11), [Address(1)], map[Address(1) := EXP_SCALE], EXP_SCALE, 200),
     Start(0, Address(12), [Address(2)], map[Address(2) := EXP_SCALE], EXP_SCALE, 0),
     Bid(0, Address(11), Address(31), MAX_BPS, 0, UNTAXED),
     Bid(0, Address(12), Address(32), MAX_BPS, 0, UNTAXED)]
  }

  /** Then the contract holds one hundred in escrow in the base asset, and owes the first winner two hundred of it. */
  function TwoAuctions(): State {
    TwoPools(map[Address(11) := WithBid(FIRST, Address(31), map[Address(1) := 1000]),
                 Address(12) := WithBid(SECOND, Address(32), map[Address(2) := 100])],
             map[Address(21) := 1000, Address(20) := 100])
  }

  lemma FirstStarts()
    ensures Step(TwoPools(map[], map[]), Openings()[0]) == Ok(TwoPools(map[Address(11) := FIRST], map[]))
  {
    var s, m := TwoPools(map[], map[]), Address(1);
    assert [m][..0] == [];
    assert PoolBadDebt(s, [m], map[m := EXP_SCALE]) == Ok(1000);
    assert AuctionTerms(1000, 200, DEFAULT_INCENTIVE_BPS) == Ok(Terms(LargePoolDebt, 1818, 200));
    assert (map n | n in [m] :: Get(s.badDebt, n)) == map[m := 1000];
  }

  lemma SecondStarts(auctions: map<Address, Auction>)
    requires Address(12) !in auctions
    ensures Step(TwoPools(auctions, map[]), Openings()[1]) ==
            Ok(TwoPools(auctions[Address(12) := SECOND], map[]))
  {
    var s, m := TwoPools(auctions, map[]), Address(2);
    assert [m][..0] == [];
    assert PoolBadDebt(s, [m], map[m := EXP_SCALE]) == Ok(100);
    assert AuctionTerms(100, 0, DEFAULT_INCENTIVE_BPS) == Ok(Terms(LargePoolDebt, 0, 0));
    assert (map n | n in [m] :: Get(s.badDebt, n)) == map[m := 100];
  }

  lemma FullBid(s: State, c: Address, m: Address, bidder: Address, debt: nat)
    requires c in s.auctions && s.auctions[c].(startBidBps := 0, seizedRiskFund := 0) ==
                                SECOND.(markets := [m], marketDebt := map[m := debt])
    requires s.auctions[c].startBidBps <= MAX_BPS && debt * MAX_BPS <= MAX_UINT256
    requires Get(s.held, TokenOf(s.underlying, m)) + debt <= MAX_UINT256
    ensures var token := TokenOf(s.underlying, m);
            PlaceBid(s, 0, c, bidder, MAX_BPS, 0, UNTAXED) ==
            Ok(s.(auctions := s.auctions[c := WithBid(s.auctions[c], bidder, map[m := debt])],
                  held := s.held[token := Get(s.held, token) + debt]))
  {
    var a := s.auctions[c];
    var k := Collected(s, map[]);
    assert [m][..0] == [];
    assert CollectBids(k, a, MAX_BPS, [], UNTAXED) == Ok(k);
    assert CollectBids(k, a, MAX_BPS, [m], UNTAXED) == CollectBid(k, a, MAX_BPS, m, true, 0);
    FloorsUnique(debt, MulDiv(debt, MAX_BPS, MAX_BPS).value, debt * MAX_BPS, MAX_BPS);
  }

  lemma FirstIsBidFor()
    ensures Step(TwoPools(map[Address(11) := FIRST, Address(12) := SECOND], map[]), Openings()[2]) ==
            Ok(TwoPools(map[Address(11) := WithBid(FIRST, Address(31), map[Address(1) := 1000]),
                            Address(12) := SECOND], map[Address(21) := 1000]))
  {
    var auctions := map[Address(11) := FIRST, Address(12) := SECOND];
    FullBid(TwoPools(auctions, map[]), Address(11), Address(1), Address(31), 1000);
    var won := WithBid(FIRST, Address(31), map[Address(1) := 1000]);
    assert auctions[Address(11) := won] == map[Address(11) := won, Address(12) := SECOND];
  }

  lemma SecondIsBidFor(won: Auction)
    ensures Step(TwoPools(map[Address(11) := won, Address(12) := SECOND], map[Address(21) := 1000]), Openings()[3]) ==
            Ok(TwoPools(map[Address(11) := won,
                            Address(12) := WithBid(SECOND, Address(32), map[Address(2) := 100])],
                        map[Address(21) := 1000, Address(20) := 100]))
  {
    var auctions := map[Address(11) := won, Address(12) := SECOND];
    FullBid(TwoPools(auctions, map[Address(21) := 1000]), Address(12), Address(2), Address(32), 100);
    var other := WithBid(SECOND, Address(32), map[Address(2) := 100]);
    assert auctions[Address(12) := other] == map[Address(11) := won, Address(12) := other];
  }

  lemma FirstStep(s: State, ops: seq<Op>, r: State)
    requires ops != [] && Step(s, ops[0]) == Ok(r)
    ensures Run(s, ops) == Run(r, ops[1..])
  {
  }

  /** A new contract gets there. */
  lemma TwoAuctionsOpen()
    ensures Run(TwoPools(map[], map[]), Openings()) == TwoAuctions()
  {
    var ops := Openings();
    var first := map[Address(11) := FIRST];
    var both := TwoPools(first[Address(12) := SECOND], map[]);
    var won := WithBid(FIRST, Address(31), map[Address(1) := 1000]);
    var one := TwoPools(map[Address(11) := won, Address(12) := SECOND], map[Address(21) := 1000]);
    FirstStarts();
    FirstStep(TwoPools(map[], map[]), ops, TwoPools(first, map[]));
    SecondStarts(first);
    FirstStep(TwoPools(first, map[]), ops[1..], both);
    FirstIsBidFor();
    FirstStep(both, ops[2..], one);
    SecondIsBidFor(won);
    FirstStep(one, ops[3..], TwoAuctions());
    assert ops[1..][1..] == ops[2..] && ops[2..][1..] == ops[3..] && ops[3..][1..] == [];
  }

  lemma OneMarketEscrow(u: map<Address, Address>, m: Address, bids: map<Address, nat>, t: Address)
    ensures MarketsEscrow(u, [m], bids, t) == if TokenOf(u, m) == t then Get(bids, m) else 0
  {
    assert [m][..0] == [];
  }

  lemma TwoEscrows(s: State, c: Address, d: Address, a: Auction, b: Auction, t: Address)
    requires c != d && s.auctions == map[c := a, d := b]
    ensures Sum(Escrows(s, t)) == AuctionEscrow(s.underlying, a, t) + AuctionEscrow(s.underlying, b, t)
  {
    var none := s.(auctions := map[]);
    var one := s.(auctions := map[c := a]);
    assert Escrows(none, t) == map[];
    EscrowReplace(none, c, a, one, t);
    EscrowReplace(one, d, b, s, t);
  }

  lemma TwoAuctionsSurplus(t: Address)
    ensures Surplus(TwoAuctions(), t) == 0
  {
    var s := TwoAuctions();
    var a, b := s.auctions[Address(11)], s.auctions[Address(12)];
    TwoEscrows(s, Address(11), Address(12), a, b, t);
    OneMarketEscrow(s.underlying, Address(1), a.bidAmount, t);
    OneMarketEscrow(s.underlying, Address(2), b.bidAmount, t);
  }

  lemma TwoAuctionsSound()
    ensures Booked(TwoAuctions()) && Solvent(TwoAuctions())
  {
    var s := TwoAuctions();
    forall t ensures 0 <= Surplus(s, t) { TwoAuctionsSurplus(t); }
    forall t ensures Get(s.totalTokenDebt, t) == Sum(DebtsIn(s, t)) { assert DebtsIn(s, t) == map[]; }
  }

  lemma TwoAuctionsClose()
    ensures CloseAuction(TwoAuctions(), 2, Address(11), UNTAXED, 100, true).Ok?
    ensures WinnersPart(AuctionOf(TwoAuctions(), Address(11))) == 200
  {
    var s, first := TwoAuctions(), Address(11);
    var a := s.auctions[first];
    assert [Address(1)][..0] == [];
    assert SettleMarkets(Closed(s, first), a, [], map[]) == Ok(Closed(s, first));
    assert SettleMarkets(Closed(s, first), a, a.markets, map[]) == SettleMarket(Closed(s, first), a, Address(1), 0);
  }

  /**
   * From a new contract: a risk fund that delivers one hundred of the two hundred lets the close pay the winner out of
   * the other escrow.
   */
  lemma CloseCanDrainAnEscrow()
    ensures var s := Run(TwoPools(map[], map[]), Openings());
            var closed := CloseAuction(s, 2, Address(11), UNTAXED, 100, true);
            Booked(s) && Solvent(s) && closed.Ok? && !Solvent(closed.value)
  {
    TwoAuctionsOpen();
    TwoAuctionsSound();
    TwoAuctionsClose();
    TwoAuctionsSurplus(TwoAuctions().baseAsset);
    var closed := CloseAuction(TwoAuctions(), 2, Address(11), UNTAXED, 100, true);
    CloseSolventExactly(TwoAuctions(), 2, Address(11), UNTAXED, 100, true, closed.value);
  }

  // ------------------------------------------------------------- accounts

  /** What an accepted operation makes the contract owe a receiver: the bid that was beaten, or the winner's part. */
  function Owes(s: State, op: Op, token: Address, user: Address): nat {
    if Step(s, op).Revert? then 0
    else if op.Bid? && AuctionOf(s, op.c).highestBidder == Some(user)
    then AuctionEscrow(s.underlying, AuctionOf(s, op.c), token)
    else if op.Close? && AuctionOf(s, op.c).highestBidder == Some(user) && token == s.baseAsset
    then WinnersPart(AuctionOf(s, op.c))
    else 0
  }

  function Owed(s: State, ops: seq<Op>, token: Address, user: Address): nat
    decreases |ops|
  {
    if ops == [] then 0 else Owes(s, ops[0], token, user) + Owed(Apply(s, ops[0]), ops[1..], token, user)
  }

  lemma StepAddsUp(s: State, op: Op, r: State, token: Address, user: Address)
    requires AuctionsValid(s) && Step(s, op) == Ok(r)
    ensures Claim(r, token, user) == Claim(s, token, user) + Owes(s, op, token, user)
  {
    match op
    case Bid(now, c, bidder, bidBps, startSlot, tokens) =>
      OutbidReturnsTheEscrow(s, now, c, bidder, bidBps, startSlot, tokens, r);
    case Close(now, c, tokens, delivered, accepted) => ClosePaysTheWinner(s, now, c, tokens, delivered, accepted, r);
    case ClaimDebt(user', token', requested) => ClaimMoves(s, user', token', requested, r);
    case _ =>
  }

  /** Over every run, what each receiver was sent and is still owed is all that the run came to owe it. */
  lemma {:induction false} RunAddsUp(s: State, ops: seq<Op>, token: Address, user: Address)
    requires AuctionsValid(s)
    ensures Claim(Run(s, ops), token, user) == Claim(s, token, user) + Owed(s, ops, token, user)
    decreases |ops|
  {
    if ops != [] {
      if Step(s, ops[0]).Ok? {
        StepKeepsValid(s, ops[0], Apply(s, ops[0]));
        StepAddsUp(s, ops[0], Apply(s, ops[0]), token, user);
      }
      RunAddsUp(Apply(s, ops[0]), ops[1..], token, user);
    }
  }

  // ------------------------------------------------------ number of bids

  /** How many more bids an auction can take. */
  function Room(a: Auction): (room: nat)
    ensures room <= MAX_BPS
  {
    if a.highestBidder.None? then MAX_BPS
    else if a.auctionType.LargePoolDebt? then (if a.highestBidBps <= MAX_BPS then MAX_BPS - a.highestBidBps else 0)
    else if a.highestBidBps == 0 then 0
    else if a.highestBidBps <= MAX_BPS then a.highestBidBps - 1
    else MAX_BPS
  }

  /** The operation starts, restarts or closes this pool's auction. */
  predicate Resets(op: Op, c: Address) {
    (op.Start? || op.Restart? || op.Close?) && op.c == c
  }

  /** One for an accepted bid on this pool's auction. */
  function Accepted(s: State, op: Op, c: Address): nat {
    if op.Bid? && op.c == c && Step(s, op).Ok? then 1 else 0
  }

  function BidsAccepted(s: State, ops: seq<Op>, c: Address): nat
    decreases |ops|
  {
    if ops == [] then 0 else Accepted(s, ops[0], c) + BidsAccepted(Apply(s, ops[0]), ops[1..], c)
  }

  lemma BidUsesRoom(s: State, op: Op, c: Address, r: State)
    requires op.Bid? && Step(s, op) == Ok(r)
    ensures Room(AuctionOf(r, c)) + (if op.c == c then 1 else 0) <= Room(AuctionOf(s, c))
  {
    var a, k := BidParts(s, op.now, op.c, op.bidder, op.bidBps, op.startSlot, op.tokens, r);
  }

  lemma CloseKeepsRoom(s: State, op: Op, c: Address, r: State)
    requires op.Close? && op.c != c && Step(s, op) == Ok(r)
    ensures AuctionOf(r, c) == AuctionOf(s, c)
  {
    var a, settled := CloseParts(s, op.now, op.c, op.tokens, op.delivered, op.accepted, r);
    SettleMarketsFrame(Closed(s, op.c), a, a.markets, op.tokens.lost, settled);
    PayWinnerFrame(settled, a, op.delivered, op.accepted, r);
  }

  lemma OtherKeepsRoom(s: State, op: Op, c: Address, r: State)
    requires !Resets(op, c) && !op.Bid? && !op.Close? && Step(s, op) == Ok(r)
    ensures AuctionOf(r, c) == AuctionOf(s, c)
  {
  }

  lemma StepUsesRoom(s: State, op: Op, c: Address)
    requires !Resets(op, c)
    ensures Room(AuctionOf(Apply(s, op), c)) + Accepted(s, op, c) <= Room(AuctionOf(s, c))
  {
    if Step(s, op).Ok? {
      if op.Bid? { BidUsesRoom(s, op, c, Apply(s, op)); }
      else if op.Close? { CloseKeepsRoom(s, op, c, Apply(s, op)); }
      else { OtherKeepsRoom(s, op, c, Apply(s, op)); }
    }
  }

  /** Between two resets one auction accepts at most ten thousand bids, each strictly better than the last. */
  lemma {:induction false} BidsAreBounded(s: State, ops: seq<Op>, c: Address)
    requires forall i :: 0 <= i < |ops| ==> !Resets(ops[i], c)
    ensures BidsAccepted(s, ops, c) + Room(AuctionOf(Run(s, ops), c)) <= Room(AuctionOf(s, c)) <= MAX_BPS
    decreases |ops|
  {
    if ops != [] {
      StepUsesRoom(s, ops[0], c);
      BidsAreBounded(Apply(s, ops[0]), ops[1..], c);
    }
  }
}
