/** What bids keep: escrow and debts stay held, refunds are exact, and a bid never fails for lack of balance. */
module ShortfallSafety {
  import opened Evm
  import opened ExponentialNoError
  import opened Sums
  import L = VTokenLedger
  import opened ShortfallAuctions

  // --------------------------------------------------------------- escrow

  /** The recorded bids of some markets in one token. */
  function MarketsEscrow(underlying: map<Address, Address>, markets: seq<Address>, bids: map<Address, nat>,
                         token: Address): nat {
    if markets == [] then 0
    else
      var m := markets[|markets| - 1];
      MarketsEscrow(underlying, markets[..|markets| - 1], bids, token) +
      if TokenOf(underlying, m) == token then Get(bids, m) else 0
  }

  function AuctionEscrow(underlying: map<Address, Address>, a: Auction, token: Address): nat {
    if a.status == Started && a.highestBidder.Some? then MarketsEscrow(underlying, a.markets, a.bidAmount, token) else 0
  }

  ghost function Escrows(s: State, token: Address): map<Address, int> {
    map c | c in s.auctions :: AuctionEscrow(s.underlying, s.auctions[c], token)
  }

  /** Held tokens that are owed to nobody. */
  function Free(s: State, token: Address): int {
    Get(s.held, token) - Get(s.totalTokenDebt, token)
  }

  /** Held tokens beyond what is owed and what is in escrow for the running auctions. */
  ghost function Surplus(s: State, token: Address): int {
    Free(s, token) - Sum(Escrows(s, token))
  }

  ghost predicate Solvent(s: State) {
    forall t :: 0 <= Surplus(s, t)
  }

  /** Everything a receiver was sent or is still owed in one token. */
  function Claim(s: State, token: Address, user: Address): nat {
    Get(s.sent, (token, user)) + Get(s.tokenDebt, (token, user))
  }

  /**
   * A running auction is over its own pool's markets, for debts those markets still record, with a sensible best bid.
   */
  predicate AuctionValid(s: State, c: Address, a: Auction) {
    a.status == Started ==>
      && NoDuplicates(a.markets)
      && a.startBidBps <= MAX_BPS
      && (a.highestBidder.Some? ==> 1 <= a.highestBidBps <= MAX_BPS)
      && forall m :: m in a.markets ==>
           && m in s.comptrollerOf && s.comptrollerOf[m] == c
           && Get(a.marketDebt, m) <= Get(s.badDebt, m)
           && (a.highestBidder.Some? ==> Get(a.bidAmount, m) <= Get(a.marketDebt, m))
  }

  predicate AuctionsValid(s: State) {
    forall c :: c in s.auctions ==> AuctionValid(s, c, s.auctions[c])
  }

  lemma {:induction false} EscrowFrame(u: map<Address, Address>, ms: seq<Address>, a: map<Address, nat>,
                                       b: map<Address, nat>, t: Address)
    requires forall m :: m in ms ==> Get(a, m) == Get(b, m)
    ensures MarketsEscrow(u, ms, a, t) == MarketsEscrow(u, ms, b, t)
  {
    if ms != [] { EscrowFrame(u, ms[..|ms| - 1], a, b, t); }
  }

  lemma {:induction false} EscrowPrefix(u: map<Address, Address>, ms: seq<Address>, n: nat, bids: map<Address, nat>,
                                        t: Address)
    requires n <= |ms|
    ensures MarketsEscrow(u, ms[..n], bids, t) <= MarketsEscrow(u, ms, bids, t)
    decreases |ms|
  {
    if n == |ms| {
      assert ms[..n] == ms;
    } else {
      assert ms[..|ms| - 1][..n] == ms[..n];
      EscrowPrefix(u, ms[..|ms| - 1], n, bids, t);
    }
  }

  lemma EscrowsUpdate(s: State, c: Address, a: Auction, r: State, t: Address)
    requires r.auctions == s.auctions[c := a] && r.underlying == s.underlying
    ensures Escrows(r, t) == Escrows(s, t)[c := AuctionEscrow(s.underlying, a, t)]
  {
  }

  /** Replacing one auction moves the total escrow by the difference of the two. */
  lemma EscrowReplace(s: State, c: Address, a: Auction, r: State, t: Address)
    requires r.auctions == s.auctions[c := a] && r.underlying == s.underlying
    ensures Sum(Escrows(r, t)) ==
            Sum(Escrows(s, t)) + AuctionEscrow(s.underlying, a, t) - AuctionEscrow(s.underlying, AuctionOf(s, c), t)
  {
    EscrowsUpdate(s, c, a, r, t);
    SumUpdate(Escrows(s, t), c, AuctionEscrow(s.underlying, a, t));
  }

  lemma EscrowAtLeast(s: State, c: Address, t: Address)
    ensures AuctionEscrow(s.underlying, AuctionOf(s, c), t) <= Sum(Escrows(s, t))
  {
    if c in s.auctions { SumAtLeast(Escrows(s, t), c); } else { SumNonNegative(Escrows(s, t)); }
  }

  // ------------------------------------------------------------ transfers

  /** Nothing but balances, debts and the record of transfers. */
  predicate OnlyTokensMoved(s: State, r: State) {
    r == s.(held := r.held, tokenDebt := r.tokenDebt, totalTokenDebt := r.totalTokenDebt, sent := r.sent)
  }

  /** Sent or owed, the amount leaves the free balance and becomes the receiver's. */
  lemma TransferMoves(s: State, token: Address, to: Address, amount: nat, accepted: bool, r: State)
    requires TransferOutOrTrackDebt(s, token, to, amount, accepted) == Ok(r)
    ensures OnlyTokensMoved(s, r)
    ensures forall t :: Free(r, t) == Free(s, t) - if t == token then amount else 0
    ensures forall t, u :: Claim(r, t, u) == Claim(s, t, u) + if t == token && u == to then amount else 0
  {
  }

  /** What a token accepts is sent; what it refuses is recorded as owed, to that receiver and in the total. */
  lemma TransferExactly(s: State, token: Address, to: Address, amount: nat, accepted: bool)
    ensures var debt, total := Get(s.tokenDebt, (token, to)), Get(s.totalTokenDebt, token);
            var r := TransferOutOrTrackDebt(s, token, to, amount, accepted);
            && (r.Ok? <==> amount <= Get(s.held, token) &&
                           (accepted || (debt + amount <= MAX_UINT256 && total + amount <= MAX_UINT256)))
            && (r.Ok? ==>
                  if accepted
                  then r.value == s.(held := s.held[token := Get(s.held, token) - amount],
                                     sent := s.sent[(token, to) := Get(s.sent, (token, to)) + amount])
                  else r.value == s.(tokenDebt := s.tokenDebt[(token, to) := debt + amount],
                                     totalTokenDebt := s.totalTokenDebt[token := total + amount]))
  {
  }

  /**
   * A claim goes through exactly when it is covered by the user's debt and by what is held, where the largest word
   * stands for the whole debt; it pays the user that much and owes it that much less.
   */
  lemma ClaimExactly(s: State, user: Address, token: Address, requested: nat)
    requires DebtsAgree(s)
    ensures var debt := Get(s.tokenDebt, (token, user));
            var amount := if requested == MAX_UINT256 then debt else requested;
            var r := ClaimTokenDebt(s, user, token, requested);
            && (r.Ok? <==> amount <= debt && amount <= Get(s.held, token))
            && (r.Ok? ==>
                  && Get(r.value.sent, (token, user)) == Get(s.sent, (token, user)) + amount
                  && Get(r.value.tokenDebt, (token, user)) == debt - amount
                  && Get(r.value.held, token) == Get(s.held, token) - amount
                  && forall t, u :: (t, u) != (token, user) ==> Get(r.value.sent, (t, u)) == Get(s.sent, (t, u)))
  {
    DebtWithinTotal(s, token, user);
  }

  lemma DebtWithinTotal(s: State, token: Address, user: Address)
    requires DebtsAgree(s)
    ensures Get(s.tokenDebt, (token, user)) <= Get(s.totalTokenDebt, token)
  {
    assert Get(s.totalTokenDebt, token) == Sum(DebtsIn(s, token));
    if (token, user) in s.tokenDebt {
      SumAtLeast(DebtsIn(s, token), (token, user));
    }
  }

  /** A claim turns debt into a transfer and changes neither what is free nor anybody's total. */
  lemma ClaimMoves(s: State, user: Address, token: Address, requested: nat, r: State)
    requires ClaimTokenDebt(s, user, token, requested) == Ok(r)
    ensures OnlyTokensMoved(s, r)
    ensures forall t :: Free(r, t) == Free(s, t)
    ensures forall t, u :: Claim(r, t, u) == Claim(s, t, u)
    ensures forall t, u :: Get(r.tokenDebt, (t, u)) <= Get(s.tokenDebt, (t, u))
  {
  }

  /** All debts in one token. */
  ghost function DebtsIn(s: State, token: Address): map<(Address, Address), int> {
    map k | k in s.tokenDebt && k.0 == token :: s.tokenDebt[k]
  }

  ghost predicate DebtsAgree(s: State) {
    forall t :: Get(s.totalTokenDebt, t) == Sum(DebtsIn(s, t))
  }

  lemma DebtUpdate(s: State, token: Address, user: Address, debt: nat, r: State)
    requires r.tokenDebt == s.tokenDebt[(token, user) := debt]
    ensures Sum(DebtsIn(r, token)) == Sum(DebtsIn(s, token)) + debt - Get(s.tokenDebt, (token, user))
    ensures forall t :: t != token ==> DebtsIn(r, t) == DebtsIn(s, t)
  {
    DebtsInUpdate(s, token, user, debt, r);
    SumUpdate(DebtsIn(s, token), (token, user), debt);
  }

  lemma DebtsInUpdate(s: State, token: Address, user: Address, debt: nat, r: State)
    requires r.tokenDebt == s.tokenDebt[(token, user) := debt]
    ensures DebtsIn(r, token) == DebtsIn(s, token)[(token, user) := debt]
    ensures forall t :: t != token ==> DebtsIn(r, t) == DebtsIn(s, t)
  {
    forall t | t != token ensures DebtsIn(r, t) == DebtsIn(s, t) {}
  }

  lemma DebtMoved(s: State, token: Address, user: Address, debt: nat, total: nat, r: State)
    requires DebtsAgree(s)
    requires r.tokenDebt == s.tokenDebt[(token, user) := debt] && r.totalTokenDebt == s.totalTokenDebt[token := total]
    requires total - Get(s.totalTokenDebt, token) == debt - Get(s.tokenDebt, (token, user))
    ensures DebtsAgree(r)
  {
    DebtUpdate(s, token, user, debt, r);
    assert Get(s.totalTokenDebt, token) == Sum(DebtsIn(s, token));
    forall t | t != token ensures Get(r.totalTokenDebt, t) == Sum(DebtsIn(r, t)) {
      assert Get(r.totalTokenDebt, t) == Get(s.totalTokenDebt, t) == Sum(DebtsIn(s, t));
    }
  }

  /** The recorded total is the sum of what each user is owed, whether a transfer is refused or a debt is claimed. */
  lemma TransferKeepsDebtsAgree(s: State, token: Address, to: Address, amount: nat, accepted: bool, r: State)
    requires DebtsAgree(s) && TransferOutOrTrackDebt(s, token, to, amount, accepted) == Ok(r)
    ensures DebtsAgree(r)
  {
    if accepted {
      OthersKeepDebtsAgree(s, r);
    } else {
      DebtMoved(s, token, to, Get(s.tokenDebt, (token, to)) + amount, Get(s.totalTokenDebt, token) + amount, r);
    }
  }

  lemma ClaimKeepsDebtsAgree(s: State, user: Address, token: Address, requested: nat, r: State)
    requires DebtsAgree(s) && ClaimTokenDebt(s, user, token, requested) == Ok(r)
    ensures DebtsAgree(r)
  {
    var debt, total := r.tokenDebt[(token, user)], r.totalTokenDebt[token];
    DebtMoved(s, token, user, debt, total, r);
  }

  lemma OthersKeepDebtsAgree(s: State, r: State)
    requires DebtsAgree(s) && r.tokenDebt == s.tokenDebt && r.totalTokenDebt == s.totalTokenDebt
    ensures DebtsAgree(r)
  {
    forall t ensures DebtsIn(r, t) == DebtsIn(s, t) {}
  }

  // -------------------------------------------------------------- bidding

  function OldEscrow(k: Collected, a: Auction, ms: seq<Address>, t: Address): nat {
    if a.highestBidder.Some? then MarketsEscrow(k.state.underlying, ms, k.bidAmount, t) else 0
  }

  lemma BidWithinDebt(a: Auction, m: Address, bidBps: nat)
    requires bidBps <= MAX_BPS && BidFor(a, m, bidBps).Ok?
    ensures BidFor(a, m, bidBps).value <= Get(a.marketDebt, m)
  {
    if a.auctionType.LargePoolDebt? {
      var debt := Get(a.marketDebt, m);
      Grow(bidBps, MAX_BPS, debt);
      DivFloors(debt * MAX_BPS, MAX_BPS);
      FloorsMonotone(BidFor(a, m, bidBps).value, debt * bidBps, debt, debt * MAX_BPS, MAX_BPS);
    }
  }

  /** A bid asks for its percentage of the debt, rounded down, or for all of it when the fund is the larger. */
  function Asked(a: Auction, m: Address, bidBps: nat): nat {
    if a.auctionType.LargePoolDebt? then Get(a.marketDebt, m) * bidBps / MAX_BPS else Get(a.marketDebt, m)
  }

  /** What is recorded for some markets is what was delivered of what was asked. */
  ghost predicate Collects(a: Auction, bidBps: nat, ms: seq<Address>, lost: map<Address, nat>,
                           bidAmount: map<Address, nat>) {
    forall m :: m in ms ==> Get(bidAmount, m) == L.Delivered(Asked(a, m, bidBps), Get(lost, m))
  }

  lemma CollectBidAsks(k: Collected, a: Auction, bidBps: nat, m: Address, accepted: bool, lost: nat, r: Collected)
    requires CollectBid(k, a, bidBps, m, accepted, lost) == Ok(r)
    ensures r.bidAmount == k.bidAmount[m := L.Delivered(Asked(a, m, bidBps), lost)]
  {
    if a.auctionType.LargePoolDebt? {
      var share := Get(a.marketDebt, m) * bidBps;
      DivFloors(share, MAX_BPS);
      FloorsUnique(BidFor(a, m, bidBps).value, share / MAX_BPS, share, MAX_BPS);
    }
  }

  lemma {:induction false} CollectBidsAsk(k: Collected, a: Auction, bidBps: nat, ms: seq<Address>, tokens: Tokens,
                                          r: Collected)
    requires CollectBids(k, a, bidBps, ms, tokens) == Ok(r)
    ensures Collects(a, bidBps, ms, tokens.lost, r.bidAmount)
  {
    if ms != [] {
      var init, m := ms[..|ms| - 1], ms[|ms| - 1];
      assert ms == init + [m];
      var b := CollectBids(k, a, bidBps, init, tokens).value;
      CollectBidsAsk(k, a, bidBps, init, tokens, b);
      CollectBidAsks(b, a, bidBps, m, m !in tokens.refused, Get(tokens.lost, m), r);
    }
  }

  /** Only tokens moved, and the market's recorded bid is a new one within its debt. */
  predicate BidRecorded(k: Collected, a: Auction, m: Address, r: Collected) {
    && OnlyTokensMoved(k.state, r.state) && r.bidAmount == k.bidAmount[m := Get(r.bidAmount, m)]
    && Get(r.bidAmount, m) <= Get(a.marketDebt, m)
  }

  /** In the market's token the old bid left and the new one arrived. */
  ghost predicate BidExchanged(k: Collected, a: Auction, m: Address, r: Collected) {
    forall t :: Free(r.state, t) == Free(k.state, t) +
      if t != TokenOf(k.state.underlying, m) then 0
      else Get(r.bidAmount, m) - if a.highestBidder.Some? then Get(k.bidAmount, m) else 0
  }

  lemma CollectBidRecords(k: Collected, a: Auction, bidBps: nat, m: Address, accepted: bool, lost: nat, r: Collected)
    requires bidBps <= MAX_BPS && CollectBid(k, a, bidBps, m, accepted, lost) == Ok(r)
    ensures BidRecorded(k, a, m, r)
  {
    BidWithinDebt(a, m, bidBps);
    if a.highestBidder.Some? {
      var token := TokenOf(k.state.underlying, m);
      var s := TransferOutOrTrackDebt(k.state, token, a.highestBidder.value, Get(k.bidAmount, m), accepted).value;
      TransferMoves(k.state, token, a.highestBidder.value, Get(k.bidAmount, m), accepted, s);
    }
  }

  /** One market of a bid, seen token by token and claim by claim. */
  lemma CollectBidMoves(k: Collected, a: Auction, bidBps: nat, m: Address, accepted: bool, lost: nat, r: Collected)
    requires CollectBid(k, a, bidBps, m, accepted, lost) == Ok(r)
    ensures BidExchanged(k, a, m, r)
    ensures forall t, u :: Claim(r.state, t, u) == Claim(k.state, t, u) +
              if t == TokenOf(k.state.underlying, m) && a.highestBidder == Some(u) then Get(k.bidAmount, m) else 0
  {
    if a.highestBidder.Some? {
      var token := TokenOf(k.state.underlying, m);
      var s := TransferOutOrTrackDebt(k.state, token, a.highestBidder.value, Get(k.bidAmount, m), accepted).value;
      TransferMoves(k.state, token, a.highestBidder.value, Get(k.bidAmount, m), accepted, s);
    }
  }

  lemma CollectBidKeepsDebtsAgree(k: Collected, a: Auction, bidBps: nat, m: Address, accepted: bool, lost: nat,
                                  r: Collected)
    requires DebtsAgree(k.state) && CollectBid(k, a, bidBps, m, accepted, lost) == Ok(r)
    ensures DebtsAgree(r.state)
  {
    if a.highestBidder.None? {
      OthersKeepDebtsAgree(k.state, r.state);
    } else {
      var token := TokenOf(k.state.underlying, m);
      var s := TransferOutOrTrackDebt(k.state, token, a.highestBidder.value, Get(k.bidAmount, m), accepted).value;
      TransferKeepsDebtsAgree(k.state, token, a.highestBidder.value, Get(k.bidAmount, m), accepted, s);
      OthersKeepDebtsAgree(s, r.state);
    }
  }

  lemma {:induction false} CollectBidsKeepDebtsAgree(k: Collected, a: Auction, bidBps: nat, ms: seq<Address>,
                                                     tokens: Tokens,
                                                     r: Collected)
    requires DebtsAgree(k.state) && CollectBids(k, a, bidBps, ms, tokens) == Ok(r)
    ensures DebtsAgree(r.state)
  {
    if ms != [] {
      var init, m := ms[..|ms| - 1], ms[|ms| - 1];
      var b := CollectBids(k, a, bidBps, init, tokens).value;
      CollectBidsKeepDebtsAgree(k, a, bidBps, init, tokens, b);
      CollectBidKeepsDebtsAgree(b, a, bidBps, m, m !in tokens.refused, Get(tokens.lost, m), r);
    }
  }

  /** The bids of some markets were replaced by new ones within the markets' debts. */
  predicate BidsReplaced(k: Collected, a: Auction, ms: seq<Address>, r: Collected) {
    && OnlyTokensMoved(k.state, r.state)
    && r.bidAmount.Keys >= k.bidAmount.Keys
    && (forall m :: m in k.bidAmount && m !in ms ==> r.bidAmount[m] == k.bidAmount[m])
    && (forall m :: m in r.bidAmount && m !in ms ==> m in k.bidAmount)
    && (forall m :: m in ms ==> Get(r.bidAmount, m) <= Get(a.marketDebt, m))
  }

  /** Token by token the old escrow left and the new one arrived. */
  ghost predicate EscrowReplaced(k: Collected, a: Auction, ms: seq<Address>, r: Collected) {
    forall t :: Free(r.state, t) ==
      Free(k.state, t) - OldEscrow(k, a, ms, t) + MarketsEscrow(k.state.underlying, ms, r.bidAmount, t)
  }

  /** The old bidder's claim rose by the old escrow, and no other. */
  ghost predicate EscrowReturned(k: Collected, a: Auction, ms: seq<Address>, r: Collected) {
    forall t, u :: Claim(r.state, t, u) == Claim(k.state, t, u) +
      if a.highestBidder == Some(u) then MarketsEscrow(k.state.underlying, ms, k.bidAmount, t) else 0
  }

  lemma MoreEscrow(u: map<Address, Address>, init: seq<Address>, m: Address, bids: map<Address, nat>, t: Address)
    ensures MarketsEscrow(u, init + [m], bids, t) ==
            MarketsEscrow(u, init, bids, t) + if TokenOf(u, m) == t then Get(bids, m) else 0
  {
    assert (init + [m])[..|init|] == init;
  }

  lemma OneMoreReplaced(k: Collected, a: Auction, init: seq<Address>, b: Collected, m: Address, r: Collected)
    requires BidsReplaced(k, a, init, b) && BidRecorded(b, a, m, r)
    ensures BidsReplaced(k, a, init + [m], r)
  {
  }

  lemma OneMoreExchanged(k: Collected, a: Auction, init: seq<Address>, b: Collected, m: Address, r: Collected)
    requires m !in init && BidsReplaced(k, a, init, b) && BidRecorded(b, a, m, r)
    requires EscrowReplaced(k, a, init, b) && BidExchanged(b, a, m, r)
    ensures EscrowReplaced(k, a, init + [m], r)
  {
    forall t
      ensures Free(r.state, t) == Free(k.state, t) - OldEscrow(k, a, init + [m], t) +
              MarketsEscrow(k.state.underlying, init + [m], r.bidAmount, t)
    {
      OneMoreExchangedIn(k, a, init, b, m, r, t);
    }
  }

  lemma OneMoreExchangedIn(k: Collected, a: Auction, init: seq<Address>, b: Collected, m: Address, r: Collected,
                           t: Address)
    requires m !in init && BidsReplaced(k, a, init, b) && BidRecorded(b, a, m, r)
    requires EscrowReplaced(k, a, init, b) && BidExchanged(b, a, m, r)
    ensures Free(r.state, t) == Free(k.state, t) - OldEscrow(k, a, init + [m], t) +
            MarketsEscrow(k.state.underlying, init + [m], r.bidAmount, t)
  {
    var u := k.state.underlying;
    MoreEscrow(u, init, m, r.bidAmount, t);
    MoreEscrow(u, init, m, k.bidAmount, t);
    EscrowFrame(u, init, r.bidAmount, b.bidAmount, t);
    assert Free(b.state, t) == Free(k.state, t) - OldEscrow(k, a, init, t) + MarketsEscrow(u, init, b.bidAmount, t);
  }

  lemma OneMoreReturned(k: Collected, a: Auction, bidBps: nat, init: seq<Address>, b: Collected, m: Address,
                        accepted: bool, lost: nat, r: Collected)
    requires m !in init && CollectBid(b, a, bidBps, m, accepted, lost) == Ok(r)
    requires BidsReplaced(k, a, init, b) && EscrowReturned(k, a, init, b)
    ensures EscrowReturned(k, a, init + [m], r)
  {
    CollectBidMoves(b, a, bidBps, m, accepted, lost, r);
    assert Get(b.bidAmount, m) == Get(k.bidAmount, m);
    forall t, u ensures Claim(r.state, t, u) == Claim(k.state, t, u) +
      if a.highestBidder == Some(u) then MarketsEscrow(k.state.underlying, init + [m], k.bidAmount, t) else 0
    {
      MoreEscrow(k.state.underlying, init, m, k.bidAmount, t);
    }
  }

  lemma OneMoreBid(k: Collected, a: Auction, bidBps: nat, init: seq<Address>, b: Collected, m: Address, accepted: bool,
                   lost: nat, r: Collected)
    requires bidBps <= MAX_BPS && m !in init && CollectBid(b, a, bidBps, m, accepted, lost) == Ok(r)
    requires BidsReplaced(k, a, init, b) && EscrowReplaced(k, a, init, b)
    ensures BidsReplaced(k, a, init + [m], r) && EscrowReplaced(k, a, init + [m], r)
  {
    CollectBidRecords(b, a, bidBps, m, accepted, lost, r);
    CollectBidMoves(b, a, bidBps, m, accepted, lost, r);
    OneMoreReplaced(k, a, init, b, m, r);
    OneMoreExchanged(k, a, init, b, m, r);
  }

  lemma {:induction false} CollectBidsMoves(k: Collected, a: Auction, bidBps: nat, ms: seq<Address>, tokens: Tokens,
                                            r: Collected)
    requires bidBps <= MAX_BPS && NoDuplicates(ms) && CollectBids(k, a, bidBps, ms, tokens) == Ok(r)
    ensures BidsReplaced(k, a, ms, r) && EscrowReplaced(k, a, ms, r) && EscrowReturned(k, a, ms, r)
  {
    if ms != [] {
      var init, m := ms[..|ms| - 1], ms[|ms| - 1];
      assert ms == init + [m];
      var b := CollectBids(k, a, bidBps, init, tokens).value;
      CollectBidsMoves(k, a, bidBps, init, tokens, b);
      OneMoreBid(k, a, bidBps, init, b, m, m !in tokens.refused, Get(tokens.lost, m), r);
      OneMoreReturned(k, a, bidBps, init, b, m, m !in tokens.refused, Get(tokens.lost, m), r);
    }
  }

  /** What is free covers the next refund: the rest of the old escrow is still there. */
  lemma NextRefundIsHeld(k: Collected, a: Auction, ms: seq<Address>, n: nat, b: Collected)
    requires NoDuplicates(ms) && n < |ms| && a.highestBidder.Some?
    requires forall t :: OldEscrow(k, a, ms, t) <= Free(k.state, t)
    requires BidsReplaced(k, a, ms[..n], b) && EscrowReplaced(k, a, ms[..n], b)
    ensures Get(b.bidAmount, ms[n]) <= Get(b.state.held, TokenOf(b.state.underlying, ms[n]))
  {
    var u, m := k.state.underlying, ms[n];
    var token := TokenOf(u, m);
    assert ms[..n + 1] == ms[..n] + [m];
    MoreEscrow(u, ms[..n], m, k.bidAmount, token);
    EscrowPrefix(u, ms, n + 1, k.bidAmount, token);
    assert OldEscrow(k, a, ms, token) <= Free(k.state, token);
    assert Free(b.state, token) ==
           Free(k.state, token) - OldEscrow(k, a, ms[..n], token) + MarketsEscrow(u, ms[..n], b.bidAmount, token);
    assert m !in ms[..n];
  }

  lemma HeldRefundSucceeds(b: Collected, a: Auction, bidBps: nat, m: Address, accepted: bool, lost: nat)
    requires a.highestBidder.Some? ==> Get(b.bidAmount, m) <= Get(b.state.held, TokenOf(b.state.underlying, m))
    ensures CollectBid(b, a, bidBps, m, accepted, lost) != Revert(InsufficientBalance)
  {
  }

  /** A refund never fails for lack of balance. */
  lemma {:induction false} CollectBidsHaveBalance(k: Collected, a: Auction, bidBps: nat, ms: seq<Address>, n: nat,
                                                  tokens: Tokens)
    requires bidBps <= MAX_BPS && NoDuplicates(ms) && n <= |ms|
    requires forall t :: OldEscrow(k, a, ms, t) <= Free(k.state, t)
    ensures CollectBids(k, a, bidBps, ms[..n], tokens) != Revert(InsufficientBalance)
  {
    if n > 0 {
      CollectBidsHaveBalance(k, a, bidBps, ms, n - 1, tokens);
      assert ms[..n][..n - 1] == ms[..n - 1];
      var before := CollectBids(k, a, bidBps, ms[..n - 1], tokens);
      if before.Ok? {
        var b, m := before.value, ms[n - 1];
        assert a.highestBidder.Some? ==> Get(b.bidAmount, m) <= Get(b.state.held, TokenOf(b.state.underlying, m)) by {
          CollectBidsMoves(k, a, bidBps, ms[..n - 1], tokens, b);
          if a.highestBidder.Some? { NextRefundIsHeld(k, a, ms, n - 1, b); }
        }
        HeldRefundSucceeds(b, a, bidBps, m, m !in tokens.refused, Get(tokens.lost, m));
      }
    }
  }

  // ------------------------------------------------------- accepted bids

  lemma BidParts(s: State, now: nat, c: Address, bidder: Address, bidBps: nat, startSlot: nat, tokens: Tokens, r: State)
    returns (a: Auction, k: Collected)
    requires PlaceBid(s, now, c, bidder, bidBps, startSlot, tokens) == Ok(r)
    ensures a == AuctionOf(s, c) && a.status == Started && c in s.auctions && 1 <= bidBps <= MAX_BPS &&
            Improves(a, bidBps)
    ensures CollectBids(Collected(s, a.bidAmount), a, bidBps, a.markets, tokens) == Ok(k)
    ensures r == k.state.(auctions := s.auctions[c := a.(highestBidder := Some(bidder), highestBidBps := bidBps,
                                                        highestBidSlot := now, bidAmount := k.bidAmount)])
  {
    a := AuctionOf(s, c);
    k := CollectBids(Collected(s, a.bidAmount), a, bidBps, a.markets, tokens).value;
  }

  /** An accepted bid is recorded with its bidder, and in every market with what was delivered of what it asked for. */
  lemma BidCollects(s: State, now: nat, c: Address, bidder: Address, bidBps: nat, startSlot: nat, tokens: Tokens,
                    r: State)
    requires PlaceBid(s, now, c, bidder, bidBps, startSlot, tokens) == Ok(r)
    ensures c in s.auctions && c in r.auctions
    ensures var a, b := s.auctions[c], r.auctions[c];
            && b == a.(highestBidder := Some(bidder), highestBidBps := bidBps, highestBidSlot := now,
                       bidAmount := b.bidAmount)
            && Collects(a, bidBps, a.markets, tokens.lost, b.bidAmount)
  {
    var a, k := BidParts(s, now, c, bidder, bidBps, startSlot, tokens, r);
    CollectBidsAsk(Collected(s, a.bidAmount), a, bidBps, a.markets, tokens, k);
  }

  /**
   * When a bid may be placed: on the running auction the bidder meant, before it goes stale, for a percentage that
   * beats the best one, or as a first bid reaches the start bid. More of the debt is better, or less of the fund.
   */
  predicate MayBid(a: Auction, now: nat, waitForFirstBidder: nat, bidBps: nat, startSlot: nat) {
    && a.status == Started && a.startSlot == startSlot && 0 < bidBps <= MAX_BPS
    && (a.highestBidder.None? ==> now <= a.startSlot + waitForFirstBidder)
    && (a.auctionType.LargePoolDebt? && a.highestBidder.None? ==> a.startBidBps <= bidBps)
    && (a.auctionType.LargePoolDebt? && a.highestBidder.Some? ==> a.highestBidBps < bidBps)
    && (a.auctionType.LargeRiskFund? && a.highestBidder.None? ==> bidBps <= a.startBidBps)
    && (a.auctionType.LargeRiskFund? && a.highestBidder.Some? ==> bidBps < a.highestBidBps)
  }

  lemma MayBidExactly(s: State, a: Auction, now: nat, bidBps: nat, startSlot: nat)
    ensures CheckBid(s, a, now, bidBps, startSlot).Ok? <==> MayBid(a, now, s.waitForFirstBidder, bidBps, startSlot)
  {
  }

  lemma {:induction false} CollectingFails(k: Collected, a: Auction, bidBps: nat, ms: seq<Address>, tokens: Tokens)
    ensures var r := CollectBids(k, a, bidBps, ms, tokens);
            r.Ok? || r == Revert(InsufficientBalance) || r == Revert(ArithmeticPanic)
  {
    if ms != [] { CollectingFails(k, a, bidBps, ms[..|ms| - 1], tokens); }
  }

  /** No other bid is accepted, and in a solvent state every such bid is, up to overflow. */
  lemma BidsAreAdmitted(s: State, now: nat, c: Address, bidder: Address, bidBps: nat, startSlot: nat, tokens: Tokens)
    requires AuctionsValid(s) && Solvent(s)
    ensures var r := PlaceBid(s, now, c, bidder, bidBps, startSlot, tokens);
            var admitted := MayBid(AuctionOf(s, c), now, s.waitForFirstBidder, bidBps, startSlot);
            && (r.Ok? ==> admitted)
            && (admitted ==> r.Ok? || r == Revert(ArithmeticPanic))
  {
    var a := AuctionOf(s, c);
    MayBidExactly(s, a, now, bidBps, startSlot);
    CollectingFails(Collected(s, a.bidAmount), a, bidBps, a.markets, tokens);
    BidNeverLacksBalance(s, now, c, bidder, bidBps, startSlot, tokens);
  }

  lemma BidKeepsValid(s: State, now: nat, c: Address, bidder: Address, bidBps: nat, startSlot: nat, tokens: Tokens,
                      r: State)
    requires AuctionsValid(s) && PlaceBid(s, now, c, bidder, bidBps, startSlot, tokens) == Ok(r)
    ensures AuctionsValid(r) && (DebtsAgree(s) ==> DebtsAgree(r))
  {
    var a, k := BidParts(s, now, c, bidder, bidBps, startSlot, tokens, r);
    CollectBidsMoves(Collected(s, a.bidAmount), a, bidBps, a.markets, tokens, k);
    if DebtsAgree(s) {
      CollectBidsKeepDebtsAgree(Collected(s, a.bidAmount), a, bidBps, a.markets, tokens, k);
      OthersKeepDebtsAgree(k.state, r);
    }
  }

  lemma ReplacedEscrowKeepsSurplus(s: State, c: Address, a: Auction, k: Collected, r: State, t: Address)
    requires c in s.auctions && a == s.auctions[c] && a.status == Started
    requires EscrowReplaced(Collected(s, a.bidAmount), a, a.markets, k)
    requires r.auctions.Keys == s.auctions.Keys && r.auctions == s.auctions[c := r.auctions[c]]
    requires r.underlying == s.underlying && r.held == k.state.held && r.totalTokenDebt == k.state.totalTokenDebt
    requires var b := r.auctions[c]; b.status == Started && b.highestBidder.Some? && b.markets == a.markets &&
                                     b.bidAmount == k.bidAmount
    ensures Surplus(r, t) == Surplus(s, t)
  {
    EscrowReplace(s, c, r.auctions[c], r, t);
    assert Free(r, t) == Free(k.state, t);
  }

  /** An accepted bid leaves every token's surplus as it was, whatever the transfers lost on the way. */
  lemma BidKeepsSurplus(s: State, now: nat, c: Address, bidder: Address, bidBps: nat, startSlot: nat, tokens: Tokens,
                        r: State)
    requires AuctionsValid(s) && PlaceBid(s, now, c, bidder, bidBps, startSlot, tokens) == Ok(r)
    ensures forall t :: Surplus(r, t) == Surplus(s, t)
  {
    var a, k := BidParts(s, now, c, bidder, bidBps, startSlot, tokens, r);
    CollectBidsMoves(Collected(s, a.bidAmount), a, bidBps, a.markets, tokens, k);
    forall t ensures Surplus(r, t) == Surplus(s, t) { ReplacedEscrowKeepsSurplus(s, c, a, k, r, t); }
  }

  /**
   * An outbid returns, token by token, exactly what was recorded for the previous bidder, and moves nobody else's
   * claim.
   */
  lemma OutbidReturnsTheEscrow(s: State, now: nat, c: Address, bidder: Address, bidBps: nat, startSlot: nat,
                               tokens: Tokens, r: State)
    requires AuctionsValid(s) && PlaceBid(s, now, c, bidder, bidBps, startSlot, tokens) == Ok(r)
    ensures forall t, u :: Claim(r, t, u) == Claim(s, t, u) +
              if AuctionOf(s, c).highestBidder == Some(u) then AuctionEscrow(s.underlying, AuctionOf(s, c), t) else 0
  {
    var a, k := BidParts(s, now, c, bidder, bidBps, startSlot, tokens, r);
    CollectBidsMoves(Collected(s, a.bidAmount), a, bidBps, a.markets, tokens, k);
    forall t, u ensures Claim(r, t, u) == Claim(k.state, t, u) {}
  }

  /** In a solvent state no valid bid is turned away because the previous one cannot be returned. */
  lemma BidNeverLacksBalance(s: State, now: nat, c: Address, bidder: Address, bidBps: nat, startSlot: nat,
                             tokens: Tokens)
    requires AuctionsValid(s) && Solvent(s)
    ensures PlaceBid(s, now, c, bidder, bidBps, startSlot, tokens) != Revert(InsufficientBalance)
  {
    var a := AuctionOf(s, c);
    if CheckBid(s, a, now, bidBps, startSlot).Ok? {
      forall t ensures OldEscrow(Collected(s, a.bidAmount), a, a.markets, t) <= Free(s, t) {
        EscrowAtLeast(s, c, t);
        assert 0 <= Surplus(s, t);
      }
      CollectBidsHaveBalance(Collected(s, a.bidAmount), a, bidBps, a.markets, |a.markets|, tokens);
      assert a.markets[..|a.markets|] == a.markets;
    }
  }
}
