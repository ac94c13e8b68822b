/** What the truncated exchange rate guarantees to suppliers. */
module VTokenRates {
  import opened Evm
  import opened ExponentialNoError
  import opened Sums
  import opened VTokenLedger
  import opened VTokenRuns

  /** The protocol's share of seized tokens over the incentive, truncated twice. */
  function ProtocolPart(tokens: nat, share: nat, incentive: nat): nat {
    if incentive == 0 then 0 else tokens * share / EXP_SCALE * EXP_SCALE / incentive
  }

  /** The tokens a call would take out of existence, as far as its arithmetic goes through. */
  function Burned(s: Market, op: Op): nat {
    match op
    case Redeem(_, tokens) => tokens
    case RedeemUnderlying(_, amount) =>
      var quote := RedeemQuote(s, 0, amount);
      if quote.Ok? then quote.value.tokens else 0
    case Seize(_, _, tokens, incentive) => ProtocolPart(tokens, s.protocolSeizeShare, incentive)
    case _ => 0
  }

  lemma BurnsAsQuoted(s: Market, op: Op, t: Market)
    requires Step(s, op) == Ok(t) && !op.Mint?
    ensures t.totalSupply == s.totalSupply - Burned(s, op)
  {
    match op
    case Redeem(_, _) =>
    case RedeemUnderlying(_, _) =>
    case Seize(liquidator, borrower, tokens, incentive) =>
      SeizeBurnsItsShare(s, liquidator, borrower, tokens, incentive, t);
    case Transfer(_, _, _, _) =>
    case _ => OthersKeepTokens(s, op, t);
  }

  lemma SeizeBurnsItsShare(s: Market, liquidator: Address, borrower: Address, tokens: nat, incentive: nat, t: Market)
    requires SeizeTokens(s, liquidator, borrower, tokens, incentive) == Ok(t)
    ensures incentive != 0
    ensures s.totalSupply - t.totalSupply == ProtocolPart(tokens, s.protocolSeizeShare, incentive)
  {
    PartIsComputed(tokens, s.protocolSeizeShare, incentive);
  }

  /** The protocol's part as the call computes it; only the first product can overflow. */
  lemma PartIsComputed(tokens: nat, share: nat, incentive: nat)
    requires tokens * share <= MAX_UINT256 && 0 < incentive
    ensures MulScalarTruncate(tokens, share).Ok?
    ensures DivExp(MulScalarTruncate(tokens, share).value, incentive) == Ok(ProtocolPart(tokens, share, incentive))
  {
    var numerator := MulScalarTruncate(tokens, share).value;
    DivFloors(tokens * share, EXP_SCALE);
    FloorsUnique(numerator, tokens * share / EXP_SCALE, tokens * share, EXP_SCALE);
    DivFloors(numerator * EXP_SCALE, incentive);
    FloorsUnique(DivExp(numerator, incentive).value, numerator * EXP_SCALE / incentive, numerator * EXP_SCALE,
                 incentive);
  }

  /** A step lowers the rate exactly when it leaves no token behind, from above the initial rate. */
  lemma RateFallsExactlyWhenEmptied(s: Market, op: Op, t: Market)
    requires Inv(s) && Step(s, op) == Ok(t)
    ensures Inv(t)
    ensures Rate(t) < Rate(s) <==> t.totalSupply == 0 && s.initialExchangeRate < Rate(s)
  {
    StepKeepsInv(s, op, t);
    StepKeepsBacking(s, op, t);
    if t.totalSupply != 0 { BackedGivesRate(t, Rate(s)); }
  }

  /**
   * Read before the call: the rate will fall exactly when all tokens there are would be burned above the initial rate.
   */
  lemma RateFallsExactlyWhenAllBurned(s: Market, op: Op, t: Market)
    requires Inv(s) && Step(s, op) == Ok(t)
    ensures Inv(t)
    ensures Rate(t) < Rate(s) <==> Burned(s, op) == s.totalSupply && s.initialExchangeRate < Rate(s)
  {
    RateFallsExactlyWhenEmptied(s, op, t);
    if op.Mint? {
      MintFacts(s, op.minter, op.mintAmount, op.lost, t);
    } else {
      BurnsAsQuoted(s, op, t);
    }
  }

  /** A donation doubles the rate; the last supplier leaves with everything, and the rate is back at its start. */
  lemma RateCanFall(lender: Address)
    ensures var minted := Apply(Initial(0, EXP_SCALE, 0, 0), Mint(lender, 10, 0));
            var s := Apply(minted, Donate(10));
            var r := Step(s, Redeem(lender, 10));
            && s == Run(Initial(0, EXP_SCALE, 0, 0), [Mint(lender, 10, 0), Donate(10)])
            && 0 <= Net(s) && r.Ok? && 0 <= Net(r.value)
            && Rate(s) == 2 * EXP_SCALE && Rate(r.value) == EXP_SCALE
  {
    var s0 := Initial(0, EXP_SCALE, 0, 0);
    var s1 := Apply(s0, Mint(lender, 10, 0));
    assert s1.cash == 10 && s1.totalSupply == 10 && Get(s1.accountTokens, lender) == 10;
    var s2 := Apply(s1, Donate(10));
    assert s2.cash == 20 && s2.totalSupply == 10;
    assert ExchangeRateStored(s2) == Ok(2 * EXP_SCALE);
    assert RedeemQuote(s2, 10, 0) == Ok(Quote(10, 20));
    assert [Mint(lender, 10, 0), Donate(10)][1..] == [Donate(10)];
    assert Run(s1, [Donate(10)]) == Run(s2, []);
  }

  /** No step of the run burns the last token. */
  predicate NeverEmptied(s: Market, ops: seq<Op>)
    decreases |ops|
  {
    ops == [] ||
    var t := Apply(s, ops[0]);
    (t.totalSupply == 0 ==> s.totalSupply == 0) && NeverEmptied(t, ops[1..])
  }

  /** Over every run that never burns the last token, the rate never falls. */
  lemma {:induction false} RateNeverFalls(s: Market, ops: seq<Op>)
    requires Inv(s) && NeverEmptied(s, ops)
    ensures Inv(Run(s, ops)) && Rate(s) <= Rate(Run(s, ops))
    decreases |ops|
  {
    if ops != [] {
      if Step(s, ops[0]).Ok? { RateFallsExactlyWhenEmptied(s, ops[0], Apply(s, ops[0])); }
      RateNeverFalls(Apply(s, ops[0]), ops[1..]);
    }
  }

  /** Over every run whatsoever, the rate stays at or above the initial one, so minting never divides by zero. */
  lemma {:induction false} RateAtLeastInitial(s: Market, ops: seq<Op>)
    requires Inv(s) && s.initialExchangeRate <= Rate(s)
    ensures Inv(Run(s, ops)) && s.initialExchangeRate == Run(s, ops).initialExchangeRate <= Rate(Run(s, ops))
    decreases |ops|
  {
    if ops != [] {
      var t := Apply(s, ops[0]);
      if Step(s, ops[0]).Ok? {
        RateFallsExactlyWhenEmptied(s, ops[0], t);
        StepKeepsBacking(s, ops[0], t);
      }
      RateAtLeastInitial(t, ops[1..]);
    }
  }

  /** With tokens outstanding, minting and at once redeeming what was minted never pays more than was put in. */
  lemma MintThenRedeemNeverProfits(s: Market, minter: Address, amount: nat, lost: nat, t: Market, redeemer: Address,
                                   u: Market)
    requires Inv(s) && s.totalSupply != 0
    requires MintFresh(s, minter, amount, lost) == Ok(t) && t.totalSupply != s.totalSupply
    requires RedeemFresh(t, redeemer, t.totalSupply - s.totalSupply, 0) == Ok(u)
    ensures t.cash - u.cash <= Delivered(amount, lost)
  {
    StepKeepsInv(s, Mint(minter, amount, lost), t);
    MintFacts(s, minter, amount, lost, t);
    RedeemFacts(t, redeemer, t.totalSupply - s.totalSupply, 0, u);
    BackedAtRate(t);
    DivFloors(Net(s) * EXP_SCALE, s.totalSupply);
    RoundTrip(Net(s), s.totalSupply, Delivered(amount, lost), t.totalSupply - s.totalSupply, Rate(s), Rate(t),
              t.cash - u.cash);
  }

  /**
   * `net / supply` has floor `before`, and `minted` tokens cost `before` each out of `paidIn`. If `after` each still
   * backs everyone, the new tokens are not worth more than was paid, even when `after` exceeds `before`.
   */
  lemma RoundTrip(net: nat, supply: nat, paidIn: nat, minted: nat, before: nat, after: nat, paidOut: nat)
    requires Floors(before, net * EXP_SCALE, supply) && minted * before <= paidIn * EXP_SCALE
    requires after * (supply + minted) <= (net + paidIn) * EXP_SCALE
    requires paidOut * EXP_SCALE <= after * minted
    ensures paidOut <= paidIn
  {
    assert after * (supply + minted) == after * supply + after * minted;
    if after <= before {
      Grow(after, before, minted);
    } else {
      Grow(before + 1, after, supply);
      assert (before + 1) * supply == before * supply + supply;
    }
  }

  /** Into an empty market the first minter may also take what earlier suppliers left to rounding, and no more. */
  lemma FirstMintThenRedeem(s: Market, minter: Address, amount: nat, lost: nat, t: Market, redeemer: Address, u: Market)
    requires Inv(s) && s.totalSupply == 0
    requires MintFresh(s, minter, amount, lost) == Ok(t) && t.totalSupply != 0
    requires RedeemFresh(t, redeemer, t.totalSupply, 0) == Ok(u)
    ensures t.cash - u.cash <= Delivered(amount, lost) + Net(s)
  {
    StepKeepsInv(s, Mint(minter, amount, lost), t);
    MintFacts(s, minter, amount, lost, t);
    RedeemFacts(t, redeemer, t.totalSupply, 0, u);
    BackedAtRate(t);
    BurnKeepsBacking(Rate(t), t.totalSupply, Net(t), t.totalSupply, t.cash - u.cash);
  }

  /** Redeeming and minting back the proceeds never yields more tokens than were redeemed, while others hold tokens. */
  lemma RedeemThenMintNeverProfits(s: Market, redeemer: Address, tokens: nat, t: Market, minter: Address, u: Market)
    requires Inv(s) && tokens > 0 && RedeemFresh(s, redeemer, tokens, 0) == Ok(t) && t.totalSupply != 0
    requires MintFresh(t, minter, s.cash - t.cash, 0) == Ok(u)
    ensures u.totalSupply <= s.totalSupply
  {
    RateFallsExactlyWhenEmptied(s, Redeem(redeemer, tokens), t);
    RedeemFacts(s, redeemer, tokens, 0, t);
    MintFacts(t, minter, s.cash - t.cash, 0, u);
    BackRoundTrip(Rate(s), Rate(t), tokens, s.cash - t.cash, u.totalSupply - t.totalSupply);
  }

  lemma BackRoundTrip(before: nat, after: nat, tokens: nat, paid: nat, minted: nat)
    requires before <= after && Floors(paid, before * tokens, EXP_SCALE) && Floors(minted, paid * EXP_SCALE, after)
    requires paid != 0
    ensures minted <= tokens
  {
    Grow(before, after, minted);
    if tokens < minted { Grow(tokens + 1, minted, before); }
  }

  /** Asking for an amount of underlying pays at least that amount, for no more tokens than it takes. */
  lemma RedeemUnderlyingCoversRequest(s: Market, redeemer: Address, amount: nat, t: Market)
    requires Inv(s) && RedeemFresh(s, redeemer, 0, amount) == Ok(t)
    ensures amount <= s.cash - t.cash
    ensures (s.totalSupply - t.totalSupply - 1) * Rate(s) < amount * EXP_SCALE
  {
    RateIsStored(s);
    RedeemFacts(s, redeemer, 0, amount, t);
    var asked := s.totalSupply - t.totalSupply;
    assert TokensForUnderlying(Rate(s), amount) == Ok(asked);
    var rounded := DivExp(amount, Rate(s)).value;
    var roundedAmount := rounded * Rate(s) / EXP_SCALE;
    DivFloors(rounded * Rate(s), EXP_SCALE);
    CoversRequest(Rate(s), amount, rounded, roundedAmount, asked, s.cash - t.cash);
  }

  lemma CoversRequest(rate: nat, amount: nat, rounded: nat, roundedAmount: nat, asked: nat, paid: nat)
    requires Floors(rounded, amount * EXP_SCALE, rate) && Floors(roundedAmount, rounded * rate, EXP_SCALE)
    requires asked == if roundedAmount != 0 && roundedAmount != amount then rounded + 1 else rounded
    requires Floors(paid, rate * asked, EXP_SCALE) && paid != 0
    ensures amount <= paid && (asked - 1) * rate < amount * EXP_SCALE
  {
    assert (asked - 1) * rate == asked * rate - rate;
    if asked == rounded {
      FloorsUnique(paid, roundedAmount, rate * asked, EXP_SCALE);
    } else {
      FloorsAtLeast(amount, paid, rate * asked, EXP_SCALE);
      if rounded * rate == amount * EXP_SCALE { FloorsUnique(roundedAmount, amount, rounded * rate, EXP_SCALE); }
    }
  }

  // ---------------------------------------------------- everybody's claim

  /** What each account's tokens redeem for at the current rate. */
  ghost function Claims(s: Market): map<Address, int>
    requires 0 <= Net(s)
  {
    map a | a in s.accountTokens :: Rate(s) * s.accountTokens[a] / EXP_SCALE
  }

  /** All suppliers together can claim no more than the market's net assets. */
  lemma ClaimsAreCovered(s: Market)
    requires Inv(s)
    ensures Sum(Claims(s)) <= Net(s)
  {
    BackedAtRate(s);
    forall a | a in s.accountTokens ensures EXP_SCALE * Claims(s)[a] <= Rate(s) * s.accountTokens[a] {
      DivFloors(Rate(s) * s.accountTokens[a], EXP_SCALE);
    }
    SumScaled(EXP_SCALE, Claims(s), Rate(s), s.accountTokens);
  }

  // -------------------------------------------------------------- seizing

  /** The cash that pays for the protocol's part at the stored rate. */
  function PaidForPart(s: Market, tokens: nat, incentive: nat): nat
    requires ExchangeRateStored(s).Ok?
  {
    ExchangeRateStored(s).value * ProtocolPart(tokens, s.protocolSeizeShare, incentive) / EXP_SCALE
  }

  /** Two different accounts, tokens to take, room to add them, and the cash that pays for the protocol's part. */
  predicate CanSeize(s: Market, liquidator: Address, borrower: Address, tokens: nat, incentive: nat) {
    && borrower != liquidator && 0 < incentive && tokens * s.protocolSeizeShare <= MAX_UINT256
    && ExchangeRateStored(s).Ok?
    && var part, rate := ProtocolPart(tokens, s.protocolSeizeShare, incentive), ExchangeRateStored(s).value;
       && part <= tokens <= Get(s.accountTokens, borrower) && part <= s.totalSupply
       && Get(s.accountTokens, liquidator) + (tokens - part) <= MAX_UINT256
       && rate * part <= MAX_UINT256 && PaidForPart(s, tokens, incentive) <= s.cash
  }

  lemma SeizesExactly(s: Market, liquidator: Address, borrower: Address, tokens: nat, incentive: nat)
    ensures SeizeTokens(s, liquidator, borrower, tokens, incentive).Ok? <==>
            CanSeize(s, liquidator, borrower, tokens, incentive)
    ensures CanSeize(s, liquidator, borrower, tokens, incentive) ==>
              SeizeTokens(s, liquidator, borrower, tokens, incentive).value.cash ==
              s.cash - PaidForPart(s, tokens, incentive)
  {
    if borrower != liquidator && 0 < incentive && tokens * s.protocolSeizeShare <= MAX_UINT256 {
      PartIsComputed(tokens, s.protocolSeizeShare, incentive);
      if ExchangeRateStored(s).Ok? {
        TruncatesTo(ExchangeRateStored(s).value, ProtocolPart(tokens, s.protocolSeizeShare, incentive));
      }
    }
  }

  /** The liquidator's part at the incentive is worth the tokens seized. */
  predicate Covers(tokens: nat, share: nat, incentive: nat) {
    tokens * EXP_SCALE <= (tokens - ProtocolPart(tokens, share, incentive)) * incentive
  }

  /**
   * A seizure always splits: the borrower loses exactly the seized tokens, the liquidator's and the protocol's parts
   * add up to them, the protocol's part is its share of them over the incentive and is paid for in cash at the stored
   * rate.
   */
  lemma SeizeSplits(s: Market, liquidator: Address, borrower: Address, tokens: nat, incentive: nat, t: Market)
    requires SeizeTokens(s, liquidator, borrower, tokens, incentive) == Ok(t)
    ensures ExchangeRateStored(s).Ok?
    ensures var toLiquidator := Get(t.accountTokens, liquidator) - Get(s.accountTokens, liquidator);
            var toProtocol := s.totalSupply - t.totalSupply;
            && Get(t.accountTokens, borrower) == Get(s.accountTokens, borrower) - tokens
            && 0 <= toLiquidator && 0 <= toProtocol && toLiquidator + toProtocol == tokens
            && Floors(toProtocol, tokens * s.protocolSeizeShare / EXP_SCALE * EXP_SCALE, incentive)
            && Floors(s.cash - t.cash, ExchangeRateStored(s).value * toProtocol, EXP_SCALE)
            && (tokens * EXP_SCALE <= toLiquidator * incentive <==> Covers(tokens, s.protocolSeizeShare, incentive))
    ensures forall a :: a != liquidator && a != borrower ==> Get(t.accountTokens, a) == Get(s.accountTokens, a)
  {
    SeizeBurnsItsShare(s, liquidator, borrower, tokens, incentive, t);
    DivFloors(tokens * s.protocolSeizeShare / EXP_SCALE * EXP_SCALE, incentive);
  }

  /**
   * The liquidator's part covers every seizure exactly when the protocol's share is within the incentive's surplus,
   * which is checked when the share is set, and neither when the market starts nor when the incentive is set.
   */
  lemma CoversExactly(share: nat, incentive: nat)
    ensures (forall tokens: nat :: Covers(tokens, share, incentive)) <==> share + EXP_SCALE <= incentive
  {
    if incentive == 0 {
      assert !Covers(1, share, incentive);
    } else if share + EXP_SCALE <= incentive {
      forall tokens: nat ensures Covers(tokens, share, incentive) { ShareIsCovered(tokens, share, incentive); }
    } else {
      UncoveredSeizure(share, incentive);
    }
  }

  lemma ShareIsCovered(tokens: nat, share: nat, incentive: nat)
    requires share + EXP_SCALE <= incentive
    ensures Covers(tokens, share, incentive)
  {
    var part := ProtocolPart(tokens, share, incentive);
    PartWithinShare(tokens, share, incentive);
    Grow(share + EXP_SCALE, incentive, tokens);
    assert (tokens - part) * incentive == tokens * incentive - part * incentive;
    assert tokens * (share + EXP_SCALE) == tokens * share + tokens * EXP_SCALE;
  }

  lemma PartWithinShare(tokens: nat, share: nat, incentive: nat)
    ensures ProtocolPart(tokens, share, incentive) * incentive <= tokens * share
  {
    if incentive != 0 {
      DivFloors(tokens * share, EXP_SCALE);
      DivFloors(tokens * share / EXP_SCALE * EXP_SCALE, incentive);
    }
  }

  lemma UncoveredSeizure(share: nat, incentive: nat)
    requires 0 < incentive < share + EXP_SCALE
    ensures !Covers(incentive * EXP_SCALE, share, incentive)
  {
    PartOfMultiple(share, incentive);
    LessThanWhole(incentive - share, EXP_SCALE, incentive);
    assert incentive * EXP_SCALE - share * EXP_SCALE == (incentive - share) * EXP_SCALE;
  }

  lemma LessThanWhole(rest: int, scale: nat, incentive: nat)
    requires rest < scale && 0 < incentive && 0 < scale
    ensures rest * scale * incentive < incentive * scale * scale
  {
    var whole := scale * incentive;
    assert 0 < whole;
    Grow(rest + 1, scale, whole);
    assert rest * scale * incentive == rest * whole && incentive * scale * scale == scale * whole;
  }

  /** Of a multiple of the incentive the protocol's part is its share without rounding. */
  lemma PartOfMultiple(share: nat, incentive: nat)
    requires 0 < incentive
    ensures ProtocolPart(incentive * EXP_SCALE, share, incentive) == share * EXP_SCALE
  {
    Exact(incentive * share, EXP_SCALE, incentive * EXP_SCALE * share);
    Exact(share * EXP_SCALE, incentive, incentive * share * EXP_SCALE);
  }

  lemma Exact(q: nat, d: nat, x: nat)
    requires 0 < d && x == q * d
    ensures x / d == q
  {
    DivFloors(x, d);
    FloorsUnique(x / d, q, x, d);
  }

  /** The share a market starts with, at the least incentive a pool accepts: of a hundred tokens five are lost. */
  lemma CoverCanFail(lender: Address, liquidator: Address)
    requires lender != liquidator
    ensures var s := Apply(Initial(0, EXP_SCALE, 0, 0), Mint(lender, 100, 0));
            var r := Step(s, Seize(liquidator, lender, 100, EXP_SCALE));
            r.Ok? && Get(r.value.accountTokens, liquidator) == 95 &&
            !Covers(100, s.protocolSeizeShare, EXP_SCALE)
  {
    var s0 := Initial(0, EXP_SCALE, 0, 0);
    var s := Apply(s0, Mint(lender, 100, 0));
    assert s.cash == 100 && s.totalSupply == 100 && Get(s.accountTokens, lender) == 100;
    assert ProtocolPart(100, s.protocolSeizeShare, EXP_SCALE) == 5;
    assert ExchangeRateStored(s) == Ok(EXP_SCALE);
    SeizesExactly(s, liquidator, lender, 100, EXP_SCALE);
    var t := SeizeTokens(s, liquidator, lender, 100, EXP_SCALE).value;
    SeizeSplits(s, liquidator, lender, 100, EXP_SCALE, t);
  }
}
