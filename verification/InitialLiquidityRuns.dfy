/** What funding and executing the plan do to the treasury, the deployer, the allowances and the next plan. */
module InitialLiquidityRuns {
  import opened Evm
  import opened ExponentialNoError
  import opened Sums
  import L = VTokenLedger
  import P = ComptrollerPool
  import G = ComptrollerGuards
  import opened InitialLiquidity

  // ----------------------------------------------------------- transfers

  lemma TransferMoves(c: Chain, token: Address, src: Address, dst: Address, amount: nat, u: Chain)
    requires src != dst && Transfer(c, token, src, dst, amount) == Ok(u)
    ensures u == c.(balances := u.balances)
    ensures Balance(u, token, src) == Balance(c, token, src) - amount
    ensures Balance(u, token, dst) == Balance(c, token, dst) + amount
    ensures forall t, h :: t != token || (h != src && h != dst) ==> Balance(u, t, h) == Balance(c, t, h)
  {
  }

  // ------------------------------------------------------------- funding

  /** What the markets ask for in one token, by the symbol each is funded under. */
  function Funded(d: Deployment, vtokens: seq<VTokenConfig>, token: Address): nat {
    if vtokens == [] then 0
    else
      var last := vtokens[|vtokens| - 1];
      Funded(d, vtokens[..|vtokens| - 1], token) +
      if GetUnderlyingToken(d, last.asset) == Ok(token) then last.initialSupply else 0
  }

  /** What the transfers for some symbols send in one token. */
  function Sent(d: Deployment, vtokens: seq<VTokenConfig>, symbols: seq<string>, token: Address): nat {
    if symbols == [] then 0
    else
      var symbol := symbols[|symbols| - 1];
      Sent(d, vtokens, symbols[..|symbols| - 1], token) +
      if GetUnderlyingToken(d, symbol) == Ok(token) then TotalFor(vtokens, symbol) else 0
  }

  lemma {:induction false} SendAllMoves(c: Chain, d: Deployment, vtokens: seq<VTokenConfig>, symbols: seq<string>,
                                        u: Chain, token: Address)
    requires d.deployer != d.treasury && SendAll(c, d, vtokens, symbols) == Ok(u)
    ensures u == c.(balances := u.balances)
    ensures Balance(u, token, d.treasury) == Balance(c, token, d.treasury) + Sent(d, vtokens, symbols, token)
    ensures Balance(u, token, d.deployer) == Balance(c, token, d.deployer) - Sent(d, vtokens, symbols, token)
  {
    if symbols != [] {
      var before := SendAll(c, d, vtokens, symbols[..|symbols| - 1]).value;
      SendAllMoves(c, d, vtokens, symbols[..|symbols| - 1], before, token);
      var symbol := symbols[|symbols| - 1];
      TransferMoves(before, GetUnderlyingToken(d, symbol).value, d.deployer, d.treasury, TotalFor(vtokens, symbol), u);
    }
  }

  /** A market more adds its supply to the one transfer made for its symbol. */
  lemma {:induction false} OneMoreMarket(d: Deployment, vtokens: seq<VTokenConfig>, symbols: seq<string>,
                                         token: Address)
    requires vtokens != [] && forall i, j :: 0 <= i < j < |symbols| ==> symbols[i] != symbols[j]
    ensures var last := vtokens[|vtokens| - 1];
            Sent(d, vtokens, symbols, token) == Sent(d, vtokens[..|vtokens| - 1], symbols, token) +
              if last.asset in symbols && GetUnderlyingToken(d, last.asset) == Ok(token) then last.initialSupply else 0
    decreases |symbols|
  {
    if symbols != [] {
      var rest, symbol := symbols[..|symbols| - 1], symbols[|symbols| - 1];
      OneMoreMarket(d, vtokens, rest, token);
      assert symbols == rest + [symbol] && symbol !in rest;
    }
  }

  lemma {:induction false} NothingAsked(d: Deployment, symbols: seq<string>, token: Address)
    ensures Sent(d, [], symbols, token) == 0
  {
    if symbols != [] { NothingAsked(d, symbols[..|symbols| - 1], token); }
  }

  /** Summing by symbol first sends every token exactly what its markets ask for. */
  lemma {:induction false} SentIsFunded(d: Deployment, vtokens: seq<VTokenConfig>, symbols: seq<string>, token: Address)
    requires ListsAssets(symbols, vtokens)
    ensures Sent(d, vtokens, symbols, token) == Funded(d, vtokens, token)
    decreases |vtokens|
  {
    if vtokens == [] {
      NothingAsked(d, symbols, token);
    } else {
      OneMoreMarket(d, vtokens, symbols, token);
      SentIsFunded(d, vtokens[..|vtokens| - 1], symbols, token);
    }
  }

  // ------------------------------------------------------------- commands

  function WithdrawnBy(command: Command, token: Address): nat {
    if command.Withdraw? && command.token == token then command.amount else 0
  }

  function Withdrawn(commands: seq<Command>, token: Address): nat {
    if commands == [] then 0
    else Withdrawn(commands[..|commands| - 1], token) + WithdrawnBy(commands[|commands| - 1], token)
  }

  function SuppliedBy(underlyingOf: map<Address, Address>, command: Command, token: Address): nat {
    if command.List? && command.vToken in underlyingOf && underlyingOf[command.vToken] == token
    then command.initialSupply else 0
  }

  function Supplied(underlyingOf: map<Address, Address>, commands: seq<Command>, token: Address): nat {
    if commands == [] then 0
    else
      Supplied(underlyingOf, commands[..|commands| - 1], token) +
      SuppliedBy(underlyingOf, commands[|commands| - 1], token)
  }

  // --------------------------------------------- what each command demands

  /** A withdrawal is of something, and of what the treasury has if it has less. */
  lemma WithdrawsExactly(c: Chain, d: Deployment, token: Address, amount: nat, to: Address)
    ensures var available := Balance(c, token, d.treasury);
            var paid := if amount <= available then amount else available;
            WithdrawTreasuryToken(c, d, token, amount, to) ==
            if amount == 0 then Revert(CommandFailed) else Transfer(c, token, d.treasury, to, paid)
  {
  }

  /** An approval either takes an allowance back or gives one where there is none. */
  lemma ApprovesExactly(c: Chain, token: Address, amount: nat)
    ensures Approve(c, token, amount).Ok? <==> amount == 0 || Get(c.allowances, token) == 0
    ensures Approve(c, token, amount).Ok? ==>
              Approve(c, token, amount).value == c.(allowances := c.allowances[token := amount])
  {
  }

  lemma PoolExactly(c: Chain, vToken: Address)
    ensures PoolOf(c, vToken).Ok? <==>
              && vToken in c.comptrollerOf && c.comptrollerOf[vToken] in c.pools
              && vToken in c.pools[c.comptrollerOf[vToken]].vTokens
    ensures PoolOf(c, vToken).Ok? ==> PoolOf(c, vToken).value == c.pools[c.comptrollerOf[vToken]]
  {
  }

  /** The market of a known pool is given a positive distance between reductions, and nothing else changes. */
  lemma DeltaExactly(c: Chain, vToken: Address, delta: nat)
    ensures var pool, r := PoolOf(c, vToken), SetReduceReservesBlockDelta(c, vToken, delta);
            && (r.Ok? <==> pool.Ok? && 0 < delta)
            && (r.Ok? ==>
                  && vToken in pool.value.vTokens && vToken in c.comptrollerOf
                  && var changed := P.WithLedger(pool.value, vToken,
                                                 pool.value.vTokens[vToken].(reduceReservesDelta := delta));
                     r.value == c.(pools := c.pools[c.comptrollerOf[vToken] := changed]))
  {
  }

  /** The part of a listing that the pool decides. */
  predicate PoolCanList(pool: P.Pool, o: Command)
    requires o.List? && o.vToken in pool.vTokens
  {
    var ledger := pool.vTokens[o.vToken];
    && !P.IsListed(pool, o.vToken) && o.vToken !in pool.allMarkets
    && o.collateralFactor <= P.MAX_COLLATERAL_FACTOR && o.collateralFactor <= o.liquidationThreshold <= EXP_SCALE
    && (o.collateralFactor != 0 ==> Get(pool.prices, o.vToken) != 0)
    && L.MintFresh(ledger, o.receiver, o.initialSupply, 0).Ok?
    && (o.supplyCap != MAX_UINT256 ==>
          && L.ExchangeRateStored(ledger).Ok?
          && var supply := MulScalarTruncateAddUInt(L.ExchangeRateStored(ledger).value, ledger.totalSupply,
                                                    o.initialSupply);
             supply.Ok? && supply.value <= o.supplyCap)
  }

  /** What the pool does for a listing: support, factors, caps, and the initial supply minted to the receiver. */
  function PoolLists(pool: P.Pool, o: Command): Result<P.Pool>
    requires o.List? && o.vToken in pool.vTokens
  {
    var listed :- P.SupportMarket(pool, o.vToken, pool.vTokens[o.vToken]);
    var weighted :- P.SetCollateralFactor(listed, o.vToken, o.collateralFactor, o.liquidationThreshold);
    P.Mint(weighted.(supplyCaps := weighted.supplyCaps[o.vToken := o.supplyCap],
                     borrowCaps := weighted.borrowCaps[o.vToken := o.borrowCap]), o.vToken, o.receiver,
           o.initialSupply, 0)
  }

  lemma PoolListsExactly(pool: P.Pool, o: Command)
    requires o.List? && o.vToken in pool.vTokens
    ensures PoolLists(pool, o).Ok? <==> PoolCanList(pool, o)
  {
    var listed := P.SupportMarket(pool, o.vToken, pool.vTokens[o.vToken]);
    G.ListingMoves(pool, o.vToken, pool.vTokens[o.vToken]);
    if listed.Ok? {
      G.FactorsAreSet(listed.value, o.vToken, o.collateralFactor, o.liquidationThreshold);
    }
  }

  /**
   * A listing goes through exactly when the registry does not know the pair yet, the pool can list the market, and the
   * deployer has and has allowed the initial supply; the registry then records the market under the pair.
   */
  lemma ListsExactly(c: Chain, d: Deployment, o: Command)
    requires o.List?
    ensures var r := AddMarket(c, d, o);
            && (r.Ok? <==>
                  && 0 < o.initialSupply && PoolOf(c, o.vToken).Ok? && o.vToken in c.underlyingOf
                  && (c.comptrollerOf[o.vToken], c.underlyingOf[o.vToken]) !in c.marketFor
                  && PoolCanList(PoolOf(c, o.vToken).value, o)
                  && o.initialSupply <= Get(c.allowances, c.underlyingOf[o.vToken])
                  && o.initialSupply <= Balance(c, c.underlyingOf[o.vToken], d.deployer))
            && (r.Ok? ==>
                  r.value.marketFor ==
                  c.marketFor[(c.comptrollerOf[o.vToken], c.underlyingOf[o.vToken]) := o.vToken])
  {
    if PoolOf(c, o.vToken).Ok? {
      PoolListsExactly(PoolOf(c, o.vToken).value, o);
      AddMarketSteps(c, d, o);
    }
  }

  lemma AddMarketSteps(c: Chain, d: Deployment, o: Command)
    requires o.List? && PoolOf(c, o.vToken).Ok?
    ensures AddMarket(c, d, o).Ok? <==>
              && 0 < o.initialSupply && o.vToken in c.underlyingOf
              && (c.comptrollerOf[o.vToken], c.underlyingOf[o.vToken]) !in c.marketFor
              && PoolLists(PoolOf(c, o.vToken).value, o).Ok?
              && o.initialSupply <= Get(c.allowances, c.underlyingOf[o.vToken])
              && o.initialSupply <= Balance(c, c.underlyingOf[o.vToken], d.deployer)
  {
  }

  /** Listing takes exactly the initial supply, out of an allowance and a balance that cover it. */
  lemma ListMoves(c: Chain, d: Deployment, command: Command, u: Chain)
    requires command.List? && Execute(c, d, command) == Ok(u)
    ensures u.comptrollerOf == c.comptrollerOf && u.underlyingOf == c.underlyingOf
    ensures command.vToken in c.underlyingOf && command.vToken in c.comptrollerOf
    ensures var underlying := c.underlyingOf[command.vToken];
            && command.initialSupply <= Get(c.allowances, underlying)
            && Balance(u, underlying, d.deployer) == Balance(c, underlying, d.deployer) - command.initialSupply
            && forall t, h :: t != underlying || h != d.deployer ==> Balance(u, t, h) == Balance(c, t, h)
  {
  }

  /** What a listing takes is supplied to the market, which ends up listed in its pool. */
  lemma ListSupplies(c: Chain, d: Deployment, command: Command, u: Chain)
    requires command.List? && Execute(c, d, command) == Ok(u)
    ensures PoolOf(c, command.vToken).Ok? && PoolOf(u, command.vToken).Ok?
    ensures var before, after := PoolOf(c, command.vToken).value, PoolOf(u, command.vToken).value;
            && command.vToken in before.vTokens && command.vToken in after.vTokens
            && after.vTokens[command.vToken].cash == before.vTokens[command.vToken].cash + command.initialSupply
            && P.IsListed(after, command.vToken) && !P.IsListed(before, command.vToken)
            && after.markets[command.vToken].collateralFactor == command.collateralFactor
            && after.markets[command.vToken].liquidationThreshold == command.liquidationThreshold
            && Get(after.supplyCaps, command.vToken) == command.supplyCap
            && Get(after.borrowCaps, command.vToken) == command.borrowCap
  {
  }

  lemma CommandMoves(c: Chain, d: Deployment, command: Command, u: Chain, token: Address)
    requires d.deployer != d.treasury && Execute(c, d, command) == Ok(u)
    requires command.Withdraw? ==> command.to == d.deployer && command.amount <= Balance(c, command.token, d.treasury)
    ensures u.underlyingOf == c.underlyingOf
    ensures Balance(u, token, d.treasury) == Balance(c, token, d.treasury) - WithdrawnBy(command, token)
    ensures Balance(u, token, d.deployer) + SuppliedBy(c.underlyingOf, command, token)
         == Balance(c, token, d.deployer) + WithdrawnBy(command, token)
  {
    if command.List? {
      ListMoves(c, d, command, u);
    } else if command.Withdraw? {
      TransferMoves(c, command.token, d.treasury, d.deployer, command.amount, u);
    }
  }

  predicate WithdrawsTo(commands: seq<Command>, to: Address) {
    forall command :: command in commands && command.Withdraw? ==> command.to == to
  }

  /** As long as the treasury covers all withdrawals, each is paid in full. */
  lemma {:induction false} CommandsMove(c: Chain, d: Deployment, commands: seq<Command>, u: Chain, token: Address)
    requires d.deployer != d.treasury && ExecuteCommands(c, d, commands) == Ok(u) && WithdrawsTo(commands, d.deployer)
    requires forall t :: Withdrawn(commands, t) <= Balance(c, t, d.treasury)
    ensures u.underlyingOf == c.underlyingOf
    ensures Balance(u, token, d.treasury) == Balance(c, token, d.treasury) - Withdrawn(commands, token)
    ensures Balance(u, token, d.deployer) + Supplied(c.underlyingOf, commands, token)
         == Balance(c, token, d.deployer) + Withdrawn(commands, token)
    decreases |commands|
  {
    if commands != [] {
      var rest, last := commands[..|commands| - 1], commands[|commands| - 1];
      var before := ExecuteCommands(c, d, rest).value;
      assert forall t :: Withdrawn(rest, t) <= Withdrawn(commands, t);
      CommandsMove(c, d, rest, before, token);
      if last.Withdraw? {
        CommandsMove(c, d, rest, before, last.token);
        assert Withdrawn(commands, last.token) == Withdrawn(rest, last.token) + last.amount;
      }
      CommandMoves(before, d, last, u, token);
    }
  }

  // ----------------------------------------------------------------- plan

  /** What the plan spends in one token, by the configured symbol of each asset. */
  function Due(d: Deployment, vtokens: seq<VTokenConfig>, token: Address): nat {
    if vtokens == [] then 0
    else
      var last := vtokens[|vtokens| - 1];
      Due(d, vtokens[..|vtokens| - 1], token) + if SpentToken(d, last.asset) == Ok(token) then last.initialSupply else 0
  }

  /** The market contracts were deployed over the tokens the configuration names. */
  predicate DeployedOver(d: Deployment, underlyingOf: map<Address, Address>, vtokens: seq<VTokenConfig>) {
    forall vt :: vt in vtokens ==>
      var vToken := ContractAt(d, "VToken_" + vt.symbol);
      vToken.Ok? ==> vToken.value in underlyingOf && SpentToken(d, vt.asset) == Ok(underlyingOf[vToken.value])
  }

  lemma {:induction false} WithdrawnOfSum(a: seq<Command>, b: seq<Command>, token: Address)
    ensures Withdrawn(a + b, token) == Withdrawn(a, token) + Withdrawn(b, token)
    decreases |b|
  {
    if b == [] {
      assert a + b == a;
    } else {
      assert (a + b)[..|a + b| - 1] == a + b[..|b| - 1];
      WithdrawnOfSum(a, b[..|b| - 1], token);
    }
  }

  lemma {:induction false} SuppliedOfSum(underlyingOf: map<Address, Address>, a: seq<Command>, b: seq<Command>,
                                         token: Address)
    ensures Supplied(underlyingOf, a + b, token) == Supplied(underlyingOf, a, token) + Supplied(underlyingOf, b, token)
    decreases |b|
  {
    if b == [] {
      assert a + b == a;
    } else {
      assert (a + b)[..|a + b| - 1] == a + b[..|b| - 1];
      SuppliedOfSum(underlyingOf, a, b[..|b| - 1], token);
    }
  }

  lemma {:induction false} NoneWithdrawn(commands: seq<Command>, token: Address)
    requires forall i :: 0 <= i < |commands| ==> !commands[i].Withdraw?
    ensures Withdrawn(commands, token) == 0
  {
    if commands != [] { NoneWithdrawn(commands[..|commands| - 1], token); }
  }

  lemma {:induction false} NoneSupplied(underlyingOf: map<Address, Address>, commands: seq<Command>, token: Address)
    requires forall i :: 0 <= i < |commands| ==> !commands[i].List?
    ensures Supplied(underlyingOf, commands, token) == 0
  {
    if commands != [] { NoneSupplied(underlyingOf, commands[..|commands| - 1], token); }
  }

  lemma CommandsForMarket(d: Deployment, underlyingOf: map<Address, Address>, vt: VTokenConfig,
                          commands: seq<Command>, token: Address)
    requires d.live && CommandsFor(d, vt) == Ok(commands)
    ensures Withdrawn(commands, token) == if SpentToken(d, vt.asset) == Ok(token) then vt.initialSupply else 0
    ensures DeployedOver(d, underlyingOf, [vt]) ==>
              Supplied(underlyingOf, commands, token) == Withdrawn(commands, token)
    ensures WithdrawsTo(commands, d.deployer)
  {
    var n := |commands|;
    assert commands == [commands[0]] + commands[1..] && [commands[0]][..0] == [];
    WithdrawnOfSum([commands[0]], commands[1..], token);
    NoneWithdrawn(commands[1..], token);
    NoneSupplied(underlyingOf, commands[..n - 1], token);
    assert vt in [vt];
  }

  lemma {:induction false} PlanTotals(d: Deployment, underlyingOf: map<Address, Address>, vtokens: seq<VTokenConfig>,
                                      commands: seq<Command>, token: Address)
    requires d.live && AddMarkets(d, vtokens) == Ok(commands)
    ensures Withdrawn(commands, token) == Due(d, vtokens, token) && WithdrawsTo(commands, d.deployer)
    ensures DeployedOver(d, underlyingOf, vtokens) ==> Supplied(underlyingOf, commands, token) == Due(d, vtokens, token)
    decreases |vtokens|
  {
    if vtokens != [] {
      var rest, last := vtokens[..|vtokens| - 1], vtokens[|vtokens| - 1];
      var before, own := AddMarkets(d, rest).value, CommandsFor(d, last).value;
      PlanTotals(d, underlyingOf, rest, before, token);
      CommandsForMarket(d, underlyingOf, last, own, token);
      WithdrawnOfSum(before, own, token);
      SuppliedOfSum(underlyingOf, before, own, token);
    }
  }

  // ------------------------------------------------- funding then spending

  /** Every asset means the same token to the script that funds it and to the one that spends it. */
  predicate SpelledAlike(d: Deployment, vtokens: seq<VTokenConfig>) {
    forall vt :: vt in vtokens ==> GetUnderlyingToken(d, vt.asset) == SpentToken(d, vt.asset)
  }

  lemma {:induction false} FundedIsDue(d: Deployment, vtokens: seq<VTokenConfig>, token: Address)
    requires SpelledAlike(d, vtokens)
    ensures Funded(d, vtokens, token) == Due(d, vtokens, token)
    decreases |vtokens|
  {
    if vtokens != [] { FundedIsDue(d, vtokens[..|vtokens| - 1], token); }
  }

  lemma {:induction false} SameUnregistered(d: Deployment, c: Chain, u: Chain, pools: seq<PoolConfig>)
    requires u.pools == c.pools
    ensures UnregisteredVTokens(d, u, pools) == UnregisteredVTokens(d, c, pools)
  {
    if pools != [] {
      SameUnregistered(d, c, u, pools[..|pools| - 1]);
      SameUnregisteredIn(d, c, u, pools[|pools| - 1].vtokens);
    }
  }

  lemma {:induction false} SameUnregisteredIn(d: Deployment, c: Chain, u: Chain, vtokens: seq<VTokenConfig>)
    requires u.pools == c.pools
    ensures UnregisteredIn(d, u, vtokens) == UnregisteredIn(d, c, vtokens)
  {
    if vtokens != [] { SameUnregisteredIn(d, c, u, vtokens[..|vtokens| - 1]); }
  }

  function Unregistered(d: Deployment, c: Chain): seq<VTokenConfig> {
    UnregisteredVTokens(d, c, d.poolConfig)
  }

  /** Funding puts into the treasury, token by token, what the unregistered markets ask for. */
  lemma FundingSends(c: Chain, d: Deployment, symbols: seq<string>, f: Chain, token: Address)
    requires !EarlyReturn(d) && d.deployer != d.treasury && ListsAssets(symbols, Unregistered(d, c))
    requires Fund(c, d, symbols) == Ok(f)
    ensures f == c.(balances := f.balances) && Unregistered(d, f) == Unregistered(d, c)
    ensures Balance(f, token, d.treasury) == Balance(c, token, d.treasury) + Funded(d, Unregistered(d, c), token)
    ensures Balance(f, token, d.deployer) == Balance(c, token, d.deployer) - Funded(d, Unregistered(d, c), token)
  {
    SendAllMoves(c, d, Unregistered(d, c), symbols, f, token);
    SentIsFunded(d, Unregistered(d, c), symbols, token);
    SameUnregistered(d, c, f, d.poolConfig);
  }

  lemma {:induction false} PrefixWithdraws(commands: seq<Command>, k: nat, token: Address)
    requires k <= |commands|
    ensures Withdrawn(commands[..k], token) <= Withdrawn(commands, token)
    decreases |commands|
  {
    if k < |commands| {
      assert commands[..|commands| - 1][..k] == commands[..k];
      PrefixWithdraws(commands[..|commands| - 1], k, token);
    } else {
      assert commands[..k] == commands;
    }
  }

  /** The two scripts one after the other, on a live network the first one funds. */
  ghost predicate FundedAndPlanned(c: Chain, d: Deployment, symbols: seq<string>, f: Chain, commands: seq<Command>) {
    && d.live && !EarlyReturn(d) && d.deployer != d.treasury
    && ListsAssets(symbols, Unregistered(d, c))
    && Fund(c, d, symbols) == Ok(f) && Plan(d, f) == Ok(commands)
  }

  /**
   * After any prefix of the plan the treasury holds what it held before the funding plus what is still to be withdrawn,
   * and no withdrawal of the prefix was cut short; after the whole plan it is back where it was.
   */
  lemma TreasuryCoversEveryPrefix(c: Chain, d: Deployment, symbols: seq<string>, f: Chain, commands: seq<Command>,
                                  k: nat, u: Chain, token: Address)
    requires FundedAndPlanned(c, d, symbols, f, commands) && SpelledAlike(d, Unregistered(d, c))
    requires k <= |commands| && ExecuteCommands(f, d, commands[..k]) == Ok(u)
    ensures Balance(u, token, d.treasury)
         == Balance(c, token, d.treasury) + Withdrawn(commands, token) - Withdrawn(commands[..k], token)
    ensures Balance(c, token, d.treasury) <= Balance(u, token, d.treasury)
    ensures k == |commands| ==> Balance(u, token, d.treasury) == Balance(c, token, d.treasury)
  {
    WithdrawalsCovered(c, d, symbols, f, commands);
    forall t ensures Withdrawn(commands[..k], t) <= Balance(f, t, d.treasury) { PrefixWithdraws(commands, k, t); }
    CommandsMove(f, d, commands[..k], u, token);
    PrefixWithdraws(commands, k, token);
    assert commands[..|commands|] == commands;
  }

  lemma WithdrawalsCovered(c: Chain, d: Deployment, symbols: seq<string>, f: Chain, commands: seq<Command>)
    requires FundedAndPlanned(c, d, symbols, f, commands) && SpelledAlike(d, Unregistered(d, c))
    ensures WithdrawsTo(commands, d.deployer)
    ensures forall t :: Balance(f, t, d.treasury) == Balance(c, t, d.treasury) + Withdrawn(commands, t)
  {
    FundingSends(c, d, symbols, f, d.deployer);
    PlanTotals(d, c.underlyingOf, Unregistered(d, c), commands, d.deployer);
    forall t ensures Balance(f, t, d.treasury) == Balance(c, t, d.treasury) + Withdrawn(commands, t) {
      FundingSends(c, d, symbols, f, t);
      FundedIsDue(d, Unregistered(d, c), t);
      PlanTotals(d, c.underlyingOf, Unregistered(d, c), commands, t);
    }
  }

  /** Two deployed mocks are two addresses, and a configured token is none of them. */
  ghost predicate DistinctMocks(d: Deployment) {
    && (forall a, b :: MockName(a) in d.contracts && MockName(b) in d.contracts ==>
          (d.contracts[MockName(a)] == d.contracts[MockName(b)] ==> a == b))
    && (forall t, a :: t in d.tokensConfig && !t.isMock && MockName(a) in d.contracts ==>
          t.tokenAddress != d.contracts[MockName(a)])
  }

  /** The treasury is made whole exactly when every mock asset is spelled as its token is configured. */
  lemma TreasuryRestoredExactly(c: Chain, d: Deployment, symbols: seq<string>, f: Chain, commands: seq<Command>,
                                u: Chain)
    requires FundedAndPlanned(c, d, symbols, f, commands) && ExecuteCommands(f, d, commands) == Ok(u) &&
             DistinctMocks(d)
    ensures (forall token :: Balance(u, token, d.treasury) == Balance(c, token, d.treasury))
       <==> SpelledAlike(d, Unregistered(d, c))
  {
    if SpelledAlike(d, Unregistered(d, c)) {
      assert commands[..|commands|] == commands;
      forall token ensures Balance(u, token, d.treasury) == Balance(c, token, d.treasury) {
        TreasuryCoversEveryPrefix(c, d, symbols, f, commands, |commands|, u, token);
      }
    } else {
      var vt :| vt in Unregistered(d, c) && GetUnderlyingToken(d, vt.asset) != SpentToken(d, vt.asset);
      MisspelledStays(c, d, symbols, f, commands, u, vt);
    }
  }

  /** What is funded under another spelling of a mock stays in the treasury. */
  lemma MisspelledStays(c: Chain, d: Deployment, symbols: seq<string>, f: Chain, commands: seq<Command>, u: Chain,
                        vt: VTokenConfig)
    requires FundedAndPlanned(c, d, symbols, f, commands) && ExecuteCommands(f, d, commands) == Ok(u) &&
             DistinctMocks(d)
    requires vt in Unregistered(d, c) && GetUnderlyingToken(d, vt.asset) != SpentToken(d, vt.asset)
    ensures GetUnderlyingToken(d, vt.asset).Ok?
    ensures var token := GetUnderlyingToken(d, vt.asset).value;
            Balance(c, token, d.treasury) < Balance(u, token, d.treasury)
  {
    AllFound(c, d, Unregistered(d, c), symbols, f, vt.asset);
    var token := GetUnderlyingToken(d, vt.asset).value;
    FundingSends(c, d, symbols, f, token);
    forall other | other in Unregistered(d, c) ensures SpentToken(d, other.asset) != Ok(token) {
      NotSpent(d, vt.asset, other.asset);
    }
    PlanLeaves(d, Unregistered(d, c), commands, token);
    UntouchedToken(f, d, commands, u, token);
    PlanWithdraws(d, Unregistered(d, c), commands, vt);
    PositiveWithdrawals(f, d, commands, u, vt.initialSupply);
    FundedAtLeast(d, Unregistered(d, c), vt);
  }

  lemma {:induction false} AllFound(c: Chain, d: Deployment, vtokens: seq<VTokenConfig>, symbols: seq<string>,
                                    f: Chain, symbol: string)
    requires SendAll(c, d, vtokens, symbols) == Ok(f) && symbol in symbols
    ensures GetUnderlyingToken(d, symbol).Ok?
    decreases |symbols|
  {
    var rest, last := symbols[..|symbols| - 1], symbols[|symbols| - 1];
    assert symbols == rest + [last];
    if symbol != last { AllFound(c, d, vtokens, rest, SendAll(c, d, vtokens, rest).value, symbol); }
  }

  /** The first token under a symbol is also the first under its own. */
  lemma {:induction false} ConfiguredUnderItself(tokens: seq<TokenConfig>, symbol: string)
    requires GetTokenConfig(tokens, symbol).Ok?
    ensures GetTokenConfig(tokens, GetTokenConfig(tokens, symbol).value.symbol) == GetTokenConfig(tokens, symbol)
  {
    if !SameSymbol(tokens[0].symbol, symbol) { ConfiguredUnderItself(tokens[1..], symbol); }
  }

  lemma NotSpent(d: Deployment, asset: string, other: string)
    requires DistinctMocks(d) && GetUnderlyingToken(d, asset).Ok? &&
             SpentToken(d, asset) != GetUnderlyingToken(d, asset)
    ensures SpentToken(d, other) != GetUnderlyingToken(d, asset)
  {
    ConfiguredUnderItself(d.tokensConfig, asset);
    if GetTokenConfig(d.tokensConfig, other).Ok? {
      ConfiguredUnderItself(d.tokensConfig, other);
    }
  }

  lemma {:induction false} PlanLeaves(d: Deployment, vtokens: seq<VTokenConfig>, commands: seq<Command>, token: Address)
    requires AddMarkets(d, vtokens) == Ok(commands)
    requires forall vt :: vt in vtokens ==> SpentToken(d, vt.asset) != Ok(token)
    ensures forall command :: command in commands && command.Withdraw? ==> command.token != token
    decreases |vtokens|
  {
    if vtokens != [] { PlanLeaves(d, vtokens[..|vtokens| - 1], AddMarkets(d, vtokens[..|vtokens| - 1]).value, token); }
  }

  lemma {:induction false} PlanWithdraws(d: Deployment, vtokens: seq<VTokenConfig>, commands: seq<Command>,
                                         vt: VTokenConfig)
    requires d.live && AddMarkets(d, vtokens) == Ok(commands) && vt in vtokens
    ensures exists command :: command in commands && command.Withdraw? && command.amount == vt.initialSupply
    decreases |vtokens|
  {
    var rest, last := vtokens[..|vtokens| - 1], vtokens[|vtokens| - 1];
    assert vtokens == rest + [last];
    if vt in rest {
      PlanWithdraws(d, rest, AddMarkets(d, rest).value, vt);
    } else {
      assert CommandsFor(d, last).value[0] in commands;
    }
  }

  lemma {:induction false} PositiveWithdrawals(c: Chain, d: Deployment, commands: seq<Command>, u: Chain, amount: nat)
    requires ExecuteCommands(c, d, commands) == Ok(u)
    requires exists command :: command in commands && command.Withdraw? && command.amount == amount
    ensures amount > 0
    decreases |commands|
  {
    var rest, last := commands[..|commands| - 1], commands[|commands| - 1];
    assert commands == rest + [last];
    if !(last.Withdraw? && last.amount == amount) {
      PositiveWithdrawals(c, d, rest, ExecuteCommands(c, d, rest).value, amount);
    }
  }

  lemma {:induction false} FundedAtLeast(d: Deployment, vtokens: seq<VTokenConfig>, vt: VTokenConfig)
    requires vt in vtokens && GetUnderlyingToken(d, vt.asset).Ok?
    ensures vt.initialSupply <= Funded(d, vtokens, GetUnderlyingToken(d, vt.asset).value)
    decreases |vtokens|
  {
    var rest, last := vtokens[..|vtokens| - 1], vtokens[|vtokens| - 1];
    assert vtokens == rest + [last];
    if vt in rest { FundedAtLeast(d, rest, vt); }
  }

  lemma CommandLeaves(c: Chain, d: Deployment, command: Command, u: Chain, token: Address)
    requires d.deployer != d.treasury && Execute(c, d, command) == Ok(u)
    requires command.Withdraw? ==> command.token != token
    ensures Balance(u, token, d.treasury) == Balance(c, token, d.treasury)
  {
    if command.List? { ListMoves(c, d, command, u); }
  }

  lemma {:induction false} UntouchedToken(c: Chain, d: Deployment, commands: seq<Command>, u: Chain, token: Address)
    requires d.deployer != d.treasury && ExecuteCommands(c, d, commands) == Ok(u)
    requires forall command :: command in commands && command.Withdraw? ==> command.token != token
    ensures Balance(u, token, d.treasury) == Balance(c, token, d.treasury)
    decreases |commands|
  {
    if commands != [] {
      var rest := commands[..|commands| - 1];
      var before := ExecuteCommands(c, d, rest).value;
      UntouchedToken(c, d, rest, before, token);
      CommandLeaves(before, d, commands[|commands| - 1], u, token);
    }
  }

  /** In the end the deployer has paid every market its initial supply, and nothing else. */
  lemma DeployerPaysTheMarkets(c: Chain, d: Deployment, symbols: seq<string>, f: Chain, commands: seq<Command>,
                               u: Chain, token: Address)
    requires FundedAndPlanned(c, d, symbols, f, commands) && SpelledAlike(d, Unregistered(d, c))
    requires DeployedOver(d, c.underlyingOf, Unregistered(d, c)) && ExecuteCommands(f, d, commands) == Ok(u)
    ensures Balance(u, token, d.deployer) == Balance(c, token, d.deployer) - Due(d, Unregistered(d, c), token)
  {
    WithdrawalsCovered(c, d, symbols, f, commands);
    FundingSends(c, d, symbols, f, token);
    FundedIsDue(d, Unregistered(d, c), token);
    PlanTotals(d, c.underlyingOf, Unregistered(d, c), commands, token);
    CommandsMove(f, d, commands, u, token);
  }

  // ------------------------------------------------------------ allowances

  /** What precedes a listing in the plan: its allowance is reset, then set. */
  predicate ApprovedBefore(underlyingOf: map<Address, Address>, commands: seq<Command>, i: nat)
    requires i < |commands| && commands[i].List?
  {
    && 3 <= i && commands[i].vToken in underlyingOf
    && commands[i - 3] == ApproveRegistry(underlyingOf[commands[i].vToken], 0)
    && commands[i - 2] == ApproveRegistry(underlyingOf[commands[i].vToken], commands[i].initialSupply)
    && commands[i - 1].SetDelta?
  }

  lemma {:induction false} PlanApproves(d: Deployment, underlyingOf: map<Address, Address>,
                                        vtokens: seq<VTokenConfig>, commands: seq<Command>, i: nat)
    requires AddMarkets(d, vtokens) == Ok(commands) && DeployedOver(d, underlyingOf, vtokens)
    requires i < |commands| && commands[i].List?
    ensures ApprovedBefore(underlyingOf, commands, i)
    decreases |vtokens|
  {
    if vtokens != [] {
      var rest, last := vtokens[..|vtokens| - 1], vtokens[|vtokens| - 1];
      var before, own := AddMarkets(d, rest).value, CommandsFor(d, last).value;
      if i < |before| {
        PlanApproves(d, underlyingOf, rest, before, i);
      } else {
        assert commands[i] == own[i - |before|];
        assert i == |commands| - 1;
        assert commands[i - 1] == own[|own| - 2] && commands[i - 2] == own[|own| - 3] &&
               commands[i - 3] == own[|own| - 4];
      }
    }
  }

  lemma LastExecuted(c: Chain, d: Deployment, commands: seq<Command>, k: nat)
    requires 0 < k <= |commands| && ExecuteCommands(c, d, commands[..k]).Ok?
    ensures ExecuteCommands(c, d, commands[..k - 1]).Ok?
    ensures ExecuteCommands(c, d, commands[..k]) ==
            Execute(ExecuteCommands(c, d, commands[..k - 1]).value, d, commands[k - 1])
  {
    assert commands[..k][..k - 1] == commands[..k - 1];
  }

  /** A listing uses up an allowance that is just its initial supply. */
  lemma ListingSpends(c: Chain, d: Deployment, command: Command, u: Chain)
    requires command.List? && Execute(c, d, command) == Ok(u) && command.vToken in c.underlyingOf
    requires Get(c.allowances, c.underlyingOf[command.vToken]) == command.initialSupply != MAX_UINT256
    ensures Get(u.allowances, c.underlyingOf[command.vToken]) == 0
  {
  }

  /** Executing an approval and then a change of the reduction delta leaves the approved amount. */
  lemma ApprovalStands(c: Chain, d: Deployment, approval: Command, delta: Command, t: Chain, u: Chain)
    requires approval.ApproveRegistry? && delta.SetDelta?
    requires Execute(c, d, approval) == Ok(t) && Execute(t, d, delta) == Ok(u)
    ensures Get(u.allowances, approval.token) == approval.amount && u.underlyingOf == c.underlyingOf
  {
  }

  lemma CommandKeepsUnderlyings(c: Chain, d: Deployment, command: Command, u: Chain)
    requires Execute(c, d, command) == Ok(u)
    ensures u.underlyingOf == c.underlyingOf
  {
    if command.List? { ListMoves(c, d, command, u); }
  }

  lemma {:induction false} SameUnderlyings(c: Chain, d: Deployment, commands: seq<Command>, u: Chain)
    requires ExecuteCommands(c, d, commands) == Ok(u)
    ensures u.underlyingOf == c.underlyingOf
    decreases |commands|
  {
    if commands != [] {
      var before := ExecuteCommands(c, d, commands[..|commands| - 1]).value;
      SameUnderlyings(c, d, commands[..|commands| - 1], before);
      CommandKeepsUnderlyings(before, d, commands[|commands| - 1], u);
    }
  }

  /** Every listing runs with exactly its own initial supply approved, whatever was approved before, and uses it up. */
  lemma ListsWithOwnAllowance(c: Chain, d: Deployment, commands: seq<Command>, i: nat, u: Chain)
    requires Plan(d, c) == Ok(commands) && DeployedOver(d, c.underlyingOf, Unregistered(d, c))
    requires i < |commands| && commands[i].List? && ExecuteCommands(c, d, commands[..i]) == Ok(u)
    ensures commands[i].vToken in c.underlyingOf
    ensures Get(u.allowances, c.underlyingOf[commands[i].vToken]) == commands[i].initialSupply
    ensures Execute(u, d, commands[i]).Ok? && commands[i].initialSupply != MAX_UINT256 ==>
              Get(Execute(u, d, commands[i]).value.allowances, c.underlyingOf[commands[i].vToken]) == 0
  {
    PlanApproves(d, c.underlyingOf, Unregistered(d, c), commands, i);
    LastExecuted(c, d, commands, i);
    LastExecuted(c, d, commands, i - 1);
    var before, approved := ExecuteCommands(c, d, commands[..i - 2]).value,
                            ExecuteCommands(c, d, commands[..i - 1]).value;
    ApprovalStands(before, d, commands[i - 2], commands[i - 1], approved, u);
    SameUnderlyings(c, d, commands[..i], u);
    if Execute(u, d, commands[i]).Ok? && commands[i].initialSupply != MAX_UINT256 {
      ListingSpends(u, d, commands[i], Execute(u, d, commands[i]).value);
    }
  }

  /** Resetting first means no approval of the plan is ever refused. */
  lemma ApprovalsAreAccepted(c: Chain, d: Deployment, commands: seq<Command>, i: nat, u: Chain)
    requires Plan(d, c) == Ok(commands) && DeployedOver(d, c.underlyingOf, Unregistered(d, c))
    requires i < |commands| && commands[i].ApproveRegistry? && ExecuteCommands(c, d, commands[..i]) == Ok(u)
    ensures Execute(u, d, commands[i]).Ok?
  {
    if commands[i].amount != 0 {
      PlanResets(d, Unregistered(d, c), commands, i);
      LastExecuted(c, d, commands, i);
    }
  }

  lemma {:induction false} PlanResets(d: Deployment, vtokens: seq<VTokenConfig>, commands: seq<Command>, i: nat)
    requires AddMarkets(d, vtokens) == Ok(commands)
    requires i < |commands| && commands[i].ApproveRegistry? && commands[i].amount != 0
    ensures 0 < i && commands[i - 1] == ApproveRegistry(commands[i].token, 0)
    decreases |vtokens|
  {
    if vtokens != [] {
      var rest, last := vtokens[..|vtokens| - 1], vtokens[|vtokens| - 1];
      var before, own := AddMarkets(d, rest).value, CommandsFor(d, last).value;
      if i < |before| {
        PlanResets(d, rest, before, i);
      } else {
        assert commands[i] == own[i - |before|];
        assert i == |commands| - 3;
        assert commands[i - 1] == own[|own| - 4];
      }
    }
  }

  // ------------------------------------------------------------ replanning

  ghost predicate InSomePool(c: Chain, vToken: Address) {
    exists comptroller :: comptroller in c.pools && vToken in c.pools[comptroller].allMarkets
  }

  /** A command lists at most its own market, and delists none. */
  lemma CommandLists(c: Chain, d: Deployment, command: Command, u: Chain, vToken: Address)
    requires Execute(c, d, command) == Ok(u)
    ensures InSomePool(c, vToken) ==> InSomePool(u, vToken)
    ensures command.List? && command.vToken == vToken ==> InSomePool(u, vToken)
  {
    if command.List? {
      ListGrows(c, d, command, u);
      GrownPools(c, u, vToken);
    } else if command.SetDelta? {
      DeltaGrows(c, d, command, u);
      GrownPools(c, u, vToken);
    }
  }

  ghost predicate MarketsGrow(c: Chain, u: Chain) {
    forall k :: k in c.pools ==> k in u.pools && c.pools[k].allMarkets <= u.pools[k].allMarkets
  }

  lemma GrownPools(c: Chain, u: Chain, vToken: Address)
    requires MarketsGrow(c, u)
    ensures InSomePool(c, vToken) ==> InSomePool(u, vToken)
  {
    if InSomePool(c, vToken) {
      var k :| k in c.pools && vToken in c.pools[k].allMarkets;
      assert c.pools[k].allMarkets <= u.pools[k].allMarkets;
    }
  }

  /** The pool of a listed market is the old one with the market appended, up to its ledger and settings. */
  lemma ListAppends(c: Chain, d: Deployment, command: Command, u: Chain)
    requires command.List? && Execute(c, d, command) == Ok(u)
    ensures command.vToken in c.comptrollerOf && c.comptrollerOf[command.vToken] in c.pools
    ensures var k := c.comptrollerOf[command.vToken];
            && k in u.pools && u.pools == c.pools[k := u.pools[k]]
            && u.pools[k].allMarkets == c.pools[k].allMarkets + [command.vToken]
  {
  }

  lemma ListGrows(c: Chain, d: Deployment, command: Command, u: Chain)
    requires command.List? && Execute(c, d, command) == Ok(u)
    ensures MarketsGrow(c, u) && InSomePool(u, command.vToken)
  {
    ListAppends(c, d, command, u);
    var k := c.comptrollerOf[command.vToken];
    assert k in u.pools && command.vToken in u.pools[k].allMarkets;
  }

  lemma DeltaGrows(c: Chain, d: Deployment, command: Command, u: Chain)
    requires command.SetDelta? && Execute(c, d, command) == Ok(u)
    ensures MarketsGrow(c, u)
  {
  }

  lemma {:induction false} CommandsList(c: Chain, d: Deployment, commands: seq<Command>, u: Chain, vToken: Address)
    requires ExecuteCommands(c, d, commands) == Ok(u)
    requires InSomePool(c, vToken) || exists command :: command in commands && command.List? && command.vToken == vToken
    ensures InSomePool(u, vToken)
    decreases |commands|
  {
    if commands != [] {
      var rest, last := commands[..|commands| - 1], commands[|commands| - 1];
      var before := ExecuteCommands(c, d, rest).value;
      assert commands == rest + [last];
      if !(last.List? && last.vToken == vToken) { CommandsList(c, d, rest, before, vToken); }
      CommandLists(before, d, last, u, vToken);
    }
  }

  /** The plan has a listing for every market it was made for. */
  lemma {:induction false} PlanListsAll(d: Deployment, vtokens: seq<VTokenConfig>, commands: seq<Command>,
                                        vt: VTokenConfig)
    requires AddMarkets(d, vtokens) == Ok(commands) && vt in vtokens
    ensures "VToken_" + vt.symbol in d.contracts
    ensures exists command ::
              command in commands && command.List? && command.vToken == d.contracts["VToken_" + vt.symbol]
    decreases |vtokens|
  {
    var rest, last := vtokens[..|vtokens| - 1], vtokens[|vtokens| - 1];
    var before, own := AddMarkets(d, rest).value, CommandsFor(d, last).value;
    assert vtokens == rest + [last];
    if vt in rest {
      PlanListsAll(d, rest, before, vt);
    } else {
      assert own[|own| - 1] in commands;
    }
  }

  lemma {:induction false} NotUnregistered(d: Deployment, c: Chain, vtokens: seq<VTokenConfig>, vt: VTokenConfig)
    requires vt in vtokens && vt !in UnregisteredIn(d, c, vtokens)
    ensures IsRegistered(d, c, vt)
  {
    var rest, last := vtokens[..|vtokens| - 1], vtokens[|vtokens| - 1];
    assert vtokens == rest + [last];
    if vt in rest { NotUnregistered(d, c, rest, vt); }
  }

  lemma {:induction false} PoolNotUnregistered(d: Deployment, c: Chain, pools: seq<PoolConfig>, pool: PoolConfig,
                                               vt: VTokenConfig)
    requires pool in pools && vt in pool.vtokens && vt !in UnregisteredVTokens(d, c, pools)
    ensures IsRegistered(d, c, vt)
  {
    var rest, last := pools[..|pools| - 1], pools[|pools| - 1];
    assert pools == rest + [last];
    if pool in rest { PoolNotUnregistered(d, c, rest, pool, vt); } else { NotUnregistered(d, c, pool.vtokens, vt); }
  }

  lemma {:induction false} AllRegistered(d: Deployment, c: Chain, vtokens: seq<VTokenConfig>)
    requires forall vt :: vt in vtokens ==> IsRegistered(d, c, vt)
    ensures UnregisteredIn(d, c, vtokens) == []
  {
    if vtokens != [] { AllRegistered(d, c, vtokens[..|vtokens| - 1]); }
  }

  lemma {:induction false} AllPoolsRegistered(d: Deployment, c: Chain, pools: seq<PoolConfig>)
    requires forall pool, vt :: pool in pools && vt in pool.vtokens ==> IsRegistered(d, c, vt)
    ensures UnregisteredVTokens(d, c, pools) == []
  {
    if pools != [] {
      AllPoolsRegistered(d, c, pools[..|pools| - 1]);
      AllRegistered(d, c, pools[|pools| - 1].vtokens);
    }
  }

  /** Once the plan has run there is nothing left to plan. */
  lemma ReplanningEmitsNothing(c: Chain, d: Deployment, commands: seq<Command>, u: Chain)
    requires Plan(d, c) == Ok(commands) && ExecuteCommands(c, d, commands) == Ok(u)
    ensures Plan(d, u) == Ok([])
  {
    forall pool, vt | pool in d.poolConfig && vt in pool.vtokens ensures IsRegistered(d, u, vt) {
      if vt in Unregistered(d, c) {
        PlanListsAll(d, Unregistered(d, c), commands, vt);
      } else {
        PoolNotUnregistered(d, c, d.poolConfig, pool, vt);
      }
      CommandsList(c, d, commands, u, d.contracts["VToken_" + vt.symbol]);
    }
    AllPoolsRegistered(d, u, d.poolConfig);
  }
}
