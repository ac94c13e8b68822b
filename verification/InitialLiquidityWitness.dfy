/**
 * A deployment whose mock is spelled in two ways: both scripts run to the end, and the treasury has paid for the
 * market.
 */
module InitialLiquidityWitness {
  import opened Evm
  import opened ExponentialNoError
  import opened Sums
  import L = VTokenLedger
  import P = ComptrollerPool
  import opened InitialLiquidity
  import opened InitialLiquidityRuns

  const CONFIGURED_MOCK: Address := Address(1)
  const MISSPELLED_MOCK: Address := Address(2)
  const VTOKEN: Address := Address(3)
  const COMPTROLLER: Address := Address(4)
  const TREASURY: Address := Address(5)
  const DEPLOYER: Address := Address(6)

  const MARKET: VTokenConfig := VTokenConfig("V", "usdc", 0, 0, 5, 1, DEPLOYER, MAX_UINT256, 0)

  const DEPLOYMENT: Deployment :=
    Deployment("sonic", true, [TokenConfig("USDC", true, Address(0))], [PoolConfig("pool", [MARKET])],
               map["MockUSDC" := CONFIGURED_MOCK, "Mockusdc" := MISSPELLED_MOCK, "VToken_V" := VTOKEN],
               TREASURY, DEPLOYER)

  const LEDGER: L.Market := L.Initial(0, EXP_SCALE, 0, 0)

  /** The deployer holds the misspelled mock, the treasury some of the configured one. */
  const CHAIN: Chain :=
    Chain(map[COMPTROLLER := P.NO_POOL.(vTokens := map[VTOKEN := LEDGER])], map[VTOKEN := COMPTROLLER],
          map[VTOKEN := CONFIGURED_MOCK], map[],
          map[(MISSPELLED_MOCK, DEPLOYER) := 5, (CONFIGURED_MOCK, TREASURY) := 5], map[])

  const PLAN: seq<Command> :=
    [Withdraw(CONFIGURED_MOCK, 5, DEPLOYER), ApproveRegistry(CONFIGURED_MOCK, 0), ApproveRegistry(CONFIGURED_MOCK, 5),
     SetDelta(VTOKEN, 1), List(VTOKEN, 0, 0, 5, DEPLOYER, MAX_UINT256, 0)]

  lemma Names()
    ensures MockName("usdc") == "Mockusdc" && MockName("USDC") == "MockUSDC" && "VToken_" + "V" == "VToken_V"
    ensures "Mockusdc" != "MockUSDC" && SameSymbol("USDC", "usdc") && SameSymbol("USDC", "USDC")
    ensures "VToken_V" != "Mockusdc" && "VToken_V" != "MockUSDC"
  {
    assert Lower("USDC") == "usdc" == Lower("usdc");
    assert "MockUSDC"[4] != "Mockusdc"[4] && "VToken_V"[0] != "Mockusdc"[0];
  }

  /** One script asks for the mock by the asset's spelling, the other by the configured one. */
  lemma TwoTokens()
    ensures GetUnderlyingToken(DEPLOYMENT, "usdc") == Ok(MISSPELLED_MOCK)
    ensures SpentToken(DEPLOYMENT, "usdc") == Ok(CONFIGURED_MOCK)
    ensures !SpelledAlike(DEPLOYMENT, [MARKET])
  {
    Names();
    assert MARKET in [MARKET];
  }

  lemma MocksAreDistinct()
    ensures DistinctMocks(DEPLOYMENT)
  {
    forall a, b | MockName(a) in DEPLOYMENT.contracts && MockName(b) in DEPLOYMENT.contracts &&
                  DEPLOYMENT.contracts[MockName(a)] == DEPLOYMENT.contracts[MockName(b)]
      ensures a == b
    {
      assert MockName(a)[0] == 'M' && "VToken_V"[0] == 'V';
      assert MockName(a) == MockName(b);
      assert a == MockName(a)[4..] && b == MockName(b)[4..];
    }
  }

  lemma OneUnregistered()
    ensures Unregistered(DEPLOYMENT, CHAIN) == [MARKET]
  {
    var pool := PoolConfig("pool", [MARKET]);
    Names();
    assert [pool][..0] == [] && [MARKET][..0] == [];
    assert !IsRegistered(DEPLOYMENT, CHAIN, MARKET);
    assert UnregisteredIn(DEPLOYMENT, CHAIN, []) == [];
    assert UnregisteredIn(DEPLOYMENT, CHAIN, [MARKET]) == [MARKET];
    assert UnregisteredVTokens(DEPLOYMENT, CHAIN, []) == [];
  }

  lemma NoEarlyReturn()
    ensures !EarlyReturn(DEPLOYMENT)
  {
    assert "sonic"[0] != "bscmainnet"[0] && "sonic"[0] != "ethereum"[0];
  }

  lemma FundingIsOneTransfer()
    ensures Fund(CHAIN, DEPLOYMENT, [MARKET.asset]) == Transfer(CHAIN, MISSPELLED_MOCK, DEPLOYER, TREASURY, 5)
  {
    NoEarlyReturn();
    OneUnregistered();
    TwoTokens();
    OneTransfer(CHAIN, DEPLOYMENT, MARKET, MISSPELLED_MOCK);
  }

  /** The funding goes through. */
  lemma FundingRuns() returns (f: Chain)
    ensures Fund(CHAIN, DEPLOYMENT, [MARKET.asset]) == Ok(f) && f == CHAIN.(balances := f.balances)
    ensures Balance(f, CONFIGURED_MOCK, TREASURY) == 5 && Balance(f, CONFIGURED_MOCK, DEPLOYER) == 0
  {
    FundingIsOneTransfer();
    f := Transfer(CHAIN, MISSPELLED_MOCK, DEPLOYER, TREASURY, 5).value;
    TransferMoves(CHAIN, MISSPELLED_MOCK, DEPLOYER, TREASURY, 5, f);
  }

  lemma OneTransfer(c: Chain, d: Deployment, vt: VTokenConfig, token: Address)
    requires GetUnderlyingToken(d, vt.asset) == Ok(token)
    ensures SendAll(c, d, [vt], [vt.asset]) == Transfer(c, token, d.deployer, d.treasury, vt.initialSupply)
  {
    var symbols, vtokens := [vt.asset], [vt];
    assert symbols[..0] == [] && vtokens[..0] == [];
    assert TotalFor(vtokens, vt.asset) == TotalFor([], vt.asset) + vt.initialSupply;
    assert SendAll(c, d, vtokens, []) == Ok(c);
  }

  lemma PlanIs(f: Chain)
    requires f == CHAIN.(balances := f.balances)
    ensures Plan(DEPLOYMENT, f) == Ok(PLAN)
  {
    OneUnregistered();
    SameUnregistered(DEPLOYMENT, CHAIN, f, DEPLOYMENT.poolConfig);
    MarketCommands();
    assert [MARKET][..0] == [];
    assert AddMarkets(DEPLOYMENT, []) == Ok([]);
    assert [] + PLAN == PLAN;
  }

  lemma MarketCommands()
    ensures CommandsFor(DEPLOYMENT, MARKET) == Ok(PLAN)
  {
    TwoTokens();
    Names();
    assert ContractAt(DEPLOYMENT, "VToken_" + MARKET.symbol) == Ok(VTOKEN);
    assert [PLAN[0]] + [PLAN[1], PLAN[2], PLAN[3], PLAN[4]] == PLAN;
  }

  lemma FiveSteps(c: Chain, d: Deployment, commands: seq<Command>, c1: Chain, c2: Chain, c3: Chain, c4: Chain,
                  c5: Chain)
    requires |commands| == 5
    requires Execute(c, d, commands[0]) == Ok(c1) && Execute(c1, d, commands[1]) == Ok(c2)
    requires Execute(c2, d, commands[2]) == Ok(c3) && Execute(c3, d, commands[3]) == Ok(c4)
    requires Execute(c4, d, commands[4]) == Ok(c5)
    ensures ExecuteCommands(c, d, commands) == Ok(c5)
  {
    assert commands[..1][..0] == [] && commands[..2][..1] == commands[..1] && commands[..3][..2] == commands[..2];
    assert commands[..4][..3] == commands[..3] && commands[..5] == commands;
    assert ExecuteCommands(c, d, commands[..0]) == Ok(c);
    assert ExecuteCommands(c, d, commands[..1]) == Ok(c1);
    assert ExecuteCommands(c, d, commands[..2]) == Ok(c2);
    assert ExecuteCommands(c, d, commands[..3]) == Ok(c3);
    assert ExecuteCommands(c, d, commands[..4]) == Ok(c4);
  }

  /** The market can be listed once its supply is held and approved. */
  lemma ListingRuns(c: Chain) returns (u: Chain)
    requires c.comptrollerOf == CHAIN.comptrollerOf && c.underlyingOf == CHAIN.underlyingOf && c.marketFor == map[]
    requires c.pools == map[COMPTROLLER := P.NO_POOL.(vTokens := map[VTOKEN := LEDGER.(reduceReservesDelta := 1)])]
    requires Balance(c, CONFIGURED_MOCK, DEPLOYER) == 5 && Get(c.allowances, CONFIGURED_MOCK) == 5
    ensures Execute(c, DEPLOYMENT, PLAN[4]) == Ok(u)
  {
    var pool, ledger := c.pools[COMPTROLLER], LEDGER.(reduceReservesDelta := 1);
    var listed := P.SupportMarket(pool, VTOKEN, ledger).value;
    var weighted := P.SetCollateralFactor(listed, VTOKEN, 0, 0).value;
    var capped := weighted.(supplyCaps := weighted.supplyCaps[VTOKEN := MAX_UINT256],
                            borrowCaps := weighted.borrowCaps[VTOKEN := 0]);
    assert L.MintFresh(ledger, DEPLOYER, 5, 0).Ok?;
    assert P.Mint(capped, VTOKEN, DEPLOYER, 5, 0).Ok?;
    u := AddMarket(c, DEPLOYMENT, PLAN[4]).value;
  }

  lemma DeltaRuns(c: Chain) returns (u: Chain)
    requires c.comptrollerOf == CHAIN.comptrollerOf && c.pools == CHAIN.pools
    ensures Execute(c, DEPLOYMENT, PLAN[3]) == Ok(u) && u == c.(pools := u.pools)
    ensures u.pools == map[COMPTROLLER := P.NO_POOL.(vTokens := map[VTOKEN := LEDGER.(reduceReservesDelta := 1)])]
  {
    var pool, ledger := c.pools[COMPTROLLER], LEDGER.(reduceReservesDelta := 1);
    assert L.Step(LEDGER, L.ReductionDelta(1)) == Ok(ledger);
    assert pool.vTokens[VTOKEN := ledger] == map[VTOKEN := ledger];
    u := c.(pools := c.pools[COMPTROLLER := pool.(vTokens := pool.vTokens[VTOKEN := ledger])]);
  }

  lemma PlanRuns(f: Chain) returns (u: Chain)
    requires f == CHAIN.(balances := f.balances)
    requires Balance(f, CONFIGURED_MOCK, TREASURY) == 5 && Balance(f, CONFIGURED_MOCK, DEPLOYER) == 0
    ensures ExecuteCommands(f, DEPLOYMENT, PLAN) == Ok(u)
  {
    var c1 := Execute(f, DEPLOYMENT, PLAN[0]).value;
    TransferMoves(f, CONFIGURED_MOCK, TREASURY, DEPLOYER, 5, c1);
    var c2 := Execute(c1, DEPLOYMENT, PLAN[1]).value;
    var c3 := Execute(c2, DEPLOYMENT, PLAN[2]).value;
    var c4 := DeltaRuns(c3);
    u := ListingRuns(c4);
    FiveSteps(f, DEPLOYMENT, PLAN, c1, c2, c3, c4, u);
  }

  lemma OneAsset()
    ensures ListsAssets([MARKET.asset], [MARKET])
  {
    assert MARKET.asset in [MARKET.asset];
  }

  lemma BothScripts(f: Chain)
    requires Fund(CHAIN, DEPLOYMENT, [MARKET.asset]) == Ok(f) && f == CHAIN.(balances := f.balances)
    ensures FundedAndPlanned(CHAIN, DEPLOYMENT, [MARKET.asset], f, PLAN)
  {
    NoEarlyReturn();
    OneUnregistered();
    OneAsset();
    PlanIs(f);
  }

  lemma NotSpelledAlike()
    ensures !SpelledAlike(DEPLOYMENT, Unregistered(DEPLOYMENT, CHAIN))
  {
    OneUnregistered();
    TwoTokens();
  }

  /**
   * Both scripts run to the end, and the treasury is left without the tokens that the listing was to be funded with.
   */
  lemma TreasuryCanPay() returns (f: Chain, u: Chain)
    ensures FundedAndPlanned(CHAIN, DEPLOYMENT, [MARKET.asset], f, PLAN) && DistinctMocks(DEPLOYMENT)
    ensures ExecuteCommands(f, DEPLOYMENT, PLAN) == Ok(u)
    ensures exists token :: Balance(u, token, TREASURY) != Balance(CHAIN, token, TREASURY)
  {
    f := FundingRuns();
    u := PlanRuns(f);
    BothScripts(f);
    MocksAreDistinct();
    NotSpelledAlike();
    TreasuryRestoredExactly(CHAIN, DEPLOYMENT, [MARKET.asset], f, PLAN, u);
  }
}
