/**
 * The deployment scripts that list new markets: one sends the initial liquidity of every unregistered market to the
 * treasury, another plans and executes the commands that withdraw it, approve it and list the market with it.
 */
module InitialLiquidity {
  import opened Evm
  import opened Sums
  import L = VTokenLedger
  import P = ComptrollerPool

  // ------------------------------------------------------- configuration

  datatype TokenConfig = TokenConfig(symbol: string, isMock: bool, tokenAddress: Address)

  datatype VTokenConfig = VTokenConfig(
    symbol: string,
    asset: string,
    collateralFactor: nat,
    liquidationThreshold: nat,
    initialSupply: nat,
    reduceReservesBlockDelta: nat,
    receiver: Address,
    supplyCap: nat,
    borrowCap: nat)

  datatype PoolConfig = PoolConfig(id: string, vtokens: seq<VTokenConfig>)

  /** The network's configuration together with the contracts deployed on it by name. */
  datatype Deployment = Deployment(
    network: string,
    live: bool,
    tokensConfig: seq<TokenConfig>,
    poolConfig: seq<PoolConfig>,
    contracts: map<string, Address>,
    treasury: Address,
    deployer: Address)

  function Lower(s: string): string {
    seq(|s|, i requires 0 <= i < |s| => if 'A' <= s[i] <= 'Z' then s[i] - 'A' + 'a' else s[i])
  }

  function Trim(s: string): string
    decreases |s|
  {
    if s == "" then s
    else if s[0] == ' ' then Trim(s[1..])
    else if s[|s| - 1] == ' ' then Trim(s[..|s| - 1])
    else s
  }

  /** Symbols are compared without their case and surrounding blanks. */
  predicate SameSymbol(a: string, b: string) {
    Trim(Lower(a)) == Trim(Lower(b))
  }

  /** Every capital letter becomes the small one, and nothing else changes. */
  lemma LowersLetters(s: string)
    ensures |Lower(s)| == |s|
    ensures forall i :: 0 <= i < |s| ==>
              if 65 <= s[i] as int <= 90 then Lower(s)[i] as int == s[i] as int + 32 else Lower(s)[i] == s[i]
  {
  }

  predicate Blank(s: string) {
    forall i :: 0 <= i < |s| ==> s[i] == ' '
  }

  /** What is trimmed off both ends is blank, and what is left neither starts nor ends with a blank. */
  lemma {:induction false} TrimsBlanks(s: string) returns (i: nat, j: nat)
    ensures i <= j <= |s| && Trim(s) == s[i..j] && Blank(s[..i]) && Blank(s[j..])
    ensures Trim(s) != "" ==> Trim(s)[0] != ' ' && Trim(s)[|Trim(s)| - 1] != ' '
    decreases |s|
  {
    if s == "" {
      i, j := 0, 0;
    } else if s[0] == ' ' {
      i, j := TrimsBlanks(s[1..]);
      assert s[1..][i..j] == s[i + 1..j + 1] && s[1..][j..] == s[j + 1..];
      assert s[..i + 1] == [' '] + s[1..][..i];
      i, j := i + 1, j + 1;
    } else if s[|s| - 1] == ' ' {
      var init := s[..|s| - 1];
      i, j := TrimsBlanks(init);
      assert init[i..j] == s[i..j] && init[..i] == s[..i] && s[j..] == init[j..] + [' '];
    } else {
      i, j := 0, |s|;
      assert s[0..|s|] == s;
    }
  }

  /** The first token configured under the symbol, if any is. */
  function GetTokenConfig(tokens: seq<TokenConfig>, symbol: string): (r: Result<TokenConfig>)
    ensures r.Ok? ==> r.value in tokens && SameSymbol(r.value.symbol, symbol)
  {
    if tokens == [] then Revert(NotConfigured)
    else if SameSymbol(tokens[0].symbol, symbol) then Ok(tokens[0])
    else GetTokenConfig(tokens[1..], symbol)
  }

  /** A symbol is found exactly when it is configured, and then the first configuration that matches is taken. */
  lemma {:induction false} FirstMatchIsTaken(tokens: seq<TokenConfig>, symbol: string)
    ensures match GetTokenConfig(tokens, symbol)
            case Revert(e) => e == NotConfigured && forall t :: t in tokens ==> !SameSymbol(t.symbol, symbol)
            case Ok(t) => exists i :: 0 <= i < |tokens| && t == tokens[i] && SameSymbol(t.symbol, symbol) &&
                                      forall j :: 0 <= j < i ==> !SameSymbol(tokens[j].symbol, symbol)
  {
    if tokens != [] && !SameSymbol(tokens[0].symbol, symbol) {
      var rest := tokens[1..];
      assert tokens == [tokens[0]] + rest;
      FirstMatchIsTaken(rest, symbol);
      if GetTokenConfig(rest, symbol).Ok? {
        var t := GetTokenConfig(rest, symbol).value;
        var i :| 0 <= i < |rest| && t == rest[i] && forall j :: 0 <= j < i ==> !SameSymbol(rest[j].symbol, symbol);
        forall j | 0 <= j < i + 1 ensures !SameSymbol(tokens[j].symbol, symbol) {
          if j != 0 { assert tokens[j] == rest[j - 1]; }
        }
        assert tokens[i + 1] == t;
      }
    }
  }

  function ContractAt(d: Deployment, name: string): Result<Address> {
    if name in d.contracts then Ok(d.contracts[name]) else Revert(NotDeployed)
  }

  function MockName(symbol: string): string {
    "Mock" + symbol
  }

  /** A mock is looked up by the symbol asked for, not by the configured one. */
  function GetUnderlyingToken(d: Deployment, symbol: string): Result<Address> {
    var token :- GetTokenConfig(d.tokensConfig, symbol);
    if token.isMock then ContractAt(d, MockName(symbol)) else Ok(token.tokenAddress)
  }

  // --------------------------------------------------------------- chain

  /**
   * `balances` is by token and holder, `allowances` is the deployer's towards the registry by token, `marketFor` is the
   * registry's market by comptroller and underlying.
   */
  datatype Chain = Chain(
    pools: map<Address, P.Pool>,
    comptrollerOf: map<Address, Address>,
    underlyingOf: map<Address, Address>,
    marketFor: map<(Address, Address), Address>,
    balances: map<(Address, Address), nat>,
    allowances: map<Address, nat>)

  function Balance(c: Chain, token: Address, holder: Address): nat {
    Get(c.balances, (token, holder))
  }

  function Transfer(c: Chain, token: Address, src: Address, dst: Address, amount: nat): Result<Chain> {
    var left :- Sub(Balance(c, token, src), amount);
    var debited := c.balances[(token, src) := left];
    var received :- Add(Get(debited, (token, dst)), amount);
    Ok(c.(balances := debited[(token, dst) := received]))
  }

  /** The treasury pays what it has when asked for more. */
  function WithdrawTreasuryToken(c: Chain, d: Deployment, token: Address, amount: nat, to: Address): Result<Chain> {
    var _ :- Require(amount > 0, CommandFailed);
    var available := Balance(c, token, d.treasury);
    Transfer(c, token, d.treasury, to, if amount > available then available else amount)
  }

  /** Some tokens refuse to change a nonzero allowance to another. */
  function Approve(c: Chain, token: Address, amount: nat): Result<Chain> {
    var _ :- Require(amount == 0 || Get(c.allowances, token) == 0, CommandFailed);
    Ok(c.(allowances := c.allowances[token := amount]))
  }

  function PoolOf(c: Chain, vToken: Address): Result<P.Pool> {
    var _ :- Require(vToken in c.comptrollerOf && c.comptrollerOf[vToken] in c.pools, CommandFailed);
    var pool := c.pools[c.comptrollerOf[vToken]];
    var _ :- Require(vToken in pool.vTokens, CommandFailed);
    Ok(pool)
  }

  function SetReduceReservesBlockDelta(c: Chain, vToken: Address, delta: nat): Result<Chain> {
    var pool :- PoolOf(c, vToken);
    var _ :- Require(vToken in c.comptrollerOf && vToken in pool.vTokens, CommandFailed);
    var ledger :- L.Step(pool.vTokens[vToken], L.ReductionDelta(delta));
    Ok(c.(pools := c.pools[c.comptrollerOf[vToken] := pool.(vTokens := pool.vTokens[vToken := ledger])]))
  }

  /** A governance command, as the plan emits it. */
  datatype Command =
    | Withdraw(token: Address, amount: nat, to: Address)
    | ApproveRegistry(token: Address, amount: nat)
    | SetDelta(vToken: Address, delta: nat)
    | List(vToken: Address, collateralFactor: nat, liquidationThreshold: nat, initialSupply: nat, receiver: Address,
           supplyCap: nat, borrowCap: nat)

  /** Lists the market in its pool and supplies the initial liquidity for the receiver, pulled from the deployer. */
  function AddMarket(c: Chain, d: Deployment, listing: Command): Result<Chain>
    requires listing.List?
  {
    var vToken, initialSupply := listing.vToken, listing.initialSupply;
    var _ :- Require(initialSupply > 0, CommandFailed);
    var pool :- PoolOf(c, vToken);
    var _ :- Require(vToken in c.comptrollerOf && vToken in c.underlyingOf && vToken in pool.vTokens, CommandFailed);
    var comptroller, underlying := c.comptrollerOf[vToken], c.underlyingOf[vToken];
    var _ :- Require((comptroller, underlying) !in c.marketFor, CommandFailed);
    var listed :- P.SupportMarket(pool, vToken, pool.vTokens[vToken]);
    var weighted :- P.SetCollateralFactor(listed, vToken, listing.collateralFactor, listing.liquidationThreshold);
    var capped := weighted.(supplyCaps := weighted.supplyCaps[vToken := listing.supplyCap],
                            borrowCaps := weighted.borrowCaps[vToken := listing.borrowCap]);
    var allowance := Get(c.allowances, underlying);
    var unused :- Sub(allowance, initialSupply);
    var left :- Sub(Balance(c, underlying, d.deployer), initialSupply);
    var supplied :- P.Mint(capped, vToken, listing.receiver, initialSupply, 0);
    Ok(c.(pools := c.pools[comptroller := supplied],
          marketFor := c.marketFor[(comptroller, underlying) := vToken],
          balances := c.balances[(underlying, d.deployer) := left],
          allowances := c.allowances[underlying := if allowance == MAX_UINT256 then allowance else unused]))
  }

  // ------------------------------------------------------------- planning

  /** A market whose contract is not deployed counts as unregistered. */
  predicate IsRegistered(d: Deployment, c: Chain, vt: VTokenConfig) {
    var name := "VToken_" + vt.symbol;
    && name in d.contracts
    && exists comptroller :: comptroller in c.pools && d.contracts[name] in c.pools[comptroller].allMarkets
  }

  function UnregisteredIn(d: Deployment, c: Chain, vtokens: seq<VTokenConfig>): seq<VTokenConfig> {
    if vtokens == [] then []
    else
      var last := vtokens[|vtokens| - 1];
      UnregisteredIn(d, c, vtokens[..|vtokens| - 1]) + if IsRegistered(d, c, last) then [] else [last]
  }

  /** The unregistered markets of all pools, in order. */
  function UnregisteredVTokens(d: Deployment, c: Chain, pools: seq<PoolConfig>): seq<VTokenConfig> {
    if pools == [] then []
    else UnregisteredVTokens(d, c, pools[..|pools| - 1]) + UnregisteredIn(d, c, pools[|pools| - 1].vtokens)
  }

  /** The token the plan spends: the one under the configured symbol. */
  function SpentToken(d: Deployment, asset: string): Result<Address> {
    var token :- GetTokenConfig(d.tokensConfig, asset);
    GetUnderlyingToken(d, token.symbol)
  }

  function CommandsFor(d: Deployment, vt: VTokenConfig): Result<seq<Command>> {
    var vToken :- ContractAt(d, "VToken_" + vt.symbol);
    var token :- SpentToken(d, vt.asset);
    Ok((if d.live then [Withdraw(token, vt.initialSupply, d.deployer)] else []) +
       [ApproveRegistry(token, 0), ApproveRegistry(token, vt.initialSupply),
        SetDelta(vToken, vt.reduceReservesBlockDelta),
        List(vToken, vt.collateralFactor, vt.liquidationThreshold, vt.initialSupply, vt.receiver, vt.supplyCap,
             vt.borrowCap)])
  }

  function AddMarkets(d: Deployment, vtokens: seq<VTokenConfig>): Result<seq<Command>> {
    if vtokens == [] then Ok([])
    else
      var before :- AddMarkets(d, vtokens[..|vtokens| - 1]);
      var commands :- CommandsFor(d, vtokens[|vtokens| - 1]);
      Ok(before + commands)
  }

  function Plan(d: Deployment, c: Chain): Result<seq<Command>> {
    AddMarkets(d, UnregisteredVTokens(d, c, d.poolConfig))
  }

  function Execute(c: Chain, d: Deployment, command: Command): Result<Chain> {
    match command
    case Withdraw(token, amount, to) => WithdrawTreasuryToken(c, d, token, amount, to)
    case ApproveRegistry(token, amount) => Approve(c, token, amount)
    case SetDelta(vToken, delta) => SetReduceReservesBlockDelta(c, vToken, delta)
    case List(_, _, _, _, _, _, _) => AddMarket(c, d, command)
  }

  function ExecuteCommands(c: Chain, d: Deployment, commands: seq<Command>): Result<Chain> {
    if commands == [] then Ok(c)
    else
      var before :- ExecuteCommands(c, d, commands[..|commands| - 1]);
      Execute(before, d, commands[|commands| - 1])
  }

  // -------------------------------------------------------------- funding

  /** What the markets ask for under one symbol. */
  function TotalFor(vtokens: seq<VTokenConfig>, symbol: string): nat {
    if vtokens == [] then 0
    else
      var last := vtokens[|vtokens| - 1];
      TotalFor(vtokens[..|vtokens| - 1], symbol) + if last.asset == symbol then last.initialSupply else 0
  }

  predicate EarlyReturn(d: Deployment) {
    d.network == "bscmainnet" || d.network == "ethereum"
  }

  /** One transfer to the treasury for each symbol, in the order the sums are listed in. */
  function SendAll(c: Chain, d: Deployment, vtokens: seq<VTokenConfig>, symbols: seq<string>): Result<Chain> {
    if symbols == [] then Ok(c)
    else
      var before :- SendAll(c, d, vtokens, symbols[..|symbols| - 1]);
      var symbol := symbols[|symbols| - 1];
      var token :- GetUnderlyingToken(d, symbol);
      Transfer(before, token, d.deployer, d.treasury, TotalFor(vtokens, symbol))
  }

  /** `symbols` lists the assets of the unregistered markets, each once. */
  predicate ListsAssets(symbols: seq<string>, vtokens: seq<VTokenConfig>) {
    && (forall i, j :: 0 <= i < j < |symbols| ==> symbols[i] != symbols[j])
    && (forall vt :: vt in vtokens ==> vt.asset in symbols)
  }

  function Fund(c: Chain, d: Deployment, symbols: seq<string>): Result<Chain> {
    if EarlyReturn(d) then Ok(c) else SendAll(c, d, UnregisteredVTokens(d, c, d.poolConfig), symbols)
  }

  // ------------------------------------------------------------ the loops

  /** The amounts of some markets, symbol by symbol. */
  ghost predicate Summed(vtokens: seq<VTokenConfig>, amounts: map<string, nat>) {
    && (forall symbol :: symbol in amounts <==> exists vt :: vt in vtokens && vt.asset == symbol)
    && (forall symbol :: Get(amounts, symbol) == TotalFor(vtokens, symbol))
  }

  lemma OneMoreSummed(vtokens: seq<VTokenConfig>, vt: VTokenConfig, amounts: map<string, nat>)
    requires Summed(vtokens, amounts)
    ensures Summed(vtokens + [vt], amounts[vt.asset := vt.initialSupply + Get(amounts, vt.asset)])
  {
    var more, after := vtokens + [vt], amounts[vt.asset := vt.initialSupply + Get(amounts, vt.asset)];
    assert more[..|more| - 1] == vtokens && vt in more;
    forall symbol ensures symbol in after <==> exists u :: u in more && u.asset == symbol {
      if symbol in amounts {
        var u :| u in vtokens && u.asset == symbol;
        assert u in more;
      }
    }
    forall symbol ensures Get(after, symbol) == TotalFor(more, symbol) {
      assert Get(amounts, symbol) == TotalFor(vtokens, symbol);
    }
  }

  method SumAmounts(vtokens: seq<VTokenConfig>) returns (amounts: map<string, nat>)
    ensures forall symbol :: symbol in amounts <==> exists vt :: vt in vtokens && vt.asset == symbol
    ensures forall symbol :: Get(amounts, symbol) == TotalFor(vtokens, symbol)
  {
    amounts := map[];
    for i := 0 to |vtokens|
      invariant Summed(vtokens[..i], amounts)
    {
      var symbol, total := vtokens[i].asset, vtokens[i].initialSupply + Get(amounts, vtokens[i].asset);
      OneMoreSummed(vtokens[..i], vtokens[i], amounts);
      assert vtokens[..i + 1] == vtokens[..i] + [vtokens[i]];
      amounts := amounts[symbol := total];
    }
    assert vtokens[..|vtokens|] == vtokens;
  }

  method SendInitialLiquidityToTreasury(c: Chain, d: Deployment, symbols: seq<string>) returns (r: Result<Chain>)
    ensures r == Fund(c, d, symbols)
  {
    if EarlyReturn(d) { return Ok(c); }
    var vtokens := UnregisteredVTokens(d, c, d.poolConfig);
    var amounts := SumAmounts(vtokens);
    r := Ok(c);
    for i := 0 to |symbols|
      invariant r == SendAll(c, d, vtokens, symbols[..i])
    {
      assert symbols[..i + 1][..i] == symbols[..i];
      if r.Ok? {
        var token := GetUnderlyingToken(d, symbols[i]);
        r := if token.Revert? then Revert(token.error)
             else Transfer(r.value, token.value, d.deployer, d.treasury, Get(amounts, symbols[i]));
      }
    }
    assert symbols[..|symbols|] == symbols;
  }

  method ExecuteEach(c: Chain, d: Deployment, commands: seq<Command>) returns (r: Result<Chain>)
    ensures r == ExecuteCommands(c, d, commands)
  {
    r := Ok(c);
    for i := 0 to |commands|
      invariant r == ExecuteCommands(c, d, commands[..i])
    {
      assert commands[..i + 1][..i] == commands[..i];
      if r.Ok? { r := Execute(r.value, d, commands[i]); }
    }
    assert commands[..|commands|] == commands;
  }
}
