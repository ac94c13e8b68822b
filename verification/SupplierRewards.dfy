/**
 * Rewards to the suppliers of one market: a cumulative index, settled for an account whenever its balance is about to
 * change. However often and in whatever order accounts are settled, no more is distributed than the speeds released.
 */
module SupplierRewards {
  import opened Evm
  import opened ExponentialNoError
  import opened Sums
  import L = VTokenLedger
  import opened VTokenRuns

  const INITIAL_INDEX: nat := DOUBLE_SCALE
  const MAX_UINT224: nat := 0xFFFFFFFF_FFFFFFFF_FFFFFFFF_FFFFFFFF_FFFFFFFF_FFFFFFFF_FFFFFFFF

  /**
   * `index` and `slot` are the market's supply state, `lastRewardingSlot` is zero when no end is set, and
   * `borrowLastRewardingSlot` is the borrow side's end, which is set together with it. `now` is the
   * current slot and `released` counts the speed once for every rewarding slot that has passed.
   */
  datatype State = State(
    market: L.Market,
    index: nat,
    slot: nat,
    lastRewardingSlot: nat,
    borrowLastRewardingSlot: nat,
    speed: nat,
    supplierIndex: map<Address, nat>,
    accrued: map<Address, nat>,
    granted: map<Address, nat>,
    now: nat,
    released: nat)

  /** The supply state when the distributor first learns of the market, which may already have suppliers. */
  function Initialized(market: L.Market, now: nat): State {
    State(market, INITIAL_INDEX, now, 0, 0, 0, map[], map[], map[], now, 0)
  }

  /** Time past the last rewarding slot does not count. */
  function RewardingSlot(s: State, slot: nat): nat {
    if s.lastRewardingSlot > 0 && slot > s.lastRewardingSlot then s.lastRewardingSlot else slot
  }

  function UpdateSupplyIndex(s: State): Result<State> {
    var rewardingSlot := RewardingSlot(s, s.now);
    var deltaSlots :- Sub(rewardingSlot, s.slot);
    if deltaSlots > 0 && s.speed > 0 then
      var accruedSinceUpdate :- Mul(deltaSlots, s.speed);
      var ratio :- if s.market.totalSupply > 0 then Fraction(accruedSinceUpdate, s.market.totalSupply) else Ok(0);
      var index :- Add(s.index, ratio);
      var _ :- Require(index <= MAX_UINT224, IndexExceeds224Bits);
      Ok(s.(index := index, slot := rewardingSlot))
    else if deltaSlots > 0 then Ok(s.(slot := rewardingSlot))
    else Ok(s)
  }

  /** The index an account was last settled at; accounts older than the distributor count from its start. */
  function SettledIndex(index: nat, supplierIndex: map<Address, nat>, supplier: Address): nat {
    var stored := Get(supplierIndex, supplier);
    if stored == 0 && index >= INITIAL_INDEX then INITIAL_INDEX else stored
  }

  function Distribute(s: State, supplier: Address): Result<State> {
    var deltaIndex :- Sub(s.index, SettledIndex(s.index, s.supplierIndex, supplier));
    var supplierDelta :- MulDouble(Get(s.market.accountTokens, supplier), deltaIndex);
    var supplierAccrued :- Add(Get(s.accrued, supplier), supplierDelta);
    Ok(s.(supplierIndex := s.supplierIndex[supplier := s.index], accrued := s.accrued[supplier := supplierAccrued]))
  }

  /** Before a balance changes: the index moves up to date, then the accounts concerned are settled. */
  function Settle(s: State, suppliers: seq<Address>): Result<State> {
    if suppliers == [] then UpdateSupplyIndex(s)
    else
      var before :- Settle(s, suppliers[..|suppliers| - 1]);
      Distribute(before, suppliers[|suppliers| - 1])
  }

  /** The accounts whose balance the operation changes. */
  function Participants(op: L.Op): seq<Address> {
    match op
    case Mint(minter, _, _) => [minter]
    case Redeem(redeemer, _) => [redeemer]
    case RedeemUnderlying(redeemer, _) => [redeemer]
    case Transfer(_, src, dst, _) => [src, dst]
    case Seize(liquidator, borrower, _, _) => [borrower, liquidator]
    case _ => []
  }

  /** The hook runs first; market operations that move no tokens have no supply hook. */
  function MarketStep(s: State, op: L.Op): Result<State> {
    var settled :- if Participants(op) == [] then Ok(s) else Settle(s, Participants(op));
    var market :- L.Step(settled.market, op);
    Ok(settled.(market := market))
  }

  function SetSpeed(s: State, speed: nat): Result<State> {
    if speed == s.speed then Ok(s)
    else
      var updated :- UpdateSupplyIndex(s);
      Ok(updated.(speed := speed))
  }

  /** Both ends move together, into the future only, and neither once one of them has passed. */
  function SetLastRewardingSlot(s: State, supplyLast: nat, borrowLast: nat): Result<State> {
    var _ :- Require(supplyLast > s.now, RewardingSlotInPast);
    var _ :- Require(borrowLast > s.now, RewardingSlotInPast);
    var _ :- Require(s.lastRewardingSlot == 0 || s.lastRewardingSlot > s.now, RewardsLocked);
    var _ :- Require(s.borrowLastRewardingSlot == 0 || s.borrowLastRewardingSlot > s.now, RewardsLocked);
    Ok(s.(lastRewardingSlot := supplyLast, borrowLastRewardingSlot := borrowLast))
  }

  /** Pays out everything accrued if the distributor can cover all of it. */
  function Grant(s: State, holder: Address, available: nat): State {
    var amount := Get(s.accrued, holder);
    if amount > 0 && amount <= available then
      s.(accrued := s.accrued[holder := 0], granted := s.granted[holder := Get(s.granted, holder) + amount])
    else s
  }

  lemma SettleSingle(s: State, holder: Address)
    ensures Settle(s, [holder]) ==
            match UpdateSupplyIndex(s)
            case Ok(u) => Distribute(u, holder)
            case Revert(e) => Revert(e)
  {
    assert [holder][..0] == [];
  }

  function ClaimRewards(s: State, holder: Address, available: nat): Result<State> {
    var settled :- Settle(s, [holder]);
    Ok(Grant(settled, holder, available))
  }

  /** Time passes; the slots up to the last rewarding one release the current speed. */
  function PassTime(s: State, slots: nat): State {
    var now := s.now + slots;
    var from, to := RewardingSlot(s, s.now), RewardingSlot(s, now);
    var rewarding := if to > from then to - from else 0;
    s.(now := now, released := s.released + s.speed * rewarding)
  }

  datatype Op =
    | InMarket(op: L.Op)
    | Update
    | SettleOne(supplier: Address)
    | Claim(holder: Address, available: nat)
    | Speed(speed: nat)
    | LastRewardingSlot(supplyLast: nat, borrowLast: nat)
    | Tick(slots: nat)

  function Step(s: State, op: Op): Result<State> {
    match op
    case InMarket(o) => MarketStep(s, o)
    case Update => UpdateSupplyIndex(s)
    case SettleOne(supplier) => Distribute(s, supplier)
    case Claim(holder, available) => ClaimRewards(s, holder, available)
    case Speed(speed) => SetSpeed(s, speed)
    case LastRewardingSlot(supplyLast, borrowLast) => SetLastRewardingSlot(s, supplyLast, borrowLast)
    case Tick(slots) => Ok(PassTime(s, slots))
  }

  function Apply(s: State, op: Op): State {
    match Step(s, op)
    case Ok(t) => t
    case Revert(_) => s
  }

  function Run(s: State, ops: seq<Op>): State
    decreases |ops|
  {
    if ops == [] then s else Run(Apply(s, ops[0]), ops[1..])
  }

  // ------------------------------------------------------------ invariant

  function Earned(balance: int, index: int, settled: int): int {
    balance * (index - settled)
  }

  /** What each balance has earned since its account was settled, scaled by 1e36. */
  ghost function Unsettled(tokens: map<Address, nat>, index: nat, supplierIndex: map<Address, nat>): map<Address, int> {
    map a | a in tokens :: Earned(tokens[a], index, SettledIndex(index, supplierIndex, a))
  }

  ghost function Pending(s: State): int {
    Sum(Unsettled(s.market.accountTokens, s.index, s.supplierIndex))
  }

  ghost function Distributed(s: State): int {
    Sum(s.accrued) + Sum(s.granted)
  }

  /** Rewarding slots the index has not seen yet. */
  function Behind(s: State): int {
    RewardingSlot(s, s.now) - s.slot
  }

  ghost predicate IndicesOrdered(index: nat, supplierIndex: map<Address, nat>) {
    INITIAL_INDEX <= index && forall a :: a in supplierIndex ==> supplierIndex[a] <= index
  }

  /** Earned or distributed, and still to be shared out, at most what was released. */
  predicate Covers(pending: int, distributed: int, unseen: int, released: int) {
    pending + DOUBLE_SCALE * distributed + DOUBLE_SCALE * unseen <= DOUBLE_SCALE * released
  }

  ghost predicate Covered(s: State) {
    Covers(Pending(s), Distributed(s), s.speed * Behind(s), s.released)
  }

  ghost predicate RewardsInv(s: State) {
    Inv(s.market) && IndicesOrdered(s.index, s.supplierIndex) && 0 <= Behind(s) && Covered(s)
  }

  lemma InitializedInv(market: L.Market, now: nat)
    requires Inv(market)
    ensures RewardsInv(Initialized(market, now))
  {
    var s := Initialized(market, now);
    SumZero(Unsettled(market.accountTokens, s.index, s.supplierIndex));
  }

  lemma {:induction false} SumZero(m: map<Address, int>)
    requires forall a :: a in m ==> m[a] == 0
    ensures Sum(m) == 0
    decreases |m|
  {
    if |m| != 0 { SumZero(m - {Pick(m)}); }
  }

  // ------------------------------------------------------- index updates

  /** An update shares out what the passed slots released, rounded down per token; with no supply it is forgone. */
  lemma UpdateSharesOut(s: State, t: State)
    requires UpdateSupplyIndex(s) == Ok(t)
    ensures 0 <= Behind(s) && s.index <= t.index && t == s.(index := t.index, slot := RewardingSlot(s, s.now))
    ensures if s.market.totalSupply > 0
            then Floors(t.index - s.index, DOUBLE_SCALE * (s.speed * Behind(s)), s.market.totalSupply)
            else t.index == s.index
  {
    var delta, supply := Behind(s), s.market.totalSupply;
    if delta > 0 && s.speed > 0 {
      if supply > 0 { SharedOut(t.index - s.index, supply, delta, s.speed); }
    } else {
      assert s.speed * delta == 0;
    }
  }

  /** An update goes through exactly when the index is not ahead of time and the new one fits its field. */
  lemma UpdatesExactly(s: State)
    ensures var passed, supply := Behind(s) * s.speed, s.market.totalSupply;
            UpdateSupplyIndex(s).Ok? <==>
              && 0 <= Behind(s)
              && (0 < Behind(s) && 0 < s.speed ==>
                    && passed <= MAX_UINT256 && s.index <= MAX_UINT224
                    && (0 < supply ==> && passed * DOUBLE_SCALE <= MAX_UINT256
                                       && s.index + passed * DOUBLE_SCALE / supply <= MAX_UINT224))
  {
    var passed, supply := Behind(s) * s.speed, s.market.totalSupply;
    if 0 < Behind(s) && 0 < supply && 0 < s.speed && passed * DOUBLE_SCALE <= MAX_UINT256 {
      DivFloors(passed * DOUBLE_SCALE, supply);
      FloorsUnique(Fraction(passed, supply).value, passed * DOUBLE_SCALE / supply, passed * DOUBLE_SCALE, supply);
    }
  }

  lemma SharedOut(ratio: int, supply: int, delta: int, speed: int)
    requires Floors(ratio, delta * speed * DOUBLE_SCALE, supply)
    ensures Floors(ratio, DOUBLE_SCALE * (speed * delta), supply)
  {
  }

  lemma SharesAtMost(s: State, t: State)
    requires UpdateSupplyIndex(s) == Ok(t)
    ensures (t.index - s.index) * s.market.totalSupply <= DOUBLE_SCALE * (s.speed * Behind(s))
  {
    UpdateSharesOut(s, t);
    assert 0 <= s.speed * Behind(s);
  }

  /** Moving the index earns each balance its share. */
  lemma UnsettledGrows(tokens: map<Address, nat>, supplierIndex: map<Address, nat>, index: nat, ratio: nat)
    requires INITIAL_INDEX <= index
    ensures Sum(Unsettled(tokens, index + ratio, supplierIndex)) ==
            Sum(Unsettled(tokens, index, supplierIndex)) + ratio * Sum(tokens)
  {
    var after, before := Unsettled(tokens, index + ratio, supplierIndex), Unsettled(tokens, index, supplierIndex);
    forall a | a in after ensures after[a] == before[a] + ratio * tokens[a] {
      MoreIndex(tokens[a], index, SettledIndex(index, supplierIndex, a), ratio);
    }
    SumPlusScaled(after, before, ratio, tokens);
  }

  lemma MoreIndex(balance: int, index: int, settled: int, ratio: int)
    ensures Earned(balance, index + ratio, settled) == Earned(balance, index, settled) + ratio * balance
  {
  }

  lemma UpdatePending(s: State, t: State)
    requires Inv(s.market) && INITIAL_INDEX <= s.index && UpdateSupplyIndex(s) == Ok(t)
    ensures Pending(t) <= Pending(s) + DOUBLE_SCALE * (s.speed * Behind(s))
  {
    UpdateSharesOut(s, t);
    SharesAtMost(s, t);
    var ratio := t.index - s.index;
    assert t.index == s.index + ratio && Sum(s.market.accountTokens) == s.market.totalSupply;
    UnsettledGrows(s.market.accountTokens, s.supplierIndex, s.index, ratio);
  }

  lemma UpdateKeeps(s: State, t: State)
    requires RewardsInv(s) && UpdateSupplyIndex(s) == Ok(t)
    ensures RewardsInv(t) && Behind(t) == 0 && t == s.(index := t.index, slot := t.slot)
  {
    UpdateSharesOut(s, t);
    assert Covered(t) by {
      UpdatePending(s, t);
      SharingCovers(Pending(s), Pending(t), Distributed(s), s.speed * Behind(s), s.released);
      assert t.speed * Behind(t) == 0;
    }
  }

  lemma SharingCovers(before: int, after: int, distributed: int, unseen: int, released: int)
    requires Covers(before, distributed, unseen, released) && after <= before + DOUBLE_SCALE * unseen
    ensures Covers(after, distributed, 0, released)
  {
  }

  // --------------------------------------------------------- settlements

  /** The account is credited what its balance earned, rounded down, and starts again from the current index. */
  lemma DistributeMoves(s: State, supplier: Address, t: State)
    requires Distribute(s, supplier) == Ok(t)
    ensures t == s.(supplierIndex := s.supplierIndex[supplier := s.index],
                    accrued := s.accrued[supplier := Get(t.accrued, supplier)])
    ensures var settled := SettledIndex(s.index, s.supplierIndex, supplier);
            && settled <= s.index
            && Floors(Get(t.accrued, supplier) - Get(s.accrued, supplier),
                      Earned(Get(s.market.accountTokens, supplier), s.index, settled), DOUBLE_SCALE)
  {
  }

  /** What an account is owed once it is settled at an index. */
  function SettledReward(s: State, index: nat, account: Address): nat
    requires SettledIndex(index, s.supplierIndex, account) <= index
  {
    var earned := Earned(Get(s.market.accountTokens, account), index, SettledIndex(index, s.supplierIndex, account));
    EarnedNonNegative(Get(s.market.accountTokens, account), index, SettledIndex(index, s.supplierIndex, account));
    DivFloors(earned, DOUBLE_SCALE);
    Get(s.accrued, account) + earned / DOUBLE_SCALE
  }

  /** A settlement sets the account's reward to what it is owed at the current index, and touches no other account. */
  lemma DistributeExactly(s: State, supplier: Address, t: State)
    requires Distribute(s, supplier) == Ok(t)
    ensures SettledIndex(s.index, s.supplierIndex, supplier) <= s.index
    ensures t == s.(supplierIndex := s.supplierIndex[supplier := s.index],
                    accrued := s.accrued[supplier := SettledReward(s, s.index, supplier)])
  {
    DistributeMoves(s, supplier, t);
    var earned := Earned(Get(s.market.accountTokens, supplier), s.index,
                         SettledIndex(s.index, s.supplierIndex, supplier));
    EarnedNonNegative(Get(s.market.accountTokens, supplier), s.index,
                      SettledIndex(s.index, s.supplierIndex, supplier));
    DivFloors(earned, DOUBLE_SCALE);
    FloorsUnique(Get(t.accrued, supplier) - Get(s.accrued, supplier), earned / DOUBLE_SCALE, earned, DOUBLE_SCALE);
  }

  lemma UnsettledReset(tokens: map<Address, nat>, index: nat, supplierIndex: map<Address, nat>, a: Address)
    requires INITIAL_INDEX <= index
    ensures var before := Unsettled(tokens, index, supplierIndex);
            var after := Unsettled(tokens, index, supplierIndex[a := index]);
            after == if a in tokens then before[a := 0] else before
  {
    EarnedNothing(Get(tokens, a), index);
    assert SettledIndex(index, supplierIndex[a := index], a) == index;
  }

  lemma PendingWithout(tokens: map<Address, nat>, index: nat, supplierIndex: map<Address, nat>, a: Address)
    requires INITIAL_INDEX <= index
    ensures Sum(Unsettled(tokens, index, supplierIndex[a := index]))
         == Sum(Unsettled(tokens, index, supplierIndex)) -
            Earned(Get(tokens, a), index, SettledIndex(index, supplierIndex, a))
  {
    UnsettledReset(tokens, index, supplierIndex, a);
    if a in tokens { SumUpdate(Unsettled(tokens, index, supplierIndex), a, 0); }
  }

  /** Settling takes from what is pending at least what it credits. */
  lemma DistributeBalances(s: State, supplier: Address, t: State)
    requires INITIAL_INDEX <= s.index && Distribute(s, supplier) == Ok(t)
    ensures DOUBLE_SCALE * (Distributed(t) - Distributed(s)) <= Pending(s) - Pending(t)
  {
    DistributeMoves(s, supplier, t);
    PendingWithout(s.market.accountTokens, s.index, s.supplierIndex, supplier);
    SumSet(s.accrued, supplier, Get(t.accrued, supplier));
  }

  lemma DistributeKeeps(s: State, supplier: Address, t: State)
    requires RewardsInv(s) && Distribute(s, supplier) == Ok(t)
    ensures RewardsInv(t) && t.market == s.market && t.index == s.index && Behind(t) == Behind(s)
    ensures t.supplierIndex == s.supplierIndex[supplier := s.index]
  {
    DistributeMoves(s, supplier, t);
    DistributeBalances(s, supplier, t);
    CreditingCovers(Pending(s), Pending(t), Distributed(s), Distributed(t), s.speed * Behind(s), s.released);
  }

  lemma CreditingCovers(before: int, after: int, distributed: int, credited: int, unseen: int, released: int)
    requires Covers(before, distributed, unseen, released) && DOUBLE_SCALE * (credited - distributed) <= before - after
    ensures Covers(after, credited, unseen, released)
  {
  }

  ghost predicate AllSettled(s: State, suppliers: seq<Address>) {
    forall a :: a in suppliers ==> SettledIndex(s.index, s.supplierIndex, a) == s.index
  }

  lemma OneMoreSettled(s: State, settled: seq<Address>, supplier: Address, t: State)
    requires INITIAL_INDEX <= s.index && AllSettled(s, settled)
    requires t.index == s.index && t.supplierIndex == s.supplierIndex[supplier := s.index]
    ensures AllSettled(t, settled + [supplier])
  {
  }

  /** After the hook everyone it names is settled, and nothing of the market has moved yet. */
  lemma {:induction false} SettleKeeps(s: State, suppliers: seq<Address>, t: State)
    requires RewardsInv(s) && Settle(s, suppliers) == Ok(t)
    ensures RewardsInv(t) && Behind(t) == 0 && t.market == s.market && AllSettled(t, suppliers)
    decreases |suppliers|
  {
    if suppliers == [] {
      UpdateKeeps(s, t);
    } else {
      var rest, last := suppliers[..|suppliers| - 1], suppliers[|suppliers| - 1];
      var before := Settle(s, rest).value;
      SettleKeeps(s, rest, before);
      DistributeKeeps(before, last, t);
      OneMoreSettled(before, rest, last, t);
      assert suppliers == rest + [last];
    }
  }

  /** At the updated index every account named is owed its settled reward there, and no other one's moves. */
  ghost predicate Credited(s: State, suppliers: seq<Address>, t: State) {
    && UpdateSupplyIndex(s) == Ok(t.(supplierIndex := s.supplierIndex, accrued := s.accrued))
    && (forall a :: a !in suppliers ==> Get(t.accrued, a) == Get(s.accrued, a) &&
                                        SettledIndex(t.index, t.supplierIndex, a) ==
                                        SettledIndex(t.index, s.supplierIndex, a))
    && (forall a :: a in suppliers ==> && SettledIndex(t.index, s.supplierIndex, a) <= t.index
                                       && SettledIndex(t.index, t.supplierIndex, a) == t.index
                                       && Get(t.accrued, a) == SettledReward(s, t.index, a))
  }

  lemma OneMoreCredited(s: State, rest: seq<Address>, before: State, last: Address, t: State)
    requires INITIAL_INDEX <= before.index && Credited(s, rest, before) && Distribute(before, last) == Ok(t)
    ensures Credited(s, rest + [last], t)
  {
    DistributeExactly(before, last, t);
    LastIsCredited(s, rest, before, last, t);
    forall a | a != last
      ensures Get(t.accrued, a) == Get(before.accrued, a)
      ensures SettledIndex(t.index, t.supplierIndex, a) == SettledIndex(t.index, before.supplierIndex, a)
    {
    }
    assert t.(supplierIndex := s.supplierIndex, accrued := s.accrued) ==
           before.(supplierIndex := s.supplierIndex, accrued := s.accrued);
  }

  /** Settled for the first time or again: again earns nothing. */
  lemma LastIsCredited(s: State, rest: seq<Address>, before: State, last: Address, t: State)
    requires INITIAL_INDEX <= before.index && Credited(s, rest, before) && Distribute(before, last) == Ok(t)
    ensures SettledIndex(t.index, s.supplierIndex, last) <= t.index
    ensures SettledIndex(t.index, t.supplierIndex, last) == t.index
    ensures Get(t.accrued, last) == SettledReward(s, t.index, last)
  {
    DistributeExactly(before, last, t);
    if last in rest { EarnedNothing(Get(before.market.accountTokens, last), before.index); }
  }

  lemma {:induction false} SettleCredits(s: State, suppliers: seq<Address>, t: State)
    requires INITIAL_INDEX <= s.index && Settle(s, suppliers) == Ok(t)
    ensures Credited(s, suppliers, t) && INITIAL_INDEX <= t.index && t.market == s.market
    decreases |suppliers|
  {
    if suppliers == [] {
      UpdateSharesOut(s, t);
    } else {
      var rest, last := suppliers[..|suppliers| - 1], suppliers[|suppliers| - 1];
      var before := Settle(s, rest).value;
      SettleCredits(s, rest, before);
      OneMoreCredited(s, rest, before, last, t);
      assert suppliers == rest + [last];
    }
  }

  /**
   * A payout moves a holder's reward from owed to paid: all of it if there is any and it is covered, otherwise nothing.
   * Nobody else's moves, and owed and paid together stay what they were.
   */
  lemma GrantMoves(s: State, holder: Address, available: nat)
    ensures var owed, t := Get(s.accrued, holder), Grant(s, holder, available);
            && t == s.(accrued := t.accrued, granted := t.granted)
            && (if 0 < owed <= available
                then Get(t.accrued, holder) == 0 && Get(t.granted, holder) == Get(s.granted, holder) + owed
                else Get(t.accrued, holder) == owed && Get(t.granted, holder) == Get(s.granted, holder))
            && (forall a :: a != holder ==>
                  Get(t.accrued, a) == Get(s.accrued, a) && Get(t.granted, a) == Get(s.granted, a))
            && Distributed(t) == Distributed(s)
  {
    var t := Grant(s, holder, available);
    if t != s {
      var owed, paid := t.accrued[holder], t.granted[holder];
      assert t.accrued == s.accrued[holder := owed] && t.granted == s.granted[holder := paid];
      SumSet(s.accrued, holder, owed);
      SumSet(s.granted, holder, paid);
    }
  }

  /**
   * A claim settles the holder and pays all it is then owed if the distributor's balance covers it, and otherwise
   * nothing; no other account's reward moves, owed or paid.
   */
  lemma ClaimPays(s: State, holder: Address, available: nat, t: State)
    requires INITIAL_INDEX <= s.index && ClaimRewards(s, holder, available) == Ok(t)
    ensures SettledIndex(t.index, s.supplierIndex, holder) <= t.index && t.market == s.market
    ensures var owed := SettledReward(s, t.index, holder);
            if 0 < owed <= available
            then Get(t.accrued, holder) == 0 && Get(t.granted, holder) == Get(s.granted, holder) + owed
            else Get(t.accrued, holder) == owed && Get(t.granted, holder) == Get(s.granted, holder)
    ensures forall a :: a != holder ==>
              Get(t.accrued, a) == Get(s.accrued, a) && Get(t.granted, a) == Get(s.granted, a)
  {
    var settled := Settle(s, [holder]).value;
    SettleCredits(s, [holder], settled);
    assert holder in [holder];
    GrantMoves(settled, holder, available);
  }

  // --------------------------------------------------- market operations

  /** The market takes its step, after exactly the accounts whose balance it changes are settled at the new index. */
  lemma MarketStepExactly(s: State, op: L.Op, t: State)
    requires INITIAL_INDEX <= s.index && MarketStep(s, op) == Ok(t)
    ensures L.Step(s.market, op) == Ok(t.market)
    ensures if Participants(op) == [] then t == s.(market := t.market)
            else Credited(s, Participants(op), t.(market := s.market))
  {
    if Participants(op) != [] {
      var settled := SettledFirst(s, op, t);
      SettleCredits(s, Participants(op), settled);
      assert settled == t.(market := s.market);
    }
  }

  lemma SettledFirst(s: State, op: L.Op, t: State) returns (settled: State)
    requires MarketStep(s, op) == Ok(t) && Participants(op) != []
    ensures Settle(s, Participants(op)) == Ok(settled) && L.Step(settled.market, op) == Ok(t.market)
    ensures t == settled.(market := t.market)
  {
    settled := Settle(s, Participants(op)).value;
  }

  /** A settled account has nothing pending, so its balance may change freely. */
  lemma BalanceIsFree(tokens: map<Address, nat>, index: nat, supplierIndex: map<Address, nat>, a: Address, balance: nat)
    requires SettledIndex(index, supplierIndex, a) == index
    ensures Sum(Unsettled(tokens[a := balance], index, supplierIndex)) == Sum(Unsettled(tokens, index, supplierIndex))
  {
    FreeEntry(tokens, index, supplierIndex, a, balance);
    SumUpdate(Unsettled(tokens, index, supplierIndex), a, 0);
  }

  lemma FreeEntry(tokens: map<Address, nat>, index: nat, supplierIndex: map<Address, nat>, a: Address, balance: nat)
    requires SettledIndex(index, supplierIndex, a) == index
    ensures Unsettled(tokens[a := balance], index, supplierIndex) == Unsettled(tokens, index, supplierIndex)[a := 0]
    ensures a in tokens ==> Unsettled(tokens, index, supplierIndex)[a] == 0
  {
    EarnedNothing(balance, index);
    EarnedNothing(Get(tokens, a), index);
  }

  lemma EarnedNothing(balance: int, index: int)
    ensures Earned(balance, index, index) == 0
  {
  }

  /** An operation changes no balance but its participants'. */
  lemma OnlyParticipants(m: L.Market, op: L.Op, n: L.Market)
    requires L.Step(m, op) == Ok(n)
    ensures |Participants(op)| <= 2 && forall a :: a in Participants(op) ==> a in n.accountTokens
    ensures n.accountTokens == Replaced(m.accountTokens, Participants(op), n.accountTokens)
  {
    if Participants(op) == [] { OthersKeepTokens(m, op, n); }
  }

  function Replaced(tokens: map<Address, nat>, parties: seq<Address>, after: map<Address, nat>): map<Address, nat>
    requires |parties| <= 2 && forall a :: a in parties ==> a in after
  {
    if |parties| == 0 then tokens
    else if |parties| == 1 then tokens[parties[0] := after[parties[0]]]
    else tokens[parties[0] := after[parties[0]]][parties[1] := after[parties[1]]]
  }

  lemma SettledBalancesMove(s: State, op: L.Op, n: L.Market)
    requires L.Step(s.market, op) == Ok(n) && AllSettled(s, Participants(op))
    ensures Pending(s.(market := n)) == Pending(s)
  {
    OnlyParticipants(s.market, op, n);
    var tokens, parties := s.market.accountTokens, Participants(op);
    if |parties| > 0 {
      var x := n.accountTokens[parties[0]];
      BalanceIsFree(tokens, s.index, s.supplierIndex, parties[0], x);
      if |parties| > 1 {
        BalanceIsFree(tokens[parties[0] := x], s.index, s.supplierIndex, parties[1], n.accountTokens[parties[1]]);
      }
    }
  }

  lemma MarketStepKeeps(s: State, op: L.Op, t: State)
    requires RewardsInv(s) && MarketStep(s, op) == Ok(t)
    ensures RewardsInv(t)
  {
    var settled := if Participants(op) == [] then s else Settle(s, Participants(op)).value;
    if Participants(op) != [] { SettleKeeps(s, Participants(op), settled); }
    MovedKeeps(settled, op, t.market);
  }

  lemma MovedKeeps(s: State, op: L.Op, n: L.Market)
    requires RewardsInv(s) && AllSettled(s, Participants(op)) && L.Step(s.market, op) == Ok(n)
    ensures RewardsInv(s.(market := n))
  {
    SettledBalancesMove(s, op, n);
    assert Inv(n) by { StepKeepsInv(s.market, op, n); }
  }

  // ---------------------------------------------------------------- runs

  lemma GrantKeeps(s: State, holder: Address, available: nat)
    requires RewardsInv(s)
    ensures RewardsInv(Grant(s, holder, available))
  {
    GrantMoves(s, holder, available);
    assert Covered(Grant(s, holder, available)) by { assert Pending(Grant(s, holder, available)) == Pending(s); }
  }

  /** Each slot that passes releases the speed once, up to the last rewarding slot if one is set. */
  lemma EachSlotReleases(s: State, slots: nat)
    ensures PassTime(s, 0) == s
    ensures var rewarding := s.lastRewardingSlot == 0 || s.now + slots + 1 <= s.lastRewardingSlot;
            PassTime(s, slots + 1) ==
            PassTime(s, slots).(now := s.now + slots + 1,
                                released := PassTime(s, slots).released + if rewarding then s.speed else 0)
  {
    var to, next := RewardingSlot(s, s.now + slots), RewardingSlot(s, s.now + slots + 1);
    var from := RewardingSlot(s, s.now);
    assert next == to || next == to + 1;
    assert s.speed * (to + 1 - from) == s.speed * (to - from) + s.speed;
  }

  /** A new speed counts from now on: what passed is shared out at the old one. Ends move only while both are open. */
  lemma SpeedAndEndsAreSet(s: State, speed: nat, supplyLast: nat, borrowLast: nat)
    ensures SetSpeed(s, speed).Ok? <==> speed == s.speed || UpdateSupplyIndex(s).Ok?
    ensures SetSpeed(s, speed).Ok? ==>
              SetSpeed(s, speed).value == (if speed == s.speed then s else UpdateSupplyIndex(s).value).(speed := speed)
    ensures SetLastRewardingSlot(s, supplyLast, borrowLast).Ok? <==>
              && s.now < supplyLast && s.now < borrowLast
              && (s.lastRewardingSlot == 0 || s.now < s.lastRewardingSlot)
              && (s.borrowLastRewardingSlot == 0 || s.now < s.borrowLastRewardingSlot)
    ensures SetLastRewardingSlot(s, supplyLast, borrowLast).Ok? ==>
              SetLastRewardingSlot(s, supplyLast, borrowLast).value ==
              s.(lastRewardingSlot := supplyLast, borrowLastRewardingSlot := borrowLast)
  {
  }

  lemma PassTimeKeeps(s: State, slots: nat)
    requires RewardsInv(s)
    ensures RewardsInv(PassTime(s, slots))
  {
    var t := PassTime(s, slots);
    LaterRewards(s.speed, Behind(s), Behind(t) - Behind(s), s.released);
  }

  lemma LaterRewards(speed: int, behind: int, passed: int, released: int)
    ensures DOUBLE_SCALE * (speed * (behind + passed)) - DOUBLE_SCALE * (released + speed * passed) ==
            DOUBLE_SCALE * (speed * behind) - DOUBLE_SCALE * released
  {
  }

  lemma SetSpeedKeeps(s: State, speed: nat, t: State)
    requires RewardsInv(s) && SetSpeed(s, speed) == Ok(t)
    ensures RewardsInv(t)
  {
    if speed != s.speed {
      UpdateKeeps(s, UpdateSupplyIndex(s).value);
      assert t.speed * Behind(t) == 0;
    }
  }

  lemma StepKeeps(s: State, op: Op, t: State)
    requires RewardsInv(s) && Step(s, op) == Ok(t)
    ensures RewardsInv(t)
  {
    match op
    case InMarket(o) => MarketStepKeeps(s, o, t);
    case Update => UpdateKeeps(s, t);
    case SettleOne(supplier) => DistributeKeeps(s, supplier, t);
    case Claim(holder, available) =>
      SettleKeeps(s, [holder], Settle(s, [holder]).value);
      GrantKeeps(Settle(s, [holder]).value, holder, available);
    case Speed(speed) => SetSpeedKeeps(s, speed, t);
    case Tick(slots) => PassTimeKeeps(s, slots);
    case LastRewardingSlot(_, _) => assert Behind(t) == Behind(s);
  }

  lemma {:induction false} RunKeeps(s: State, ops: seq<Op>)
    requires RewardsInv(s)
    ensures RewardsInv(Run(s, ops))
    decreases |ops|
  {
    if ops != [] {
      if Step(s, ops[0]).Ok? { StepKeeps(s, ops[0], Apply(s, ops[0])); }
      RunKeeps(Apply(s, ops[0]), ops[1..]);
    }
  }

  lemma PendingNonNegative(s: State)
    requires IndicesOrdered(s.index, s.supplierIndex)
    ensures 0 <= Pending(s)
  {
    var unsettled := Unsettled(s.market.accountTokens, s.index, s.supplierIndex);
    forall a | a in unsettled ensures 0 <= unsettled[a] {
      EarnedNonNegative(s.market.accountTokens[a], s.index, SettledIndex(s.index, s.supplierIndex, a));
    }
    SumNonNegative(unsettled);
  }

  lemma EarnedNonNegative(balance: nat, index: int, settled: int)
    requires settled <= index
    ensures 0 <= Earned(balance, index, settled)
  {
  }

  /** Whatever is settled, claimed, traded or reconfigured, suppliers never get more than the speeds released. */
  lemma NeverOverDistributed(market: L.Market, now: nat, ops: seq<Op>)
    requires Inv(market)
    ensures var t := Run(Initialized(market, now), ops);
            Distributed(t) <= t.released && Pending(t) <= DOUBLE_SCALE * (t.released - Distributed(t))
  {
    InitializedInv(market, now);
    RunKeeps(Initialized(market, now), ops);
    CoveredBounds(Run(Initialized(market, now), ops));
  }

  lemma CoveredBounds(s: State)
    requires RewardsInv(s)
    ensures Distributed(s) <= s.released && Pending(s) <= DOUBLE_SCALE * (s.released - Distributed(s))
  {
    PendingNonNegative(s);
    CoversBounds(Pending(s), Distributed(s), s.speed, Behind(s), s.released);
  }

  lemma CoversBounds(pending: nat, distributed: int, speed: nat, behind: nat, released: int)
    requires Covers(pending, distributed, speed * behind, released)
    ensures distributed <= released && pending <= DOUBLE_SCALE * (released - distributed)
  {
    assert 0 <= speed * behind;
  }

  /** An account whose balance stays put is credited at most one less by settling on the way than by settling once. */
  lemma SettlingOnTheWay(s: State, midway: State, u: State, once: State, twice: State, supplier: Address)
    requires INITIAL_INDEX <= s.index && u == s.(index := u.index)
    requires Distribute(s, supplier) == Ok(midway) && Distribute(u, supplier) == Ok(once)
    requires Distribute(midway.(index := u.index), supplier) == Ok(twice)
    ensures twice.supplierIndex == once.supplierIndex
    ensures Get(twice.accrued, supplier) <= Get(once.accrued, supplier) <= Get(twice.accrued, supplier) + 1
  {
    var balance, from := Get(s.market.accountTokens, supplier), SettledIndex(s.index, s.supplierIndex, supplier);
    DistributeMoves(s, supplier, midway);
    DistributeMoves(u, supplier, once);
    DistributeMoves(midway.(index := u.index), supplier, twice);
    EarnedInParts(balance, from, s.index, u.index);
    FloorsOfSum(Get(midway.accrued, supplier) - Get(s.accrued, supplier), Earned(balance, s.index, from),
                Get(twice.accrued, supplier) - Get(midway.accrued, supplier), Earned(balance, u.index, s.index),
                Get(once.accrued, supplier) - Get(s.accrued, supplier), DOUBLE_SCALE);
  }

  lemma EarnedInParts(balance: int, from: int, mid: int, end: int)
    ensures Earned(balance, mid, from) + Earned(balance, end, mid) == Earned(balance, end, from)
  {
  }
}
