/** The rewards distributor's supply side for one market, its index and accounts updated in place. */
module RewardsDistributor {
  import opened Evm
  import opened ExponentialNoError
  import opened Sums
  import R = SupplierRewards
  import V = VToken

  class RewardsDistributor {
    const vToken: V.VToken
    var supplyIndex: nat
    var supplySlot: nat
    var lastRewardingSlot: nat
    var borrowLastRewardingSlot: nat
    var rewardTokenSupplySpeed: nat
    var rewardTokenSupplierIndex: map<Address, nat>
    var rewardTokenAccrued: map<Address, nat>
    var granted: map<Address, nat>
    /** The current slot, and what the speeds have released up to it; both move with time, not with calls. */
    var now: nat
    ghost var released: nat

    ghost function State(): R.State
      reads this, vToken
    {
      R.State(vToken.State(), supplyIndex, supplySlot, lastRewardingSlot, borrowLastRewardingSlot,
              rewardTokenSupplySpeed, rewardTokenSupplierIndex, rewardTokenAccrued, granted, now, released)
    }

    constructor (vToken: V.VToken, now: nat)
      ensures this.vToken == vToken && State() == R.Initialized(vToken.State(), now)
    {
      this.vToken, this.now, released := vToken, now, 0;
      supplyIndex, supplySlot, rewardTokenSupplySpeed := R.INITIAL_INDEX, now, 0;
      lastRewardingSlot, borrowLastRewardingSlot := 0, 0;
      rewardTokenSupplierIndex, rewardTokenAccrued, granted := map[], map[], map[];
    }

    method UpdateRewardTokenSupplyIndex() returns (r: Result<()>)
      modifies this`supplyIndex, this`supplySlot
      ensures Carried(R.UpdateSupplyIndex(old(State())), old(State()), State(), r)
    {
      var slot := now;
      if lastRewardingSlot > 0 && slot > lastRewardingSlot { slot := lastRewardingSlot; }
      var deltaSlots :- Sub(slot, supplySlot);
      if deltaSlots > 0 && rewardTokenSupplySpeed > 0 {
        var supplyTokens := vToken.totalSupply;
        var accruedSinceUpdate :- Mul(deltaSlots, rewardTokenSupplySpeed);
        var ratio := 0;
        if supplyTokens > 0 { ratio :- Fraction(accruedSinceUpdate, supplyTokens); }
        var index :- Add(supplyIndex, ratio);
        var _ :- Require(index <= R.MAX_UINT224, IndexExceeds224Bits);
        supplyIndex := index;
        supplySlot := slot;
      } else if deltaSlots > 0 {
        supplySlot := slot;
      }
      r := Ok(());
    }

    method DistributeSupplierRewardToken(supplier: Address) returns (r: Result<()>)
      modifies this`rewardTokenSupplierIndex, this`rewardTokenAccrued
      ensures Carried(R.Distribute(old(State()), supplier), old(State()), State(), r)
    {
      var supplierIndex := Get(rewardTokenSupplierIndex, supplier);
      if supplierIndex == 0 && supplyIndex >= R.INITIAL_INDEX { supplierIndex := R.INITIAL_INDEX; }
      var deltaIndex :- Sub(supplyIndex, supplierIndex);
      var supplierTokens := Get(vToken.accountTokens, supplier);
      var supplierDelta :- MulDouble(supplierTokens, deltaIndex);
      var supplierAccrued :- Add(Get(rewardTokenAccrued, supplier), supplierDelta);
      rewardTokenSupplierIndex := rewardTokenSupplierIndex[supplier := supplyIndex];
      rewardTokenAccrued := rewardTokenAccrued[supplier := supplierAccrued];
      r := Ok(());
    }

    method SetRewardTokenSpeed(supplySpeed: nat) returns (r: Result<()>)
      modifies this`supplyIndex, this`supplySlot, this`rewardTokenSupplySpeed
      ensures Carried(R.SetSpeed(old(State()), supplySpeed), old(State()), State(), r)
    {
      if rewardTokenSupplySpeed != supplySpeed {
        r := UpdateRewardTokenSupplyIndex();
        if r.Revert? { return; }
        rewardTokenSupplySpeed := supplySpeed;
      }
      r := Ok(());
    }

    method SetLastRewardingSlot(supplyLast: nat, borrowLast: nat) returns (r: Result<()>)
      modifies this`lastRewardingSlot, this`borrowLastRewardingSlot
      ensures Carried(R.SetLastRewardingSlot(old(State()), supplyLast, borrowLast), old(State()), State(), r)
    {
      var _ :- Require(supplyLast > now, RewardingSlotInPast);
      var _ :- Require(borrowLast > now, RewardingSlotInPast);
      var _ :- Require(lastRewardingSlot == 0 || lastRewardingSlot > now, RewardsLocked);
      var _ :- Require(borrowLastRewardingSlot == 0 || borrowLastRewardingSlot > now, RewardsLocked);
      if lastRewardingSlot != supplyLast { lastRewardingSlot := supplyLast; }
      if borrowLastRewardingSlot != borrowLast { borrowLastRewardingSlot := borrowLast; }
      r := Ok(());
    }

    method GrantRewardToken(holder: Address, available: nat)
      modifies this`rewardTokenAccrued, this`granted
      ensures State() == R.Grant(old(State()), holder, available)
    {
      var amount := Get(rewardTokenAccrued, holder);
      if amount > 0 && amount <= available {
        rewardTokenAccrued := rewardTokenAccrued[holder := 0];
        granted := granted[holder := Get(granted, holder) + amount];
      }
    }

    /** `available` is the distributor's own balance of the reward token. */
    method ClaimRewardToken(holder: Address, available: nat) returns (r: Result<()>)
      modifies this`supplyIndex, this`supplySlot, this`rewardTokenSupplierIndex, this`rewardTokenAccrued, this`granted
      ensures Carried(R.ClaimRewards(old(State()), holder, available), old(State()), State(), r)
    {
      R.SettleSingle(State(), holder);
      var index, slot := supplyIndex, supplySlot;
      r := UpdateRewardTokenSupplyIndex();
      if r.Revert? { return; }
      r := DistributeSupplierRewardToken(holder);
      if r.Revert? {
        supplyIndex, supplySlot := index, slot;
        return;
      }
      GrantRewardToken(holder, available);
    }
  }
}
