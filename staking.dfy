/**
 * The staking contract: users lock tokens for a number of blocks, earn a
 * reward per block shared out by the current total stake, pay a penalty on
 * early withdrawal and get a governance weight that grows with the remaining
 * lock.
 *
 * The per-user stake, unlock block and last-reward block live in the keyed
 * store; `totalStaked` is a field of the contract. Token custody, transfers
 * and reward minting are placeholders in the contract and are not modelled.
 */
module Staking {
  import opened Ledger

  const MIN_STAKE_AMOUNT: nat := 1000
  const REWARD_RATE_PER_BLOCK: nat := 100
  const EARLY_WITHDRAWAL_PENALTY_BPS: nat := 1000
  const BPS_DENOMINATOR: nat := 10000

  // Lock periods, in blocks.
  const SHORT_LOCK_PERIOD: nat := 144
  const MEDIUM_LOCK_PERIOD: nat := 1008
  const LONG_LOCK_PERIOD: nat := 4320

  datatype StakeError =
    | AmountBelowMinimum
    | LockPeriodTooShort
    | InsufficientStake

  /** `getUserPointer`: the slot of one field of one staker. */
  function UserPointer(user: Address, field: string): Key
  {
    Key("staking", None, Some(user), field)
  }

  // ---------------------------------------------------------------------
  // Rewards, penalty and voting weight
  // ---------------------------------------------------------------------

  /**
   * `calculatePendingRewards` on the values it reads: nothing without a
   * stake; otherwise the stake's part, out of the current total stake, of
   * the reward rate over the blocks since the last claim, and nothing when
   * the total stake is 0. The block difference and both products are
   * unchecked u256 operations, so each wraps around.
   */
  function PendingRewards(stake: nat, lastRewardBlock: nat, currentBlock: nat, totalStaked: nat): (reward: nat)
    ensures reward < U256_LIMIT
  {
    if stake == 0 then 0
    else
      var blocks := Wrap(currentBlock - lastRewardBlock);
      var totalRewards := Wrap(Wrap(stake * blocks) * REWARD_RATE_PER_BLOCK);
      if totalStaked > 0 then
        MulMonotone(1, totalStaked, totalRewards);
        DivBelow(totalRewards, totalStaked, totalRewards);
        totalRewards / totalStaked
      else 0
  }

  /**
   * The reward formula does not wrap: the current block is not before the
   * last claim, and the product of stake, blocks and rate fits in 256 bits.
   */
  predicate RewardExact(stake: nat, lastRewardBlock: nat, currentBlock: nat)
  {
    lastRewardBlock <= currentBlock && stake * (currentBlock - lastRewardBlock) * REWARD_RATE_PER_BLOCK < U256_LIMIT
  }

  /** Where nothing wraps, the reward is the exact product divided by the total stake. */
  lemma RewardUnwrapped(stake: nat, lastRewardBlock: nat, currentBlock: nat, totalStaked: nat)
    requires stake > 0 && RewardExact(stake, lastRewardBlock, currentBlock)
    ensures PendingRewards(stake, lastRewardBlock, currentBlock, totalStaked)
         == if totalStaked > 0 then stake * (currentBlock - lastRewardBlock) * REWARD_RATE_PER_BLOCK / totalStaked else 0
  {
    var blocks: nat := currentBlock - lastRewardBlock;
    var product: nat := stake * blocks;
    MulMonotone(1, stake, blocks);
    MulMonotone(1, REWARD_RATE_PER_BLOCK, product);
    assert Wrap(blocks) == blocks;
    assert Wrap(product) == product;
    assert Wrap(product * REWARD_RATE_PER_BLOCK) == product * REWARD_RATE_PER_BLOCK;
  }

  /**
   * A stake that is part of the total stake earns, where nothing wraps, at
   * most the full reward rate over the blocks since the last claim.
   */
  lemma RewardBounded(stake: nat, lastRewardBlock: nat, currentBlock: nat, totalStaked: nat)
    requires stake > 0 ==> RewardExact(stake, lastRewardBlock, currentBlock)
    requires stake <= totalStaked
    ensures stake > 0 ==>
      PendingRewards(stake, lastRewardBlock, currentBlock, totalStaked) <= (currentBlock - lastRewardBlock) * REWARD_RATE_PER_BLOCK
  {
    if stake > 0 {
      RewardUnwrapped(stake, lastRewardBlock, currentBlock, totalStaked);
      var blocks := (currentBlock - lastRewardBlock) * REWARD_RATE_PER_BLOCK;
      assert stake * (currentBlock - lastRewardBlock) * REWARD_RATE_PER_BLOCK == stake * blocks;
      MulMonotone(stake, totalStaked, blocks);
      DivBelow(stake * blocks, totalStaked, blocks);
    }
  }

  /** In the block of the last claim nothing is pending, whatever the stake. */
  lemma NoRewardInSameBlock(stake: nat, block: nat, totalStaked: nat)
    ensures PendingRewards(stake, block, block, totalStaked) == 0
  {
    if stake > 0 {
      assert Wrap(block - block) == 0;
      assert Wrap(stake * 0) == 0;
    }
  }

  /** With a stake of 200 out of 1000, ten blocks earn 200. */
  lemma RewardExample()
    ensures PendingRewards(200, 0, 10, 1000) == 200
    ensures PendingRewards(0, 5, 10, 1000) == 0
    ensures PendingRewards(200, 0, 10, 0) == 0
  {
    RewardUnwrapped(200, 0, 10, 1000);
  }

  /**
   * Wrap-around: a current block one before the last claim counts as
   * 2^256 - 1 blocks, and a stake of 2^255 over two blocks earns nothing.
   */
  lemma RewardWrapExamples()
    ensures PendingRewards(1, 1, 0, 1) == U256_LIMIT - REWARD_RATE_PER_BLOCK
    ensures PendingRewards(U256_LIMIT / 2, 0, 2, U256_LIMIT / 2) == 0
  {
    assert Wrap(0 - 1) == U256_LIMIT - 1;
    assert Wrap(1 * (U256_LIMIT - 1)) == U256_LIMIT - 1;
    assert (U256_LIMIT - 1) * REWARD_RATE_PER_BLOCK == 99 * U256_LIMIT + (U256_LIMIT - REWARD_RATE_PER_BLOCK);
    assert Wrap(2 - 0) == 2;
    assert U256_LIMIT / 2 * 2 == U256_LIMIT;
  }

  /** The early-withdrawal penalty: 10 % of the amount, rounded down. */
  function Penalty(amount: nat): (penalty: nat)
    ensures penalty * 10 <= amount < (penalty + 1) * 10
  {
    amount * EARLY_WITHDRAWAL_PENALTY_BPS / BPS_DENOMINATOR
  }

  /** The amount a withdrawal pays out: the full amount, less the penalty when early. */
  function WithdrawAmount(amount: nat, early: bool): nat
  {
    if early then amount - Penalty(amount) else amount
  }

  /** An early withdrawal keeps at least 90 % of the amount; a late one keeps all of it. */
  lemma WithdrawAmountBounds(amount: nat, early: bool)
    ensures WithdrawAmount(amount, early) <= amount
    ensures WithdrawAmount(amount, early) * 10 >= amount * 9
    ensures !early ==> WithdrawAmount(amount, early) == amount
  {
  }

  lemma WithdrawAmountExample()
    ensures WithdrawAmount(500, true) == 450 && WithdrawAmount(500, false) == 500
    ensures WithdrawAmount(9, true) == 9
  {
  }

  /** The lock bonus of `getVotingWeight` in basis points, by remaining lock blocks. */
  function Multiplier(remainingLockBlocks: nat): nat
  {
    if remainingLockBlocks >= LONG_LOCK_PERIOD then 20000
    else if remainingLockBlocks >= MEDIUM_LOCK_PERIOD then 15000
    else if remainingLockBlocks >= SHORT_LOCK_PERIOD then 12500
    else 10000
  }

  /** The weight of a stake with the given remaining lock; the product is an unchecked u256 `mul`. */
  function LockedWeight(stake: nat, remainingLockBlocks: nat): nat
  {
    Wrap(stake * Multiplier(remainingLockBlocks)) / BPS_DENOMINATOR
  }

  /** The largest weight product, the stake times 2x, fits in 256 bits. */
  predicate WeightExact(stake: nat)
  {
    stake * (2 * BPS_DENOMINATOR) < U256_LIMIT
  }

  /** `getVotingWeight`: the bare stake once unlocked, else the stake scaled by the lock bonus. */
  function VotingWeight(stake: nat, unlockBlock: nat, currentBlock: nat): nat
  {
    if currentBlock >= unlockBlock then stake
    else LockedWeight(stake, unlockBlock - currentBlock)
  }

  /** The multiplier lies between 1x and 2x and grows with the remaining lock. */
  lemma MultiplierBounds(r1: nat, r2: nat)
    ensures BPS_DENOMINATOR <= Multiplier(r1) <= 2 * BPS_DENOMINATOR
    ensures r1 <= r2 ==> Multiplier(r1) <= Multiplier(r2)
  {
  }

  /** An unlocked stake weighs what a stake with no remaining lock does, where the 1x product fits. */
  lemma UnlockedIsNoLock(stake: nat, unlockBlock: nat, currentBlock: nat)
    requires stake * BPS_DENOMINATOR < U256_LIMIT
    ensures VotingWeight(stake, unlockBlock, currentBlock)
         == LockedWeight(stake, if currentBlock >= unlockBlock then 0 else unlockBlock - currentBlock)
  {
  }

  /**
   * Where the products fit, the weight lies between the stake and twice the
   * stake; once unlocked it is the stake, whatever its size.
   */
  lemma WeightBounds(stake: nat, unlockBlock: nat, currentBlock: nat)
    ensures WeightExact(stake) ==> stake <= VotingWeight(stake, unlockBlock, currentBlock) <= 2 * stake
    ensures currentBlock >= unlockBlock ==> VotingWeight(stake, unlockBlock, currentBlock) == stake
  {
    if currentBlock < unlockBlock && WeightExact(stake) {
      var mult := Multiplier(unlockBlock - currentBlock);
      MultiplierBounds(unlockBlock - currentBlock, 0);
      MulMonotone(mult, 2 * BPS_DENOMINATOR, stake);
      assert Wrap(stake * mult) == stake * mult;
      MulMonotone(BPS_DENOMINATOR, mult, stake);
      DivLowerBound(stake * mult, BPS_DENOMINATOR, stake);
      DivBelow(stake * mult, BPS_DENOMINATOR, 2 * stake);
    }
  }

  /** Where the products fit, more remaining lock never means less weight. */
  lemma WeightMonotone(stake: nat, r1: nat, r2: nat)
    requires r1 <= r2 && WeightExact(stake)
    ensures LockedWeight(stake, r1) <= LockedWeight(stake, r2)
  {
    MultiplierBounds(r1, r2);
    MultiplierBounds(r2, 0);
    MulMonotone(Multiplier(r1), Multiplier(r2), stake);
    MulMonotone(Multiplier(r2), 2 * BPS_DENOMINATOR, stake);
    assert Wrap(stake * Multiplier(r1)) == stake * Multiplier(r1);
    assert Wrap(stake * Multiplier(r2)) == stake * Multiplier(r2);
    var x1, x2 := stake * Multiplier(r1), stake * Multiplier(r2);
    DivLowerBound(x2, BPS_DENOMINATOR, x1 / BPS_DENOMINATOR);
  }

  lemma WeightExamples()
    ensures VotingWeight(1000, 4320, 0) == 2000
    ensures VotingWeight(1000, 1008, 0) == 1500
    ensures VotingWeight(1000, 144, 0) == 1250
    ensures VotingWeight(1000, 143, 0) == 1000
    ensures VotingWeight(1000, 100, 100) == 1000
  {
  }

  /** Wrap-around: a stake of 2^255 locked for the long period weighs 0. */
  lemma WeightWrapExample()
    ensures VotingWeight(U256_LIMIT / 2, LONG_LOCK_PERIOD, 0) == 0
    ensures !WeightExact(U256_LIMIT / 2)
  {
    assert U256_LIMIT / 2 * 20000 == 10000 * U256_LIMIT;
  }

  // ---------------------------------------------------------------------
  // State transitions on the store
  // ---------------------------------------------------------------------

  function StakeOf(m: Store, user: Address): nat
  {
    Read(m, UserPointer(user, "stake"))
  }

  function UnlockOf(m: Store, user: Address): nat
  {
    Read(m, UserPointer(user, "unlock"))
  }

  function LastRewardOf(m: Store, user: Address): nat
  {
    Read(m, UserPointer(user, "lastReward"))
  }

  function Rewards(m: Store, totalStaked: nat, user: Address, currentBlock: nat): nat
  {
    PendingRewards(StakeOf(m, user), LastRewardOf(m, user), currentBlock, totalStaked)
  }

  /**
   * The slots `stake` writes: the stake grows by the amount, the unlock block
   * is reset to `now + lockPeriod` and the last-reward block to `now`.
   */
  function Staked(m: Store, user: Address, amount: nat, lockPeriod: nat, now: nat): Store
  {
    m[UserPointer(user, "stake") := StakeOf(m, user) + amount]
     [UserPointer(user, "unlock") := now + lockPeriod]
     [UserPointer(user, "lastReward") := now]
  }

  /** The slot `claimRewards` writes: the last-reward block, only when there is a reward. */
  function RewardsClaimed(m: Store, totalStaked: nat, user: Address, now: nat): Store
  {
    if Rewards(m, totalStaked, user, now) > 0 then m[UserPointer(user, "lastReward") := now] else m
  }

  /**
   * The slots `withdraw` writes: first those of `claimRewards`, computed with
   * the stake and total stake from before the withdrawal, then the stake
   * less the amount.
   */
  function Withdrawn(m: Store, totalStaked: nat, user: Address, amount: nat, now: nat): Store
    requires amount <= StakeOf(m, user)
  {
    RewardsClaimed(m, totalStaked, user, now)[UserPointer(user, "stake") := StakeOf(m, user) - amount]
  }

  /**
   * `stake` adds to the stake but resets the lock, so it may shorten it, and
   * resets the last-reward block, so the reward pending before it is lost.
   */
  lemma StakedReads(m: Store, totalStaked: nat, user: Address, amount: nat, lockPeriod: nat, now: nat)
    ensures var m' := Staked(m, user, amount, lockPeriod, now);
      && StakeOf(m', user) == StakeOf(m, user) + amount
      && UnlockOf(m', user) == now + lockPeriod
      && Rewards(m', totalStaked, user, now) == 0
      && (forall u: Address :: u != user ==>
            StakeOf(m', u) == StakeOf(m, u) && UnlockOf(m', u) == UnlockOf(m, u) && LastRewardOf(m', u) == LastRewardOf(m, u))
  {
    NoRewardInSameBlock(StakeOf(m, user) + amount, now, totalStaked);
  }

  /**
   * `claimRewards` leaves nothing to claim in the same block, and changes
   * neither a stake nor an unlock block.
   */
  lemma ClaimedReads(m: Store, totalStaked: nat, user: Address, now: nat)
    ensures var m' := RewardsClaimed(m, totalStaked, user, now);
      && Rewards(m', totalStaked, user, now) == 0
      && (forall u: Address :: StakeOf(m', u) == StakeOf(m, u) && UnlockOf(m', u) == UnlockOf(m, u))
      && (forall u: Address :: u != user ==> LastRewardOf(m', u) == LastRewardOf(m, u))
  {
    NoRewardInSameBlock(StakeOf(m, user), now, totalStaked);
  }

  /**
   * `withdraw` claims the reward due on the stake from before the withdrawal
   * and then takes the whole amount off the stake, keeping the unlock block.
   */
  lemma WithdrawnReads(m: Store, totalStaked: nat, user: Address, amount: nat, now: nat)
    requires amount <= StakeOf(m, user)
    ensures var m' := Withdrawn(m, totalStaked, user, amount, now);
      && StakeOf(m', user) == StakeOf(m, user) - amount
      && UnlockOf(m', user) == UnlockOf(m, user)
      && LastRewardOf(m', user) == (if Rewards(m, totalStaked, user, now) > 0 then now else LastRewardOf(m, user))
      && (forall u: Address :: u != user ==>
            StakeOf(m', u) == StakeOf(m, u) && UnlockOf(m', u) == UnlockOf(m, u) && LastRewardOf(m', u) == LastRewardOf(m, u))
  {
  }

  // ---------------------------------------------------------------------
  // The total stake is the sum of the stakes
  // ---------------------------------------------------------------------

  ghost predicate IsStakeSlot(k: Key)
  {
    k.tag == "staking" && k.id.None? && k.addr.Some? && k.field == "stake"
  }

  /** The stake slots written so far; every other user's stake reads 0. */
  ghost function StakeSlots(m: Store): set<Key>
  {
    set k | k in m && IsStakeSlot(k)
  }

  ghost function SumReads(m: Store, keys: set<Key>): nat
    decreases keys
  {
    if keys == {} then 0 else var k :| k in keys; Read(m, k) + SumReads(m, keys - {k})
  }

  /** The sum of all users' stakes. */
  ghost function TotalStakes(m: Store): nat
  {
    SumReads(m, StakeSlots(m))
  }

  /** The sum over a set is any one member plus the sum over the rest. */
  lemma {:induction false} SumRemove(m: Store, keys: set<Key>, k: Key)
    requires k in keys
    ensures SumReads(m, keys) == Read(m, k) + SumReads(m, keys - {k})
    decreases keys
  {
    var j :| j in keys && SumReads(m, keys) == Read(m, j) + SumReads(m, keys - {j});
    if j != k {
      SumRemove(m, keys - {j}, k);
      SumRemove(m, keys - {k}, j);
      assert keys - {j} - {k} == keys - {k} - {j};
    }
  }

  /** The sum only depends on the slots summed. */
  lemma {:induction false} SumFrame(m: Store, m': Store, keys: set<Key>)
    requires forall k :: k in keys ==> Read(m, k) == Read(m', k)
    ensures SumReads(m, keys) == SumReads(m', keys)
    decreases keys
  {
    if keys != {} {
      var j :| j in keys;
      SumRemove(m, keys, j);
      SumRemove(m', keys, j);
      SumFrame(m, m', keys - {j});
    }
  }

  /** Writing one user's stake moves the total by the difference. */
  lemma TotalAfterStakeWrite(m: Store, user: Address, v: nat)
    ensures TotalStakes(m[UserPointer(user, "stake") := v]) + StakeOf(m, user) == TotalStakes(m) + v
  {
    var k0 := UserPointer(user, "stake");
    var m' := m[k0 := v];
    var s, s' := StakeSlots(m), StakeSlots(m');
    assert s' == s + {k0};
    SumRemove(m', s', k0);
    assert s' - {k0} == s - {k0};
    SumFrame(m, m', s - {k0});
    if k0 in s {
      SumRemove(m, s, k0);
    } else {
      assert s - {k0} == s;
    }
  }

  /** Writing a slot other than a stake leaves the total alone. */
  lemma TotalAfterOtherWrite(m: Store, k: Key, v: nat)
    requires !IsStakeSlot(k)
    ensures TotalStakes(m[k := v]) == TotalStakes(m)
  {
    assert StakeSlots(m[k := v]) == StakeSlots(m);
    SumFrame(m, m[k := v], StakeSlots(m));
  }

  /** No single stake exceeds the sum of all stakes. */
  lemma StakeBelowTotal(m: Store, user: Address)
    ensures StakeOf(m, user) <= TotalStakes(m)
  {
    var k0 := UserPointer(user, "stake");
    if k0 in StakeSlots(m) {
      SumRemove(m, StakeSlots(m), k0);
    }
  }

  /** `stake` adds the amount to the sum of the stakes, as it does to `totalStaked`. */
  lemma StakeKeepsTotal(m: Store, user: Address, amount: nat, lockPeriod: nat, now: nat)
    ensures TotalStakes(Staked(m, user, amount, lockPeriod, now)) == TotalStakes(m) + amount
  {
    var m1 := m[UserPointer(user, "stake") := StakeOf(m, user) + amount];
    var m2 := m1[UserPointer(user, "unlock") := now + lockPeriod];
    TotalAfterStakeWrite(m, user, StakeOf(m, user) + amount);
    TotalAfterOtherWrite(m1, UserPointer(user, "unlock"), now + lockPeriod);
    TotalAfterOtherWrite(m2, UserPointer(user, "lastReward"), now);
  }

  /** `claimRewards` keeps the sum of the stakes. */
  lemma ClaimKeepsTotal(m: Store, totalStaked: nat, user: Address, now: nat)
    ensures TotalStakes(RewardsClaimed(m, totalStaked, user, now)) == TotalStakes(m)
  {
    TotalAfterOtherWrite(m, UserPointer(user, "lastReward"), now);
  }

  /** `withdraw` takes the amount off the sum of the stakes, as it does off `totalStaked`. */
  lemma WithdrawKeepsTotal(m: Store, totalStaked: nat, user: Address, amount: nat, now: nat)
    requires amount <= StakeOf(m, user)
    ensures amount <= TotalStakes(m)
    ensures TotalStakes(Withdrawn(m, totalStaked, user, amount, now)) == TotalStakes(m) - amount
  {
    var m1 := RewardsClaimed(m, totalStaked, user, now);
    StakeBelowTotal(m, user);
    ClaimKeepsTotal(m, totalStaked, user, now);
    TotalAfterStakeWrite(m1, user, StakeOf(m, user) - amount);
  }

  /**
   * Where `totalStaked` is the sum of the stakes, every user's reward is at
   * most the full reward rate over the blocks since the last claim.
   */
  lemma RewardBoundedByRate(m: Store, user: Address, currentBlock: nat)
    requires StakeOf(m, user) > 0 ==> RewardExact(StakeOf(m, user), LastRewardOf(m, user), currentBlock)
    ensures StakeOf(m, user) > 0 ==>
      Rewards(m, TotalStakes(m), user, currentBlock) <= (currentBlock - LastRewardOf(m, user)) * REWARD_RATE_PER_BLOCK
  {
    StakeBelowTotal(m, user);
    RewardBounded(StakeOf(m, user), LastRewardOf(m, user), currentBlock, TotalStakes(m));
  }

  // ---------------------------------------------------------------------
  // The contract
  // ---------------------------------------------------------------------

  class StakingContract {
    var store: Store
    var totalStaked: nat

    /** `totalStaked` is the sum of all users' stakes. */
    ghost predicate Valid()
      reads this
    {
      totalStaked == TotalStakes(store)
    }

    constructor ()
      ensures Valid() && store == map[] && totalStaked == 0
    {
      store := map[];
      totalStaked := 0;
    }

    // Getters: `getUserStake` (also public as `getUserStakedAmount`),
    // `getUserUnlockBlock` (public as `getUserUnlock`), `getUserLastRewardBlock`.

    function UserStakedAmount(user: Address): nat
      reads this
    {
      StakeOf(store, user)
    }

    function UserUnlock(user: Address): nat
      reads this
    {
      UnlockOf(store, user)
    }

    function UserLastRewardBlock(user: Address): nat
      reads this
    {
      LastRewardOf(store, user)
    }

    /**
     * `calculatePendingRewards`: a u256; nothing without a stake or in the
     * block of the last claim; and, while `totalStaked` is the sum of the
     * stakes and the formula does not wrap, at most the full reward rate
     * over the blocks since the last claim.
     */
    function CalculatePendingRewards(staker: Address, currentBlock: U256): (rewards: nat)
      reads this
      ensures rewards < U256_LIMIT
      ensures UserStakedAmount(staker) == 0 || currentBlock == UserLastRewardBlock(staker) ==> rewards == 0
      ensures Valid() && UserStakedAmount(staker) > 0
              && RewardExact(UserStakedAmount(staker), UserLastRewardBlock(staker), currentBlock) ==>
        rewards <= (currentBlock - UserLastRewardBlock(staker)) * REWARD_RATE_PER_BLOCK
    {
      NoRewardInSameBlock(UserStakedAmount(staker), currentBlock, totalStaked);
      if StakeOf(store, staker) > 0 && RewardExact(StakeOf(store, staker), LastRewardOf(store, staker), currentBlock) then
        RewardBoundedByRate(store, staker, currentBlock);
        Rewards(store, totalStaked, staker, currentBlock)
      else
        Rewards(store, totalStaked, staker, currentBlock)
    }

    /**
     * `getVotingWeight` at block `currentBlock`: the stake once unlocked;
     * between the stake and twice the stake while the weight product fits
     * in 256 bits.
     */
    function GetVotingWeight(staker: Address, currentBlock: U64): (weight: nat)
      reads this
      ensures currentBlock >= UserUnlock(staker) ==> weight == UserStakedAmount(staker)
      ensures WeightExact(UserStakedAmount(staker)) ==>
        UserStakedAmount(staker) <= weight <= 2 * UserStakedAmount(staker)
    {
      WeightBounds(UserStakedAmount(staker), UserUnlock(staker), currentBlock);
      VotingWeight(UserStakedAmount(staker), UserUnlock(staker), currentBlock)
    }

    // Setters: each writes one slot of the user.

    method SetUserStake(user: Address, amount: nat)
      modifies this`store
      ensures store == old(store)[UserPointer(user, "stake") := amount]
    {
      store := store[UserPointer(user, "stake") := amount];
    }

    method SetUserUnlockBlock(user: Address, block: nat)
      modifies this`store
      ensures store == old(store)[UserPointer(user, "unlock") := block]
    {
      store := store[UserPointer(user, "unlock") := block];
    }

    method SetUserLastRewardBlock(user: Address, block: nat)
      modifies this`store
      ensures store == old(store)[UserPointer(user, "lastReward") := block]
    {
      store := store[UserPointer(user, "lastReward") := block];
    }

    /**
     * `stake`: at least the minimum amount, for at least the short lock
     * period. Adds to the stake and to `totalStaked`.
     */
    method Stake(sender: Address, now: U64, amount: U256, lockPeriod: U256) returns (r: Result<(), StakeError>)
      requires UserStakedAmount(sender) + amount < U256_LIMIT && totalStaked + amount < U256_LIMIT
      requires now + lockPeriod < U256_LIMIT
      modifies this
      ensures r == if amount < MIN_STAKE_AMOUNT then Err(AmountBelowMinimum)
                   else if lockPeriod < SHORT_LOCK_PERIOD then Err(LockPeriodTooShort)
                   else Ok(())
      ensures r.Ok? ==> (store == Staked(old(store), sender, amount, lockPeriod, now)
                         && totalStaked == old(totalStaked) + amount)
      ensures r.Err? ==> store == old(store) && totalStaked == old(totalStaked)
      ensures old(Valid()) ==> Valid()
    {
      if amount < MIN_STAKE_AMOUNT {
        return Err(AmountBelowMinimum);
      }
      if lockPeriod < SHORT_LOCK_PERIOD {
        return Err(LockPeriodTooShort);
      }
      StakeKeepsTotal(store, sender, amount, lockPeriod, now);
      var currentStake := UserStakedAmount(sender);
      var newStake := currentStake + amount;
      var unlockBlock := now + lockPeriod;
      SetUserStake(sender, newStake);
      SetUserUnlockBlock(sender, unlockBlock);
      SetUserLastRewardBlock(sender, now);
      totalStaked := totalStaked + amount;
      r := Ok(());
    }

    /**
     * `claimRewards`: returns the pending reward and, when it is nonzero,
     * moves the last-reward block to `now`.
     */
    method ClaimRewards(sender: Address, now: U64) returns (rewards: nat)
      modifies this`store
      ensures rewards == old(CalculatePendingRewards(sender, now))
      ensures store == RewardsClaimed(old(store), totalStaked, sender, now)
      ensures rewards < U256_LIMIT
      ensures old(Valid()) ==> Valid()
    {
      rewards := CalculatePendingRewards(sender, now);
      ClaimKeepsTotal(store, totalStaked, sender, now);
      if rewards > 0 {
        SetUserLastRewardBlock(sender, now);
      }
    }

    /**
     * `withdraw`: at most the stake; claims the pending reward first, then
     * takes the whole amount off the stake and `totalStaked`. The result is
     * the amount the transfer would pay, less the penalty before the unlock
     * block.
     */
    method Withdraw(sender: Address, now: U64, amount: U256) returns (r: Result<nat, StakeError>)
      requires amount <= UserStakedAmount(sender) ==> amount <= totalStaked
      requires now < UserUnlock(sender) ==> amount * EARLY_WITHDRAWAL_PENALTY_BPS < U256_LIMIT
      modifies this
      ensures r == if old(UserStakedAmount(sender)) < amount then Err(InsufficientStake)
                   else Ok(WithdrawAmount(amount, now < old(UserUnlock(sender))))
      ensures r.Ok? ==> (store == Withdrawn(old(store), old(totalStaked), sender, amount, now)
                         && totalStaked == old(totalStaked) - amount)
      ensures r.Err? ==> store == old(store) && totalStaked == old(totalStaked)
      ensures old(Valid()) ==> Valid()
    {
      var stakedAmount := UserStakedAmount(sender);
      if stakedAmount < amount {
        return Err(InsufficientStake);
      }
      var unlockBlock := UserUnlock(sender);
      var isEarlyWithdrawal := now < unlockBlock;
      var withdrawAmount := amount;
      if isEarlyWithdrawal {
        var penalty := amount * EARLY_WITHDRAWAL_PENALTY_BPS / BPS_DENOMINATOR;
        assert penalty == Penalty(amount);
        withdrawAmount := amount - penalty;
      }
      WithdrawKeepsTotal(store, totalStaked, sender, amount, now);
      var _ := ClaimRewards(sender, now);
      var newStake := stakedAmount - amount;
      SetUserStake(sender, newStake);
      totalStaked := totalStaked - amount;
      r := Ok(withdrawAmount);
    }
  }
}
