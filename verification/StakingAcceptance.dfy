/**
 Exactly when deposits, rewards, claims and withdrawals are accepted, and what claims pay.
 */
module StakingAcceptance {
  import opened Base
  import opened StakingInfos
  import opened Epochs
  import opened Queue
  import opened Drift
  import opened StakingState
  import opened StakingBooks
  import opened StakingSteps
  import opened StakingInvariants
  import opened StakingRuns
  import opened StakingTheorems
  import opened StakingShares
  import opened StakingEffects

  /** A native position has room for a deposit now: it neither divides by zero nor leaves a u128. */
  ghost predicate NativeRoom(b: Book<AccountId>, who: AccountId, now: BlockNumber, amount: Balance) {
    && PoolAmount(b) + amount < U128_LIMIT
    && Fits(b.pool, now, amount) && Fits(Lookup(b.users, who), now, amount)
  }

  lemma NativeDepositIff(s: State, who: AccountId, amount: Balance)
    requires Conserved(Deposited(s)) && Begun(s)
    ensures Deposit(s.natives, who, s.now, amount).Some? <==> NativeRoom(s.natives, who, s.now, amount)
  {
    NativesBalanced(s);
    if who in s.natives.users {
      UserCovered(s.natives, who);
    }
    if PoolAmount(s.natives) + amount < U128_LIMIT {
      AddFitsIff(s.natives.pool, s.now, amount);
      AddFitsIff(Lookup(s.natives.users, who), s.now, amount);
    }
  }

  /** The user can pay the escrow this much. */
  ghost predicate CanPay(cfg: Config, asset: AssetId, s: State, who: AccountId, amount: Balance, refused: Refused) {
    && (who, cfg.escrow) !in refused
    && amount <= GetOrZero(s.tokens.assets, (asset, who))
    && EscrowBalance(cfg, asset, s.tokens) + amount < U128_LIMIT
  }

  /**
   A deposit is accepted exactly for a started pool in which a whole epoch still fits after the setup,
   with room under the cap, native positions that it fits, and tokens that can be paid.
   */
  lemma StakeAcceptedIff(cfg: Config, asset: AssetId, start: int, s: State, origin: Origin, pool: PoolId,
          amount: Balance, refused: Refused)
    requires Invariant(cfg, asset, start, s) && Begun(s) && origin != Signed(cfg.escrow)
    ensures Stake(cfg, s, origin, pool, amount, refused).Ok? <==>
              && origin.Signed? && pool in s.settings
              && TakesDeposits(s.settings[pool], s.now)
              && AmountOf(Deposited(s).pools, pool) + GetOrZero(s.deposits.pendingAmount, pool) + amount
                   <= s.settings[pool].poolCap
              && NativeRoom(s.natives, origin.who, s.now, amount)
              && s.tokens.aiusd.Some? && CanPay(cfg, asset, s, origin.who, amount, refused)
  {
    if origin.Signed? && pool in s.settings && s.settings[pool].startTime < s.now {
      TargetExistsIff(s.settings[pool], s.now);
      assert PoolConserved(Deposited(s), pool);
      NativeDepositIff(s, origin.who, amount);
      if s.tokens.aiusd.Some? {
        EscrowPaidIff(cfg, asset, s, origin.who, amount, refused);
      }
    }
  }

  /** The pool has started, and a whole epoch fits between the end of a setup begun now and its own end. */
  ghost predicate TakesDeposits(setting: PoolSetting, now: BlockNumber) {
    && setting.startTime < now && setting.EndTime().Some? && setting.epochRange > 0
    && now + setting.setupTime + setting.epochRange < setting.EndTime().value
  }

  lemma EscrowPaidIff(cfg: Config, asset: AssetId, s: State, who: AccountId, amount: Balance, refused: Refused)
    requires who != cfg.escrow
    ensures Transfer(s.tokens, asset, who, cfg.escrow, amount, refused).Ok? <==>
              CanPay(cfg, asset, s, who, amount, refused)
  {
  }

  /** A reward is recorded exactly for an epoch that is not over, or for the pool's end, and only once. */
  lemma RewardAcceptedIff(cfg: Config, s: State, origin: Origin, pool: PoolId, epoch: u128, reward: Balance,
          refuses: bool)
    ensures UpdateReward(cfg, s, origin, pool, epoch, reward, refuses).Ok? <==>
              && origin.Root?
              && pool in s.settings && s.settings[pool].epochRange > 0
              && (|| epoch == s.settings[pool].epoch
                  || (epoch < s.settings[pool].epoch
                      && s.now < s.settings[pool].startTime + s.settings[pool].epochRange * (epoch + 1)))
              && s.tokens.aiusd.Some? && !refuses
              && GetOrZero(s.tokens.assets, (s.tokens.aiusd.value, cfg.escrow)) + reward < U128_LIMIT
              && (pool, epoch) !in s.rewards.perEpoch
              && GetOrZero(s.rewards.unclaimed, pool) + reward < U128_LIMIT
  {
    if pool in s.settings && s.settings[pool].epochRange > 0 && epoch < s.settings[pool].epoch {
      IndexAtMostIff(s.settings[pool], epoch, s.now);
    }
  }

  /** A zero numerator is no parts of a positive whole. */
  ghost predicate ZeroOfSomething(cfg: Config) {
    forall q: u128 :: 0 < q ==> cfg.fromRational(0, q) == 0
  }

  /** A weight of zero is paid everything at the pool's own time, and nothing otherwise. */
  lemma ZeroWeightPaysIff(cfg: Config, s: State, who: AccountId, pool: PoolId, until: BlockNumber, refused: Refused)
    returns (reward: Balance)
    requires Conserved(Deposited(s)) && ZeroOfSomething(cfg) && (who, pool) in s.deposits.users
    requires DoStableClaim(cfg, s, who, pool, until, refused).Ok?
    requires SignedWeight(s.deposits.users[(who, pool)], until) == 0
    ensures pool in s.deposits.pools
    ensures StableClaimed(cfg, s, DoStableClaim(cfg, s, who, pool, until, refused).value, who, pool, until, reward)
    ensures reward == if s.deposits.pools[pool].effectiveTime == until then GetOrZero(s.rewards.unclaimed, pool) else 0
  {
    PositionCoveredInState(s, who, pool);
    reward := StableClaimExactly(cfg, s, who, pool, until, refused);
    ZeroTotalIff(s.deposits.pools[pool], s.deposits.users[(who, pool)], until);
    ShareWeighs(s.deposits.pools[pool], s.deposits.users[(who, pool)], until);
    ZeroShareRounds(cfg, SignedWeight(s.deposits.pools[pool], until), GetOrZero(s.rewards.unclaimed, pool), reward);
  }

  lemma ZeroShareRounds(cfg: Config, total: u128, whole: Balance, reward: Balance)
    requires ZeroOfSomething(cfg) && NearestShare(cfg, 0, total, whole, reward)
    ensures reward == if total == 0 then whole else 0
  {
    if 0 < total {
      assert cfg.fromRational(0, total) == 0;
    }
  }

  /** A native weight of zero likewise, from the reward account. */
  lemma ZeroNativeWeightPaysIff(cfg: Config, s: State, who: AccountId, until: BlockNumber, refused: Refused)
    returns (reward: Balance)
    requires Conserved(Deposited(s)) && Begun(s) && ZeroOfSomething(cfg) && who in s.natives.users
    requires DoNativeClaim(cfg, s, who, until, refused).Ok? && SignedWeight(s.natives.users[who], until) == 0
    ensures s.natives.pool.Some?
    ensures NativeClaimed(cfg, s, DoNativeClaim(cfg, s, who, until, refused).value, who, until, reward)
    ensures reward ==
              if s.natives.pool.value.effectiveTime == until then GetOrZero(s.tokens.native, cfg.rewardAccount) else 0
  {
    NativesBalanced(s);
    UserCovered(s.natives, who);
    reward := NativeClaimExactly(cfg, s, who, until, refused);
    var p, u := s.natives.pool.value, s.natives.users[who];
    ZeroTotalIff(p, u, until);
    ShareWeighs(p, u, until);
    ZeroShareRounds(cfg, SignedWeight(p, until), GetOrZero(s.tokens.native, cfg.rewardAccount), reward);
  }

  /** What a stable claim up to `until` would pay; nothing if there is no share to take. */
  ghost function StableReward(cfg: Config, s: State, who: AccountId, pool: PoolId, until: BlockNumber): Balance
    requires pool in s.deposits.pools && (who, pool) in s.deposits.users
  {
    match TakeShare(s.deposits.pools[pool], s.deposits.users[(who, pool)], until)
    case None => 0
    case Some(share) => MulNearest(Parts(cfg, share.weight, share.total), GetOrZero(s.rewards.unclaimed, pool))
  }

  ghost function NativeReward(cfg: Config, s: State, who: AccountId, until: BlockNumber): Balance
    requires s.natives.pool.Some? && who in s.natives.users
  {
    match TakeShare(s.natives.pool.value, s.natives.users[who], until)
    case None => 0
    case Some(share) => MulNearest(Parts(cfg, share.weight, share.total), GetOrZero(s.tokens.native, cfg.rewardAccount))
  }

  /** The token pallet lets the escrow pay `who` this much of the asset. */
  ghost predicate Receives(cfg: Config, asset: AssetId, s: State, who: AccountId, amount: int, refused: Refused) {
    (cfg.escrow, who) !in refused && GetOrZero(s.tokens.assets, (asset, who)) + amount < U128_LIMIT
  }

  /** A user with a position can take its share, and receive it together with `more`. */
  ghost predicate StableClaimable(cfg: Config, asset: AssetId, s: State, who: AccountId, pool: PoolId,
          until: BlockNumber, more: int, refused: Refused)
  {
    (who, pool) in s.deposits.users ==>
      && pool in s.deposits.pools
      && Claimable(s.deposits.pools[pool], s.deposits.users[(who, pool)], until)
      && Receives(cfg, asset, s, who, StableReward(cfg, s, who, pool, until) + more, refused)
  }

  ghost predicate NativeClaimable(cfg: Config, s: State, who: AccountId, until: BlockNumber, refused: Refused) {
    who in s.natives.users ==>
      && s.natives.pool.Some?
      && Claimable(s.natives.pool.value, s.natives.users[who], until)
      && (cfg.rewardAccount, who) !in refused
      && (who == cfg.rewardAccount || GetOrZero(s.tokens.native, who) + NativeReward(cfg, s, who, until) < U128_LIMIT)
  }

  lemma EscrowPaysIff(cfg: Config, asset: AssetId, start: int, s: State, who: AccountId, amount: Balance,
          refused: Refused)
    requires who != cfg.escrow && amount <= EscrowBalance(cfg, asset, s.tokens)
    ensures Transfer(s.tokens, asset, cfg.escrow, who, amount, refused).Ok?
          <==> Receives(cfg, asset, s, who, amount, refused)
  {
  }

  lemma StableClaimAcceptedIff(cfg: Config, asset: AssetId, start: nat, s: State, who: AccountId, pool: PoolId,
          until: BlockNumber, refused: Refused)
    requires Invariant(cfg, asset, start, s) && who != cfg.escrow
    ensures DoStableClaim(cfg, s, who, pool, until, refused).Ok? <==>
              until <= s.now && s.tokens.aiusd.Some? && StableClaimable(cfg, asset, s, who, pool, until, 0, refused)
  {
    if (who, pool) in s.deposits.users {
      PositionCoveredInState(s, who, pool);
      TakeShareSucceedsIff(s.deposits.pools[pool], s.deposits.users[(who, pool)], until);
      EscrowCovers(cfg, asset, start, s, who, pool);
      EscrowPaysIff(cfg, asset, start, s, who, StableReward(cfg, s, who, pool, until), refused);
    }
  }

  /**
   In a state of the invariant a stable claim is accepted exactly up to a block that is not ahead and,
   for a user with a position, when its share can be taken there and its reward be received: the funds
   are always there.
   */
  lemma ClaimStableAcceptedIff(cfg: Config, asset: AssetId, start: nat, s: State, origin: Origin, pool: PoolId,
          until: BlockNumber, refused: Refused)
    requires Invariant(cfg, asset, start, s) && origin != Signed(cfg.escrow)
    ensures ClaimStable(cfg, s, origin, pool, until, refused).Ok? <==>
              && origin.Signed? && until <= s.now && s.tokens.aiusd.Some?
              && StableClaimable(cfg, asset, s, origin.who, pool, until, 0, refused)
  {
    if origin.Signed? {
      StableClaimAcceptedIff(cfg, asset, start, s, origin.who, pool, until, refused);
    }
  }

  lemma NativeClaimAcceptedIff(cfg: Config, s: State, who: AccountId, until: BlockNumber, refused: Refused)
    requires Conserved(Deposited(s)) && Begun(s)
    ensures DoNativeClaim(cfg, s, who, until, refused).Ok? <==>
              until <= s.now && NativeClaimable(cfg, s, who, until, refused)
  {
    if who in s.natives.users {
      NativesBalanced(s);
      UserCovered(s.natives, who);
      TakeShareSucceedsIff(s.natives.pool.value, s.natives.users[who], until);
    }
  }

  /** A native claim likewise, from the reward account, whose balance always covers it. */
  lemma ClaimNativeAcceptedIff(cfg: Config, s: State, origin: Origin, until: BlockNumber, refused: Refused)
    requires Conserved(Deposited(s)) && Begun(s)
    ensures ClaimNative(cfg, s, origin, until, refused).Ok? <==>
              origin.Signed? && until <= s.now && NativeClaimable(cfg, s, origin.who, until, refused)
  {
    if origin.Signed? {
      NativeClaimAcceptedIff(cfg, s, origin.who, until, refused);
    }
  }

  /** Taking a position out needs only its receiver: funds and amounts are always there. */
  lemma LeavingAcceptedIff(cfg: Config, asset: AssetId, start: nat, s: State, who: AccountId, pool: PoolId,
          refused: Refused)
    requires Invariant(cfg, asset, start, s) && who != cfg.escrow && s.tokens.aiusd.Some?
    ensures DoWithdraw(cfg, s, who, pool, refused).Ok? <==>
              ((who, pool) in s.deposits.users ==>
                 Receives(cfg, asset, s, who, s.deposits.users[(who, pool)].amount, refused))
  {
    if (who, pool) in s.deposits.users {
      PositionCoveredInState(s, who, pool);
      EscrowCovers(cfg, asset, start, s, who, pool);
      EscrowPaysIff(cfg, asset, start, s, who, s.deposits.users[(who, pool)].amount, refused);
    }
  }

  ghost predicate HasEnded(s: State, pool: PoolId) {
    pool in s.settings && s.settings[pool].EndTime().Some? && s.settings[pool].EndTime().value < s.now
  }

  /** The balance after a stable claim, from the balance before it. */
  lemma ClaimedBalance(cfg: Config, asset: AssetId, start: nat, s: State, who: AccountId, pool: PoolId,
          refused: Refused)
    requires Invariant(cfg, asset, start, s) && who != cfg.escrow
    requires DoStableClaim(cfg, s, who, pool, s.now, refused).Ok? && (who, pool) in s.deposits.users
    ensures var t := DoStableClaim(cfg, s, who, pool, s.now, refused).value;
            && pool in s.deposits.pools
            && GetOrZero(t.tokens.assets, (asset, who)) ==
                 GetOrZero(s.tokens.assets, (asset, who)) + StableReward(cfg, s, who, pool, s.now)
            && (who, pool) in t.deposits.users
            && t.deposits.users[(who, pool)].amount == s.deposits.users[(who, pool)].amount
  {
    PositionCoveredInState(s, who, pool);
    EscrowPays(cfg, asset, s.tokens, who, StableReward(cfg, s, who, pool, s.now), refused);
  }

  /** The user's stable share can be taken and received together with the principal. */
  ghost predicate StableLeavable(cfg: Config, asset: AssetId, s: State, who: AccountId, pool: PoolId,
          refused: Refused)
  {
    var principal := if (who, pool) in s.deposits.users then s.deposits.users[(who, pool)].amount else 0;
    s.tokens.aiusd.Some? && StableClaimable(cfg, asset, s, who, pool, s.now, principal, refused)
  }

  /** A stable claim and then the position, in one condition on the state before both. */
  lemma ClaimAndLeaveAcceptedIff(cfg: Config, asset: AssetId, start: nat, s: State, who: AccountId, pool: PoolId,
          refused: Refused)
    requires Invariant(cfg, asset, start, s) && who != cfg.escrow
    ensures ClaimsAndLeaves(cfg, s, who, pool, refused) <==> StableLeavable(cfg, asset, s, who, pool, refused)
  {
    StableClaimAcceptedIff(cfg, asset, start, s, who, pool, s.now, refused);
    if DoStableClaim(cfg, s, who, pool, s.now, refused).Ok? {
      LeavingAfterClaimIff(cfg, asset, start, s, who, pool, refused);
    }
  }

  lemma LeavingAfterClaimIff(cfg: Config, asset: AssetId, start: nat, s: State, who: AccountId, pool: PoolId,
          refused: Refused)
    requires Invariant(cfg, asset, start, s) && who != cfg.escrow
    requires DoStableClaim(cfg, s, who, pool, s.now, refused).Ok?
    ensures DoWithdraw(cfg, DoStableClaim(cfg, s, who, pool, s.now, refused).value, who, pool, refused).Ok? <==>
              ((who, pool) in s.deposits.users ==>
                 && pool in s.deposits.pools
                 && Receives(cfg, asset, s, who, StableReward(cfg, s, who, pool, s.now)
                      + s.deposits.users[(who, pool)].amount, refused))
  {
    var t := DoStableClaim(cfg, s, who, pool, s.now, refused).value;
    StableClaimKeeps(cfg, asset, start, s, who, pool, s.now, refused);
    StableClaimParts(cfg, s, who, pool, s.now, refused);
    LeavingAcceptedIff(cfg, asset, start, t, who, pool, refused);
    if (who, pool) in s.deposits.users {
      ClaimedBalance(cfg, asset, start, s, who, pool, refused);
    }
  }

  ghost predicate ClaimsAndLeaves(cfg: Config, s: State, who: AccountId, pool: PoolId, refused: Refused) {
    var claimed := DoStableClaim(cfg, s, who, pool, s.now, refused);
    claimed.Ok? && DoWithdraw(cfg, claimed.value, who, pool, refused).Ok?
  }

  /** The call in three: an ended pool, the native claim, and the stable claim with the position. */
  lemma WithdrawInSteps(cfg: Config, s: State, who: AccountId, pool: PoolId, refused: Refused)
    ensures WithdrawStake(cfg, s, Signed(who), pool, refused).Ok? <==>
              && HasEnded(s, pool)
              && var claimed := DoNativeClaim(cfg, s, who, s.now, refused);
                 claimed.Ok? && ClaimsAndLeaves(cfg, claimed.value, who, pool, refused)
  {
    if DoNativeClaim(cfg, s, who, s.now, refused).Ok? {
      NativeClaimParts(cfg, s, who, s.now, refused);
    }
  }

  /** A native claim moves nothing the rest depends on. */
  lemma NativeClaimLeavable(cfg: Config, asset: AssetId, s: State, who: AccountId, pool: PoolId, refused: Refused)
    requires DoNativeClaim(cfg, s, who, s.now, refused).Ok?
    ensures StableLeavable(cfg, asset, DoNativeClaim(cfg, s, who, s.now, refused).value, who, pool, refused)
          <==> StableLeavable(cfg, asset, s, who, pool, refused)
  {
    NativeClaimParts(cfg, s, who, s.now, refused);
  }

  /**
   In a state of the invariant a withdrawal is accepted exactly when the pool has ended, the user's
   native share can be taken and received, and so can the stable share together with the principal.
   */
  lemma WithdrawAcceptedIff(cfg: Config, asset: AssetId, start: nat, s: State, who: AccountId, pool: PoolId,
          refused: Refused)
    requires Invariant(cfg, asset, start, s) && Begun(s) && who != cfg.escrow
    ensures WithdrawStake(cfg, s, Signed(who), pool, refused).Ok? <==>
              && HasEnded(s, pool)
              && NativeClaimable(cfg, s, who, s.now, refused)
              && StableLeavable(cfg, asset, s, who, pool, refused)
  {
    WithdrawInSteps(cfg, s, who, pool, refused);
    NativeClaimAcceptedIff(cfg, s, who, s.now, refused);
    var claimed := DoNativeClaim(cfg, s, who, s.now, refused);
    if claimed.Ok? {
      NativeClaimKeeps(cfg, asset, start, s, who, s.now, refused);
      NativeClaimLeavable(cfg, asset, s, who, pool, refused);
      ClaimAndLeaveAcceptedIff(cfg, asset, start, claimed.value, who, pool, refused);
    }
  }

  /**
   At the current block a user's own times are never in the way: only the pool's time, its amount and
   the widths are.
   */
  lemma ClaimableNowIff(s: State, p: StakingInfo, who: AccountId, pool: PoolId)
    requires Begun(s) && (who, pool) in s.deposits.users
    ensures var u := s.deposits.users[(who, pool)];
            Claimable(p, u, s.now) <==>
              && p.effectiveTime <= s.now && 0 < p.amount
              && (s.now - u.effectiveTime) * u.amount < U128_LIMIT && (s.now - p.effectiveTime) * p.amount < U128_LIMIT
              && p.effectiveTime + (s.now - u.effectiveTime) * u.amount / p.amount < U32_LIMIT
  {
    assert StartedBy(s.deposits.users[(who, pool)], s.now);
  }

  /**
   A pool whose time has run ahead of the chain locks every position in it until the chain catches up,
   and the native checkpoint running ahead locks those of all pools.
   */
  lemma TimeAheadLocks(cfg: Config, asset: AssetId, start: nat, s: State, who: AccountId, pool: PoolId,
          refused: Refused)
    requires Invariant(cfg, asset, start, s) && Begun(s) && who != cfg.escrow && (who, pool) in s.deposits.users
    requires || (pool in s.deposits.pools && s.now < s.deposits.pools[pool].effectiveTime)
             || (who in s.natives.users && s.natives.pool.Some? && s.now < s.natives.pool.value.effectiveTime)
    ensures WithdrawStake(cfg, s, Signed(who), pool, refused).Err?
  {
    WithdrawAcceptedIff(cfg, asset, start, s, who, pool, refused);
  }
}
