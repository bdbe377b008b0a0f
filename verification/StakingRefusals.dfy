/**
 Why a staking call fails: whatever error it ends with is true of the state and its arguments.
 */
module StakingRefusals {
  import opened Base
  import opened StakingInfos
  import opened Epochs
  import opened Queue
  import opened Drift
  import opened StakingState
  import opened StakingRuns
  import opened StakingEffects

  /** The pool's end is not a block number. */
  ghost predicate EndsTooLate(setting: PoolSetting) {
    setting.startTime + setting.epochRange * setting.epoch >= U32_LIMIT
  }

  lemma EndOverflows(setting: PoolSetting)
    ensures setting.EndTime().None? <==> EndsTooLate(setting)
  {
  }

  /** A position can take an amount at a block. */
  ghost predicate CanAdd(position: Option<StakingInfo>, time: BlockNumber, added: Balance) {
    position.Some? ==>
      0 < position.value.amount + added < U128_LIMIT && position.value.Moment() + time * added < U128_LIMIT
  }

  lemma CannotAdd(position: Option<StakingInfo>, time: BlockNumber, added: Balance)
    ensures AddOrCreate(position, time, added).Some? <==> CanAdd(position, time, added)
  {
    if position.Some? {
      AddSucceedsIff(position.value, time, added);
    }
  }

  /** A user's part of a pool can be told at a block, and the pool moved by it. */
  ghost predicate ShareFits(p: StakingInfo, u: StakingInfo, until: BlockNumber) {
    && u.effectiveTime <= until && u.lastAddTime <= until && p.effectiveTime <= until
    && SignedWeight(u, until) < U128_LIMIT && SignedWeight(p, until) < U128_LIMIT
    && 0 < p.amount && TimeAfter(p, u, until) < U32_LIMIT
  }

  lemma ShareIsFit(p: StakingInfo, u: StakingInfo, until: BlockNumber)
    ensures TakeShare(p, u, until).Some? <==> ShareFits(p, u, until)
  {
    if u.effectiveTime <= until && SignedWeight(u, until) < U128_LIMIT {
      MulBounds(0, until - u.effectiveTime, u.amount);
      ClaimByWeightMovesMoment(p, SignedWeight(u, until));
    }
  }

  /** A payment the token pallets do not make. */
  ghost predicate Unpaid<K>(balances: map<K, Balance>, from: K, to: K, least: int, most: int) {
    GetOrZero(balances, from) < least || (from != to && GetOrZero(balances, to) + most >= U128_LIMIT)
  }

  ghost predicate CreateRefused(s: State, origin: Origin, pool: PoolId, setting: PoolSetting, e: Error) {
    match e
    case BadOrigin => !origin.Root?
    case PoolAlreadyStarted => setting.startTime < s.now
    case PoolAlreadyExisted => pool in s.settings
    case _ => false
  }

  ghost predicate RewardRefused(cfg: Config, s: State, origin: Origin, pool: PoolId, epoch: u128, reward: Balance,
          refuses: bool, e: Error) {
    match e
    case BadOrigin => !origin.Root?
    case PoolNotExisted => pool !in s.settings
    case DivisionByZero => pool in s.settings && s.settings[pool].epochRange == 0
    case EpochNotExisted => pool in s.settings && s.settings[pool].epoch < epoch
    case EpochAlreadyEnded =>
      && pool in s.settings && epoch < s.settings[pool].epoch
      && s.settings[pool].startTime + s.settings[pool].epochRange * (epoch + 1) <= s.now
    case NoAssetId => s.tokens.aiusd.None?
    case TokenFailure =>
      || refuses
      || (s.tokens.aiusd.Some? &&
          GetOrZero(s.tokens.assets, (s.tokens.aiusd.value, cfg.escrow)) + reward >= U128_LIMIT)
    case RewardAlreadyExisted => (pool, epoch) in s.rewards.perEpoch
    case Overflow => GetOrZero(s.rewards.unclaimed, pool) + reward >= U128_LIMIT
    case _ => false
  }

  ghost function StakedIn(s: State, pool: PoolId): int {
    (if pool in s.deposits.pools then s.deposits.pools[pool].amount else 0) + GetOrZero(s.deposits.pendingAmount, pool)
  }

  ghost predicate StakeRefused(cfg: Config, s: State, origin: Origin, pool: PoolId, amount: Balance,
          refused: Refused, e: Error) {
    if origin.Root? then e.BadOrigin?
    else if pool !in s.settings then e.PoolNotExisted?
    else
      var p := s.settings[pool];
      match e
      case TypeIncompatibleOrArithmeticError =>
        || EndsTooLate(p)
        || !CanAdd(s.natives.pool, s.now, amount) || !CanAdd(Lookup(s.natives.users, origin.who), s.now, amount)
      case PoolNotStarted => s.now <= p.startTime
      case Underflow => p.poolCap < StakedIn(s, pool)
      case PoolCapLimit => StakedIn(s, pool) <= p.poolCap < StakedIn(s, pool) + amount
      case Overflow => s.now + p.setupTime >= U32_LIMIT
      case DivisionByZero => p.epochRange == 0
      case PoolAlreadyEnded => p.startTime + p.epochRange * p.epoch <= s.now + p.setupTime + p.epochRange
      case NoAssetId => s.tokens.aiusd.None?
      case TokenFailure =>
        || (origin.who, cfg.escrow) in refused
        || (s.tokens.aiusd.Some? &&
            Unpaid(s.tokens.assets, (s.tokens.aiusd.value, origin.who), (s.tokens.aiusd.value, cfg.escrow), amount,
                   amount))
      case _ => false
  }

  ghost predicate NativeClaimRefused(cfg: Config, s: State, who: AccountId, until: BlockNumber, refused: Refused,
          e: Error) {
    match e
    case CannotClaimFuture => s.now < until
    case TypeIncompatibleOrArithmeticError =>
      HasNative(s, who) && !ShareFits(s.natives.pool.value, s.natives.users[who], until)
    case TokenFailure =>
      && HasNative(s, who)
      && ((cfg.rewardAccount, who) in refused
          || Unpaid(s.tokens.native, cfg.rewardAccount, who, 0, GetOrZero(s.tokens.native, cfg.rewardAccount)))
    case _ => false
  }

  ghost predicate StableClaimRefused(cfg: Config, s: State, who: AccountId, pool: PoolId, until: BlockNumber,
          refused: Refused, e: Error) {
    match e
    case CannotClaimFuture => s.now < until
    case NoAssetId => s.tokens.aiusd.None?
    case TypeIncompatibleOrArithmeticError =>
      HasStable(s, who, pool) && !ShareFits(s.deposits.pools[pool], s.deposits.users[(who, pool)], until)
    case TokenFailure =>
      && HasStable(s, who, pool) && s.tokens.aiusd.Some?
      && ((cfg.escrow, who) in refused
          || Unpaid(s.tokens.assets, (s.tokens.aiusd.value, cfg.escrow), (s.tokens.aiusd.value, who),
                    GetOrZero(s.rewards.unclaimed, pool), GetOrZero(s.rewards.unclaimed, pool)))
    case _ => false
  }

  lemma StakeErrors(cfg: Config, s: State, origin: Origin, pool: PoolId, amount: Balance, refused: Refused)
    requires Stake(cfg, s, origin, pool, amount, refused).Err?
    ensures StakeRefused(cfg, s, origin, pool, amount, refused, Stake(cfg, s, origin, pool, amount, refused).error)
  {
    if origin.Signed? && pool in s.settings {
      var p := s.settings[pool];
      EndOverflows(p);
      CannotAdd(s.natives.pool, s.now, amount);
      CannotAdd(Lookup(s.natives.users, origin.who), s.now, amount);
      if p.startTime < s.now && TargetTime(p, s.now).Err? {
        TargetErrors(p, s.now);
      }
    }
  }

  /** Why there is no target for a deposit. */
  lemma TargetErrors(p: PoolSetting, now: BlockNumber)
    requires p.startTime < now && TargetTime(p, now).Err?
    ensures match TargetTime(p, now).error
            case TypeIncompatibleOrArithmeticError => EndsTooLate(p)
            case Overflow => now + p.setupTime >= U32_LIMIT
            case DivisionByZero => p.epochRange == 0
            case PoolAlreadyEnded => p.startTime + p.epochRange * p.epoch <= now + p.setupTime + p.epochRange
            case _ => false
  {
    EndOverflows(p);
    TargetExistsIff(p, now);
    if p.EndTime().Some? && now + p.setupTime < U32_LIMIT && p.epochRange > 0 {
      var index := EpochIndex(p, now + p.setupTime).value;
      assert index < U32_LIMIT by {
        DivRange(now + p.setupTime - p.startTime, p.epochRange);
      }
      IndexOfBegin(p, index + 1);
    }
  }

  lemma NativeClaimErrors(cfg: Config, s: State, who: AccountId, until: BlockNumber, refused: Refused)
    requires DoNativeClaim(cfg, s, who, until, refused).Err?
    ensures NativeClaimRefused(cfg, s, who, until, refused, DoNativeClaim(cfg, s, who, until, refused).error)
  {
    if HasNative(s, who) {
      ShareIsFit(s.natives.pool.value, s.natives.users[who], until);
    }
  }

  lemma StableClaimErrors(cfg: Config, s: State, who: AccountId, pool: PoolId, until: BlockNumber, refused: Refused)
    requires DoStableClaim(cfg, s, who, pool, until, refused).Err?
    ensures StableClaimRefused(cfg, s, who, pool, until, refused,
          DoStableClaim(cfg, s, who, pool, until, refused).error)
  {
    if HasStable(s, who, pool) {
      ShareIsFit(s.deposits.pools[pool], s.deposits.users[(who, pool)], until);
    }
  }

  /** The principal does not fit what is counted for it. */
  ghost predicate Uncounted(s: State, who: AccountId, pool: PoolId) {
    && HasStable(s, who, pool)
    && var v := Principal(s, who, pool);
       || s.deposits.pools[pool].amount < v
       || (s.natives.pool.Some? && s.natives.pool.value.amount < v)
       || (who in s.natives.users && s.natives.users[who].amount < v)
  }

  ghost predicate PrincipalUnpaid(cfg: Config, s: State, who: AccountId, pool: PoolId, refused: Refused) {
    && HasStable(s, who, pool) && s.tokens.aiusd.Some?
    && var asset, all := s.tokens.aiusd.value, GetOrZero(s.rewards.unclaimed, pool) + Principal(s, who, pool);
       (cfg.escrow, who) in refused || Unpaid(s.tokens.assets, (asset, cfg.escrow), (asset, who), all, all)
  }

  ghost predicate DepartureRefused(cfg: Config, s: State, who: AccountId, pool: PoolId, refused: Refused, e: Error) {
    match e
    case NoAssetId => s.tokens.aiusd.None?
    case TokenFailure => PrincipalUnpaid(cfg, s, who, pool, refused)
    case Underflow => Uncounted(s, who, pool)
    case _ => false
  }

  /** A withdrawal fails before the end of its pool, or as one of its claims does, or with its departure. */
  ghost predicate WithdrawRefused(cfg: Config, s: State, origin: Origin, pool: PoolId, refused: Refused, e: Error) {
    if origin.Root? then e.BadOrigin?
    else if pool !in s.settings then e.PoolNotExisted?
    else
      var p := s.settings[pool];
      || (e.TypeIncompatibleOrArithmeticError? && EndsTooLate(p))
      || (e.PoolNotEnded? && s.now <= p.startTime + p.epochRange * p.epoch)
      || NativeClaimRefused(cfg, s, origin.who, s.now, refused, e)
      || StableClaimRefused(cfg, s, origin.who, pool, s.now, refused, e)
      || DepartureRefused(cfg, s, origin.who, pool, refused, e)
  }

  lemma DepartureErrors(cfg: Config, s: State, who: AccountId, pool: PoolId, refused: Refused)
    requires DoWithdraw(cfg, s, who, pool, refused).Err?
    ensures var e := DoWithdraw(cfg, s, who, pool, refused).error;
            match e
            case NoAssetId => s.tokens.aiusd.None?
            case TokenFailure =>
              && HasStable(s, who, pool) && s.tokens.aiusd.Some?
              && var asset, v := s.tokens.aiusd.value, Principal(s, who, pool);
                 (cfg.escrow, who) in refused || Unpaid(s.tokens.assets, (asset, cfg.escrow), (asset, who), v, v)
            case Underflow => Uncounted(s, who, pool)
            case _ => false
  {
  }

  /** After both claims the departure fails for a reason that was there before them. */
  lemma DepartureErrorsBefore(cfg: Config, s: State, s1: State, s2: State, who: AccountId, pool: PoolId,
          refused: Refused, native: Balance, stable: Balance)
    requires NativeClaimed(cfg, s, s1, who, s.now, native) && StableClaimed(cfg, s1, s2, who, pool, s.now, stable)
    requires DoWithdraw(cfg, s2, who, pool, refused).Err?
    ensures DepartureRefused(cfg, s, who, pool, refused, DoWithdraw(cfg, s2, who, pool, refused).error)
  {
    DepartureErrors(cfg, s2, who, pool, refused);
    assert Principal(s2, who, pool) == Principal(s, who, pool);
  }

  lemma WithdrawErrors(cfg: Config, s: State, origin: Origin, pool: PoolId, refused: Refused)
    requires WithdrawStake(cfg, s, origin, pool, refused).Err?
    ensures WithdrawRefused(cfg, s, origin, pool, refused, WithdrawStake(cfg, s, origin, pool, refused).error)
  {
    if origin.Signed? && pool in s.settings {
      EndOverflows(s.settings[pool]);
      if s.settings[pool].EndTime().Some? && s.settings[pool].EndTime().value < s.now {
        EndedWithdrawErrors(cfg, s, origin.who, pool, refused);
      }
    }
  }

  lemma EndedWithdrawErrors(cfg: Config, s: State, who: AccountId, pool: PoolId, refused: Refused)
    requires pool in s.settings && s.settings[pool].EndTime().Some? && s.settings[pool].EndTime().value < s.now
    requires WithdrawStake(cfg, s, Signed(who), pool, refused).Err?
    ensures var e := WithdrawStake(cfg, s, Signed(who), pool, refused).error;
            || NativeClaimRefused(cfg, s, who, s.now, refused, e)
            || StableClaimRefused(cfg, s, who, pool, s.now, refused, e)
            || DepartureRefused(cfg, s, who, pool, refused, e)
  {
    var claimed := DoNativeClaim(cfg, s, who, s.now, refused);
    if claimed.Err? {
      NativeClaimErrors(cfg, s, who, s.now, refused);
    } else {
      var s1 := claimed.value;
      var native := NativeClaimExactly(cfg, s, who, s.now, refused);
      var paid := DoStableClaim(cfg, s1, who, pool, s.now, refused);
      if paid.Err? {
        StableClaimErrors(cfg, s1, who, pool, s.now, refused);
      } else {
        var stable := StableClaimExactly(cfg, s1, who, pool, s.now, refused);
        DepartureErrorsBefore(cfg, s, s1, paid.value, who, pool, refused, native, stable);
      }
    }
  }

  lemma RewardErrors(cfg: Config, s: State, origin: Origin, pool: PoolId, epoch: u128, reward: Balance, refuses: bool)
    requires UpdateReward(cfg, s, origin, pool, epoch, reward, refuses).Err?
    ensures RewardRefused(cfg, s, origin, pool, epoch, reward, refuses,
          UpdateReward(cfg, s, origin, pool, epoch, reward, refuses).error)
  {
    if pool in s.settings && s.settings[pool].epochRange > 0 && epoch < s.settings[pool].epoch {
      IndexAtMostIff(s.settings[pool], epoch, s.now);
    }
  }

  /** Settling by hand fails for nobody's call, or on what is due. */
  ghost predicate SolveRefused(s: State, origin: Origin, e: Error) {
    if origin.Root? then e.BadOrigin?
    else
      && (e.TypeIncompatibleOrArithmeticError? || e.Underflow?)
      && s.deposits.pending != [] && s.deposits.pending[0].Time() <= s.now
  }

  lemma {:induction false} SolveLoopErrors(d: Deposits, q: seq<Order>, n: BlockNumber)
    requires SolveLoop(d, q, n).failure.Some?
    ensures q != [] && q[0].Time() <= n
    ensures SolveLoop(d, q, n).failure.value.TypeIncompatibleOrArithmeticError?
         || SolveLoop(d, q, n).failure.value.Underflow?
    decreases |q|
  {
    if SolveOne(d, q[0], n).failure.None? {
      SolveLoopErrors(SolveOne(d, q[0], n).deposits, q[1..], n);
    }
  }

  /** What an error says of the call that ended with it. */
  ghost predicate Explains(cfg: Config, s: State, a: Action, e: Error) {
    match a
    case NextBlock => e.Overflow? && s.now + 1 == U32_LIMIT
    case CallCreate(origin, pool, setting) => CreateRefused(s, origin, pool, setting, e)
    case CallReward(origin, pool, epoch, reward, refuses) =>
        RewardRefused(cfg, s, origin, pool, epoch, reward, refuses, e)
    case CallStake(origin, pool, amount, refused) => StakeRefused(cfg, s, origin, pool, amount, refused, e)
    case CallSolve(origin) => SolveRefused(s, origin, e)
    case CallClaimNative(origin, until, refused) =>
      if origin.Root? then e.BadOrigin? else NativeClaimRefused(cfg, s, origin.who, until, refused, e)
    case CallClaimStable(origin, pool, until, refused) =>
      if origin.Root? then e.BadOrigin? else StableClaimRefused(cfg, s, origin.who, pool, until, refused, e)
    case CallWithdraw(origin, pool, refused) => WithdrawRefused(cfg, s, origin, pool, refused, e)
    case CallRegist(origin, _) => e.BadOrigin? && origin.Signed?
    case OutsideGift(asset, amount) =>
      e.TokenFailure? && GetOrZero(s.tokens.assets, (asset, cfg.escrow)) + amount >= U128_LIMIT
    case OutsideAsset(_, _, _) => false
    case OutsideNative(_, _) => false
  }

  /** Every refusal is for a true reason, and leaves the state alone. */
  lemma RefusalsExplain(cfg: Config, s: State, a: Action)
    requires Execute(cfg, s, a).Err?
    ensures Explains(cfg, s, a, Execute(cfg, s, a).error) && Apply(cfg, s, a) == s
  {
    match a
    case CallReward(origin, pool, epoch, reward, refuses) =>
        RewardErrors(cfg, s, origin, pool, epoch, reward, refuses);
    case CallStake(origin, pool, amount, refused) => StakeErrors(cfg, s, origin, pool, amount, refused);
    case CallSolve(origin) =>
      if origin.Signed? {
        SolveLoopErrors(s.deposits.(pending := []), s.deposits.pending, s.now);
      }
    case CallClaimNative(origin, until, refused) =>
      if origin.Signed? {
        NativeClaimErrors(cfg, s, origin.who, until, refused);
      }
    case CallClaimStable(origin, pool, until, refused) =>
      if origin.Signed? {
        StableClaimErrors(cfg, s, origin.who, pool, until, refused);
      }
    case CallWithdraw(origin, pool, refused) => WithdrawErrors(cfg, s, origin, pool, refused);
    case _ =>
  }
}
