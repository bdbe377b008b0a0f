/**
 What the committee has recorded: pools, epoch rewards and the asset are what the log announced,
 in every run, failing hooks included.
 */
module StakingRecords {
  import opened Base
  import opened Epochs
  import opened Queue
  import opened StakingState
  import opened StakingSteps
  import opened StakingRuns

  ghost function PoolsOf(events: seq<Event>): map<PoolId, PoolSetting> {
    if events == [] then map[]
    else
      var earlier := PoolsOf(events[..|events| - 1]);
      match events[|events| - 1]
      case StakingPoolCreated(pool, setting) => earlier[pool := setting]
      case _ => earlier
  }

  ghost function EpochRewardsOf(events: seq<Event>): map<(PoolId, u128), Balance> {
    if events == [] then map[]
    else
      var earlier := EpochRewardsOf(events[..|events| - 1]);
      match events[|events| - 1]
      case RewardUpdated(pool, epoch, amount) => earlier[(pool, epoch) := amount]
      case _ => earlier
  }

  ghost function AssetOf(events: seq<Event>): Option<AssetId> {
    if events == [] then None
    else match events[|events| - 1]
      case AiusdRegistered(asset) => Some(asset)
      case _ => AssetOf(events[..|events| - 1])
  }

  /** Every pool was announced once and every epoch of it rewarded once, the pool first. */
  ghost predicate AnnouncedOnce(events: seq<Event>) {
    events == [] ||
    var earlier := events[..|events| - 1];
    && AnnouncedOnce(earlier)
    && match events[|events| - 1]
       case StakingPoolCreated(pool, _) => pool !in PoolsOf(earlier)
       case RewardUpdated(pool, epoch, _) =>
         pool in PoolsOf(earlier) && epoch <= PoolsOf(earlier)[pool].epoch && (pool, epoch) !in EpochRewardsOf(earlier)
       case Staked(_, pool, time, _) => pool in PoolsOf(earlier) && PoolsOf(earlier)[pool].startTime < time
       case Withdraw(_, pool, time, _) =>
         pool in PoolsOf(earlier) && PoolsOf(earlier)[pool].EndTime().Some?
             && PoolsOf(earlier)[pool].EndTime().value < time
       case _ => true
  }

  ghost predicate Recorded(settings: map<PoolId, PoolSetting>, perEpoch: map<(PoolId, u128), Balance>,
          aiusd: Option<AssetId>, events: seq<Event>) {
    settings == PoolsOf(events) && perEpoch == EpochRewardsOf(events) && aiusd == AssetOf(events)
        && AnnouncedOnce(events)
  }

  ghost predicate RecordedIn(s: State) {
    Recorded(s.settings, s.rewards.perEpoch, s.tokens.aiusd, s.events)
  }

  lemma Front(events: seq<Event>, e: Event)
    ensures (events + [e])[..|events + [e]| - 1] == events
  {
  }

  /** Claims and settled orders record nothing. */
  predicate Passing(e: Event) {
    e.PendingStakingSolved? || e.NativeRewardClaimed? || e.StableRewardClaimed?
  }

  lemma {:induction false} PassingKept(s: State, events: seq<Event>, more: seq<Event>)
    requires Recorded(s.settings, s.rewards.perEpoch, s.tokens.aiusd, events)
    requires forall e :: e in more ==> Passing(e)
    ensures Recorded(s.settings, s.rewards.perEpoch, s.tokens.aiusd, events + more)
    decreases |more|
  {
    if more == [] {
      assert events + more == events;
    } else {
      Front(events, more[0]);
      assert more[0] in more;
      PassingKept(s, events + [more[0]], more[1..]);
      assert events + more == events + [more[0]] + more[1..];
    }
  }

  lemma HookRecords(s: State, n: BlockNumber)
    requires RecordedIn(s)
    ensures RecordedIn(BeginBlock(s, n))
  {
    SolvingOnlySettles(s.deposits.(pending := []), s.deposits.pending, n);
    PassingKept(s, s.events, SolvePending(s.deposits, n).events);
  }

  lemma SolveRecords(s: State, origin: Origin)
    requires RecordedIn(s) && SolvePendingStake(s, origin).Ok?
    ensures RecordedIn(SolvePendingStake(s, origin).value)
  {
    SolvingOnlySettles(s.deposits.(pending := []), s.deposits.pending, s.now);
    PassingKept(s, s.events, SolvePending(s.deposits, s.now).events);
  }

  lemma CreateRecords(s: State, origin: Origin, pool: PoolId, setting: PoolSetting)
    requires RecordedIn(s) && CreateStakingPool(s, origin, pool, setting).Ok?
    ensures RecordedIn(CreateStakingPool(s, origin, pool, setting).value)
  {
    Front(s.events, StakingPoolCreated(pool, setting));
  }

  lemma RewardRecords(cfg: Config, s: State, origin: Origin, pool: PoolId, epoch: u128, reward: Balance,
          refuses: bool)
    requires RecordedIn(s) && UpdateReward(cfg, s, origin, pool, epoch, reward, refuses).Ok?
    ensures RecordedIn(UpdateReward(cfg, s, origin, pool, epoch, reward, refuses).value)
  {
    Front(s.events, RewardUpdated(pool, epoch, reward));
  }

  lemma RegistRecords(s: State, origin: Origin, asset: AssetId)
    requires RecordedIn(s) && RegistAiusd(s, origin, asset).Ok?
    ensures RecordedIn(RegistAiusd(s, origin, asset).value)
  {
    Front(s.events, AiusdRegistered(asset));
  }

  lemma StakeRecords(cfg: Config, s: State, origin: Origin, pool: PoolId, amount: Balance, refused: Refused)
    requires RecordedIn(s) && Stake(cfg, s, origin, pool, amount, refused).Ok?
    ensures RecordedIn(Stake(cfg, s, origin, pool, amount, refused).value)
  {
    StakeParts(cfg, s, origin, pool, amount, refused);
    TargetIsLeastBoundary(s.settings[pool], s.now);
    var target := TargetTime(s.settings[pool], s.now).value;
    Front(s.events, Staked(origin.who, pool, target, amount));
    StakeKeepsRecords(cfg, s, origin, pool, amount, refused);
  }

  lemma StakeKeepsRecords(cfg: Config, s: State, origin: Origin, pool: PoolId, amount: Balance, refused: Refused)
    requires Stake(cfg, s, origin, pool, amount, refused).Ok?
    ensures var t := Stake(cfg, s, origin, pool, amount, refused).value;
            t.settings == s.settings && t.rewards == s.rewards && t.tokens.aiusd == s.tokens.aiusd
  {
  }

  lemma NativeClaimRecords(cfg: Config, s: State, who: AccountId, until: BlockNumber, refused: Refused)
    requires RecordedIn(s) && DoNativeClaim(cfg, s, who, until, refused).Ok?
    ensures RecordedIn(DoNativeClaim(cfg, s, who, until, refused).value)
  {
    var t := DoNativeClaim(cfg, s, who, until, refused).value;
    NativeClaimParts(cfg, s, who, until, refused);
    if t != s {
      PassingKept(s, s.events, [t.events[|s.events|]]);
    }
  }

  lemma StableClaimRecords(cfg: Config, s: State, who: AccountId, pool: PoolId, until: BlockNumber, refused: Refused)
    requires RecordedIn(s) && DoStableClaim(cfg, s, who, pool, until, refused).Ok?
    ensures RecordedIn(DoStableClaim(cfg, s, who, pool, until, refused).value)
  {
    var t := DoStableClaim(cfg, s, who, pool, until, refused).value;
    StableClaimParts(cfg, s, who, pool, until, refused);
    if pool in s.deposits.pools && (who, pool) in s.deposits.users {
      var reward: Balance :| StableClaimPays(cfg, s, t, who, pool, until, refused, reward);
      PassingKept(s, s.events, [StableRewardClaimed(who, pool, until, reward)]);
    }
  }

  lemma LeaveRecords(cfg: Config, s: State, who: AccountId, pool: PoolId, refused: Refused)
    requires RecordedIn(s) && DoWithdraw(cfg, s, who, pool, refused).Ok?
    requires pool in s.settings && s.settings[pool].EndTime().Some? && s.settings[pool].EndTime().value < s.now
    ensures RecordedIn(DoWithdraw(cfg, s, who, pool, refused).value)
  {
    DoWithdrawParts(cfg, s, who, pool, refused);
    if pool in s.deposits.pools && (who, pool) in s.deposits.users {
      Front(s.events, Event.Withdraw(who, pool, s.now, s.deposits.users[(who, pool)].amount));
    }
  }

  lemma WithdrawRecords(cfg: Config, s: State, origin: Origin, pool: PoolId, refused: Refused)
    requires RecordedIn(s) && WithdrawStake(cfg, s, origin, pool, refused).Ok?
    ensures RecordedIn(WithdrawStake(cfg, s, origin, pool, refused).value)
  {
    var who := origin.who;
    var s1 := DoNativeClaim(cfg, s, who, s.now, refused).value;
    NativeClaimRecords(cfg, s, who, s.now, refused);
    NativeClaimParts(cfg, s, who, s.now, refused);
    var s2 := DoStableClaim(cfg, s1, who, pool, s.now, refused).value;
    StableClaimRecords(cfg, s1, who, pool, s.now, refused);
    StableClaimParts(cfg, s1, who, pool, s.now, refused);
    LeaveRecords(cfg, s2, who, pool, refused);
  }

  lemma UserStepRecords(cfg: Config, s: State, a: Action)
    requires RecordedIn(s) && ByUser(a) && Execute(cfg, s, a).Ok?
    ensures RecordedIn(Execute(cfg, s, a).value)
  {
    match a
    case CallStake(origin, pool, amount, refused) => StakeRecords(cfg, s, origin, pool, amount, refused);
    case CallClaimNative(origin, until, refused) => NativeClaimRecords(cfg, s, origin.who, until, refused);
    case CallClaimStable(origin, pool, until, refused) => StableClaimRecords(cfg, s, origin.who, pool, until, refused);
    case CallWithdraw(origin, pool, refused) => WithdrawRecords(cfg, s, origin, pool, refused);
  }

  lemma OtherStepRecords(cfg: Config, s: State, a: Action)
    requires RecordedIn(s) && !ByUser(a) && Execute(cfg, s, a).Ok?
    ensures RecordedIn(Execute(cfg, s, a).value)
  {
    match a
    case NextBlock => HookRecords(s, s.now + 1);
    case CallCreate(origin, pool, setting) => CreateRecords(s, origin, pool, setting);
    case CallReward(origin, pool, epoch, reward, refuses) =>
        RewardRecords(cfg, s, origin, pool, epoch, reward, refuses);
    case CallSolve(origin) => SolveRecords(s, origin);
    case CallRegist(origin, asset) => RegistRecords(s, origin, asset);
    case OutsideAsset(_, _, _) =>
    case OutsideNative(_, _) =>
    case OutsideGift(_, _) =>
  }

  lemma StepRecords(cfg: Config, s: State, a: Action)
    requires RecordedIn(s)
    ensures RecordedIn(Apply(cfg, s, a))
  {
    if Execute(cfg, s, a).Ok? {
      if ByUser(a) {
        UserStepRecords(cfg, s, a);
      } else {
        OtherStepRecords(cfg, s, a);
      }
    }
  }

  /**
   In every run pools, epoch rewards and the asset are those announced: each pool once and for good,
   each epoch of a pool rewarded once, deposits only for a started pool, withdrawals only from an ended one.
   */
  lemma {:induction false} ReachableRecords(cfg: Config, s: State, acts: seq<Action>)
    requires Genesis(s)
    ensures RecordedIn(After(cfg, s, acts))
    decreases |acts|
  {
    if acts != [] {
      ReachableRecords(cfg, s, acts[..|acts| - 1]);
      StepRecords(cfg, After(cfg, s, acts[..|acts| - 1]), acts[|acts| - 1]);
    }
  }
}
