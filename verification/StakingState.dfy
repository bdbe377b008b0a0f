/**
 The storage of the staking pallet and what each call makes of it.  Every call is one
 all-or-nothing step except the block hook, whose partial work stays even when it fails.
 */
module StakingState {
  import opened Base
  import opened Ledger
  import opened StakingInfos
  import opened Epochs
  import opened Queue
  import opened Drift

  /** One whole in parts of a 64-bit fixed-point ratio. */
  const QUINTILLION: int := 1_000_000_000_000_000_000

  /** The two pallet accounts and the ratio computed by the runtime library. */
  datatype Config = Config(escrow: AccountId, rewardAccount: AccountId, fromRational: (u128, u128) -> nat)

  /** Pairs of accounts between which the token pallets refuse a transfer for reasons of their own. */
  type Refused = set<(AccountId, AccountId)>

  datatype Event =
    | StakingPoolCreated(pool: PoolId, setting: PoolSetting)
    | RewardUpdated(pool: PoolId, epoch: u128, amount: Balance)
    | PendingStakingSolved(who: AccountId, pool: PoolId, time: BlockNumber, amount: Balance)
    | Staked(who: AccountId, pool: PoolId, time: BlockNumber, amount: Balance)
    | NativeRewardClaimed(who: AccountId, time: BlockNumber, amount: Balance)
    | StableRewardClaimed(who: AccountId, pool: PoolId, time: BlockNumber, amount: Balance)
    | Withdraw(who: AccountId, pool: PoolId, time: BlockNumber, amount: Balance)
    | AiusdRegistered(asset: AssetId)

  /** Settled positions per pool and per user, and the deposits still waiting. */
  datatype Deposits = Deposits(
    pools: map<PoolId, StakingInfo>,
    users: map<(AccountId, PoolId), StakingInfo>,
    pending: seq<Order>,
    pendingAmount: map<PoolId, Balance>)

  /** Rewards not yet claimed per pool, and the record of what each epoch was given. */
  datatype Rewards = Rewards(unclaimed: map<PoolId, Balance>, perEpoch: map<(PoolId, u128), Balance>)

  /** The registered asset and the balances of the two token ledgers. */
  datatype Tokens = Tokens(
    aiusd: Option<AssetId>,
    assets: map<(AssetId, AccountId), Balance>,
    native: map<AccountId, Balance>)

  /** All storage; the native positions are one synthetic checkpoint beside its users'. */
  datatype State = State(
    now: BlockNumber,
    settings: map<PoolId, PoolSetting>,
    deposits: Deposits,
    natives: Book<AccountId>,
    rewards: Rewards,
    tokens: Tokens,
    events: seq<Event>)

  type Outcome = Result<State, Error>

  function EnsureRoot(origin: Origin): Result<(), Error> {
    Need(origin.Root?, BadOrigin)
  }

  function EnsureSigned(origin: Origin): Result<AccountId, Error> {
    match origin
    case Root => Err(BadOrigin)
    case Signed(who) => Ok(who)
  }

  /** A ratio in parts: one whole when there is nothing to divide by or the part covers the whole. */
  function Parts(cfg: Config, p: u128, q: u128): (parts: nat)
    ensures parts <= QUINTILLION
  {
    if q == 0 || p >= q then QUINTILLION else Min(cfg.fromRational(p, q), QUINTILLION)
  }

  /** Applies a ratio, rounding to the nearest unit and ties down: never more than the whole. */
  function MulNearest(parts: nat, x: Balance): (r: Balance)
    requires parts <= QUINTILLION
    ensures r <= x
    ensures -QUINTILLION <= 2 * (r * QUINTILLION - parts * x) < QUINTILLION
    ensures parts == QUINTILLION ==> r == x
  {
    MulBounds(0, parts, x);
    MulBounds(parts, QUINTILLION, x);
    var floor, rest := parts * x / QUINTILLION, parts * x % QUINTILLION;
    if 2 * rest > QUINTILLION then floor + 1 else floor
  }

  function Transfer(t: Tokens, asset: AssetId, from: AccountId, to: AccountId, amount: Balance,
          refused: Refused): Result<Tokens, Error> {
    var _ :- Need((from, to) !in refused, TokenFailure);
    var assets :- Move(t.assets, (asset, from), (asset, to), amount).OkOr(TokenFailure);
    Ok(t.(assets := assets))
  }

  function TransferNative(t: Tokens, from: AccountId, to: AccountId, amount: Balance,
          refused: Refused): Result<Tokens, Error> {
    var _ :- Need((from, to) !in refused, TokenFailure);
    var native :- Move(t.native, from, to, amount).OkOr(TokenFailure);
    Ok(t.(native := native))
  }

  function CreateStakingPool(s: State, origin: Origin, pool: PoolId, setting: PoolSetting): Outcome {
    var _ :- EnsureRoot(origin);
    var _ :- Need(s.now <= setting.startTime, PoolAlreadyStarted);
    var _ :- Need(pool !in s.settings, PoolAlreadyExisted);
    Ok(s.(settings := s.settings[pool := setting], events := s.events + [StakingPoolCreated(pool, setting)]))
  }

  /** `refuses` says that the token pallet will not mint the reward for reasons of its own. */
  function UpdateReward(cfg: Config, s: State, origin: Origin, pool: PoolId, epoch: u128, reward: Balance,
          refuses: bool): Outcome
  {
    var _ :- EnsureRoot(origin);
    var setting :- Lookup(s.settings, pool).OkOr(PoolNotExisted);
    var current :- EpochIndex(setting, s.now);
    var _ :- Need(setting.epoch >= epoch, EpochNotExisted);
    var _ :- Need(current <= epoch, EpochAlreadyEnded);
    var asset :- s.tokens.aiusd.OkOr(NoAssetId);
    var _ :- Need(!refuses, TokenFailure);
    var assets :- Credit(s.tokens.assets, (asset, cfg.escrow), reward).OkOr(TokenFailure);
    var rewards :- RecordReward(s.rewards, pool, epoch, reward);
    Ok(s.(tokens := s.tokens.(assets := assets), rewards := rewards,
        events := s.events + [RewardUpdated(pool, epoch, reward)]))
  }

  function RecordReward(r: Rewards, pool: PoolId, epoch: u128, reward: Balance): Result<Rewards, Error> {
    var _ :- Need((pool, epoch) !in r.perEpoch, RewardAlreadyExisted);
    var _ :- Need(GetOrZero(r.unclaimed, pool) + reward < U128_LIMIT, Overflow);
    Ok(Rewards(
      r.unclaimed[pool := GetOrZero(r.unclaimed, pool) + reward],
      r.perEpoch[(pool, epoch) := reward]))
  }

  /** The room left under the cap; an underflow is an error of its own. */
  function AvailableCap(d: Deposits, pool: PoolId, cap: Balance): Result<Balance, Error> {
    var staked := if pool in d.pools then d.pools[pool].amount else 0;
    var queued := GetOrZero(d.pendingAmount, pool);
    var _ :- Need(staked <= cap, Underflow);
    var _ :- Need(queued <= cap - staked, Underflow);
    Ok(cap - staked - queued)
  }

  function Enqueue(d: Deposits, order: Order): Result<Deposits, Error> {
    var queued := GetOrZero(d.pendingAmount, order.pool);
    var _ :- Need(queued + order.info.amount < U128_LIMIT, Overflow);
    Ok(d.(
      pending := SortByTime(d.pending + [order]),
      pendingAmount := d.pendingAmount[order.pool := queued + order.info.amount]))
  }

  function Stake(cfg: Config, s: State, origin: Origin, pool: PoolId, amount: Balance, refused: Refused): Outcome {
    var who :- EnsureSigned(origin);
    var setting :- Lookup(s.settings, pool).OkOr(PoolNotExisted);
    var end :- setting.EndTime().OkOr(TypeIncompatibleOrArithmeticError);
    var _ :- Need(setting.startTime < s.now, PoolNotStarted);
    var room :- AvailableCap(s.deposits, pool, setting.poolCap);
    var _ :- Need(room >= amount, PoolCapLimit);
    var target :- TargetTime(setting, s.now);
    var deposits :- Enqueue(s.deposits, NewOrder(who, pool, target, amount));
    var natives :- Deposit(s.natives, who, s.now, amount).OkOr(TypeIncompatibleOrArithmeticError);
    var asset :- s.tokens.aiusd.OkOr(NoAssetId);
    var tokens :- Transfer(s.tokens, asset, who, cfg.escrow, amount, refused);
    Ok(s.(deposits := deposits, natives := natives, tokens := tokens,
        events := s.events + [Staked(who, pool, target, amount)]))
  }

  /** What settling leaves behind: the deposits it reached, its events, and why it stopped if it failed. */
  datatype Settled = Settled(deposits: Deposits, events: seq<Event>, failure: Option<Error>)

  /** Applies an order; if the user's part fails the pool's part is already written. */
  function DoStableAdd(d: Deposits, who: AccountId, pool: PoolId, amount: Balance, time: BlockNumber): (Deposits,
          Option<Error>) {
    var whole := AddOrCreate(Lookup(d.pools, pool), time, amount);
    if whole.None? then (d, Some(TypeIncompatibleOrArithmeticError)) else
    var d1 := d.(pools := d.pools[pool := whole.value]);
    var part := AddOrCreate(Lookup(d.users, (who, pool)), time, amount);
    if part.None? then (d1, Some(TypeIncompatibleOrArithmeticError))
    else (d1.(users := d.users[(who, pool) := part.value]), None)
  }

  function SolvedEvent(x: Order, n: BlockNumber): Event {
    PendingStakingSolved(x.who, x.pool, n, x.info.amount)
  }

  /** Applies one ripe order and takes it off the pending amount. */
  function SolveOne(d: Deposits, x: Order, n: BlockNumber): Settled {
    var (d1, failure) := DoStableAdd(d, x.who, x.pool, x.info.amount, n);
    if failure.Some? then Settled(d1, [], failure) else
    var queued := GetOrZero(d1.pendingAmount, x.pool);
    if queued < x.info.amount then Settled(d1, [SolvedEvent(x, n)], Some(Underflow))
    else Settled(d1.(pendingAmount := d1.pendingAmount[x.pool := queued - x.info.amount]), [SolvedEvent(x, n)], None)
  }

  /** Pops ripe orders off `q` while the stored queue is empty, and puts back what is left. */
  function SolveLoop(d: Deposits, q: seq<Order>, n: BlockNumber): Settled
    decreases |q|
  {
    if q == [] || q[0].Time() > n then Settled(d.(pending := q), [], None) else
    var one := SolveOne(d, q[0], n);
    if one.failure.Some? then one else
    var rest := SolveLoop(one.deposits, q[1..], n);
    rest.(events := one.events + rest.events)
  }

  function SolvePending(d: Deposits, n: BlockNumber): Settled {
    SolveLoop(d.(pending := []), d.pending, n)
  }

  /** The block hook: the clock has moved to `n`, and a failure is discarded but not undone. */
  function BeginBlock(s: State, n: BlockNumber): State {
    if s.deposits.pending != [] && s.deposits.pending[0].Time() <= n then
      var solved := SolvePending(s.deposits, n);
      s.(now := n, deposits := solved.deposits, events := s.events + solved.events)
    else s.(now := n)
  }

  function SolvePendingStake(s: State, origin: Origin): Outcome {
    var who :- EnsureSigned(origin);
    var solved := SolvePending(s.deposits, s.now);
    if solved.failure.Some? then Err(solved.failure.value)
    else Ok(s.(deposits := solved.deposits, events := s.events + solved.events))
  }

  function DoNativeClaim(cfg: Config, s: State, who: AccountId, until: BlockNumber, refused: Refused): Outcome {
    var _ :- Need(until <= s.now, CannotClaimFuture);
    if s.natives.pool.None? || who !in s.natives.users then Ok(s) else
    var share :- TakeShare(s.natives.pool.value, s.natives.users[who], until).OkOr(TypeIncompatibleOrArithmeticError);
    var reward := MulNearest(Parts(cfg, share.weight, share.total), GetOrZero(s.tokens.native, cfg.rewardAccount));
    var tokens :- TransferNative(s.tokens, cfg.rewardAccount, who, reward, refused);
    Ok(s.(
      natives := Book(Some(share.pool), s.natives.users[who := share.user]),
      tokens := tokens,
      events := s.events + [NativeRewardClaimed(who, until, reward)]))
  }

  function ClaimNative(cfg: Config, s: State, origin: Origin, until: BlockNumber, refused: Refused): Outcome {
    var who :- EnsureSigned(origin);
    DoNativeClaim(cfg, s, who, until, refused)
  }

  function DoStableClaim(cfg: Config, s: State, who: AccountId, pool: PoolId, until: BlockNumber,
          refused: Refused): Outcome {
    var _ :- Need(until <= s.now, CannotClaimFuture);
    var asset :- s.tokens.aiusd.OkOr(NoAssetId);
    if pool !in s.deposits.pools || (who, pool) !in s.deposits.users then Ok(s) else
    var share :- TakeShare(s.deposits.pools[pool], s.deposits.users[(who, pool)],
        until).OkOr(TypeIncompatibleOrArithmeticError);
    var unclaimed := GetOrZero(s.rewards.unclaimed, pool);
    var reward := MulNearest(Parts(cfg, share.weight, share.total), unclaimed);
    var tokens :- Transfer(s.tokens, asset, cfg.escrow, who, reward, refused);
    Ok(s.(
      deposits := s.deposits.(pools := s.deposits.pools[pool := share.pool],
                              users := s.deposits.users[(who, pool) := share.user]),
      rewards := s.rewards.(unclaimed := s.rewards.unclaimed[pool := unclaimed - reward]),
      tokens := tokens,
      events := s.events + [StableRewardClaimed(who, pool, until, reward)]))
  }

  function ClaimStable(cfg: Config, s: State, origin: Origin, pool: PoolId, until: BlockNumber,
          refused: Refused): Outcome {
    var who :- EnsureSigned(origin);
    DoStableClaim(cfg, s, who, pool, until, refused)
  }

  /** Takes an amount out of the native positions; a user's position goes when that empties it. */
  function WithdrawNative(b: Book<AccountId>, who: AccountId, amount: Balance): Option<Book<AccountId>> {
    var whole := if b.pool.None? then Some(b.pool)
                 else if b.pool.value.Withdrawn(amount).None? then None
                 else Some(b.pool.value.Withdrawn(amount));
    if whole.None? then None
    else if who !in b.users then Some(b.(pool := whole.value))
    else if b.users[who].amount == amount then Some(Book(whole.value, b.users - {who}))
    else if b.users[who].Withdrawn(amount).None? then None
    else Some(Book(whole.value, b.users[who := b.users[who].Withdrawn(amount).value]))
  }

  function DoWithdraw(cfg: Config, s: State, who: AccountId, pool: PoolId, refused: Refused): Outcome {
    var asset :- s.tokens.aiusd.OkOr(NoAssetId);
    if pool !in s.deposits.pools || (who, pool) !in s.deposits.users then Ok(s) else
    var amount := s.deposits.users[(who, pool)].amount;
    var tokens :- Transfer(s.tokens, asset, cfg.escrow, who, amount, refused);
    var left :- s.deposits.pools[pool].Withdrawn(amount).OkOr(Underflow);
    var natives :- WithdrawNative(s.natives, who, amount).OkOr(Underflow);
    Ok(s.(
      deposits := s.deposits.(pools := s.deposits.pools[pool := left], users := s.deposits.users - {(who, pool)}),
      natives := natives,
      tokens := tokens,
      events := s.events + [Event.Withdraw(who, pool, s.now, amount)]))
  }

  function WithdrawStake(cfg: Config, s: State, origin: Origin, pool: PoolId, refused: Refused): Outcome {
    var who :- EnsureSigned(origin);
    var setting :- Lookup(s.settings, pool).OkOr(PoolNotExisted);
    var end :- setting.EndTime().OkOr(TypeIncompatibleOrArithmeticError);
    var _ :- Need(end < s.now, PoolNotEnded);
    var s1 :- DoNativeClaim(cfg, s, who, s.now, refused);
    var s2 :- DoStableClaim(cfg, s1, who, pool, s.now, refused);
    DoWithdraw(cfg, s2, who, pool, refused)
  }

  function RegistAiusd(s: State, origin: Origin, asset: AssetId): Outcome {
    var _ :- EnsureRoot(origin);
    Ok(s.(tokens := s.tokens.(aiusd := Some(asset)), events := s.events + [AiusdRegistered(asset)]))
  }
}
