/**
 The staking pallet as the program runs it: storage items updated in place, positions mutated in
 working copies, the pending queue popped in a loop.  Every method is tied to its step on `State`.
 */
module StakingPallet {
  import opened Base
  import opened Ledger
  import opened StakingInfos
  import opened Epochs
  import opened Queue
  import opened Drift
  import Spec = StakingState
  import opened StakingState
  import opened StakingRuns
  import opened StakingShares

  type Done = Result<(), Error>

  /** A transactional call does what the step says, or fails with its error and changes nothing. */
  ghost predicate Transacted(step: Outcome, r: Done, before: State, after: State) {
    match step
    case Ok(t) => r == Ok(()) && after == t
    case Err(e) => r == Err(e) && after == before
  }

  /** Before the rollback a failed call may leave anything behind. */
  ghost predicate Attempted(step: Outcome, r: Done, after: State) {
    match step
    case Ok(t) => r == Ok(()) && after == t
    case Err(e) => r == Err(e)
  }

  ghost function Resumed(done: seq<Event>, rest: Settled): Settled {
    rest.(events := done + rest.events)
  }

  /** One turn of the loop: settle the front order, then carry on with what it left. */
  lemma SolveLoopResumes(done: seq<Event>, d: Deposits, q: seq<Order>, n: BlockNumber)
    requires q != [] && q[0].Time() <= n
    ensures var one := SolveOne(d, q[0], n);
            && one.deposits.pending == d.pending
            && Resumed(done, SolveLoop(d, q, n)) ==
                 if one.failure.Some? then Resumed(done, one)
                 else Resumed(done + one.events, SolveLoop(one.deposits, q[1..], n))
  {
    var one := SolveOne(d, q[0], n);
    var rest := SolveLoop(one.deposits, q[1..], n);
    assert done + (one.events + rest.events) == done + one.events + rest.events;
  }

  lemma SolveLoopStops(done: seq<Event>, d: Deposits, q: seq<Order>, n: BlockNumber)
    requires q == [] || q[0].Time() > n
    ensures Resumed(done, SolveLoop(d, q, n)) == Settled(d.(pending := q), done, None)
  {
  }

  class Pallet {
    const cfg: Config
    ghost const asset: AssetId
    ghost var start: nat
    var now: BlockNumber
    var settings: map<PoolId, PoolSetting>
    var deposits: Deposits
    var natives: Book<AccountId>
    var rewards: Rewards
    var tokens: Tokens
    var events: seq<Event>

    /**
     A pallet over a stored state; `asset` is the one to be registered, `start` what its
     escrow held before any stake, with all gifts since.
     */
    constructor (cfg: Config, s: State, ghost asset: AssetId, ghost start: nat)
      ensures this.cfg == cfg && this.asset == asset && this.start == start && View() == s
    {
      this.cfg, this.asset, this.start := cfg, asset, start;
      now, settings, deposits, natives := s.now, s.settings, s.deposits, s.natives;
      rewards, tokens, events := s.rewards, s.tokens, s.events;
    }

    function View(): State
      reads this
    {
      State(now, settings, deposits, natives, rewards, tokens, events)
    }

    /** The invariant of every reachable state. */
    ghost predicate Valid()
      reads this
    {
      Invariant(cfg, asset, start, View()) && Begun(View())
    }

    method Restore(s: State)
      modifies this
      ensures View() == s
    {
      now, settings, deposits, natives := s.now, s.settings, s.deposits, s.natives;
      rewards, tokens, events := s.rewards, s.tokens, s.events;
    }

    method DepositEvent(e: Event)
      modifies `events
      ensures events == old(events) + [e]
    {
      events := events + [e];
    }

    /** Moves tokens of the registered asset, or fails and moves nothing. */
    method TransferAsset(asset: AssetId, from: AccountId, to: AccountId, amount: Balance,
            refused: Refused) returns (r: Done)
      modifies `tokens
      ensures match Spec.Transfer(old(tokens), asset, from, to, amount, refused)
              case Ok(u) => r == Ok(()) && tokens == u
              case Err(e) => r == Err(e) && tokens == old(tokens)
    {
      var _ :- Need((from, to) !in refused, TokenFailure);
      var moved :- Move(tokens.assets, (asset, from), (asset, to), amount).OkOr(TokenFailure);
      tokens := tokens.(assets := moved);
      return Ok(());
    }

    method TransferNativeToken(from: AccountId, to: AccountId, amount: Balance, refused: Refused) returns (r: Done)
      modifies `tokens
      ensures match Spec.TransferNative(old(tokens), from, to, amount, refused)
              case Ok(u) => r == Ok(()) && tokens == u
              case Err(e) => r == Err(e) && tokens == old(tokens)
    {
      var _ :- Need((from, to) !in refused, TokenFailure);
      var moved :- Move(tokens.native, from, to, amount).OkOr(TokenFailure);
      tokens := tokens.(native := moved);
      return Ok(());
    }

    method CreateStakingPool(origin: Origin, pool: PoolId, setting: PoolSetting) returns (r: Done)
      modifies this
      ensures Transacted(Spec.CreateStakingPool(old(View()), origin, pool, setting), r, old(View()), View())
    {
      var _ :- EnsureRoot(origin);
      var _ :- Need(now <= setting.startTime, PoolAlreadyStarted);
      var _ :- Need(pool !in settings, PoolAlreadyExisted);
      settings := settings[pool := setting];
      DepositEvent(StakingPoolCreated(pool, setting));
      return Ok(());
    }

    method UpdateReward(origin: Origin, pool: PoolId, epoch: u128, reward: Balance, refuses: bool)
      returns (r: Done)
      modifies this
      ensures Transacted(Spec.UpdateReward(cfg, old(View()), origin, pool, epoch, reward, refuses), r, old(View()),
            View())
    {
      var saved := View();
      r := TryUpdateReward(origin, pool, epoch, reward, refuses);
      if r.Err? {
        Restore(saved);
      }
    }

    method TryUpdateReward(origin: Origin, pool: PoolId, epoch: u128, reward: Balance, refuses: bool)
      returns (r: Done)
      modifies this
      ensures Attempted(Spec.UpdateReward(cfg, old(View()), origin, pool, epoch, reward, refuses), r, View())
    {
      var _ :- EnsureRoot(origin);
      var setting :- Lookup(settings, pool).OkOr(PoolNotExisted);
      var current :- EpochIndex(setting, now);
      var _ :- Need(setting.epoch >= epoch, EpochNotExisted);
      var _ :- Need(current <= epoch, EpochAlreadyEnded);
      var asset :- tokens.aiusd.OkOr(NoAssetId);
      var _ :- Need(!refuses, TokenFailure);
      var minted :- Credit(tokens.assets, (asset, cfg.escrow), reward).OkOr(TokenFailure);
      tokens := tokens.(assets := minted);
      var _ :- Need((pool, epoch) !in rewards.perEpoch, RewardAlreadyExisted);
      rewards := rewards.(perEpoch := rewards.perEpoch[(pool, epoch) := reward]);
      DepositEvent(RewardUpdated(pool, epoch, reward));
      var _ :- Need(GetOrZero(rewards.unclaimed, pool) + reward < U128_LIMIT, Overflow);
      rewards := rewards.(unclaimed := rewards.unclaimed[pool := GetOrZero(rewards.unclaimed, pool) + reward]);
      return Ok(());
    }

    method Stake(origin: Origin, pool: PoolId, amount: Balance, refused: Refused) returns (r: Done)
      modifies this
      ensures Transacted(Spec.Stake(cfg, old(View()), origin, pool, amount, refused), r, old(View()), View())
    {
      var saved := View();
      r := TryStake(origin, pool, amount, refused);
      if r.Err? {
        Restore(saved);
      }
    }

    method TryStake(origin: Origin, pool: PoolId, amount: Balance, refused: Refused) returns (r: Done)
      modifies this
      ensures Attempted(Spec.Stake(cfg, old(View()), origin, pool, amount, refused), r, View())
    {
      var who :- EnsureSigned(origin);
      var setting :- Lookup(settings, pool).OkOr(PoolNotExisted);
      var end :- setting.EndTime().OkOr(TypeIncompatibleOrArithmeticError);
      var _ :- Need(setting.startTime < now, PoolNotStarted);
      var room :- AvailableCap(deposits, pool, setting.poolCap);
      var _ :- Need(room >= amount, PoolCapLimit);
      var target :- TargetTime(setting, now);
      var _ :- Push(NewOrder(who, pool, target, amount));
      var _ :- DoNativeAdd(who, amount, now);
      var asset :- tokens.aiusd.OkOr(NoAssetId);
      var _ :- TransferAsset(asset, who, cfg.escrow, amount, refused);
      DepositEvent(Staked(who, pool, target, amount));
      return Ok(());
    }

    /** Queues an order, sorts the queue again and counts the order as pending. */
    method Push(order: Order) returns (r: Done)
      modifies `deposits
      ensures match Enqueue(old(deposits), order)
              case Ok(d) => r == Ok(()) && deposits == d
              case Err(e) => r == Err(e)
    {
      deposits := deposits.(pending := SortByTime(deposits.pending + [order]));
      var queued := GetOrZero(deposits.pendingAmount, order.pool);
      var _ :- Need(queued + order.info.amount < U128_LIMIT, Overflow);
      deposits := deposits.(pendingAmount := deposits.pendingAmount[order.pool := queued + order.info.amount]);
      return Ok(());
    }

    /** Adds to the global checkpoint, then to the user's. */
    method DoNativeAdd(who: AccountId, amount: Balance, time: BlockNumber) returns (r: Done)
      modifies `natives
      ensures var b := Deposit(old(natives), who, time, amount);
              if b.Some? then r == Ok(()) && natives == b.value else r == Err(TypeIncompatibleOrArithmeticError)
    {
      if natives.pool.Some? {
        var whole := new Checkpoint(natives.pool.value);
        var ok := whole.Add(time, amount);
        var _ :- Need(ok, TypeIncompatibleOrArithmeticError);
        natives := natives.(pool := Some(whole.Info()));
      } else {
        natives := natives.(pool := Some(StakingInfo(time, amount, time)));
      }
      if who in natives.users {
        var part := new Checkpoint(natives.users[who]);
        var ok := part.Add(time, amount);
        var _ :- Need(ok, TypeIncompatibleOrArithmeticError);
        natives := natives.(users := natives.users[who := part.Info()]);
      } else {
        natives := natives.(users := natives.users[who := StakingInfo(time, amount, time)]);
      }
      return Ok(());
    }

    /** Adds to the pool's checkpoint, then to the user's; the first stays if the second fails. */
    method DoStableAdd(who: AccountId, pool: PoolId, amount: Balance, time: BlockNumber) returns (r: Done)
      modifies `deposits
      ensures var (d, failure) := Spec.DoStableAdd(old(deposits), who, pool, amount, time);
              && deposits == d
              && r == (if failure.Some? then Err(failure.value) else Ok(()))
    {
      if pool in deposits.pools {
        var whole := new Checkpoint(deposits.pools[pool]);
        var ok := whole.Add(time, amount);
        var _ :- Need(ok, TypeIncompatibleOrArithmeticError);
        deposits := deposits.(pools := deposits.pools[pool := whole.Info()]);
      } else {
        deposits := deposits.(pools := deposits.pools[pool := StakingInfo(time, amount, time)]);
      }
      if (who, pool) in deposits.users {
        var part := new Checkpoint(deposits.users[(who, pool)]);
        var ok := part.Add(time, amount);
        var _ :- Need(ok, TypeIncompatibleOrArithmeticError);
        deposits := deposits.(users := deposits.users[(who, pool) := part.Info()]);
      } else {
        deposits := deposits.(users := deposits.users[(who, pool) := StakingInfo(time, amount, time)]);
      }
      return Ok(());
    }

    /** Applies one order and takes it off the pending amount; what it did before a failure stays. */
    method SolveFront(x: Order, n: BlockNumber) returns (failure: Option<Error>)
      modifies `deposits, `events
      ensures Settled(deposits, events, failure) ==
                var one := SolveOne(old(deposits), x, n);
                one.(events := old(events) + one.events)
    {
      var r := DoStableAdd(x.who, x.pool, x.info.amount, n);
      if r.Err? {
        assert events + [] == events;
        return Some(r.error);
      }
      DepositEvent(SolvedEvent(x, n));
      var queued := GetOrZero(deposits.pendingAmount, x.pool);
      if queued < x.info.amount {
        return Some(Underflow);
      }
      deposits := deposits.(pendingAmount := deposits.pendingAmount[x.pool := queued - x.info.amount]);
      return None;
    }

    /** Takes the queue out of storage, pops what is ripe, and writes back what is left. */
    method SolvePending(n: BlockNumber) returns (failure: Option<Error>)
      modifies `deposits, `events
      ensures var solved := Spec.SolvePending(old(deposits), n);
              && failure == solved.failure
              && deposits == solved.deposits
              && events == old(events) + solved.events
    {
      var queue := deposits.pending;
      deposits := deposits.(pending := []);
      ghost var all := Resumed(events, SolveLoop(deposits, queue, n));
      while queue != []
        invariant deposits.pending == []
        invariant all == Resumed(events, SolveLoop(deposits, queue, n))
        decreases |queue|
      {
        ghost var whole := queue;
        var x := queue[0];
        queue := queue[1..];
        if x.Time() > n {
          queue := [x] + queue;
          break;
        }
        SolveLoopResumes(events, deposits, whole, n);
        failure := SolveFront(x, n);
        if failure.Some? {
          return;
        }
      }
      SolveLoopStops(events, deposits, queue, n);
      deposits := deposits.(pending := queue);
      return None;
    }

    /** The hook at the start of block `n`: a failure is dropped, what it did is not. */
    method BeginBlock(n: BlockNumber)
      modifies this
      ensures View() == Spec.BeginBlock(old(View()), n)
    {
      now := n;
      if 0 < |deposits.pending| {
        if deposits.pending[0].Time() <= n {
          var _ := SolvePending(n);
        }
      }
    }

    method SolvePendingStake(origin: Origin) returns (r: Done)
      modifies this
      ensures Transacted(Spec.SolvePendingStake(old(View()), origin), r, old(View()), View())
    {
      var _ :- EnsureSigned(origin);
      var saved := View();
      var failure := SolvePending(now);
      if failure.Some? {
        Restore(saved);
        return Err(failure.value);
      }
      return Ok(());
    }

    /** Consumes a user's weight and as much of the pool's, both in working copies. */
    method TakeWeight(pool: StakingInfo, user: StakingInfo, until: BlockNumber) returns (r: Result<Share, Error>)
      ensures r == TakeShare(pool, user, until).OkOr(TypeIncompatibleOrArithmeticError)
    {
      var whole := new Checkpoint(pool);
      var part := new Checkpoint(user);
      var claimed := part.Claim(until);
      var weight :- claimed.OkOr(TypeIncompatibleOrArithmeticError);
      var total :- whole.Info().WeightForce(until).OkOr(TypeIncompatibleOrArithmeticError);
      var moved := whole.ClaimBasedOnWeight(weight);
      var _ :- moved.OkOr(TypeIncompatibleOrArithmeticError);
      return Ok(Share(whole.Info(), part.Info(), weight, total));
    }

    method ClaimNative(origin: Origin, until: BlockNumber, refused: Refused) returns (r: Done)
      modifies this
      ensures Transacted(Spec.ClaimNative(cfg, old(View()), origin, until, refused), r, old(View()), View())
    {
      var who :- EnsureSigned(origin);
      var saved := View();
      r := DoNativeClaim(who, until, refused);
      if r.Err? {
        Restore(saved);
      }
    }

    method DoNativeClaim(who: AccountId, until: BlockNumber, refused: Refused) returns (r: Done)
      modifies this
      ensures Attempted(Spec.DoNativeClaim(cfg, old(View()), who, until, refused), r, View())
    {
      var _ :- Need(until <= now, CannotClaimFuture);
      var rewardPool := GetOrZero(tokens.native, cfg.rewardAccount);
      if natives.pool.Some? && who in natives.users {
        var share :- TakeWeight(natives.pool.value, natives.users[who], until);
        var reward := MulNearest(Parts(cfg, share.weight, share.total), rewardPool);
        var _ :- TransferNativeToken(cfg.rewardAccount, who, reward, refused);
        natives := natives.(pool := Some(share.pool));
        natives := natives.(users := natives.users[who := share.user]);
        DepositEvent(NativeRewardClaimed(who, until, reward));
      }
      return Ok(());
    }

    method ClaimStable(origin: Origin, pool: PoolId, until: BlockNumber, refused: Refused) returns (r: Done)
      modifies this
      ensures Transacted(Spec.ClaimStable(cfg, old(View()), origin, pool, until, refused), r, old(View()), View())
    {
      var who :- EnsureSigned(origin);
      var saved := View();
      r := DoStableClaim(who, pool, until, refused);
      if r.Err? {
        Restore(saved);
      }
    }

    method DoStableClaim(who: AccountId, pool: PoolId, until: BlockNumber, refused: Refused) returns (r: Done)
      modifies this
      ensures Attempted(Spec.DoStableClaim(cfg, old(View()), who, pool, until, refused), r, View())
    {
      var _ :- Need(until <= now, CannotClaimFuture);
      var rewardPool := GetOrZero(rewards.unclaimed, pool);
      var asset :- tokens.aiusd.OkOr(NoAssetId);
      if pool in deposits.pools && (who, pool) in deposits.users {
        var share :- TakeWeight(deposits.pools[pool], deposits.users[(who, pool)], until);
        var reward := MulNearest(Parts(cfg, share.weight, share.total), rewardPool);
        var _ :- TransferAsset(asset, cfg.escrow, who, reward, refused);
        rewards := rewards.(unclaimed := rewards.unclaimed[pool := rewardPool - reward]);
        deposits := deposits.(pools := deposits.pools[pool := share.pool]);
        deposits := deposits.(users := deposits.users[(who, pool) := share.user]);
        DepositEvent(StableRewardClaimed(who, pool, until, reward));
      }
      return Ok(());
    }

    method Withdraw(origin: Origin, pool: PoolId, refused: Refused) returns (r: Done)
      modifies this
      ensures Transacted(WithdrawStake(cfg, old(View()), origin, pool, refused), r, old(View()), View())
    {
      var saved := View();
      r := TryWithdraw(origin, pool, refused);
      if r.Err? {
        Restore(saved);
      }
    }

    method TryWithdraw(origin: Origin, pool: PoolId, refused: Refused) returns (r: Done)
      modifies this
      ensures Attempted(WithdrawStake(cfg, old(View()), origin, pool, refused), r, View())
    {
      var who :- EnsureSigned(origin);
      var setting :- Lookup(settings, pool).OkOr(PoolNotExisted);
      var end :- setting.EndTime().OkOr(TypeIncompatibleOrArithmeticError);
      var _ :- Need(end < now, PoolNotEnded);
      var block := now;
      var _ :- DoNativeClaim(who, block, refused);
      var _ :- DoStableClaim(who, pool, block, refused);
      r := DoWithdraw(who, pool, refused);
    }

    method DoWithdraw(who: AccountId, pool: PoolId, refused: Refused) returns (r: Done)
      modifies this
      ensures Attempted(Spec.DoWithdraw(cfg, old(View()), who, pool, refused), r, View())
    {
      var asset :- tokens.aiusd.OkOr(NoAssetId);
      if pool in deposits.pools && (who, pool) in deposits.users {
        var amount := deposits.users[(who, pool)].amount;
        var _ :- TransferAsset(asset, cfg.escrow, who, amount, refused);
        var whole := new Checkpoint(deposits.pools[pool]);
        var left := whole.Withdraw(amount);
        var _ :- left.OkOr(Underflow);
        deposits := deposits.(pools := deposits.pools[pool := whole.Info()]);
        var _ :- WithdrawFromNative(who, amount);
        deposits := deposits.(users := deposits.users - {(who, pool)});
        DepositEvent(Event.Withdraw(who, pool, now, amount));
      }
      return Ok(());
    }

    /** Takes an amount out of the global native checkpoint and out of the user's, dropping that when it is empty. */
    method WithdrawFromNative(who: AccountId, amount: Balance) returns (r: Done)
      modifies `natives
      ensures var b := WithdrawNative(old(natives), who, amount);
              if b.Some? then r == Ok(()) && natives == b.value else r == Err(Underflow)
    {
      if natives.pool.Some? {
        var whole := new Checkpoint(natives.pool.value);
        var left := whole.Withdraw(amount);
        var _ :- left.OkOr(Underflow);
        natives := natives.(pool := Some(whole.Info()));
      }
      if who in natives.users {
        if natives.users[who].amount == amount {
          natives := natives.(users := natives.users - {who});
        } else {
          var part := new Checkpoint(natives.users[who]);
          var left := part.Withdraw(amount);
          var _ :- left.OkOr(Underflow);
          natives := natives.(users := natives.users[who := part.Info()]);
        }
      }
      return Ok(());
    }

    method RegistAiusd(origin: Origin, asset: AssetId) returns (r: Done)
      modifies this
      ensures Transacted(Spec.RegistAiusd(old(View()), origin, asset), r, old(View()), View())
    {
      var _ :- EnsureRoot(origin);
      tokens := tokens.(aiusd := Some(asset));
      DepositEvent(AiusdRegistered(asset));
      return Ok(());
    }

    /** Any call, block or outside token movement: one step of a run. */
    method Perform(a: Action)
      modifies this
      ensures View() == Apply(cfg, old(View()), a)
    {
      match a {
        case NextBlock =>
          if now + 1 < U32_LIMIT {
            BeginBlock(now + 1);
          }
        case CallCreate(origin, pool, setting) => var _ := CreateStakingPool(origin, pool, setting);
        case CallReward(origin, pool, epoch, reward, refuses) => var _ :=
            UpdateReward(origin, pool, epoch, reward, refuses);
        case CallStake(origin, pool, amount, refused) => var _ := Stake(origin, pool, amount, refused);
        case CallSolve(origin) => var _ := SolvePendingStake(origin);
        case CallClaimNative(origin, until, refused) => var _ := ClaimNative(origin, until, refused);
        case CallClaimStable(origin, pool, until, refused) => var _ := ClaimStable(origin, pool, until, refused);
        case CallWithdraw(origin, pool, refused) => var _ := Withdraw(origin, pool, refused);
        case CallRegist(origin, registered) => var _ := RegistAiusd(origin, registered);
        case OutsideAsset(other, account, balance) =>
          tokens := tokens.(assets := tokens.assets[(other, account) := balance]);
        case OutsideNative(account, balance) =>
          tokens := tokens.(native := tokens.native[account := balance]);
        case OutsideGift(given, amount) =>
          var credited := Credit(tokens.assets, (given, cfg.escrow), amount);
          if credited.Some? {
            tokens := tokens.(assets := credited.value);
          }
      }
    }

    /** Every step keeps the invariant unless the hook fails. */
    method Dispatch(a: Action)
      modifies this
      ensures View() == Apply(cfg, old(View()), a)
      ensures old(Valid()) && Admissible(cfg, asset, a) && !HookFails(old(View()), a) ==> Valid()
    {
      ghost var before, funds := View(), start;
      Perform(a);
      start := funds + Gift(cfg, asset, before, a);
      StepKeepsValid(cfg, asset, funds, before, a);
    }
  }

  lemma StepKeepsValid(cfg: Config, asset: AssetId, start: nat, s: State, a: Action)
    ensures Invariant(cfg, asset, start, s) && Begun(s) && Admissible(cfg, asset, a) && !HookFails(s, a) ==>
              Invariant(cfg, asset, start + Gift(cfg, asset, s, a), Apply(cfg, s, a)) && Begun(Apply(cfg, s, a))
  {
    if Invariant(cfg, asset, start, s) && Begun(s) && Admissible(cfg, asset, a) && !HookFails(s, a) {
      StepKeeps(cfg, asset, start, s, a);
      StepBegun(cfg, s, a);
    }
  }
}
