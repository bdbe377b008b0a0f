/**
 Stored positions against the log: in every run, failing hooks included, a user's position in a pool is what
 its settled deposits and its claims since its last withdrawal make of nothing.
 */
module StakingTelescope {
  import opened Base
  import opened StakingInfos
  import opened Queue
  import opened Drift
  import opened Telescope
  import opened StakingState
  import opened StakingSteps
  import opened StakingRuns

  /** The moves the log shows of one user in one pool since the last withdrawal. */
  ghost function MovesOf(events: seq<Event>, who: AccountId, p: PoolId): seq<Move> {
    if events == [] then []
    else Following(MovesOf(events[..|events| - 1], who, p), events[|events| - 1], who, p)
  }

  /** A settled deposit adds at its block, a claim takes up to a block, and a withdrawal ends the position. */
  ghost function Following(earlier: seq<Move>, e: Event, who: AccountId, p: PoolId): seq<Move> {
    match e
    case PendingStakingSolved(w, q, time, amount) => if (w, q) == (who, p) then earlier + [Add(time, amount)]
        else earlier
    case StableRewardClaimed(w, q, until, _) => if (w, q) == (who, p) then earlier + [Take(until)] else earlier
    case Withdraw(w, q, _, _) => if (w, q) == (who, p) then [] else earlier
    case _ => earlier
  }

  /** The stored position is the one those moves lead to. */
  ghost predicate Replayed(d: Deposits, events: seq<Event>, who: AccountId, p: PoolId) {
    var t := Play(MovesOf(events, who, p));
    t.Some? && t.value.position == Lookup(d.users, (who, p))
  }

  lemma MovesAppend(events: seq<Event>, e: Event, who: AccountId, p: PoolId)
    ensures MovesOf(events + [e], who, p) == Following(MovesOf(events, who, p), e, who, p)
  {
    assert (events + [e])[..|events|] == events;
  }

  lemma PlayAppend(moves: seq<Move>, m: Move)
    requires Play(moves).Some?
    ensures Play(moves + [m]) == Step(Play(moves).value, m)
  {
    assert (moves + [m])[..|moves|] == moves;
  }

  /** An event of somebody else, or of no position at all. */
  predicate Elsewhere(e: Event, who: AccountId, p: PoolId) {
    (e.PendingStakingSolved? || e.StableRewardClaimed? || e.Withdraw?) ==> (e.who, e.pool) != (who, p)
  }

  lemma ReplayedElsewhere(d: Deposits, t: Deposits, events: seq<Event>, e: Event, who: AccountId, p: PoolId)
    requires Replayed(d, events, who, p) && Elsewhere(e, who, p)
    requires Lookup(t.users, (who, p)) == Lookup(d.users, (who, p))
    ensures Replayed(t, events + [e], who, p)
  {
    MovesAppend(events, e, who, p);
  }

  lemma ReplayedAdd(d: Deposits, t: Deposits, events: seq<Event>, who: AccountId, p: PoolId, n: BlockNumber,
          amount: Balance)
    requires Replayed(d, events, who, p) && AddOrCreate(Lookup(d.users, (who, p)), n, amount).Some?
    requires t.users == d.users[(who, p) := AddOrCreate(Lookup(d.users, (who, p)), n, amount).value]
    ensures Replayed(t, events + [PendingStakingSolved(who, p, n, amount)], who, p)
  {
    MovesAppend(events, PendingStakingSolved(who, p, n, amount), who, p);
    PlayAppend(MovesOf(events, who, p), Add(n, amount));
  }

  lemma SolveOneReplayed(d: Deposits, events: seq<Event>, x: Order, n: BlockNumber, who: AccountId, p: PoolId)
    requires Replayed(d, events, who, p)
    ensures var one := SolveOne(d, x, n); Replayed(one.deposits, events + one.events, who, p)
  {
    var one := SolveOne(d, x, n);
    SolvedMaps(d, x, n);
    if one.events == [] {
      assert events + one.events == events;
    } else if (x.who, x.pool) == (who, p) {
      ReplayedAdd(d, one.deposits, events, who, p, n, x.info.amount);
    } else {
      ReplayedElsewhere(d, one.deposits, events, SolvedEvent(x, n), who, p);
    }
  }

  lemma {:induction false} SolveLoopReplayed(d: Deposits, events: seq<Event>, q: seq<Order>, n: BlockNumber,
          who: AccountId, p: PoolId)
    requires Replayed(d, events, who, p)
    ensures var all := SolveLoop(d, q, n); Replayed(all.deposits, events + all.events, who, p)
    decreases |q|
  {
    if q == [] || q[0].Time() > n {
      assert events + [] == events;
      assert Replayed(d.(pending := q), events, who, p);
    } else {
      var one := SolveOne(d, q[0], n);
      SolveOneReplayed(d, events, q[0], n, who, p);
      if one.failure.None? {
        SolveLoopReplayed(one.deposits, events + one.events, q[1..], n, who, p);
        SolveLoopSplits(d, q, n, events);
      }
    }
  }

  lemma StableClaimReplayed(cfg: Config, s: State, who: AccountId, pool: PoolId, until: BlockNumber,
          refused: Refused, u: AccountId, p: PoolId)
    requires DoStableClaim(cfg, s, who, pool, until, refused).Ok? && Replayed(s.deposits, s.events, u, p)
    ensures var t := DoStableClaim(cfg, s, who, pool, until, refused).value; Replayed(t.deposits, t.events, u, p)
  {
    var t := DoStableClaim(cfg, s, who, pool, until, refused).value;
    StableClaimParts(cfg, s, who, pool, until, refused);
    if pool in s.deposits.pools && (who, pool) in s.deposits.users {
      StableClaimShare(cfg, s, who, pool, until, refused);
      var reward: Balance :| StableClaimPays(cfg, s, t, who, pool, until, refused, reward);
      var e := StableRewardClaimed(who, pool, until, reward);
      if (who, pool) != (u, p) {
        ReplayedElsewhere(s.deposits, t.deposits, s.events, e, u, p);
      } else {
        MovesAppend(s.events, e, u, p);
        PlayAppend(MovesOf(s.events, u, p), Take(until));
      }
    }
  }

  lemma NativeClaimReplayed(cfg: Config, s: State, who: AccountId, until: BlockNumber, refused: Refused,
          u: AccountId, p: PoolId)
    requires DoNativeClaim(cfg, s, who, until, refused).Ok? && Replayed(s.deposits, s.events, u, p)
    ensures var t := DoNativeClaim(cfg, s, who, until, refused).value; Replayed(t.deposits, t.events, u, p)
  {
    var t := DoNativeClaim(cfg, s, who, until, refused).value;
    NativeClaimParts(cfg, s, who, until, refused);
    if t != s {
      ReplayedElsewhere(s.deposits, t.deposits, s.events, t.events[|s.events|], u, p);
    }
  }

  lemma DoWithdrawReplayed(cfg: Config, s: State, who: AccountId, pool: PoolId, refused: Refused, u: AccountId,
          p: PoolId)
    requires DoWithdraw(cfg, s, who, pool, refused).Ok? && Replayed(s.deposits, s.events, u, p)
    ensures var t := DoWithdraw(cfg, s, who, pool, refused).value; Replayed(t.deposits, t.events, u, p)
  {
    DoWithdrawParts(cfg, s, who, pool, refused);
    if pool in s.deposits.pools && (who, pool) in s.deposits.users {
      var t := DoWithdraw(cfg, s, who, pool, refused).value;
      MovesAppend(s.events, t.events[|s.events|], u, p);
    }
  }

  lemma WithdrawReplayed(cfg: Config, s: State, origin: Origin, pool: PoolId, refused: Refused, u: AccountId,
          p: PoolId)
    requires WithdrawStake(cfg, s, origin, pool, refused).Ok? && Replayed(s.deposits, s.events, u, p)
    ensures var t := WithdrawStake(cfg, s, origin, pool, refused).value; Replayed(t.deposits, t.events, u, p)
  {
    var who := origin.who;
    var s1 := DoNativeClaim(cfg, s, who, s.now, refused).value;
    NativeClaimReplayed(cfg, s, who, s.now, refused, u, p);
    var s2 := DoStableClaim(cfg, s1, who, pool, s.now, refused).value;
    StableClaimReplayed(cfg, s1, who, pool, s.now, refused, u, p);
    DoWithdrawReplayed(cfg, s2, who, pool, refused, u, p);
  }

  lemma UserStepReplayed(cfg: Config, s: State, a: Action, u: AccountId, p: PoolId)
    requires ByUser(a) && Execute(cfg, s, a).Ok? && Replayed(s.deposits, s.events, u, p)
    ensures var t := Execute(cfg, s, a).value; Replayed(t.deposits, t.events, u, p)
  {
    match a
    case CallStake(origin, pool, amount, refused) =>
      StakeParts(cfg, s, origin, pool, amount, refused);
      var t := Execute(cfg, s, a).value;
      ReplayedElsewhere(s.deposits, t.deposits, s.events, t.events[|s.events|], u, p);
    case CallClaimNative(origin, until, refused) => NativeClaimReplayed(cfg, s, origin.who, until, refused, u, p);
    case CallClaimStable(origin, pool, until, refused) =>
        StableClaimReplayed(cfg, s, origin.who, pool, until, refused, u, p);
    case CallWithdraw(origin, pool, refused) => WithdrawReplayed(cfg, s, origin, pool, refused, u, p);
  }

  lemma BlockReplayed(s: State, u: AccountId, p: PoolId)
    requires s.now + 1 < U32_LIMIT && Replayed(s.deposits, s.events, u, p)
    ensures var t := BeginBlock(s, s.now + 1); Replayed(t.deposits, t.events, u, p)
  {
    BlockIsSettling(s, s.now + 1);
    SolveLoopReplayed(s.deposits.(pending := []), s.events, s.deposits.pending, s.now + 1, u, p);
  }

  lemma OtherStepReplayed(cfg: Config, s: State, a: Action, u: AccountId, p: PoolId)
    requires !ByUser(a) && !a.NextBlock? && Execute(cfg, s, a).Ok? && Replayed(s.deposits, s.events, u, p)
    ensures var t := Execute(cfg, s, a).value; Replayed(t.deposits, t.events, u, p)
  {
    var t := Execute(cfg, s, a).value;
    if a.CallSolve? {
      SolveLoopReplayed(s.deposits.(pending := []), s.events, s.deposits.pending, s.now, u, p);
    } else if t.events != s.events {
      ReplayedElsewhere(s.deposits, t.deposits, s.events, t.events[|s.events|], u, p);
    }
  }

  lemma StepReplayed(cfg: Config, s: State, a: Action, u: AccountId, p: PoolId)
    requires Replayed(s.deposits, s.events, u, p)
    ensures var t := Apply(cfg, s, a); Replayed(t.deposits, t.events, u, p)
  {
    if Execute(cfg, s, a).Ok? {
      if ByUser(a) {
        UserStepReplayed(cfg, s, a, u, p);
      } else if a.NextBlock? {
        BlockReplayed(s, u, p);
      } else {
        OtherStepReplayed(cfg, s, a, u, p);
      }
    }
  }

  /** In every run each user's stored position is the one its logged moves lead to. */
  lemma {:induction false} ReachableReplayed(cfg: Config, s: State, acts: seq<Action>, who: AccountId, p: PoolId)
    requires Genesis(s)
    ensures var t := After(cfg, s, acts); Replayed(t.deposits, t.events, who, p)
    decreases |acts|
  {
    if acts != [] {
      ReachableReplayed(cfg, s, acts[..|acts| - 1], who, p);
      StepReplayed(cfg, After(cfg, s, acts[..|acts| - 1]), acts[|acts| - 1], who, p);
    }
  }

  /**
   So in every run what a user's claims have consumed and what its stored position still weighs are the exact
   stake-blocks of its settled deposits plus a rounding below the sum of the amounts after each: no claim
   counts a stake-block twice beyond rounding.
   */
  lemma ReachableTelescope(cfg: Config, s: State, acts: seq<Action>, who: AccountId, p: PoolId, n: int)
    requires Genesis(s) && (who, p) in After(cfg, s, acts).deposits.users
    ensures var t := After(cfg, s, acts);
            var moves := MovesOf(t.events, who, p);
            && Play(moves).Some?
            && var exact := StakeBlocks(moves, n);
               var consumed := Play(moves).value.claimed + SignedWeight(t.deposits.users[(who, p)], n);
               exact <= consumed <= exact + AmountsAfterAdds(moves)
  {
    var t := After(cfg, s, acts);
    ReachableReplayed(cfg, s, acts, who, p);
    ClaimsTelescope(MovesOf(t.events, who, p), n);
  }
}
