/**
 The synthetic checkpoints over whole runs: how far a pool's weight can stray from its users'
 weights before the first withdrawal, and when it can only stray upwards.
 */
module StakingDrift {
  import opened Base
  import opened Sums
  import opened Epochs
  import opened Queue
  import opened Drift
  import opened StakingState
  import opened StakingSteps
  import opened StakingRuns
  import opened StakingRoom

  /** Which synthetic checkpoint the log is read for. */
  datatype Track = OnPool(p: PoolId) | OnNative

  /** A deposit into the checkpoint: for a pool when it settles, for native rewards when it is made. */
  predicate IsDeposit(e: Event, tr: Track) {
    match tr
    case OnPool(p) => e.PendingStakingSolved? && e.pool == p
    case OnNative => e.Staked?
  }

  predicate IsClaim(e: Event, tr: Track) {
    match tr
    case OnPool(p) => e.StableRewardClaimed? && e.pool == p
    case OnNative => e.NativeRewardClaimed?
  }

  predicate IsExit(e: Event, tr: Track) {
    e.Withdraw? && (tr.OnPool? ==> e.pool == tr.p)
  }

  /** The deposits and claims the log shows. */
  ghost function Moves(events: seq<Event>, tr: Track): nat {
    if events == [] then 0 else
    var e := events[|events| - 1];
    Moves(events[..|events| - 1], tr) + if IsDeposit(e, tr) || IsClaim(e, tr) then 1 else 0
  }

  /** The log shows a withdrawal. */
  ghost predicate Left(events: seq<Event>, tr: Track) {
    events != [] && (IsExit(events[|events| - 1], tr) || Left(events[..|events| - 1], tr))
  }

  /** The log shows a deposit of `who`. */
  ghost predicate Seen(events: seq<Event>, tr: Track, who: AccountId) {
    events != [] &&
    var e := events[|events| - 1];
    (IsDeposit(e, tr) && e.who == who) || Seen(events[..|events| - 1], tr, who)
  }

  /** The log shows two deposits of one user. */
  ghost predicate Repeats(events: seq<Event>, tr: Track) {
    events != [] &&
    var e, earlier := events[|events| - 1], events[..|events| - 1];
    (IsDeposit(e, tr) && Seen(earlier, tr, e.who)) || Repeats(earlier, tr)
  }

  lemma TrackAppend(events: seq<Event>, e: Event, tr: Track)
    ensures Moves(events + [e], tr) == Moves(events, tr) + if IsDeposit(e, tr) || IsClaim(e, tr) then 1 else 0
    ensures Left(events + [e], tr) <==> Left(events, tr) || IsExit(e, tr)
    ensures Repeats(events + [e], tr) <==> Repeats(events, tr) || (IsDeposit(e, tr) && Seen(events, tr, e.who))
  {
    assert (events + [e])[..|events|] == events;
  }

  lemma SeenAppend(events: seq<Event>, e: Event, tr: Track, who: AccountId)
    ensures Seen(events + [e], tr, who) <==> Seen(events, tr, who) || (IsDeposit(e, tr) && e.who == who)
  {
    assert (events + [e])[..|events|] == events;
  }

  /**
   Before the first withdrawal the moments stray by at most one pool amount per move; and while no
   user has deposited twice, the pool covers its users.
   */
  ghost predicate Tracked<K>(b: Book<K>, events: seq<Event>, tr: Track) {
    Left(events, tr) || (WithinDrift(b, Moves(events, tr)) && (Repeats(events, tr) || OneSided(b)))
  }

  ghost predicate PoolDrift(d: Deposits, events: seq<Event>, p: PoolId) {
    && Tracked(PoolBook(d, p), events, OnPool(p))
    && (Left(events, OnPool(p)) || forall k :: k in PoolBook(d, p).users ==> Seen(events, OnPool(p), k.0))
  }

  ghost predicate NativeDrift(natives: Book<AccountId>, events: seq<Event>) {
    && Tracked(natives, events, OnNative)
    && (Left(events, OnNative) || forall u :: u in natives.users ==> Seen(events, OnNative, u))
  }

  /** What is tracked of a checkpoint, and that each of its users has been seen to deposit. */
  ghost predicate DriftOf(s: State, tr: Track) {
    match tr
    case OnPool(p) => PoolDrift(s.deposits, s.events, p)
    case OnNative => NativeDrift(s.natives, s.events)
  }

  lemma TrackedDeposit<K>(b: Book<K>, k: K, time: BlockNumber, added: Balance, events: seq<Event>, e: Event, tr: Track)
    requires Tracked(b, events, tr) && Deposit(b, k, time, added).Some? && IsDeposit(e, tr)
    requires k in b.users ==> Seen(events, tr, e.who)
    ensures Tracked(Deposit(b, k, time, added).value, events + [e], tr)
  {
    TrackAppend(events, e, tr);
    if !Left(events, tr) {
      DepositDrift(b, k, time, added, Moves(events, tr));
      if OneSided(b) && k !in b.users {
        FirstDepositOneSided(b, k, time, added);
      }
    }
  }

  lemma TrackedClaim<K>(b: Book<K>, k: K, until: BlockNumber, events: seq<Event>, e: Event, tr: Track)
    requires Tracked(b, events, tr) && Claim(b, k, until).Some? && IsClaim(e, tr)
    ensures Tracked(Claim(b, k, until).value, events + [e], tr)
  {
    TrackAppend(events, e, tr);
    if !Left(events, tr) {
      ClaimDrift(b, k, until, Moves(events, tr));
      if OneSided(b) {
        ClaimOneSided(b, k, until);
      }
    }
  }

  lemma TrackedQuiet<K>(b: Book<K>, events: seq<Event>, e: Event, tr: Track)
    requires Tracked(b, events, tr) && !IsDeposit(e, tr) && !IsClaim(e, tr)
    ensures Tracked(b, events + [e], tr)
  {
    TrackAppend(events, e, tr);
  }

  lemma SolveOneDrift(d: Deposits, events: seq<Event>, x: Order, n: BlockNumber, p: PoolId)
    requires SolveOne(d, x, n).failure.None? && PoolDrift(d, events, p)
    ensures PoolDrift(SolveOne(d, x, n).deposits, events + SolveOne(d, x, n).events, p)
  {
    SolveOneExact(d, x, n);
    SolveOneBook(d, x, n, p);
    SolvedBookDrift(d, SolveOne(d, x, n).deposits, events, x, n, p);
  }

  lemma SolvedBookDrift(d: Deposits, t: Deposits, events: seq<Event>, x: Order, n: BlockNumber, p: PoolId)
    requires PoolDrift(d, events, p)
    requires if p == x.pool then Deposit(PoolBook(d, p), (x.who, p), n, x.info.amount) == Some(PoolBook(t, p))
             else PoolBook(t, p) == PoolBook(d, p)
    ensures PoolDrift(t, events + [SolvedEvent(x, n)], p)
  {
    var e := SolvedEvent(x, n);
    TrackAppend(events, e, OnPool(p));
    forall k | k in PoolBook(t, p).users && !Left(events, OnPool(p)) ensures Seen(events + [e], OnPool(p), k.0) {
      SeenAppend(events, e, OnPool(p), k.0);
    }
    if p != x.pool {
      TrackedQuiet(PoolBook(d, p), events, e, OnPool(p));
    } else if !Left(events, OnPool(p)) {
      TrackedDeposit(PoolBook(d, p), (x.who, p), n, x.info.amount, events, e, OnPool(p));
    }
  }

  /** A failing order adds nothing to its pool and is announced, if at all, for another. */
  lemma FailedDrift(settings: map<PoolId, PoolSetting>, d: Deposits, events: seq<Event>, q: seq<Order>,
          n: BlockNumber, p: PoolId)
    requires q != [] && Roomy(settings, d.(pending := q), p) && SmallCap(CapOf(settings, p))
    requires SolveOne(d, q[0], n).failure.Some? && PoolDrift(d, events, p)
    ensures PoolDrift(SolveOne(d, q[0], n).deposits, events + SolveOne(d, q[0], n).events, p)
  {
    var one := SolveOne(d, q[0], n);
    if p == q[0].pool {
      FailedBook(settings, d, q, n);
      AlikeBalanced(PoolBook(d, p), PoolBook(one.deposits, p));
      assert events + one.events == events;
    } else {
      OtherBook(d, q[0], n, p);
      if one.events == [] {
        assert events + one.events == events;
      } else {
        PoolQuiet(d, events, SolvedEvent(q[0], n), p);
      }
    }
  }

  lemma {:induction false} SolveLoopDrift(settings: map<PoolId, PoolSetting>, d: Deposits, events: seq<Event>,
          q: seq<Order>, n: BlockNumber, p: PoolId)
    requires d.pending == [] && Roomy(settings, d.(pending := q), p) && PoolDrift(d, events, p)
    requires SolveLoop(d, q, n).failure.None? || SmallCap(CapOf(settings, p))
    ensures PoolDrift(SolveLoop(d, q, n).deposits, events + SolveLoop(d, q, n).events, p)
    decreases |q|
  {
    if q == [] || q[0].Time() > n {
      UnsettledDrift(d, events, q, p);
    } else {
      var one := SolveOne(d, q[0], n);
      if one.failure.Some? {
        FailedDrift(settings, d, events, q, n, p);
      } else {
        SolveOneDrift(d, events, q[0], n, p);
        SolvedRoomy(settings, d, q, n, p);
        SolveLoopDrift(settings, one.deposits, events + one.events, q[1..], n, p);
        SolveLoopSplits(d, q, n, events);
      }
    }
  }

  lemma UnsettledDrift(d: Deposits, events: seq<Event>, q: seq<Order>, p: PoolId)
    requires PoolDrift(d, events, p)
    ensures PoolDrift(d.(pending := q), events + [], p)
  {
    assert events + [] == events;
    assert PoolBook(d.(pending := q), p) == PoolBook(d, p);
  }

  lemma {:induction false} NativeLogQuiet(natives: Book<AccountId>, events: seq<Event>, more: seq<Event>)
    requires NativeDrift(natives, events) && forall e :: e in more ==> e.PendingStakingSolved?
    ensures NativeDrift(natives, events + more)
    decreases |more|
  {
    if more == [] {
      assert events + more == events;
    } else {
      assert more[0] in more;
      NativeQuiet(natives, events, more[0]);
      NativeLogQuiet(natives, events + [more[0]], more[1..]);
      assert events + more == events + [more[0]] + more[1..];
    }
  }

  lemma NativeQuiet(natives: Book<AccountId>, events: seq<Event>, e: Event)
    requires NativeDrift(natives, events) && !IsDeposit(e, OnNative) && !IsClaim(e, OnNative)
    ensures NativeDrift(natives, events + [e])
  {
    TrackAppend(events, e, OnNative);
    TrackedQuiet(natives, events, e, OnNative);
    forall u | u in natives.users && !Left(events, OnNative) ensures Seen(events + [e], OnNative, u) {
      SeenAppend(events, e, OnNative, u);
    }
  }

  lemma PoolQuiet(d: Deposits, events: seq<Event>, e: Event, p: PoolId)
    requires PoolDrift(d, events, p) && !IsDeposit(e, OnPool(p)) && !IsClaim(e, OnPool(p))
    ensures PoolDrift(d, events + [e], p)
  {
    TrackAppend(events, e, OnPool(p));
    TrackedQuiet(PoolBook(d, p), events, e, OnPool(p));
    forall k | k in PoolBook(d, p).users && !Left(events, OnPool(p)) ensures Seen(events + [e], OnPool(p), k.0) {
      SeenAppend(events, e, OnPool(p), k.0);
    }
  }

  /** An event that is no move of a checkpoint changes nothing tracked of it. */
  lemma QuietDrift(s: State, t: State, e: Event, tr: Track)
    requires DriftOf(s, tr) && t.events == s.events + [e] && !IsDeposit(e, tr) && !IsClaim(e, tr)
    requires match tr case OnPool(p) => PoolBook(t.deposits, p) == PoolBook(s.deposits, p)
                      case OnNative => t.natives == s.natives
    ensures DriftOf(t, tr)
  {
    match tr
    case OnPool(p) => PoolQuiet(s.deposits, s.events, e, p);
    case OnNative => NativeQuiet(s.natives, s.events, e);
  }

  lemma ClaimedPoolDrift(d: Deposits, t: Deposits, who: AccountId, p: PoolId, until: BlockNumber,
          events: seq<Event>, e: Event)
    requires Claim(PoolBook(d, p), (who, p), until) == Some(PoolBook(t, p))
    requires PoolDrift(d, events, p) && IsClaim(e, OnPool(p))
    ensures PoolDrift(t, events + [e], p)
  {
    TrackAppend(events, e, OnPool(p));
    TrackedClaim(PoolBook(d, p), (who, p), until, events, e, OnPool(p));
    forall k | k in PoolBook(t, p).users && !Left(events, OnPool(p)) ensures Seen(events + [e], OnPool(p), k.0) {
      SeenAppend(events, e, OnPool(p), k.0);
    }
  }

  lemma ClaimedNativeDrift(natives: Book<AccountId>, who: AccountId, until: BlockNumber, events: seq<Event>, e: Event)
    requires NativeDrift(natives, events) && Claim(natives, who, until).Some? && IsClaim(e, OnNative)
    ensures NativeDrift(Claim(natives, who, until).value, events + [e])
  {
    TrackAppend(events, e, OnNative);
    TrackedClaim(natives, who, until, events, e, OnNative);
    forall u | u in natives.users && !Left(events, OnNative) ensures Seen(events + [e], OnNative, u) {
      SeenAppend(events, e, OnNative, u);
    }
  }

  lemma StableClaimDrift(cfg: Config, s: State, who: AccountId, pool: PoolId, until: BlockNumber, refused: Refused,
          tr: Track)
    requires DoStableClaim(cfg, s, who, pool, until, refused).Ok? && DriftOf(s, tr)
    ensures DriftOf(DoStableClaim(cfg, s, who, pool, until, refused).value, tr)
  {
    var t := DoStableClaim(cfg, s, who, pool, until, refused).value;
    StableClaimParts(cfg, s, who, pool, until, refused);
    if pool in s.deposits.pools && (who, pool) in s.deposits.users {
      var reward: Balance :| StableClaimPays(cfg, s, t, who, pool, until, refused, reward);
      var e := StableRewardClaimed(who, pool, until, reward);
      StableClaimBook(cfg, s, who, pool, until, refused, if tr.OnPool? then tr.p else pool);
      if tr == OnPool(pool) {
        ClaimedPoolDrift(s.deposits, t.deposits, who, pool, until, s.events, e);
      } else {
        QuietDrift(s, t, e, tr);
      }
    }
  }

  lemma NativeClaimDrift(cfg: Config, s: State, who: AccountId, until: BlockNumber, refused: Refused, tr: Track)
    requires DoNativeClaim(cfg, s, who, until, refused).Ok? && DriftOf(s, tr)
    ensures DriftOf(DoNativeClaim(cfg, s, who, until, refused).value, tr)
  {
    var t := DoNativeClaim(cfg, s, who, until, refused).value;
    NativeClaimParts(cfg, s, who, until, refused);
    if t != s {
      var reward: Balance :| t == s.(natives := t.natives, tokens := t.tokens,
          events := s.events + [NativeRewardClaimed(who, until, reward)]);
      var e := NativeRewardClaimed(who, until, reward);
      if tr.OnNative? {
        ClaimedNativeDrift(s.natives, who, until, s.events, e);
      } else {
        QuietDrift(s, t, e, tr);
      }
    }
  }

  lemma StakeDrift(cfg: Config, s: State, origin: Origin, pool: PoolId, amount: Balance, refused: Refused, tr: Track)
    requires Stake(cfg, s, origin, pool, amount, refused).Ok? && DriftOf(s, tr)
    ensures DriftOf(Stake(cfg, s, origin, pool, amount, refused).value, tr)
  {
    StakeParts(cfg, s, origin, pool, amount, refused);
    var t := Stake(cfg, s, origin, pool, amount, refused).value;
    var e := Staked(origin.who, pool, OrderOf(s, origin.who, pool, amount).Time(), amount);
    match tr {
      case OnPool(p) =>
        assert PoolBook(t.deposits, p) == PoolBook(s.deposits, p);
        QuietDrift(s, t, e, tr);
      case OnNative => StakedNativeDrift(s.natives, origin.who, s.now, amount, s.events, e);
    }
  }

  lemma StakedNativeDrift(natives: Book<AccountId>, who: AccountId, now: BlockNumber, amount: Balance,
          events: seq<Event>, e: Event)
    requires NativeDrift(natives, events) && Deposit(natives, who, now, amount).Some? && e.Staked? && e.who == who
    ensures NativeDrift(Deposit(natives, who, now, amount).value, events + [e])
  {
    TrackAppend(events, e, OnNative);
    if !Left(events, OnNative) {
      TrackedDeposit(natives, who, now, amount, events, e, OnNative);
      forall u | u in natives.users || u == who ensures Seen(events + [e], OnNative, u) {
        SeenAppend(events, e, OnNative, u);
      }
    }
  }

  lemma DoWithdrawDrift(cfg: Config, s: State, who: AccountId, pool: PoolId, refused: Refused, tr: Track)
    requires DoWithdraw(cfg, s, who, pool, refused).Ok? && DriftOf(s, tr)
    ensures DriftOf(DoWithdraw(cfg, s, who, pool, refused).value, tr)
  {
    DoWithdrawParts(cfg, s, who, pool, refused);
    if pool in s.deposits.pools && (who, pool) in s.deposits.users {
      var t := DoWithdraw(cfg, s, who, pool, refused).value;
      var e := Event.Withdraw(who, pool, s.now, s.deposits.users[(who, pool)].amount);
      TrackAppend(s.events, e, tr);
      if tr.OnPool? && tr.p != pool {
        assert PoolBook(t.deposits, tr.p).users == PoolBook(s.deposits, tr.p).users;
        QuietDrift(s, t, e, tr);
      }
    }
  }

  lemma WithdrawDrift(cfg: Config, s: State, origin: Origin, pool: PoolId, refused: Refused, tr: Track)
    requires WithdrawStake(cfg, s, origin, pool, refused).Ok? && DriftOf(s, tr)
    ensures DriftOf(WithdrawStake(cfg, s, origin, pool, refused).value, tr)
  {
    var who := origin.who;
    var s1 := DoNativeClaim(cfg, s, who, s.now, refused).value;
    NativeClaimDrift(cfg, s, who, s.now, refused, tr);
    var s2 := DoStableClaim(cfg, s1, who, pool, s.now, refused).value;
    StableClaimDrift(cfg, s1, who, pool, s.now, refused, tr);
    DoWithdrawDrift(cfg, s2, who, pool, refused, tr);
  }

  /** The pool is within its cap, and a settling that fails finds the cap small; native rewards need neither. */
  ghost predicate Manageable(s: State, n: BlockNumber, tr: Track) {
    tr.OnPool? ==>
      && Roomy(s.settings, s.deposits, tr.p)
      && (SolvePending(s.deposits, n).failure.None? || SmallCap(CapOf(s.settings, tr.p)))
  }

  lemma SettledDrift(s: State, t: State, n: BlockNumber, tr: Track)
    requires DriftOf(s, tr) && Manageable(s, n, tr) && t.natives == s.natives
    requires t.deposits == SolvePending(s.deposits, n).deposits
    requires t.events == s.events + SolvePending(s.deposits, n).events
    ensures DriftOf(t, tr)
  {
    var d := s.deposits.(pending := []);
    match tr {
      case OnPool(p) =>
        assert d.(pending := s.deposits.pending) == s.deposits;
        assert PoolBook(d, p) == PoolBook(s.deposits, p);
        SolveLoopDrift(s.settings, d, s.events, s.deposits.pending, n, p);
      case OnNative =>
        SolvingOnlySettles(d, s.deposits.pending, n);
        NativeLogQuiet(s.natives, s.events, SolvePending(s.deposits, n).events);
    }
  }

  lemma UserStepDrift(cfg: Config, s: State, a: Action, tr: Track)
    requires ByUser(a) && Execute(cfg, s, a).Ok? && DriftOf(s, tr)
    ensures DriftOf(Execute(cfg, s, a).value, tr)
  {
    match a
    case CallStake(origin, pool, amount, refused) => StakeDrift(cfg, s, origin, pool, amount, refused, tr);
    case CallClaimNative(origin, until, refused) => NativeClaimDrift(cfg, s, origin.who, until, refused, tr);
    case CallClaimStable(origin, pool, until, refused) =>
        StableClaimDrift(cfg, s, origin.who, pool, until, refused, tr);
    case CallWithdraw(origin, pool, refused) => WithdrawDrift(cfg, s, origin, pool, refused, tr);
  }

  lemma OtherStepDrift(cfg: Config, s: State, a: Action, tr: Track)
    requires !ByUser(a) && !a.NextBlock? && Execute(cfg, s, a).Ok?
    requires DriftOf(s, tr) && (a.CallSolve? ==> Manageable(s, s.now, tr))
    ensures DriftOf(Execute(cfg, s, a).value, tr)
  {
    var t := Execute(cfg, s, a).value;
    match a
    case CallCreate(_, pool, setting) => QuietDrift(s, t, StakingPoolCreated(pool, setting), tr);
    case CallReward(_, pool, epoch, reward, _) => QuietDrift(s, t, RewardUpdated(pool, epoch, reward), tr);
    case CallSolve(_) => SettledDrift(s, t, s.now, tr);
    case CallRegist(_, asset) => QuietDrift(s, t, AiusdRegistered(asset), tr);
    case OutsideAsset(_, _, _) =>
    case OutsideNative(_, _) =>
    case OutsideGift(_, _) =>
  }

  lemma BlockDrift(s: State, tr: Track)
    requires s.now + 1 < U32_LIMIT && DriftOf(s, tr)
    requires Manageable(s, s.now + 1, tr)
    ensures DriftOf(BeginBlock(s, s.now + 1), tr)
  {
    BlockIsSettling(s, s.now + 1);
    SettledDrift(s, BeginBlock(s, s.now + 1), s.now + 1, tr);
  }

  /** Every action keeps what is tracked of a pool within its cap, a failing hook included if the cap is small. */
  lemma StepDrift(cfg: Config, s: State, a: Action, tr: Track)
    requires DriftOf(s, tr)
    requires tr.OnPool? ==>
               Roomy(s.settings, s.deposits, tr.p) && (HookFails(s, a) ==> SmallCap(CapOf(s.settings, tr.p)))
    ensures DriftOf(Apply(cfg, s, a), tr)
  {
    if Execute(cfg, s, a).Ok? {
      if ByUser(a) {
        UserStepDrift(cfg, s, a, tr);
      } else if a.NextBlock? {
        HookIsSettling(s);
        BlockDrift(s, tr);
      } else {
        OtherStepDrift(cfg, s, a, tr);
      }
    }
  }

  /**
   In every run, up to the first withdrawal, a checkpoint's moment and the sum of its users' moments differ
   by at most its amount times the deposits and claims so far, and while no user has deposited twice it
   covers its users.  Only a pool whose cap is not small needs hooks that do not fail.
   */
  lemma {:induction false} ReachableDrift(cfg: Config, s: State, acts: seq<Action>, tr: Track)
    requires Genesis(s) && (tr.OnPool? ==> Lossless(cfg, s, acts, tr.p))
    ensures DriftOf(After(cfg, s, acts), tr)
    decreases |acts|
  {
    if acts == [] {
      EmptyBook<Key>();
      EmptyBook<AccountId>();
      assert tr.OnPool? ==> PoolBook(s.deposits, tr.p) == Book(None, map[]);
    } else {
      var before := acts[..|acts| - 1];
      if tr.OnPool? {
        LosslessBefore(cfg, s, acts, tr.p);
        ReachableRoomy(cfg, s, before, tr.p);
      }
      ReachableDrift(cfg, s, before, tr);
      StepDrift(cfg, After(cfg, s, before), acts[|acts| - 1], tr);
    }
  }

  lemma EmptyBook<K>()
    ensures var b: Book<K> := Book(None, map[]); WithinDrift(b, 0) && OneSided(b)
  {
    var b: Book<K> := Book(None, map[]);
    assert Amounts(b.users) == map[] && Moments(b.users) == map[];
  }

  /** A checkpoint's weight stays within its amount times the moves of its users' weights. */
  ghost predicate WeighsWithin<K>(b: Book<K>, moves: nat, n: int)
    requires b.pool.Some?
  {
    var users := Total(SignedWeights(b.users, n));
    users - moves * PoolAmount(b) <= SignedWeight(b.pool.value, n) <= users + moves * PoolAmount(b)
  }

  /** The same through weights, at any block. */
  lemma ReachableWeights(cfg: Config, s: State, acts: seq<Action>, p: PoolId, n: int)
    requires Genesis(s) && Lossless(cfg, s, acts, p)
    requires p in After(cfg, s, acts).deposits.pools && !Left(After(cfg, s, acts).events, OnPool(p))
    ensures var t := After(cfg, s, acts);
            WeighsWithin(PoolBook(t.deposits, p), Moves(t.events, OnPool(p)), n)
  {
    var t := After(cfg, s, acts);
    ReachableDrift(cfg, s, acts, OnPool(p));
    WeightsWithinDrift(PoolBook(t.deposits, p), Moves(t.events, OnPool(p)), n);
  }

  /** And for native rewards, in every run. */
  lemma ReachableNativeWeights(cfg: Config, s: State, acts: seq<Action>, n: int)
    requires Genesis(s)
    requires After(cfg, s, acts).natives.pool.Some? && !Left(After(cfg, s, acts).events, OnNative)
    ensures var t := After(cfg, s, acts); WeighsWithin(t.natives, Moves(t.events, OnNative), n)
  {
    var t := After(cfg, s, acts);
    ReachableDrift(cfg, s, acts, OnNative);
    WeightsWithinDrift(t.natives, Moves(t.events, OnNative), n);
  }
}
