/**
 Each pool as a book of its users, and its cap over whole runs: what a pool holds and what is counted as
 queued for it never exceed the cap, also after a hook has failed and lost the orders it had taken.
 */
module StakingRoom {
  import opened Base
  import opened StakingInfos
  import opened Epochs
  import opened Queue
  import opened Drift
  import opened StakingState
  import opened StakingBooks
  import opened StakingSteps
  import opened StakingRuns

  type Key = (AccountId, PoolId)

  /** One pool's synthetic position beside its users' positions. */
  ghost function PoolBook(d: Deposits, p: PoolId): Book<Key> {
    Book(Lookup(d.pools, p), map k | k in d.users && k.1 == p :: d.users[k])
  }

  // What the steps make of a pool's book

  lemma SolveOneBook(d: Deposits, x: Order, n: BlockNumber, p: PoolId)
    requires SolveOne(d, x, n).failure.None?
    ensures var t := SolveOne(d, x, n).deposits;
            if p == x.pool then Deposit(PoolBook(d, p), (x.who, p), n, x.info.amount) == Some(PoolBook(t, p))
            else PoolBook(t, p) == PoolBook(d, p)
  {
    SolveOneExact(d, x, n);
    var t := SolveOne(d, x, n).deposits;
    if p == x.pool {
      assert PoolBook(t, p).users == PoolBook(d, p).users[(x.who, p) := t.users[(x.who, p)]];
    } else {
      assert PoolBook(t, p).users == PoolBook(d, p).users;
    }
  }

  /** A claim in storage is one of its pool's book, whether or not it finds anything. */
  lemma StableClaimBook(cfg: Config, s: State, who: AccountId, pool: PoolId, until: BlockNumber, refused: Refused,
          p: PoolId)
    requires DoStableClaim(cfg, s, who, pool, until, refused).Ok?
    ensures var t := DoStableClaim(cfg, s, who, pool, until, refused).value;
            if p == pool then Claim(PoolBook(s.deposits, p), (who, p), until) == Some(PoolBook(t.deposits, p))
            else PoolBook(t.deposits, p) == PoolBook(s.deposits, p)
  {
    var t := DoStableClaim(cfg, s, who, pool, until, refused).value;
    var users := PoolBook(s.deposits, p).users;
    if pool in s.deposits.pools && (who, pool) in s.deposits.users {
      StableClaimShare(cfg, s, who, pool, until, refused);
      if p == pool {
        assert PoolBook(t.deposits, p).users == users[(who, p) := t.deposits.users[(who, p)]];
      } else {
        assert PoolBook(t.deposits, p).users == users;
      }
    }
  }

  /** A withdrawal in storage is a leave of the pool's book. */
  lemma WithdrawLeavesPool(cfg: Config, s: State, who: AccountId, pool: PoolId, refused: Refused)
    requires DoWithdraw(cfg, s, who, pool, refused).Ok?
    requires pool in s.deposits.pools && (who, pool) in s.deposits.users
    ensures var t := DoWithdraw(cfg, s, who, pool, refused).value;
            var v := s.deposits.users[(who, pool)].amount;
            Leave(PoolBook(s.deposits, pool), (who, pool), v) == Some(PoolBook(t.deposits, pool))
  {
    DoWithdrawParts(cfg, s, who, pool, refused);
    var t := DoWithdraw(cfg, s, who, pool, refused).value;
    assert PoolBook(t.deposits, pool).users == PoolBook(s.deposits, pool).users - {(who, pool)};
  }

  // The cap

  ghost function CapOf(settings: map<PoolId, PoolSetting>, p: PoolId): nat {
    if p in settings then settings[p].poolCap else 0
  }

  /** The pool holds its users' amounts, and with what counts as queued, which its orders are part of, fits the cap. */
  ghost predicate Roomy(settings: map<PoolId, PoolSetting>, d: Deposits, p: PoolId) {
    && Balanced(PoolBook(d, p))
    && Queued(d.pending, OfPool(p)) <= GetOrZero(d.pendingAmount, p)
    && PoolAmount(PoolBook(d, p)) + GetOrZero(d.pendingAmount, p) <= CapOf(settings, p)
  }

  /** The same book up to the time of the pool's last add. */
  ghost predicate Alike<K>(b: Book<K>, c: Book<K>) {
    && c.users == b.users
    && match b.pool
       case None => c.pool.None?
       case Some(p) => c.pool.Some? && c.pool.value == p.(lastAddTime := c.pool.value.lastAddTime)
  }

  /**
   An order that fails under a small cap has nothing to add, so its pool is left with at most a later
   last add.
   */
  lemma FailedBook(settings: map<PoolId, PoolSetting>, d: Deposits, q: seq<Order>, n: BlockNumber)
    requires q != [] && Roomy(settings, d.(pending := q), q[0].pool) && SmallCap(CapOf(settings, q[0].pool))
    requires SolveOne(d, q[0], n).failure.Some?
    ensures Alike(PoolBook(d, q[0].pool), PoolBook(SolveOne(d, q[0], n).deposits, q[0].pool))
    ensures q[0].info.amount == 0 && SolveOne(d, q[0], n).events == []
    ensures SolveOne(d, q[0], n).deposits.pendingAmount == d.pendingAmount
  {
    var x, t := q[0], SolveOne(d, q[0], n).deposits;
    var b := PoolBook(d, x.pool);
    assert PoolBook(d.(pending := q), x.pool) == b;
    HeadQueued(q);
    assert PoolBook(t, x.pool).users == b.users;
    if AddOrCreate(b.pool, n, x.info.amount).Some? {
      FailedUser(settings, d, x, n);
    } else {
      AddFitsIff(b.pool, n, x.info.amount);
      FitsUnderCapIff(b.pool, n, x.info.amount, CapOf(settings, x.pool));
    }
  }

  lemma HeadQueued(q: seq<Order>)
    requires q != []
    ensures q[0].info.amount <= Queued(q, OfPool(q[0].pool))
  {
    QueuedNonNegative(q[1..], OfPool(q[0].pool));
  }

  lemma FailedUser(settings: map<PoolId, PoolSetting>, d: Deposits, x: Order, n: BlockNumber)
    requires Balanced(PoolBook(d, x.pool)) && SmallCap(CapOf(settings, x.pool))
    requires PoolAmount(PoolBook(d, x.pool)) + x.info.amount <= CapOf(settings, x.pool)
    requires AddOrCreate(Lookup(d.users, (x.who, x.pool)), n, x.info.amount).None?
    requires AddOrCreate(Lookup(d.pools, x.pool), n, x.info.amount).Some?
    ensures x.pool in d.pools && x.info.amount == 0
    ensures AddOrCreate(Lookup(d.pools, x.pool), n, x.info.amount).value
          == d.pools[x.pool].(lastAddTime := Max(d.pools[x.pool].lastAddTime, n))
  {
    var k := (x.who, x.pool);
    UserCovered(PoolBook(d, x.pool), k);
    AddFitsIff(Lookup(d.users, k), n, x.info.amount);
    FitsUnderCapIff(Lookup(d.users, k), n, x.info.amount, CapOf(settings, x.pool));
    AddedNothing(d.pools[x.pool], n);
  }

  lemma AddedNothing(p: StakingInfo, n: BlockNumber)
    requires p.Added(n, 0).Some?
    ensures p.Added(n, 0).value == p.(lastAddTime := Max(p.lastAddTime, n))
  {
    var q := p.Added(n, 0).value;
    AddKeepsMoment(p, n, 0);
    Squeezed(q.effectiveTime, p.effectiveTime, p.amount);
  }

  lemma Squeezed(x: int, y: int, c: int)
    requires 0 < c && x * c <= y * c < x * c + c
    ensures x == y
  {
    if y < x {
      SpanTimes(y, x, c);
      MulBounds(1, x - y, c);
    } else if x < y {
      SpanTimes(x, y, c);
      MulBounds(1, y - x, c);
    }
  }

  lemma SolvedRoomy(settings: map<PoolId, PoolSetting>, d: Deposits, q: seq<Order>, n: BlockNumber, p: PoolId)
    requires q != [] && SolveOne(d, q[0], n).failure.None? && Roomy(settings, d.(pending := q), p)
    ensures Roomy(settings, SolveOne(d, q[0], n).deposits.(pending := q[1..]), p)
  {
    var x := q[0];
    var t := SolveOne(d, x, n).deposits;
    SolveOneExact(d, x, n);
    SolveOneBook(d, x, n, p);
    assert PoolBook(d.(pending := q), p) == PoolBook(d, p);
    assert PoolBook(t.(pending := q[1..]), p) == PoolBook(t, p);
    if p == x.pool {
      DepositGap(PoolBook(d, p), (x.who, p), n, x.info.amount);
    }
  }

  /** An order of another pool leaves the book and the count of this one, whether it fails or not. */
  lemma OtherBook(d: Deposits, x: Order, n: BlockNumber, p: PoolId)
    requires p != x.pool
    ensures var t := SolveOne(d, x, n).deposits;
            PoolBook(t, p) == PoolBook(d, p) && GetOrZero(t.pendingAmount, p) == GetOrZero(d.pendingAmount, p)
  {
    assert PoolBook(SolveOne(d, x, n).deposits, p).users == PoolBook(d, p).users;
  }

  lemma AlikeBalanced<K>(b: Book<K>, c: Book<K>)
    requires Alike(b, c)
    ensures PoolAmount(c) == PoolAmount(b) && Gap(c) == Gap(b) && (Balanced(c) <==> Balanced(b))
  {
  }

  /** Settling keeps it, also when it fails, if the cap is small. */
  lemma {:induction false} SolveLoopRoomy(settings: map<PoolId, PoolSetting>, d: Deposits, q: seq<Order>,
          n: BlockNumber, p: PoolId)
    requires d.pending == [] && Roomy(settings, d.(pending := q), p)
    requires SolveLoop(d, q, n).failure.None? || SmallCap(CapOf(settings, p))
    ensures Roomy(settings, SolveLoop(d, q, n).deposits, p)
    decreases |q|
  {
    if q != [] && q[0].Time() <= n {
      var one := SolveOne(d, q[0], n);
      if one.failure.None? {
        SolvedRoomy(settings, d, q, n, p);
        SolveLoopRoomy(settings, one.deposits, q[1..], n, p);
      } else {
        FailedRoomy(settings, d, q, n, p);
      }
    }
  }

  lemma FailedRoomy(settings: map<PoolId, PoolSetting>, d: Deposits, q: seq<Order>, n: BlockNumber, p: PoolId)
    requires d.pending == [] && Roomy(settings, d.(pending := q), p) && SmallCap(CapOf(settings, p))
    requires q != [] && SolveOne(d, q[0], n).failure.Some?
    ensures Roomy(settings, SolveOne(d, q[0], n).deposits, p)
  {
    var t := SolveOne(d, q[0], n).deposits;
    QueuedNonNegative(q, OfPool(p));
    assert PoolBook(d.(pending := q), p) == PoolBook(d, p);
    if p == q[0].pool {
      FailedBook(settings, d, q, n);
      AlikeBalanced(PoolBook(d, p), PoolBook(t, p));
    } else {
      OtherBook(d, q[0], n, p);
    }
  }

  lemma SettlingRoomy(settings: map<PoolId, PoolSetting>, d: Deposits, n: BlockNumber, p: PoolId)
    requires Roomy(settings, d, p) && (SolvePending(d, n).failure.None? || SmallCap(CapOf(settings, p)))
    ensures Roomy(settings, SolvePending(d, n).deposits, p)
  {
    var e := d.(pending := []);
    assert e.(pending := d.pending) == d;
    SolveLoopRoomy(settings, e, d.pending, n, p);
  }

  lemma StakeRoomy(cfg: Config, s: State, origin: Origin, pool: PoolId, amount: Balance, refused: Refused, p: PoolId)
    requires Stake(cfg, s, origin, pool, amount, refused).Ok? && Roomy(s.settings, s.deposits, p)
    ensures var t := Stake(cfg, s, origin, pool, amount, refused).value;
            t.settings == s.settings && Roomy(t.settings, t.deposits, p)
  {
    StakeParts(cfg, s, origin, pool, amount, refused);
    var t := Stake(cfg, s, origin, pool, amount, refused).value;
    QueuedPush(s.deposits.pending, OrderOf(s, origin.who, pool, amount), OfPool(p));
    assert PoolBook(t.deposits, p) == PoolBook(s.deposits, p);
  }

  lemma StableClaimRoomy(cfg: Config, s: State, who: AccountId, pool: PoolId, until: BlockNumber, refused: Refused,
          p: PoolId)
    requires DoStableClaim(cfg, s, who, pool, until, refused).Ok? && Roomy(s.settings, s.deposits, p)
    ensures var t := DoStableClaim(cfg, s, who, pool, until, refused).value;
            t.settings == s.settings && Roomy(t.settings, t.deposits, p)
  {
    StableClaimParts(cfg, s, who, pool, until, refused);
    StableClaimBook(cfg, s, who, pool, until, refused, p);
    if p == pool {
      ClaimGap(PoolBook(s.deposits, p), (who, p), until);
    }
  }

  lemma DoWithdrawRoomy(cfg: Config, s: State, who: AccountId, pool: PoolId, refused: Refused, p: PoolId)
    requires DoWithdraw(cfg, s, who, pool, refused).Ok? && Roomy(s.settings, s.deposits, p)
    ensures var t := DoWithdraw(cfg, s, who, pool, refused).value;
            t.settings == s.settings && Roomy(t.settings, t.deposits, p)
  {
    DoWithdrawParts(cfg, s, who, pool, refused);
    if pool in s.deposits.pools && (who, pool) in s.deposits.users {
      var t := DoWithdraw(cfg, s, who, pool, refused).value;
      if p == pool {
        WithdrawLeavesPool(cfg, s, who, pool, refused);
        LeaveGap(PoolBook(s.deposits, p), (who, p), s.deposits.users[(who, p)].amount);
      } else {
        assert PoolBook(t.deposits, p).users == PoolBook(s.deposits, p).users;
      }
    }
  }

  lemma WithdrawRoomy(cfg: Config, s: State, origin: Origin, pool: PoolId, refused: Refused, p: PoolId)
    requires WithdrawStake(cfg, s, origin, pool, refused).Ok? && Roomy(s.settings, s.deposits, p)
    ensures var t := WithdrawStake(cfg, s, origin, pool, refused).value;
            t.settings == s.settings && Roomy(t.settings, t.deposits, p)
  {
    var who := origin.who;
    var s1 := DoNativeClaim(cfg, s, who, s.now, refused).value;
    NativeClaimParts(cfg, s, who, s.now, refused);
    var s2 := DoStableClaim(cfg, s1, who, pool, s.now, refused).value;
    StableClaimRoomy(cfg, s1, who, pool, s.now, refused, p);
    DoWithdrawRoomy(cfg, s2, who, pool, refused, p);
  }

  lemma BlockRoomy(s: State, p: PoolId)
    requires s.now + 1 < U32_LIMIT && Roomy(s.settings, s.deposits, p)
    requires SolvePending(s.deposits, s.now + 1).failure.None? || SmallCap(CapOf(s.settings, p))
    ensures var t := BeginBlock(s, s.now + 1); Roomy(t.settings, t.deposits, p)
  {
    BlockIsSettling(s, s.now + 1);
    SettlingRoomy(s.settings, s.deposits, s.now + 1, p);
  }

  lemma UserStepRoomy(cfg: Config, s: State, a: Action, p: PoolId)
    requires ByUser(a) && Execute(cfg, s, a).Ok? && Roomy(s.settings, s.deposits, p)
    ensures var t := Execute(cfg, s, a).value; t.settings == s.settings && Roomy(t.settings, t.deposits, p)
  {
    match a
    case CallStake(origin, pool, amount, refused) => StakeRoomy(cfg, s, origin, pool, amount, refused, p);
    case CallClaimNative(origin, until, refused) => NativeClaimParts(cfg, s, origin.who, until, refused);
    case CallClaimStable(origin, pool, until, refused) =>
        StableClaimRoomy(cfg, s, origin.who, pool, until, refused, p);
    case CallWithdraw(origin, pool, refused) => WithdrawRoomy(cfg, s, origin, pool, refused, p);
  }

  lemma OtherStepRoomy(cfg: Config, s: State, a: Action, p: PoolId)
    requires !ByUser(a) && !a.NextBlock? && Execute(cfg, s, a).Ok? && Roomy(s.settings, s.deposits, p)
    ensures var t := Execute(cfg, s, a).value; Roomy(t.settings, t.deposits, p)
  {
    if a.CallSolve? {
      SettlingRoomy(s.settings, s.deposits, s.now, p);
    }
  }

  lemma CallRoomy(cfg: Config, s: State, a: Action, p: PoolId)
    requires Roomy(s.settings, s.deposits, p) && !a.NextBlock?
    ensures var t := Apply(cfg, s, a); Roomy(t.settings, t.deposits, p)
  {
    if Execute(cfg, s, a).Ok? {
      if ByUser(a) {
        UserStepRoomy(cfg, s, a, p);
      } else {
        OtherStepRoomy(cfg, s, a, p);
      }
    }
  }

  /** Every action keeps a pool within its cap, a failing hook included if the cap is small. */
  lemma StepRoomy(cfg: Config, s: State, a: Action, p: PoolId)
    requires Roomy(s.settings, s.deposits, p) && (HookFails(s, a) ==> SmallCap(CapOf(s.settings, p)))
    ensures var t := Apply(cfg, s, a); Roomy(t.settings, t.deposits, p)
  {
    if !a.NextBlock? {
      CallRoomy(cfg, s, a, p);
    } else if s.now + 1 < U32_LIMIT {
      HookIsSettling(s);
      BlockRoomy(s, p);
      AppliesHook(cfg, s);
    }
  }

  /** A run that loses no order of the pool that counted: no hook fails in it, or the pool's cap is small. */
  ghost predicate Lossless(cfg: Config, s: State, acts: seq<Action>, p: PoolId) {
    HooksSucceed(cfg, s, acts) || SmallCap(CapOf(After(cfg, s, acts).settings, p))
  }

  /** In such a run the pool stays within its cap, counting what failing hooks have lost as queued. */
  lemma {:induction false} ReachableRoomy(cfg: Config, s: State, acts: seq<Action>, p: PoolId)
    requires Genesis(s) && Lossless(cfg, s, acts, p)
    ensures var t := After(cfg, s, acts); Roomy(t.settings, t.deposits, p)
    decreases |acts|
  {
    if acts == [] {
      assert Amounts(PoolBook(s.deposits, p).users) == map[];
    } else {
      LosslessBefore(cfg, s, acts, p);
      ReachableRoomy(cfg, s, acts[..|acts| - 1], p);
      StepRoomy(cfg, After(cfg, s, acts[..|acts| - 1]), acts[|acts| - 1], p);
    }
  }

  lemma LosslessBefore(cfg: Config, s: State, acts: seq<Action>, p: PoolId)
    requires acts != [] && Lossless(cfg, s, acts, p)
    ensures Lossless(cfg, s, acts[..|acts| - 1], p)
    ensures var t := After(cfg, s, acts[..|acts| - 1]);
            HookFails(t, acts[|acts| - 1]) ==> SmallCap(CapOf(t.settings, p))
  {
    var before, a := acts[..|acts| - 1], acts[|acts| - 1];
    var t := After(cfg, s, before);
    if HooksSucceed(cfg, s, acts) {
      HooksBefore(cfg, s, acts);
    } else {
      CapsGrow(cfg, t, a, p);
      MulBounds(CapOf(t.settings, p), CapOf(Apply(cfg, t, a).settings, p), U32_LIMIT - 1);
    }
  }

  lemma UserKeepsSettings(cfg: Config, s: State, a: Action)
    requires ByUser(a)
    ensures Apply(cfg, s, a).settings == s.settings
  {
    if Execute(cfg, s, a).Ok? {
      match a
      case CallStake(origin, pool, amount, refused) => StakeParts(cfg, s, origin, pool, amount, refused);
      case CallClaimNative(origin, until, refused) => NativeClaimParts(cfg, s, origin.who, until, refused);
      case CallClaimStable(origin, pool, until, refused) => StableClaimParts(cfg, s, origin.who, pool, until, refused);
      case CallWithdraw(origin, pool, refused) => WithdrawLeavesQueue(cfg, s, origin, pool, refused);
    }
  }

  lemma CapsGrow(cfg: Config, s: State, a: Action, p: PoolId)
    ensures CapOf(s.settings, p) <= CapOf(Apply(cfg, s, a).settings, p)
  {
    if ByUser(a) {
      UserKeepsSettings(cfg, s, a);
    }
  }
}
