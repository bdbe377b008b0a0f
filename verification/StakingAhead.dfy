/**
 How far ahead of the chain a synthetic checkpoint can get.  A claim may leave a pool's time in the future,
 where it stops every later claim; in every run, failing hooks included, it is never later than twice the
 current block.
 */
module StakingAhead {
  import opened Base
  import opened Sums
  import opened StakingInfos
  import opened Queue
  import opened Drift
  import opened StakingState
  import opened StakingBooks
  import opened StakingSteps
  import opened StakingRuns
  import opened StakingRoom

  /** The pool holds at least its users' amounts, and its time is at most twice the block. */
  ghost predicate Near<K>(b: Book<K>, now: int) {
    && Total(Amounts(b.users)) <= PoolAmount(b)
    && match b.pool
       case None => b.users == map[]
       case Some(p) => p.effectiveTime <= 2 * now
  }

  lemma NearUser<K>(b: Book<K>, k: K, now: int)
    requires Near(b, now) && k in b.users
    ensures b.pool.Some? && b.users[k].amount <= b.pool.value.amount
  {
    TotalCovers(Amounts(b.users), k);
  }

  lemma AddNear(position: Option<StakingInfo>, time: BlockNumber, added: Balance, now: int)
    requires AddOrCreate(position, time, added).Some? && time <= now
    requires position.Some? ==> position.value.effectiveTime <= 2 * now
    ensures AddOrCreate(position, time, added).value.effectiveTime <= 2 * now
  {
    if position.Some? {
      AddKeepsMoment(position.value, time, added);
    }
  }

  /** An add to the pool alone, which a failing hook can leave, keeps it too. */
  lemma PoolAddNear<K>(b: Book<K>, c: Book<K>, time: BlockNumber, added: Balance, now: int)
    requires Near(b, now) && time <= now && AddOrCreate(b.pool, time, added).Some?
    requires c == b.(pool := AddOrCreate(b.pool, time, added))
    ensures Near(c, now)
  {
    AddNear(b.pool, time, added, now);
    AddOrCreateAmount(b.pool, time, added);
  }

  lemma DepositNear<K>(b: Book<K>, k: K, time: BlockNumber, added: Balance, now: int)
    requires Near(b, now) && time <= now && Deposit(b, k, time, added).Some?
    ensures Near(Deposit(b, k, time, added).value, now)
  {
    var c := Deposit(b, k, time, added).value;
    AddNear(b.pool, time, added, now);
    AddOrCreateAmount(b.pool, time, added);
    AddOrCreateAmount(Lookup(b.users, k), time, added);
    PutUser(b.users, k, c.users[k]);
  }

  lemma ClaimNear<K>(b: Book<K>, k: K, until: BlockNumber, now: int)
    requires Near(b, now) && until <= now && Claim(b, k, until).Some?
    ensures Near(Claim(b, k, until).value, now)
  {
    if b.pool.Some? && k in b.users {
      NearUser(b, k, now);
      TakeShareSucceedsIff(b.pool.value, b.users[k], until);
      PoolTimeMovesWithin(b.pool.value, b.users[k], until);
      PutUser(b.users, k, Claim(b, k, until).value.users[k]);
    }
  }

  lemma LeaveNear<K>(b: Book<K>, k: K, v: Balance, now: int)
    requires Near(b, now) && k in b.users && v <= b.users[k].amount
    ensures Leave(b, k, v).Some? && Near(Leave(b, k, v).value, now)
  {
    NearUser(b, k, now);
    UserLeaves(b.users, k, v, Leave(b, k, v).value.users);
  }

  // Pools

  lemma SolveOneNear(d: Deposits, x: Order, n: BlockNumber, now: int, p: PoolId)
    requires Near(PoolBook(d, p), now) && n <= now
    ensures Near(PoolBook(SolveOne(d, x, n).deposits, p), now)
  {
    if p != x.pool {
      OtherBook(d, x, n, p);
    } else {
      SolvedBookShape(d, x, n);
      var b := PoolBook(d, p);
      if Deposit(b, (x.who, p), n, x.info.amount).Some? {
        DepositNear(b, (x.who, p), n, x.info.amount, now);
      } else if AddOrCreate(b.pool, n, x.info.amount).Some? {
        PoolAddNear(b, PoolBook(SolveOne(d, x, n).deposits, p), n, x.info.amount, now);
      }
    }
  }

  /** What an order makes of its pool's book: a deposit, or when that fails an add to the pool alone, or nothing. */
  lemma SolvedBookShape(d: Deposits, x: Order, n: BlockNumber)
    ensures var b := PoolBook(d, x.pool);
            var whole := AddOrCreate(b.pool, n, x.info.amount);
            PoolBook(SolveOne(d, x, n).deposits, x.pool) ==
              if Deposit(b, (x.who, x.pool), n, x.info.amount).Some?
              then Deposit(b, (x.who, x.pool), n, x.info.amount).value
              else if whole.Some? then b.(pool := whole) else b
  {
    var b, t := PoolBook(d, x.pool), SolveOne(d, x, n).deposits;
    SolvedMaps(d, x, n);
    if Deposit(b, (x.who, x.pool), n, x.info.amount).Some? {
      assert PoolBook(t, x.pool).users == b.users[(x.who, x.pool) := t.users[(x.who, x.pool)]];
    }
  }

  lemma {:induction false} SolveLoopNear(d: Deposits, q: seq<Order>, n: BlockNumber, now: int, p: PoolId)
    requires Near(PoolBook(d, p), now) && n <= now
    ensures Near(PoolBook(SolveLoop(d, q, n).deposits, p), now)
    decreases |q|
  {
    if q == [] || q[0].Time() > n {
      assert PoolBook(d.(pending := q), p) == PoolBook(d, p);
    } else {
      SolveOneNear(d, q[0], n, now, p);
      SolveLoopNear(SolveOne(d, q[0], n).deposits, q[1..], n, now, p);
    }
  }

  lemma SettlingNear(d: Deposits, n: BlockNumber, now: int, p: PoolId)
    requires Near(PoolBook(d, p), now) && n <= now
    ensures Near(PoolBook(SolvePending(d, n).deposits, p), now)
  {
    assert PoolBook(d.(pending := []), p) == PoolBook(d, p);
    SolveLoopNear(d.(pending := []), d.pending, n, now, p);
  }

  lemma StableClaimNear(cfg: Config, s: State, who: AccountId, pool: PoolId, until: BlockNumber, refused: Refused,
          p: PoolId)
    requires DoStableClaim(cfg, s, who, pool, until, refused).Ok? && Near(PoolBook(s.deposits, p), s.now)
    ensures var t := DoStableClaim(cfg, s, who, pool, until, refused).value;
            t.now == s.now && Near(PoolBook(t.deposits, p), s.now)
  {
    StableClaimBook(cfg, s, who, pool, until, refused, p);
    if p == pool {
      ClaimNear(PoolBook(s.deposits, p), (who, p), until, s.now);
    }
  }

  lemma DoWithdrawNear(cfg: Config, s: State, who: AccountId, pool: PoolId, refused: Refused, p: PoolId)
    requires DoWithdraw(cfg, s, who, pool, refused).Ok? && Near(PoolBook(s.deposits, p), s.now)
    ensures var t := DoWithdraw(cfg, s, who, pool, refused).value;
            t.now == s.now && Near(PoolBook(t.deposits, p), s.now)
  {
    DoWithdrawParts(cfg, s, who, pool, refused);
    if pool in s.deposits.pools && (who, pool) in s.deposits.users {
      var t := DoWithdraw(cfg, s, who, pool, refused).value;
      if p == pool {
        WithdrawLeavesPool(cfg, s, who, pool, refused);
        LeaveNear(PoolBook(s.deposits, p), (who, p), s.deposits.users[(who, p)].amount, s.now);
      } else {
        assert PoolBook(t.deposits, p).users == PoolBook(s.deposits, p).users;
      }
    }
  }

  lemma WithdrawNear(cfg: Config, s: State, origin: Origin, pool: PoolId, refused: Refused, p: PoolId)
    requires WithdrawStake(cfg, s, origin, pool, refused).Ok? && Near(PoolBook(s.deposits, p), s.now)
    ensures var t := WithdrawStake(cfg, s, origin, pool, refused).value;
            t.now == s.now && Near(PoolBook(t.deposits, p), s.now)
  {
    var who := origin.who;
    var s1 := DoNativeClaim(cfg, s, who, s.now, refused).value;
    NativeClaimParts(cfg, s, who, s.now, refused);
    var s2 := DoStableClaim(cfg, s1, who, pool, s.now, refused).value;
    StableClaimNear(cfg, s1, who, pool, s.now, refused, p);
    DoWithdrawNear(cfg, s2, who, pool, refused, p);
  }

  lemma UserStepNear(cfg: Config, s: State, a: Action, p: PoolId)
    requires ByUser(a) && Execute(cfg, s, a).Ok? && Near(PoolBook(s.deposits, p), s.now)
    ensures var t := Execute(cfg, s, a).value; t.now == s.now && Near(PoolBook(t.deposits, p), s.now)
  {
    match a
    case CallStake(origin, pool, amount, refused) =>
      StakeParts(cfg, s, origin, pool, amount, refused);
      assert PoolBook(Execute(cfg, s, a).value.deposits, p) == PoolBook(s.deposits, p);
    case CallClaimNative(origin, until, refused) => NativeClaimParts(cfg, s, origin.who, until, refused);
    case CallClaimStable(origin, pool, until, refused) =>
        StableClaimNear(cfg, s, origin.who, pool, until, refused, p);
    case CallWithdraw(origin, pool, refused) => WithdrawNear(cfg, s, origin, pool, refused, p);
  }

  lemma OtherStepNear(cfg: Config, s: State, a: Action, p: PoolId)
    requires !ByUser(a) && !a.NextBlock? && Execute(cfg, s, a).Ok? && Near(PoolBook(s.deposits, p), s.now)
    ensures var t := Execute(cfg, s, a).value; t.now == s.now && Near(PoolBook(t.deposits, p), s.now)
  {
    if a.CallSolve? {
      SettlingNear(s.deposits, s.now, s.now, p);
    }
  }

  ghost predicate PoolNear(s: State, p: PoolId) {
    Near(PoolBook(s.deposits, p), s.now)
  }

  lemma BlockNear(s: State, p: PoolId)
    requires s.now + 1 < U32_LIMIT && Near(PoolBook(s.deposits, p), s.now)
    ensures PoolNear(BeginBlock(s, s.now + 1), p)
  {
    BlockIsSettling(s, s.now + 1);
    SettlingNear(s.deposits, s.now + 1, s.now + 1, p);
  }

  lemma CallNear(cfg: Config, s: State, a: Action, p: PoolId)
    requires PoolNear(s, p) && !a.NextBlock?
    ensures PoolNear(Apply(cfg, s, a), p)
  {
    if Execute(cfg, s, a).Ok? {
      if ByUser(a) {
        UserStepNear(cfg, s, a, p);
      } else {
        OtherStepNear(cfg, s, a, p);
      }
    }
  }

  lemma StepNear(cfg: Config, s: State, a: Action, p: PoolId)
    requires PoolNear(s, p)
    ensures PoolNear(Apply(cfg, s, a), p)
  {
    if !a.NextBlock? {
      CallNear(cfg, s, a, p);
    } else if s.now + 1 < U32_LIMIT {
      AppliesHook(cfg, s);
      BlockNear(s, p);
    }
  }

  /** In every run a pool's time is at most twice the current block, so a claim is locked out for no longer. */
  lemma {:induction false} ReachableNear(cfg: Config, s: State, acts: seq<Action>, p: PoolId)
    requires Genesis(s)
    ensures PoolNear(After(cfg, s, acts), p)
    decreases |acts|
  {
    if acts == [] {
      assert Amounts(PoolBook(s.deposits, p).users) == map[];
    } else {
      ReachableNear(cfg, s, acts[..|acts| - 1], p);
      StepNear(cfg, After(cfg, s, acts[..|acts| - 1]), acts[|acts| - 1], p);
    }
  }

  // Native rewards

  /** A user counts for native rewards at least what it has settled and queued. */
  ghost predicate Counts(d: Deposits, natives: Book<AccountId>, u: AccountId) {
    Held(Amounts(d.users), OfUser(u)) + Queued(d.pending, OfUser(u)) <= NativeOf(Amounts(natives.users), u)
  }

  ghost predicate AllCount(d: Deposits, natives: Book<AccountId>) {
    forall u :: Counts(d, natives, u)
  }

  ghost predicate NativeNear(s: State) {
    Near(s.natives, s.now) && AllCount(s.deposits, s.natives)
  }

  /** An order taken from the queue is settled for its user or lost. */
  lemma SolveOneCounts(d: Deposits, q: seq<Order>, natives: Book<AccountId>, n: BlockNumber, u: AccountId)
    requires q != [] && Counts(d.(pending := q), natives, u)
    ensures Counts(SolveOne(d, q[0], n).deposits.(pending := q[1..]), natives, u)
    ensures Counts(SolveOne(d, q[0], n).deposits.(pending := []), natives, u)
  {
    var x, users := q[0], SolveOne(d, q[0], n).deposits.users;
    var k := (x.who, x.pool);
    QueuedNonNegative(q[1..], OfUser(u));
    if users != d.users {
      var part := AddOrCreate(Lookup(d.users, k), n, x.info.amount).value;
      assert users == d.users[k := part];
      AddOrCreateAmount(Lookup(d.users, k), n, x.info.amount);
      AmountsPut(d.users, k, part);
      HeldPut(Amounts(d.users), k, part.amount, OfUser(u));
    }
  }

  lemma {:induction false} SolveLoopCounts(d: Deposits, q: seq<Order>, natives: Book<AccountId>, n: BlockNumber,
          u: AccountId)
    requires d.pending == [] && Counts(d.(pending := q), natives, u)
    ensures Counts(SolveLoop(d, q, n).deposits, natives, u)
    decreases |q|
  {
    if q != [] && q[0].Time() <= n {
      var one := SolveOne(d, q[0], n);
      SolveOneCounts(d, q, natives, n, u);
      if one.failure.None? {
        SolveLoopCounts(one.deposits, q[1..], natives, n, u);
      } else {
        assert one.deposits.(pending := []) == one.deposits;
      }
    }
  }

  lemma SettlingCounts(d: Deposits, natives: Book<AccountId>, n: BlockNumber)
    requires AllCount(d, natives)
    ensures AllCount(SolvePending(d, n).deposits, natives)
  {
    var e := d.(pending := []);
    assert e.(pending := d.pending) == d;
    forall u ensures Counts(SolvePending(d, n).deposits, natives, u) {
      assert Counts(d, natives, u);
      SolveLoopCounts(e, d.pending, natives, n, u);
    }
  }

  lemma SameCounts(d: Deposits, natives: Book<AccountId>, e: Deposits, counted: Book<AccountId>)
    requires AllCount(d, natives) && e.pending == d.pending
    requires Amounts(e.users) == Amounts(d.users) && Amounts(counted.users) == Amounts(natives.users)
    ensures AllCount(e, counted)
  {
    forall u ensures Counts(e, counted, u) {
      assert Counts(d, natives, u);
    }
  }

  lemma NativeClaimNear(cfg: Config, s: State, who: AccountId, until: BlockNumber, refused: Refused)
    requires DoNativeClaim(cfg, s, who, until, refused).Ok? && NativeNear(s)
    ensures var t := DoNativeClaim(cfg, s, who, until, refused).value; t.now == s.now && NativeNear(t)
  {
    var t := DoNativeClaim(cfg, s, who, until, refused).value;
    NativeClaimParts(cfg, s, who, until, refused);
    ClaimNear(s.natives, who, until, s.now);
    SameCounts(s.deposits, s.natives, t.deposits, t.natives);
  }

  lemma StableClaimNativeNear(cfg: Config, s: State, who: AccountId, pool: PoolId, until: BlockNumber,
          refused: Refused)
    requires DoStableClaim(cfg, s, who, pool, until, refused).Ok? && NativeNear(s)
    ensures var t := DoStableClaim(cfg, s, who, pool, until, refused).value; t.now == s.now && NativeNear(t)
  {
    var t := DoStableClaim(cfg, s, who, pool, until, refused).value;
    StableClaimParts(cfg, s, who, pool, until, refused);
    StableClaimOnBooks(cfg, s, who, pool, until, refused);
    assert Amounts(t.deposits.users) == Deposited(t).users == Deposited(s).users;
    SameCounts(s.deposits, s.natives, t.deposits, t.natives);
  }

  lemma StakeNear(cfg: Config, s: State, origin: Origin, pool: PoolId, amount: Balance, refused: Refused)
    requires Stake(cfg, s, origin, pool, amount, refused).Ok? && NativeNear(s)
    ensures NativeNear(Stake(cfg, s, origin, pool, amount, refused).value)
  {
    var t := Stake(cfg, s, origin, pool, amount, refused).value;
    StakeParts(cfg, s, origin, pool, amount, refused);
    DepositNear(s.natives, origin.who, s.now, amount, s.now);
    AddOrCreateAmount(Lookup(s.natives.users, origin.who), s.now, amount);
    forall u ensures Counts(t.deposits, t.natives, u) {
      assert Counts(s.deposits, s.natives, u);
      QueuedPush(s.deposits.pending, OrderOf(s, origin.who, pool, amount), OfUser(u));
    }
  }

  lemma PositionCounts(d: Deposits, natives: Book<AccountId>, who: AccountId, pool: PoolId)
    requires Counts(d, natives, who) && (who, pool) in d.users
    ensures d.users[(who, pool)].amount <= NativeOf(Amounts(natives.users), who)
  {
    TotalCovers(Selected(Amounts(d.users), OfUser(who)), (who, pool));
    QueuedNonNegative(d.pending, OfUser(who));
  }

  /** What leaves the native book is nothing or part of its user's amount. */
  lemma WithdrawNativeNear(natives: Book<AccountId>, who: AccountId, v: Balance, now: int)
    requires Near(natives, now) && v <= NativeOf(Amounts(natives.users), who) && WithdrawNative(natives, who, v).Some?
    ensures var c := WithdrawNative(natives, who, v).value;
            && Near(c, now)
            && forall u :: NativeOf(Amounts(c.users), u) ==
                 NativeOf(Amounts(natives.users), u) - if u == who then v else 0
  {
    if who in natives.users {
      NearUser(natives, who, now);
      LeaveNear(natives, who, v, now);
    }
  }

  lemma DoWithdrawNativeNear(cfg: Config, s: State, who: AccountId, pool: PoolId, refused: Refused)
    requires DoWithdraw(cfg, s, who, pool, refused).Ok? && NativeNear(s)
    ensures NativeNear(DoWithdraw(cfg, s, who, pool, refused).value)
  {
    DoWithdrawParts(cfg, s, who, pool, refused);
    if pool in s.deposits.pools && (who, pool) in s.deposits.users {
      var t, v := DoWithdraw(cfg, s, who, pool, refused).value, s.deposits.users[(who, pool)].amount;
      assert Counts(s.deposits, s.natives, who);
      PositionCounts(s.deposits, s.natives, who, pool);
      WithdrawNativeNear(s.natives, who, v, s.now);
      AmountsDrop(s.deposits.users, (who, pool));
      forall u ensures Counts(t.deposits, t.natives, u) {
        assert Counts(s.deposits, s.natives, u);
        HeldDrop(Amounts(s.deposits.users), (who, pool), OfUser(u));
      }
    }
  }

  lemma WithdrawNativesNear(cfg: Config, s: State, origin: Origin, pool: PoolId, refused: Refused)
    requires WithdrawStake(cfg, s, origin, pool, refused).Ok? && NativeNear(s)
    ensures NativeNear(WithdrawStake(cfg, s, origin, pool, refused).value)
  {
    var who := origin.who;
    var s1 := DoNativeClaim(cfg, s, who, s.now, refused).value;
    NativeClaimNear(cfg, s, who, s.now, refused);
    var s2 := DoStableClaim(cfg, s1, who, pool, s.now, refused).value;
    StableClaimNativeNear(cfg, s1, who, pool, s.now, refused);
    DoWithdrawNativeNear(cfg, s2, who, pool, refused);
  }

  lemma UserStepNativeNear(cfg: Config, s: State, a: Action)
    requires ByUser(a) && Execute(cfg, s, a).Ok? && NativeNear(s)
    ensures NativeNear(Execute(cfg, s, a).value)
  {
    match a
    case CallStake(origin, pool, amount, refused) => StakeNear(cfg, s, origin, pool, amount, refused);
    case CallClaimNative(origin, until, refused) => NativeClaimNear(cfg, s, origin.who, until, refused);
    case CallClaimStable(origin, pool, until, refused) =>
        StableClaimNativeNear(cfg, s, origin.who, pool, until, refused);
    case CallWithdraw(origin, pool, refused) => WithdrawNativesNear(cfg, s, origin, pool, refused);
  }

  lemma OtherStepNativeNear(cfg: Config, s: State, a: Action)
    requires !ByUser(a) && !a.NextBlock? && Execute(cfg, s, a).Ok? && NativeNear(s)
    ensures NativeNear(Execute(cfg, s, a).value)
  {
    if a.CallSolve? {
      SettlingCounts(s.deposits, s.natives, s.now);
    }
  }

  lemma BlockNativeNear(s: State)
    requires s.now + 1 < U32_LIMIT && NativeNear(s)
    ensures NativeNear(BeginBlock(s, s.now + 1))
  {
    BlockIsSettling(s, s.now + 1);
    SettlingCounts(s.deposits, s.natives, s.now + 1);
  }

  lemma StepNativeNear(cfg: Config, s: State, a: Action)
    requires NativeNear(s)
    ensures NativeNear(Apply(cfg, s, a))
  {
    if Execute(cfg, s, a).Ok? {
      if ByUser(a) {
        UserStepNativeNear(cfg, s, a);
      } else if a.NextBlock? {
        BlockNativeNear(s);
      } else {
        OtherStepNativeNear(cfg, s, a);
      }
    }
  }

  /** The same of the native checkpoint; and lost orders still count for native rewards. */
  lemma {:induction false} ReachableNativeNear(cfg: Config, s: State, acts: seq<Action>)
    requires Genesis(s)
    ensures NativeNear(After(cfg, s, acts))
    decreases |acts|
  {
    if acts == [] {
      assert Amounts(s.natives.users) == map[];
      forall u ensures Counts(s.deposits, s.natives, u) {
        assert Selected(Amounts(s.deposits.users), OfUser(u)) == map[];
      }
    } else {
      ReachableNativeNear(cfg, s, acts[..|acts| - 1]);
      StepNativeNear(cfg, After(cfg, s, acts[..|acts| - 1]), acts[|acts| - 1]);
    }
  }
}
