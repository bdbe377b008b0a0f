/**
 Shares over whole runs: every position has started by the current block, so a claim up to now never
 takes more than the whole until a user deposits twice or leaves, and exactly when an earlier one does.
 */
module StakingShares {
  import opened Base
  import opened Sums
  import opened StakingInfos
  import opened Queue
  import opened Drift
  import opened StakingState
  import opened StakingBooks
  import opened StakingSteps
  import opened StakingRuns
  import opened StakingRoom
  import opened StakingDrift

  predicate StartedBy(p: StakingInfo, n: int) {
    p.effectiveTime <= n && p.lastAddTime <= n
  }

  ghost predicate AllStarted<K>(users: map<K, StakingInfo>, n: int) {
    forall k :: k in users ==> StartedBy(users[k], n)
  }

  /** No user's position counts from a later block, and the global native position is there for its users. */
  ghost predicate Begun(s: State) {
    && AllStarted(s.deposits.users, s.now)
    && AllStarted(s.natives.users, s.now)
    && (s.natives.pool.None? ==> s.natives.users == map[])
  }

  lemma AddStarted(position: Option<StakingInfo>, time: BlockNumber, added: Balance, n: int)
    requires position.Some? ==> StartedBy(position.value, n)
    requires time <= n && AddOrCreate(position, time, added).Some?
    ensures StartedBy(AddOrCreate(position, time, added).value, n)
  {
    if position.Some? {
      AddKeepsMoment(position.value, time, added);
    }
  }

  lemma SolveOneStarted(d: Deposits, x: Order, n: BlockNumber)
    requires AllStarted(d.users, n)
    ensures AllStarted(SolveOne(d, x, n).deposits.users, n)
  {
    var position := Lookup(d.users, (x.who, x.pool));
    if AddOrCreate(position, n, x.info.amount).Some? {
      AddStarted(position, n, x.info.amount, n);
    }
  }

  lemma {:induction false} SolveLoopStarted(d: Deposits, q: seq<Order>, n: BlockNumber)
    requires AllStarted(d.users, n)
    ensures AllStarted(SolveLoop(d, q, n).deposits.users, n)
    decreases |q|
  {
    if q != [] && q[0].Time() <= n {
      SolveOneStarted(d, q[0], n);
      SolveLoopStarted(SolveOne(d, q[0], n).deposits, q[1..], n);
    }
  }

  lemma DepositStarted<K>(b: Book<K>, k: K, time: BlockNumber, added: Balance, n: int)
    requires AllStarted(b.users, n) && time <= n && Deposit(b, k, time, added).Some?
    ensures AllStarted(Deposit(b, k, time, added).value.users, n)
  {
    AddStarted(Lookup(b.users, k), time, added, n);
  }

  lemma ClaimStarted<K>(b: Book<K>, k: K, until: BlockNumber, n: int)
    requires AllStarted(b.users, n) && until <= n && Claim(b, k, until).Some?
    ensures AllStarted(Claim(b, k, until).value.users, n)
  {
  }

  lemma NativeClaimBegun(cfg: Config, s: State, who: AccountId, until: BlockNumber, refused: Refused)
    requires Begun(s) && DoNativeClaim(cfg, s, who, until, refused).Ok?
    ensures Begun(DoNativeClaim(cfg, s, who, until, refused).value)
  {
    NativeClaimParts(cfg, s, who, until, refused);
    ClaimStarted(s.natives, who, until, s.now);
  }

  lemma StableClaimBegun(cfg: Config, s: State, who: AccountId, pool: PoolId, until: BlockNumber, refused: Refused)
    requires Begun(s) && DoStableClaim(cfg, s, who, pool, until, refused).Ok?
    ensures Begun(DoStableClaim(cfg, s, who, pool, until, refused).value)
  {
    StableClaimParts(cfg, s, who, pool, until, refused);
    if pool in s.deposits.pools && (who, pool) in s.deposits.users {
      StableClaimShare(cfg, s, who, pool, until, refused);
    }
  }

  lemma WithdrawBegun(cfg: Config, s: State, origin: Origin, pool: PoolId, refused: Refused)
    requires Begun(s) && WithdrawStake(cfg, s, origin, pool, refused).Ok?
    ensures Begun(WithdrawStake(cfg, s, origin, pool, refused).value)
  {
    var who := origin.who;
    var s1 := DoNativeClaim(cfg, s, who, s.now, refused).value;
    NativeClaimBegun(cfg, s, who, s.now, refused);
    var s2 := DoStableClaim(cfg, s1, who, pool, s.now, refused).value;
    StableClaimBegun(cfg, s1, who, pool, s.now, refused);
    DoWithdrawParts(cfg, s2, who, pool, refused);
  }

  lemma StakeBegun(cfg: Config, s: State, origin: Origin, pool: PoolId, amount: Balance, refused: Refused)
    requires Begun(s) && Stake(cfg, s, origin, pool, amount, refused).Ok?
    ensures Begun(Stake(cfg, s, origin, pool, amount, refused).value)
  {
    StakeParts(cfg, s, origin, pool, amount, refused);
    DepositStarted(s.natives, origin.who, s.now, amount, s.now);
  }

  lemma HookBegun(s: State, n: BlockNumber)
    requires Begun(s) && s.now <= n
    ensures Begun(BeginBlock(s, n))
  {
    SolveLoopStarted(s.deposits.(pending := []), s.deposits.pending, n);
  }

  lemma StepBegun(cfg: Config, s: State, a: Action)
    requires Begun(s)
    ensures Begun(Apply(cfg, s, a))
  {
    if Execute(cfg, s, a).Ok? {
      match a
      case NextBlock => HookBegun(s, s.now + 1);
      case CallStake(origin, pool, amount, refused) => StakeBegun(cfg, s, origin, pool, amount, refused);
      case CallSolve(_) => SolveLoopStarted(s.deposits.(pending := []), s.deposits.pending, s.now);
      case CallClaimNative(origin, until, refused) => NativeClaimBegun(cfg, s, origin.who, until, refused);
      case CallClaimStable(origin, pool, until, refused) => StableClaimBegun(cfg, s, origin.who, pool, until, refused);
      case CallWithdraw(origin, pool, refused) => WithdrawBegun(cfg, s, origin, pool, refused);
      case _ =>
    }
  }

  /** In every run, failing hooks included, every user's position has started by the current block. */
  lemma {:induction false} ReachableBegun(cfg: Config, s: State, acts: seq<Action>)
    requires Genesis(s)
    ensures Begun(After(cfg, s, acts))
    decreases |acts|
  {
    if acts != [] {
      ReachableBegun(cfg, s, acts[..|acts| - 1]);
      StepBegun(cfg, After(cfg, s, acts[..|acts| - 1]), acts[|acts| - 1]);
    }
  }

  /**
   What a book that covers its holders promises one of them at a block by which all have started.  Before
   that block, the pool's weight is positive and covers the holder's; at it, both are zero, which the
   runtime's ratio takes for the whole.
   */
  ghost predicate SharesFairly(pool: Option<StakingInfo>, u: StakingInfo, n: BlockNumber) {
    && pool.Some? && pool.value.effectiveTime <= n
    && SignedWeight(u, n) <= SignedWeight(pool.value, n)
    && (var share := TakeShare(pool.value, u, n);
        && (share.Some? <==> SignedWeight(pool.value, n) < U128_LIMIT)
        && (share.Some? ==>
              && share.value.pool.effectiveTime <= n
              && if pool.value.effectiveTime < n then share.value.weight <= share.value.total && 0 < share.value.total
                 else share.value.weight == 0 && share.value.total == 0))
  }

  /** And when a share is the whole: only if there is no gap and the others have no weight at all. */
  ghost predicate WholeOnlyAlone<K>(b: Book<K>, k: K, n: BlockNumber)
    requires k in b.users && b.pool.Some?
  {
    var share := TakeShare(b.pool.value, b.users[k], n);
    share.Some? ==>
      (share.value.total <= share.value.weight <==>
         Gap(b) == 0 && Total(SignedWeights(b.users - {k}, n)) == 0)
  }

  lemma OneSidedShares<K>(b: Book<K>, k: K, n: BlockNumber)
    requires OneSided(b) && AllStarted(b.users, n) && k in b.users && b.users[k].amount > 0
    ensures SharesFairly(b.pool, b.users[k], n) && WholeOnlyAlone(b, k, n)
  {
    ShareAtMostOne(b, k, n);
    WholeIff(b, k, n);
    UserCovered(b, k);
    if TakeShare(b.pool.value, b.users[k], n).Some? {
      ShareWeighs(b.pool.value, b.users[k], n);
      ZeroTotalIff(b.pool.value, b.users[k], n);
    }
  }

  /**
   Until a user deposits into a pool twice or leaves it, a claim up to the current block compares a weight
   with one that covers it, and is for the whole exactly when no other user has any weight and flooring
   has lost none; it leaves the pool's time at or before the block, and fails only on a pool weight beyond
   a u128.
   */
  lemma ReachableShares(cfg: Config, s: State, acts: seq<Action>, p: PoolId, who: AccountId)
    requires Genesis(s) && Lossless(cfg, s, acts, p)
    requires var t := After(cfg, s, acts);
             && !Left(t.events, OnPool(p)) && !Repeats(t.events, OnPool(p))
             && (who, p) in t.deposits.users && t.deposits.users[(who, p)].amount > 0
    ensures var t := After(cfg, s, acts);
            && SharesFairly(Lookup(t.deposits.pools, p), t.deposits.users[(who, p)], t.now)
            && WholeOnlyAlone(PoolBook(t.deposits, p), (who, p), t.now)
  {
    var t := After(cfg, s, acts);
    ReachableDrift(cfg, s, acts, OnPool(p));
    ReachableBegun(cfg, s, acts);
    OneSidedShares(PoolBook(t.deposits, p), (who, p), t.now);
  }

  /** The same for native claims, in every run, until a user stakes twice or withdraws anywhere. */
  lemma ReachableNativeShares(cfg: Config, s: State, acts: seq<Action>, who: AccountId)
    requires Genesis(s)
    requires var t := After(cfg, s, acts);
             && !Left(t.events, OnNative) && !Repeats(t.events, OnNative)
             && who in t.natives.users && t.natives.users[who].amount > 0
    ensures var t := After(cfg, s, acts);
            && SharesFairly(t.natives.pool, t.natives.users[who], t.now)
            && WholeOnlyAlone(t.natives, who, t.now)
  {
    var t := After(cfg, s, acts);
    ReachableDrift(cfg, s, acts, OnNative);
    ReachableBegun(cfg, s, acts);
    OneSidedShares(t.natives, who, t.now);
  }

  // Claims up to any block, in any state whose amounts agree

  lemma PoolBalanced(s: State, p: PoolId)
    requires Conserved(Deposited(s))
    ensures Balanced(PoolBook(s.deposits, p))
  {
    var b, book := Deposited(s), PoolBook(s.deposits, p);
    assert PoolConserved(b, p);
    assert Amounts(book.users) == Selected(b.users, OfPool(p));
    if book.pool.None? {
      assert forall k :: k in book.users ==> k in b.users && k.1 in b.pools;
      assert book.users == map[];
    }
  }

  lemma NativesBalanced(s: State)
    requires Conserved(Deposited(s)) && Begun(s)
    ensures Balanced(s.natives)
  {
  }

  /** A share taken at a block compares the two weights there. */
  lemma ShareWeighs(p: StakingInfo, u: StakingInfo, until: BlockNumber)
    requires u.amount <= p.amount && TakeShare(p, u, until).Some?
    ensures TakeShare(p, u, until).value.weight == SignedWeight(u, until)
    ensures TakeShare(p, u, until).value.total == SignedWeight(p, until)
  {
    TakeShareSucceedsIff(p, u, until);
  }

  /** How a share compares with the whole, against the gap of a book and the weight of its other holders. */
  ghost predicate ComparesByGap(share: Share, pool: StakingInfo, until: BlockNumber, gap: int, others: int) {
    && (share.weight < share.total <==> gap < others)
    && (share.weight == share.total <==> gap == others)
    && (share.total == 0 <==> pool.effectiveTime == until)
  }

  /**
   A claim up to any block, in any state: for less than the whole, the whole, or more, as the pool's moment
   exceeds its users' by less than the others' weight there, by just that, or by more; that weight counts
   against others before they have started.  And the whole is nothing exactly at the pool's own time.
   */
  lemma ShareComparesByGap(s: State, p: PoolId, who: AccountId, until: BlockNumber)
    requires Conserved(Deposited(s)) && (who, p) in s.deposits.users && p in s.deposits.pools
    requires TakeShare(s.deposits.pools[p], s.deposits.users[(who, p)], until).Some?
    ensures var book := PoolBook(s.deposits, p);
            ComparesByGap(TakeShare(s.deposits.pools[p], s.deposits.users[(who, p)], until).value, s.deposits.pools[p],
              until, Gap(book), Total(SignedWeights(book.users - {(who, p)}, until)))
  {
    PoolBalanced(s, p);
    BookCompares(PoolBook(s.deposits, p), (who, p), until);
  }

  lemma BookCompares<K>(b: Book<K>, k: K, until: BlockNumber)
    requires Balanced(b) && k in b.users && b.pool.Some? && TakeShare(b.pool.value, b.users[k], until).Some?
    ensures ComparesByGap(TakeShare(b.pool.value, b.users[k], until).value, b.pool.value, until, Gap(b),
              Total(SignedWeights(b.users - {k}, until)))
  {
    UserCovered(b, k);
    ShareWeighs(b.pool.value, b.users[k], until);
    ZeroTotalIff(b.pool.value, b.users[k], until);
    CoverageCompares(b, k, until);
  }

  lemma NativeShareComparesByGap(s: State, who: AccountId, until: BlockNumber)
    requires Conserved(Deposited(s)) && Begun(s) && who in s.natives.users
    ensures s.natives.pool.Some?
    ensures TakeShare(s.natives.pool.value, s.natives.users[who], until).Some? ==>
              ComparesByGap(TakeShare(s.natives.pool.value, s.natives.users[who], until).value, s.natives.pool.value,
                until, Gap(s.natives), Total(SignedWeights(s.natives.users - {who}, until)))
  {
    NativesBalanced(s);
    UserCovered(s.natives, who);
    if TakeShare(s.natives.pool.value, s.natives.users[who], until).Some? {
      BookCompares(s.natives, who, until);
    }
  }

  // Withdrawals

  /** And of the native book, whose user may stay with the rest. */
  lemma WithdrawLeavesNatives(cfg: Config, s: State, who: AccountId, pool: PoolId, refused: Refused)
    requires DoWithdraw(cfg, s, who, pool, refused).Ok?
    requires pool in s.deposits.pools && (who, pool) in s.deposits.users
    requires s.natives.pool.Some? && who in s.natives.users
    ensures var t := DoWithdraw(cfg, s, who, pool, refused).value;
            Leave(s.natives, who, s.deposits.users[(who, pool)].amount) == Some(t.natives)
  {
    DoWithdrawParts(cfg, s, who, pool, refused);
  }

  /** A withdrawal after its native claim, and after its stable one. */
  lemma WithdrawClaims(cfg: Config, s: State, who: AccountId, pool: PoolId, refused: Refused) returns (s1: State,
          t: State)
    requires WithdrawStake(cfg, s, Signed(who), pool, refused).Ok?
    ensures Claim(s.natives, who, s.now) == Some(s1.natives) && s1.deposits == s.deposits
    ensures DoStableClaim(cfg, s1, who, pool, s.now, refused) == Ok(t)
    ensures DoWithdraw(cfg, t, who, pool, refused) == WithdrawStake(cfg, s, Signed(who), pool, refused)
  {
    s1 := DoNativeClaim(cfg, s, who, s.now, refused).value;
    NativeClaimParts(cfg, s, who, s.now, refused);
    t := DoStableClaim(cfg, s1, who, pool, s.now, refused).value;
  }

  /** The state a withdrawal leaves the pool in, after both claims at the current block. */
  lemma WithdrawPhases(cfg: Config, s: State, who: AccountId, pool: PoolId, refused: Refused) returns (t: State)
    requires Conserved(Deposited(s)) && (who, pool) in s.deposits.users
    requires WithdrawStake(cfg, s, Signed(who), pool, refused).Ok?
    ensures DoWithdraw(cfg, t, who, pool, refused) == WithdrawStake(cfg, s, Signed(who), pool, refused)
    ensures pool in s.deposits.pools && pool in t.deposits.pools && (who, pool) in t.deposits.users
    ensures t.deposits.users[(who, pool)].amount == s.deposits.users[(who, pool)].amount
    ensures Claim(s.natives, who, s.now) == Some(t.natives)
    ensures Claim(PoolBook(s.deposits, pool), (who, pool), s.now) == Some(PoolBook(t.deposits, pool))
  {
    var s1;
    s1, t := WithdrawClaims(cfg, s, who, pool, refused);
    PositionCoveredInState(s, who, pool);
    StableClaimParts(cfg, s1, who, pool, s.now, refused);
    StableClaimBook(cfg, s1, who, pool, s.now, refused, pool);
  }

  /**
   Whether the pool still covers the users who stay after a withdrawal, claims included, in terms of
   the state before it: the leaver's weight must have moved the pool's time close enough to now.
   */
  lemma WithdrawOneSidedIff(cfg: Config, s: State, who: AccountId, pool: PoolId, refused: Refused)
    requires Conserved(Deposited(s)) && OneSided(PoolBook(s.deposits, pool)) && (who, pool) in s.deposits.users
    requires WithdrawStake(cfg, s, Signed(who), pool, refused).Ok?
    ensures pool in s.deposits.pools && s.deposits.pools[pool].amount > 0
    ensures var t := WithdrawStake(cfg, s, Signed(who), pool, refused).value;
            var u := s.deposits.users[(who, pool)];
            OneSided(PoolBook(t.deposits, pool)) <==>
              CloseEnough(s.deposits.pools[pool], SignedWeight(u, s.now), u.amount, s.now,
                  Gap(PoolBook(s.deposits, pool)))
  {
    var t := WithdrawPhases(cfg, s, who, pool, refused);
    WithdrawLeavesPool(cfg, t, who, pool, refused);
    ClaimedLeaveOneSidedIff(PoolBook(s.deposits, pool), (who, pool), s.deposits.users[(who, pool)].amount, s.now);
  }

  /** The same for the native book, which the stable amount leaves. */
  lemma WithdrawNativeOneSidedIff(cfg: Config, s: State, who: AccountId, pool: PoolId, refused: Refused)
    requires Conserved(Deposited(s)) && OneSided(s.natives) && (who, pool) in s.deposits.users && who in s.natives.users
    requires WithdrawStake(cfg, s, Signed(who), pool, refused).Ok?
    ensures s.natives.pool.Some? && s.natives.pool.value.amount > 0
    ensures var t := WithdrawStake(cfg, s, Signed(who), pool, refused).value;
            var u, v := s.natives.users[who], s.deposits.users[(who, pool)].amount;
            OneSided(t.natives) <==> CloseEnough(s.natives.pool.value, SignedWeight(u, s.now), v, s.now, Gap(s.natives))
  {
    var t := WithdrawPhases(cfg, s, who, pool, refused);
    PositionCoveredInState(s, who, pool);
    WithdrawLeavesNatives(cfg, t, who, pool, refused);
    ClaimedLeaveOneSidedIff(s.natives, who, s.deposits.users[(who, pool)].amount, s.now);
  }
}
