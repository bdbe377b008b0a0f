/**
 What the invariants mean for a user and for the chain: deposits come back whole, the escrow
 covers them, every order is settled once and on time, and exactly what makes a hook fail.
 */
module StakingTheorems {
  import opened Base
  import opened Sums
  import opened StakingInfos
  import opened Epochs
  import opened Queue
  import opened Drift
  import opened StakingState
  import opened StakingBooks
  import opened StakingSteps
  import opened StakingInvariants
  import opened StakingRuns

  /** Once a pool has ended nothing waits for it, so a user holds all that was never withdrawn. */
  lemma HoldsEverything(cfg: Config, asset: AssetId, start: int, s: State, who: AccountId, pool: PoolId)
    requires Invariant(cfg, asset, start, s)
    requires pool in s.settings && s.settings[pool].EndTime().Some? && s.settings[pool].EndTime().value < s.now
    ensures var staked := Tally(s.events, Contributions, OfBoth(who, pool));
            if (who, pool) in s.deposits.users then s.deposits.users[(who, pool)].amount == staked
            else staked == Tally(s.events, Withdrawals, OfBoth(who, pool))
  {
    var b := Deposited(s);
    var sel := OfBoth(who, pool);
    assert PrincipalFor(b, s.events, sel);
    forall x | x in s.deposits.pending ensures x.pool != pool {
      assert Waits(s.now, s.settings, x);
    }
    NothingQueued(s.deposits.pending, who, pool);
    HeldByOne(b.users, who, pool);
    if (who, pool) in s.deposits.users {
      forall e | e in s.events && e.Withdraw? ensures !(e.who == who && e.pool == pool) {
        assert FinalFor(s.now, s.settings, s.deposits, e.who, e.pool);
      }
      NoWithdrawalNoTally(s.events, who, pool);
    }
  }

  lemma HeldByOne(users: map<(AccountId, PoolId), int>, who: AccountId, pool: PoolId)
    ensures Held(users, OfBoth(who, pool)) == if (who, pool) in users then users[(who, pool)] else 0
  {
    var one := Selected(users, OfBoth(who, pool));
    if (who, pool) in users {
      assert one == map[(who, pool) := users[(who, pool)]];
      TotalSplit(one, (who, pool));
      assert one - {(who, pool)} == map[];
    } else {
      assert one == map[];
    }
  }

  lemma {:induction false} NothingQueued(q: seq<Order>, who: AccountId, pool: PoolId)
    requires forall x :: x in q ==> x.pool != pool
    ensures Queued(q, OfBoth(who, pool)) == 0
  {
    if q != [] {
      assert q[0] in q;
      NothingQueued(q[1..], who, pool);
    }
  }

  /**
   A successful withdrawal of a user with a position returns exactly everything the user ever
   staked in the pool: it is logged, and it goes from the escrow
   to the user together with the claimed reward.
   */
  lemma WithdrawReturnsEverything(cfg: Config, asset: AssetId, start: int, s: State, who: AccountId, pool: PoolId,
          refused: Refused)
    requires Invariant(cfg, asset, start, s) && who != cfg.escrow
    requires WithdrawStake(cfg, s, Signed(who), pool, refused).Ok? && (who, pool) in s.deposits.users
    ensures var t := WithdrawStake(cfg, s, Signed(who), pool, refused).value;
            var staked := Tally(s.events, Contributions, OfBoth(who, pool));
            && 0 <= staked < U128_LIMIT
            && t.events != [] && t.events[|t.events| - 1] == Event.Withdraw(who, pool, s.now, staked)
            && (who, pool) !in t.deposits.users
            && (var reward := GetOrZero(s.rewards.unclaimed, pool) - GetOrZero(t.rewards.unclaimed, pool);
                && EscrowBalance(cfg, asset, t.tokens) == EscrowBalance(cfg, asset, s.tokens) - staked - reward
                && GetOrZero(t.tokens.assets, (asset, who))
                     == GetOrZero(s.tokens.assets, (asset, who)) + staked + reward)
  {
    HoldsEverything(cfg, asset, start, s, who, pool);
    var v := s.deposits.users[(who, pool)].amount;
    assert v == Amounts(s.deposits.users)[(who, pool)];
    var s1 := DoNativeClaim(cfg, s, who, s.now, refused).value;
    NativeClaimParts(cfg, s, who, s.now, refused);
    assert Deposited(s1).users == Deposited(s).users && (who, pool) in Deposited(s1).users;
    var s2 := DoStableClaim(cfg, s1, who, pool, s.now, refused).value;
    StableClaimEscrow(cfg, asset, s1, who, pool, s.now, refused);
    assert Deposited(s2).users == Deposited(s).users && (who, pool) in Deposited(s2).users;
    assert s2.deposits.users[(who, pool)].amount == v;
    PositionCoveredInState(s2, who, pool);
    DoWithdrawParts(cfg, s2, who, pool, refused);
    EscrowPays(cfg, asset, s2.tokens, who, v, refused);
  }

  lemma EscrowPays(cfg: Config, asset: AssetId, t: Tokens, who: AccountId, amount: Balance, refused: Refused)
    requires who != cfg.escrow && Transfer(t, asset, cfg.escrow, who, amount, refused).Ok?
    ensures var u := Transfer(t, asset, cfg.escrow, who, amount, refused).value;
            && EscrowBalance(cfg, asset, u) == EscrowBalance(cfg, asset, t) - amount
            && GetOrZero(u.assets, (asset, who)) == GetOrZero(t.assets, (asset, who)) + amount
  {
  }

  lemma StableClaimEscrow(cfg: Config, asset: AssetId, s: State, who: AccountId, pool: PoolId, until: BlockNumber,
          refused: Refused)
    requires DoStableClaim(cfg, s, who, pool, until, refused).Ok? && who != cfg.escrow
    requires s.tokens.aiusd.Some? ==> s.tokens.aiusd.value == asset
    ensures var t := DoStableClaim(cfg, s, who, pool, until, refused).value;
            && Deposited(t) == Deposited(s) && t.now == s.now && t.tokens.aiusd == s.tokens.aiusd
            && (var reward := GetOrZero(s.rewards.unclaimed, pool) - GetOrZero(t.rewards.unclaimed, pool);
                && EscrowBalance(cfg, asset, t.tokens) == EscrowBalance(cfg, asset, s.tokens) - reward
                && GetOrZero(t.tokens.assets, (asset, who)) == GetOrZero(s.tokens.assets, (asset, who)) + reward)
  {
    StableClaimParts(cfg, s, who, pool, until, refused);
    StableClaimOnBooks(cfg, s, who, pool, until, refused);
    if pool in s.deposits.pools && (who, pool) in s.deposits.users {
      var t := DoStableClaim(cfg, s, who, pool, until, refused).value;
      var reward: Balance :| StableClaimPays(cfg, s, t, who, pool, until, refused, reward);
      EscrowPays(cfg, asset, s.tokens, who, reward, refused);
    }
  }

  /** The escrow always covers every user's deposits, settled and waiting, and every unclaimed reward. */
  lemma EscrowCovers(cfg: Config, asset: AssetId, start: nat, s: State, who: AccountId, pool: PoolId)
    requires Invariant(cfg, asset, start, s)
    ensures (who, pool) in s.deposits.users
          ==> s.deposits.users[(who, pool)].amount <= EscrowBalance(cfg, asset, s.tokens)
    ensures GetOrZero(s.rewards.unclaimed, pool) <= EscrowBalance(cfg, asset, s.tokens)
    ensures EscrowBalance(cfg, asset, s.tokens) - start ==
              Total(Amounts(s.deposits.pools)) + Total(Integers(s.deposits.pendingAmount))
                  + Total(Integers(s.rewards.unclaimed))
  {
    var b := Deposited(s);
    TotalNonNegative(Integers(s.rewards.unclaimed));
    TotalNonNegative(b.pools);
    TotalNonNegative(b.pendingAmount);
    if (who, pool) in s.deposits.users {
      PositionCoveredInState(s, who, pool);
    }
    if pool in s.rewards.unclaimed {
      TotalCovers(Integers(s.rewards.unclaimed), pool);
    }
  }

  /** Every accepted order is settled or waiting, exactly once, at its target time. */
  lemma OrdersConserved(cfg: Config, asset: AssetId, start: int, s: State)
    requires Invariant(cfg, asset, start, s)
    ensures multiset(Accepted(s.events)) == multiset(Solved(s.events)) + multiset(s.deposits.pending)
    ensures forall x :: x in Accepted(s.events) ==>
              if x.Time() <= s.now then x in Solved(s.events) else x in s.deposits.pending
  {
    SortStable(Accepted(s.events));
    assert multiset(Solved(s.events) + s.deposits.pending) == multiset(Solved(s.events)) + multiset(s.deposits.pending);
    forall x | x in Accepted(s.events)
      ensures if x.Time() <= s.now then x in Solved(s.events) else x in s.deposits.pending
    {
      assert x in multiset(Accepted(s.events));
      assert x in multiset(Solved(s.events)) || x in multiset(s.deposits.pending);
      if x in s.deposits.pending {
        assert Waits(s.now, s.settings, x);
      }
    }
  }

  // --- exactly when settling fails ---

  /** Someone selected is already there or comes earlier in the queue, and holds nothing in total. */
  ghost predicate EmptyBefore(known: bool, amount: int, earlier: seq<Order>, sel: Selection) {
    && (known || exists j :: 0 <= j < |earlier| && sel.Has(earlier[j].who, earlier[j].pool))
    && amount + Queued(earlier, sel) == 0
  }

  /** Order `i` deposits nothing into a pool, or for a user, that is known by then and empty. */
  ghost predicate ZeroClash(pools: map<PoolId, StakingInfo>, users: map<(AccountId, PoolId), StakingInfo>,
          q: seq<Order>, i: nat)
    requires i < |q|
  {
    var x := q[i];
    var k := (x.who, x.pool);
    && x.info.amount == 0
    && (|| EmptyBefore(x.pool in pools, if x.pool in pools then pools[x.pool].amount else 0, q[..i], OfPool(x.pool))
        || EmptyBefore(k in users, if k in users then users[k].amount else 0, q[..i], OfBoth(x.who, x.pool)))
  }

  lemma EmptyBeforeStep(known: bool, amount: int, earlier: seq<Order>, sel: Selection)
    requires earlier != []
    ensures var has := sel.Has(earlier[0].who, earlier[0].pool);
            EmptyBefore(known, amount, earlier, sel) <==>
              EmptyBefore(known || has, amount + (if has then earlier[0].info.amount else 0), earlier[1..], sel)
  {
    if exists j :: 0 <= j < |earlier| && sel.Has(earlier[j].who, earlier[j].pool) {
      var j :| 0 <= j < |earlier| && sel.Has(earlier[j].who, earlier[j].pool);
      if j > 0 {
        assert earlier[1..][j - 1] == earlier[j];
      }
    }
    if exists j :: 0 <= j < |earlier[1..]| && sel.Has(earlier[1..][j].who, earlier[1..][j].pool) {
      var j :| 0 <= j < |earlier[1..]| && sel.Has(earlier[1..][j].who, earlier[1..][j].pool);
      assert earlier[j + 1] == earlier[1..][j];
    }
  }

  lemma ClashStep(d: Deposits, q: seq<Order>, n: BlockNumber, i: nat)
    requires i + 1 < |q| && SolveOne(d, q[0], n).failure.None?
    ensures ZeroClash(d.pools, d.users, q, i + 1)
          <==> var t := SolveOne(d, q[0], n).deposits; ZeroClash(t.pools, t.users, q[1..], i)
  {
    var x, t := q[i + 1], SolveOne(d, q[0], n).deposits;
    var k := (x.who, x.pool);
    SolveOneExact(d, q[0], n);
    AddOrCreateAmount(Lookup(d.pools, q[0].pool), n, q[0].info.amount);
    AddOrCreateAmount(Lookup(d.users, (q[0].who, q[0].pool)), n, q[0].info.amount);
    assert q[..i + 1][1..] == q[1..][..i];
    EmptyBeforeStep(x.pool in d.pools, if x.pool in d.pools then d.pools[x.pool].amount else 0, q[..i + 1],
        OfPool(x.pool));
    EmptyBeforeStep(k in d.users, if k in d.users then d.users[k].amount else 0, q[..i + 1], OfBoth(x.who, x.pool));
  }

  lemma ClashAtHead(d: Deposits, q: seq<Order>)
    requires q != []
    ensures ZeroClash(d.pools, d.users, q, 0) <==>
              DividesByZero(Lookup(d.pools, q[0].pool), q[0].info.amount)
              || DividesByZero(Lookup(d.users, (q[0].who, q[0].pool)), q[0].info.amount)
  {
    assert q[..0] == [];
  }

  /** Under small caps settling fails exactly when some due order deposits nothing onto nothing. */
  lemma {:induction false} SolveLoopFailsOnZeroIff(settings: map<PoolId, PoolSetting>, d: Deposits,
          natives: Book<AccountId>, q: seq<Order>, n: BlockNumber)
    requires d.pending == [] && Conserved(BooksOf(settings, d.(pending := q), natives)) && CapsSmall(settings)
    ensures SolveLoop(d, q, n).failure.Some? <==>
              exists i :: 0 <= i < RipeCount(q, n) && ZeroClash(d.pools, d.users, q, i)
    decreases |q|
  {
    if q != [] && q[0].Time() <= n {
      var one := SolveOne(d, q[0], n);
      SolveOneFailsOnZeroIff(settings, d, natives, q, n);
      ClashAtHead(d, q);
      if one.failure.None? {
        SolveOneOnBooks(settings, d, natives, q, n);
        SolveConserves(BooksOf(settings, d.(pending := q), natives));
        SolveLoopFailsOnZeroIff(settings, one.deposits, natives, q[1..], n);
        var k := RipeCount(q[1..], n);
        forall i: nat | i < k ensures ZeroClash(d.pools, d.users, q, i + 1)
            <==> ZeroClash(one.deposits.pools, one.deposits.users, q[1..], i) {
          ClashStep(d, q, n, i);
        }
        if i: nat :| i < k && ZeroClash(one.deposits.pools, one.deposits.users, q[1..], i) {
          assert ZeroClash(d.pools, d.users, q, i + 1);
        }
        if j: nat :| j < k + 1 && ZeroClash(d.pools, d.users, q, j) {
          assert ZeroClash(one.deposits.pools, one.deposits.users, q[1..], j - 1);
        }
      }
    }
  }

  ghost predicate SomeClash(d: Deposits, n: BlockNumber) {
    exists i :: 0 <= i < RipeCount(d.pending, n) && ZeroClash(d.pools, d.users, d.pending, i)
  }

  lemma SolvePendingFailsOnZeroIff(settings: map<PoolId, PoolSetting>, d: Deposits, natives: Book<AccountId>,
          n: BlockNumber)
    requires Conserved(BooksOf(settings, d, natives)) && CapsSmall(settings)
    ensures SolvePending(d, n).failure.Some? <==> SomeClash(d, n)
  {
    var e := d.(pending := []);
    assert e.(pending := d.pending) == d;
    SolveLoopFailsOnZeroIff(settings, e, natives, d.pending, n);
  }

  /** So in a state with small caps and agreeing amounts the next hook fails exactly on such an order. */
  lemma HookFailsOnZeroIff(s: State)
    requires Conserved(BooksOf(s.settings, s.deposits, s.natives)) && CapsSmall(s.settings) && s.now + 1 < U32_LIMIT
    ensures HookFails(s, NextBlock) <==> SomeClash(s.deposits, s.now + 1)
  {
    HookIsSettling(s);
    SolvePendingFailsOnZeroIff(s.settings, s.deposits, s.natives, s.now + 1);
  }

  /** The deposits once the first `i` orders have been settled, if they can be. */
  ghost function SettledFirst(d: Deposits, q: seq<Order>, i: nat, n: BlockNumber): Option<Deposits>
    requires i <= |q|
    decreases i
  {
    if i == 0 then Some(d)
    else if SolveOne(d, q[0], n).failure.Some? then None
    else SettledFirst(SolveOne(d, q[0], n).deposits, q[1..], i - 1, n)
  }

  /** The loop in closed form: it settles what is due one by one, and stops at the first order that fails. */
  ghost predicate SettlesUpTo(d: Deposits, q: seq<Order>, n: BlockNumber, i: nat, out: Settled)
    requires i <= |q|
  {
    && (forall j :: 0 <= j < i ==> q[j].Time() <= n)
    && SettledFirst(d, q, i, n).Some?
    && var before := SettledFirst(d, q, i, n).value;
       if i == |q| || q[i].Time() > n then
         out == Settled(before.(pending := q[i..]), SolvedEvents(q[..i], n), None)
       else
         var last := SolveOne(before, q[i], n);
         last.failure.Some? && out == last.(events := SolvedEvents(q[..i], n) + last.events)
  }

  lemma {:induction false} SolveLoopSettlesUpTo(d: Deposits, q: seq<Order>, n: BlockNumber) returns (i: nat)
    ensures i <= |q| && SettlesUpTo(d, q, n, i, SolveLoop(d, q, n))
    decreases |q|
  {
    i := 0;
    if q != [] && q[0].Time() <= n {
      var one := SolveOne(d, q[0], n);
      if one.failure.Some? {
        assert SolvedEvents(q[..0], n) + one.events == one.events;
      } else {
        SolveOneExact(d, q[0], n);
        var k := SolveLoopSettlesUpTo(one.deposits, q[1..], n);
        i := k + 1;
        UpToStep(d, q, n, k);
      }
    }
  }

  lemma UpToStep(d: Deposits, q: seq<Order>, n: BlockNumber, k: nat)
    requires q != [] && q[0].Time() <= n && SolveOne(d, q[0], n).failure.None? && k + 1 <= |q|
    requires var one := SolveOne(d, q[0], n);
             && one.events == [SolvedEvent(q[0], n)]
             && SettlesUpTo(one.deposits, q[1..], n, k, SolveLoop(one.deposits, q[1..], n))
    ensures SettlesUpTo(d, q, n, k + 1, SolveLoop(d, q, n))
  {
    var one := SolveOne(d, q[0], n);
    var rest := SolveLoop(one.deposits, q[1..], n);
    assert q[1..][k..] == q[k + 1..];
    assert q[..k + 1][1..] == q[1..][..k];
    assert SolvedEvents(q[..k + 1], n) == one.events + SolvedEvents(q[1..][..k], n);
    forall j | 0 <= j < k + 1 ensures q[j].Time() <= n {
      if j > 0 {
        assert q[j] == q[1..][j - 1];
      }
    }
    if rest.failure.Some? {
      var last := SolveOne(SettledFirst(one.deposits, q[1..], k, n).value, q[1..][k], n);
      assert one.events + (SolvedEvents(q[1..][..k], n) + last.events)
          == SolvedEvents(q[..k + 1], n) + last.events;
    }
  }

  /** Order `i` finds, after the orders before it, a pool or a user's position that its amount does not fit. */
  ghost predicate StuckAt(d: Deposits, q: seq<Order>, i: nat, n: BlockNumber)
    requires i < |q|
  {
    var before, x := SettledFirst(d, q, i, n), q[i];
    && before.Some?
    && !(&& Fits(Lookup(before.value.pools, x.pool), n, x.info.amount)
         && Fits(Lookup(before.value.users, (x.who, x.pool)), n, x.info.amount))
  }

  ghost predicate Stuck(d: Deposits, q: seq<Order>, n: BlockNumber) {
    exists i: nat :: i < RipeCount(q, n) && StuckAt(d, q, i, n)
  }

  lemma StuckLater(d: Deposits, q: seq<Order>, n: BlockNumber)
    requires q != [] && q[0].Time() <= n && SolveOne(d, q[0], n).failure.None? && !StuckAt(d, q, 0, n)
    ensures Stuck(d, q, n) <==> Stuck(SolveOne(d, q[0], n).deposits, q[1..], n)
  {
    var t, rest := SolveOne(d, q[0], n).deposits, q[1..];
    if i: nat :| i < RipeCount(q, n) && StuckAt(d, q, i, n) {
      assert rest[i - 1] == q[i];
      assert StuckAt(t, rest, i - 1, n);
    }
    if j: nat :| j < RipeCount(rest, n) && StuckAt(t, rest, j, n) {
      assert rest[j] == q[j + 1];
      assert StuckAt(d, q, j + 1, n);
    }
  }

  /** Settling fails exactly when some due order is stuck: nothing else can go wrong, whatever the caps. */
  lemma {:induction false} SolveLoopFailsIff(settings: map<PoolId, PoolSetting>, d: Deposits, natives: Book<AccountId>,
          q: seq<Order>, n: BlockNumber)
    requires d.pending == [] && Conserved(BooksOf(settings, d.(pending := q), natives))
    ensures SolveLoop(d, q, n).failure.Some? <==> Stuck(d, q, n)
    decreases |q|
  {
    if q != [] && q[0].Time() <= n {
      var one := SolveOne(d, q[0], n);
      SolveOneFailsIff(settings, d, natives, q, n);
      assert StuckAt(d, q, 0, n) <==> one.failure.Some?;
      if one.failure.None? {
        SolveOneOnBooks(settings, d, natives, q, n);
        SolveConserves(BooksOf(settings, d.(pending := q), natives));
        SolveLoopFailsIff(settings, one.deposits, natives, q[1..], n);
        StuckLater(d, q, n);
      }
    }
  }

  lemma SolvePendingFailsIff(settings: map<PoolId, PoolSetting>, d: Deposits, natives: Book<AccountId>, n: BlockNumber)
    requires Conserved(BooksOf(settings, d, natives))
    ensures SolvePending(d, n).failure.Some? <==> Stuck(d.(pending := []), d.pending, n)
  {
    var e := d.(pending := []);
    assert e.(pending := d.pending) == d;
    SolveLoopFailsIff(settings, e, natives, d.pending, n);
  }

  /** So in a state with agreeing amounts the next hook fails exactly on a stuck order. */
  lemma HookFailsIff(s: State)
    requires Conserved(Deposited(s)) && s.now + 1 < U32_LIMIT
    ensures HookFails(s, NextBlock) <==> Stuck(s.deposits.(pending := []), s.deposits.pending, s.now + 1)
  {
    HookIsSettling(s);
    SolvePendingFailsIff(s.settings, s.deposits, s.natives, s.now + 1);
  }

  /** Every block settles that far, and keeps what it has settled also when it then fails. */
  lemma BlockSettlesUpTo(cfg: Config, s: State) returns (i: nat, out: Settled)
    requires s.now + 1 < U32_LIMIT
    ensures i <= |s.deposits.pending|
    ensures SettlesUpTo(s.deposits.(pending := []), s.deposits.pending, s.now + 1, i, out)
    ensures Apply(cfg, s, NextBlock) == s.(now := s.now + 1, deposits := out.deposits, events := s.events + out.events)
  {
    out := SolvePending(s.deposits, s.now + 1);
    i := SolveLoopSettlesUpTo(s.deposits.(pending := []), s.deposits.pending, s.now + 1);
    AppliesHook(cfg, s);
    BlockIsSettling(s, s.now + 1);
  }

  /** Settling by hand does so at the current block, but a failure is undone. */
  lemma SolveCallSettlesUpTo(cfg: Config, s: State, origin: Origin) returns (i: nat, out: Settled)
    ensures i <= |s.deposits.pending|
    ensures SettlesUpTo(s.deposits.(pending := []), s.deposits.pending, s.now, i, out)
    ensures Execute(cfg, s, CallSolve(origin)).Ok? <==> origin.Signed? && out.failure.None?
    ensures Apply(cfg, s, CallSolve(origin)) ==
              if origin.Signed? && out.failure.None? then
                s.(deposits := out.deposits, events := s.events + out.events) else s
  {
    out := SolvePending(s.deposits, s.now);
    i := SolveLoopSettlesUpTo(s.deposits.(pending := []), s.deposits.pending, s.now);
  }
}
