/**
 Runs from an empty chain showing that conditions of the staking theorems cannot be dropped: a second
 deposit or a withdrawal can leave a pool behind its users, a claim up to a block before another user
 started takes everything, and deposits of zero can cost other users theirs.
 */
module StakingExamples {
  import opened Base
  import opened Sums
  import opened StakingInfos
  import opened Epochs
  import opened Queue
  import opened Drift
  import opened StakingState
  import opened StakingSteps
  import opened StakingInvariants
  import opened StakingRuns
  import opened StakingRoom
  import opened StakingDrift
  import opened StakingShares
  import opened StakingAcceptance
  import opened StakingScenes

  lemma OneUser<K>(b: Book<K>, x: K)
    requires b.users.Keys == {x}
    ensures Total(Amounts(b.users)) == b.users[x].amount && Total(Moments(b.users)) == b.users[x].Moment()
  {
    TotalSplit(Amounts(b.users), x);
    TotalSplit(Moments(b.users), x);
    assert Amounts(b.users) - {x} == map[] && Moments(b.users) - {x} == map[];
  }

  lemma TwoUsers<K>(b: Book<K>, x: K, y: K)
    requires x != y && b.users.Keys == {x, y}
    ensures Total(Amounts(b.users)) == b.users[x].amount + b.users[y].amount
    ensures Total(Moments(b.users)) == b.users[x].Moment() + b.users[y].Moment()
  {
    TotalSplit(Amounts(b.users), x);
    TotalSplit(Amounts(b.users) - {x}, y);
    TotalSplit(Moments(b.users), x);
    TotalSplit(Moments(b.users) - {x}, y);
    assert Amounts(b.users) - {x} - {y} == map[];
    assert Moments(b.users) - {x} - {y} == map[];
  }

  // Two equal stakes

  ghost function At(time: BlockNumber, amount: Balance): StakingInfo { StakingInfo(time, amount, time) }

  /** Positions, queue and native positions; no rewards recorded, and balances as after these deposits. */
  ghost predicate Scene(s: State, now: BlockNumber, d: Deposits, natives: Book<AccountId>, left: int, held: int) {
    && Plain(s) && s.now == now && s.deposits == d && s.natives == natives
    && s.rewards == Rewards(map[], map[]) && s.tokens.native == map[1 := 30]
    && GetOrZero(s.tokens.assets, (7, 2)) == left && GetOrZero(s.tokens.assets, (7, 0)) == held
  }

  ghost function OneQueued(): Deposits { Deposits(map[], map[], [NewOrder(2, 1, 2, 1)], map[1 := 1]) }

  ghost function BothQueued(): Deposits {
    Deposits(map[], map[], [NewOrder(2, 1, 2, 1), NewOrder(3, 1, 2, 1)], map[1 := 2])
  }

  ghost function BothSettled(): Deposits {
    Deposits(map[1 := At(2, 2)], map[(2, 1) := At(2, 1), (3, 1) := At(2, 1)], [], map[1 := 0])
  }

  ghost function OneNative(): Book<AccountId> { Book(Some(At(1, 1)), map[2 := At(1, 1)]) }

  ghost function BothNative(): Book<AccountId> { Book(Some(At(1, 2)), map[2 := At(1, 1), 3 := At(1, 1)]) }

  lemma FirstQueued(s: State)
    requires Scene(s, 1, Deposits(map[], map[], [], map[]), Book(None, map[]), 50, 0)
    requires GetOrZero(s.tokens.assets, (7, 3)) == 50
    ensures Scene(Apply(Lazy(), s, Stakes(2, 1, 1)), 1, OneQueued(), OneNative(), 49, 1)
    ensures GetOrZero(Apply(Lazy(), s, Stakes(2, 1, 1)).tokens.assets, (7, 3)) == 50
    ensures Apply(Lazy(), s, Stakes(2, 1, 1)).events == s.events + [Staked(2, 1, 2, 1)]
  {
    Places(s, 2, 1, 1, At(1, 1), At(1, 1));
    FirstPlaced(s, Apply(Lazy(), s, Stakes(2, 1, 1)));
  }

  lemma FirstPlaced(s: State, t: State)
    requires Scene(s, 1, Deposits(map[], map[], [], map[]), Book(None, map[]), 50, 0)
    requires t == Placed(s, 2, 1, 1, At(1, 1), At(1, 1), t.tokens) && Paid(s.tokens, t.tokens, 2, 1)
    ensures Scene(t, 1, OneQueued(), OneNative(), 49, 1) && t.events == s.events + [Staked(2, 1, 2, 1)]
    ensures GetOrZero(t.tokens.assets, (7, 3)) == GetOrZero(s.tokens.assets, (7, 3))
  {
    assert [] + [NewOrder(2, 1, 2, 1)] == [NewOrder(2, 1, 2, 1)];
  }

  lemma SecondQueued(s: State)
    requires Scene(s, 1, OneQueued(), OneNative(), 49, 1) && GetOrZero(s.tokens.assets, (7, 3)) == 50
    ensures Scene(Apply(Lazy(), s, Stakes(3, 1, 1)), 1, BothQueued(), BothNative(), 49, 2)
    ensures GetOrZero(Apply(Lazy(), s, Stakes(3, 1, 1)).tokens.assets, (7, 3)) == 49
  {
    assert At(1, 1).Added(1, 1) == Some(At(1, 2));
    Places(s, 3, 1, 1, At(1, 2), At(1, 1));
    assert [NewOrder(2, 1, 2, 1)] + [NewOrder(3, 1, 2, 1)] == BothQueued().pending;
    assert OneNative().users[3 := At(1, 1)] == BothNative().users;
    assert OneQueued().pendingAmount[1 := 2] == BothQueued().pendingAmount;
  }

  lemma TwoSettle(d: Deposits)
    requires d == Deposits(map[], map[], [], map[1 := 2])
    ensures SolveLoop(d, [NewOrder(2, 1, 2, 1), NewOrder(3, 1, 2, 1)], 2) == Settled(
              Deposits(map[1 := At(2, 2)], map[(2, 1) := At(2, 1), (3, 1) := At(2, 1)], [], map[1 := 0]),
              [SolvedEvent(NewOrder(2, 1, 2, 1), 2), SolvedEvent(NewOrder(3, 1, 2, 1), 2)], None)
  {
    var x, y := NewOrder(2, 1, 2, 1), NewOrder(3, 1, 2, 1);
    SolvesOne(d, x, 2, At(2, 1), At(2, 1));
    var one := SolveOne(d, x, 2);
    assert At(2, 1).Added(2, 1) == Some(At(2, 2));
    SolvesOne(one.deposits, y, 2, At(2, 2), At(2, 1));
    var two := SolveOne(one.deposits, y, 2);
    assert [x, y][1..] == [y] && [y][1..] == [];
    assert SolveLoop(two.deposits, [], 2) == Settled(two.deposits.(pending := []), [], None);
    assert SolveLoop(one.deposits, [y], 2) == Settled(two.deposits, two.events + [], None);
    assert one.events + (two.events + []) == [SolvedEvent(x, 2), SolvedEvent(y, 2)];
  }

  lemma BothSettle(s: State)
    requires Scene(s, 1, BothQueued(), BothNative(), 49, 2)
    ensures Scene(Apply(Lazy(), s, NextBlock), 2, BothSettled(), BothNative(), 49, 2)
    ensures Apply(Lazy(), s, NextBlock).tokens == s.tokens
  {
    TwoSettle(s.deposits.(pending := []));
  }

  /** A run to block 2 with a unit of users 2 and 3 each settled in pool 1. */
  lemma EqualStakes() returns (acts: seq<Action>, s: State)
    ensures Reached(acts, s) && SoundRun(acts) && Scene(s, 2, BothSettled(), BothNative(), 49, 2)
    ensures GetOrZero(s.tokens.assets, (7, 3)) == 49
  {
    var start, s0 := Opening();
    FirstQueued(s0);
    Next(start, s0, Stakes(2, 1, 1));
    var s1 := Apply(Lazy(), s0, Stakes(2, 1, 1));
    SecondQueued(s1);
    Next(start + [Stakes(2, 1, 1)], s1, Stakes(3, 1, 1));
    var s2 := Apply(Lazy(), s1, Stakes(3, 1, 1));
    BothSettle(s2);
    Next(start + [Stakes(2, 1, 1)] + [Stakes(3, 1, 1)], s2, NextBlock);
    acts := start + [Stakes(2, 1, 1)] + [Stakes(3, 1, 1)] + [NextBlock];
    s := Apply(Lazy(), s2, NextBlock);
  }

  ghost function ThirdQueued(): Deposits {
    BothSettled().(pending := [NewOrder(2, 1, 4, 2)], pendingAmount := map[1 := 2])
  }

  lemma ThirdDeposit(s: State)
    requires Scene(s, 3, BothSettled(), BothNative(), 49, 2)
    ensures var t := Apply(Lazy(), s, Stakes(2, 1, 2)); t.now == 3 && t.deposits == ThirdQueued()
  {
    assert At(1, 2).Added(3, 2) == Some(StakingInfo(2, 4, 3));
    assert At(1, 1).Added(3, 2) == Some(StakingInfo(2, 3, 3));
    Places(s, 2, 1, 2, StakingInfo(2, 4, 3), StakingInfo(2, 3, 3));
    assert [] + [NewOrder(2, 1, 4, 2)] == ThirdQueued().pending;
    assert BothSettled().pendingAmount[1 := 2] == ThirdQueued().pendingAmount;
  }

  lemma ThirdSettles(s: State)
    requires s.now == 3 && s.deposits == ThirdQueued()
    ensures var t := Apply(Lazy(), s, NextBlock);
            && t.deposits.pools == map[1 := StakingInfo(3, 4, 4)]
            && t.deposits.users == map[(2, 1) := StakingInfo(3, 3, 4), (3, 1) := At(2, 1)]
  {
    assert At(2, 2).Added(4, 2) == Some(StakingInfo(3, 4, 4));
    assert At(2, 1).Added(4, 2) == Some(StakingInfo(3, 3, 4));
    SettlesOne(s, NewOrder(2, 1, 4, 2), StakingInfo(3, 4, 4), StakingInfo(3, 3, 4));
  }

  /** In a run one user's second deposit gains more from its own floor than the pool does. */
  lemma SecondDepositUncovers() returns (acts: seq<Action>, s: State, t: State)
    ensures Reached(acts, s) && SoundRun(acts + [NextBlock]) && t == Apply(Lazy(), s, NextBlock)
    ensures OneSided(PoolBook(s.deposits, 1)) && !OneSided(PoolBook(t.deposits, 1))
  {
    var equal, s2 := EqualStakes();
    var idle := IdlesTo(equal, s2, 3);
    var s3 := s2.(now := 3);
    ThirdDeposit(s3);
    Next(idle, s3, Stakes(2, 1, 2));
    acts, s := idle + [Stakes(2, 1, 2)], Apply(Lazy(), s3, Stakes(2, 1, 2));
    ThirdSettles(s);
    Next(acts, s, NextBlock);
    t := Apply(Lazy(), s, NextBlock);
    SecondDepositBooks(s.deposits, t.deposits);
  }

  lemma SecondDepositBooks(d: Deposits, e: Deposits)
    requires d.pools == map[1 := At(2, 2)] && d.users == map[(2, 1) := At(2, 1), (3, 1) := At(2, 1)]
    requires e.pools == map[1 := StakingInfo(3, 4, 4)]
          && e.users == map[(2, 1) := StakingInfo(3, 3, 4), (3, 1) := At(2, 1)]
    ensures OneSided(PoolBook(d, 1)) && !OneSided(PoolBook(e, 1))
  {
    TwoUsers(PoolBook(d, 1), (2, 1), (3, 1));
    TwoUsers(PoolBook(e, 1), (2, 1), (3, 1));
  }

  // One of the two leaves

  lemma NothingPaid(cfg: Config, weight: u128, total: u128)
    requires cfg == Lazy() && weight < total
    ensures MulNearest(Parts(cfg, weight, total), 30) == 0
  {
  }

  /** A native claim that pays nothing, from its share. */
  lemma ClaimsNativeNothing(s: State, who: AccountId, share: Share)
    requires s.natives.pool.Some? && who in s.natives.users && who != 1
    requires TakeShare(s.natives.pool.value, s.natives.users[who], s.now) == Some(share) && share.weight < share.total
    requires GetOrZero(s.tokens.native, 1) == 30 && GetOrZero(s.tokens.native, who) == 0
    ensures var claimed := DoNativeClaim(Lazy(), s, who, s.now, {});
            && claimed.Ok?
            && claimed.value.natives == Book(Some(share.pool), s.natives.users[who := share.user])
            && claimed.value == s.(natives := claimed.value.natives,
                 tokens := s.tokens.(native := claimed.value.tokens.native),
                                   events := claimed.value.events)
  {
    NothingPaid(Lazy(), share.weight, share.total);
  }

  /** A stable claim of a pool without rewards, from its share. */
  lemma ClaimsStableNothing(s: State, who: AccountId, share: Share)
    requires 1 in s.deposits.pools && (who, 1) in s.deposits.users && who != 0
    requires TakeShare(s.deposits.pools[1], s.deposits.users[(who, 1)], s.now) == Some(share)
    requires s.tokens.aiusd == Some(7) && GetOrZero(s.rewards.unclaimed, 1) == 0
    requires GetOrZero(s.tokens.assets, (7, who)) < 100 && GetOrZero(s.tokens.assets, (7, 0)) < 1000
    ensures var claimed := DoStableClaim(Lazy(), s, who, 1, s.now, {});
            && claimed.Ok?
            && claimed.value.deposits == s.deposits.(pools := s.deposits.pools[1 := share.pool],
                                                     users := s.deposits.users[(who, 1) := share.user])
            && claimed.value.now == s.now && claimed.value.settings == s.settings && claimed.value.natives == s.natives
            && claimed.value.tokens.aiusd == Some(7) && claimed.value.tokens.native == s.tokens.native
            && (forall w :: GetOrZero(claimed.value.tokens.assets, (7, w)) == GetOrZero(s.tokens.assets, (7, w)))
            && GetOrZero(claimed.value.rewards.unclaimed, 1) == 0
  {
  }

  /** User 2's position and its unit of the native ones taken out. */
  lemma TakesOut(s: State)
    requires s.tokens.aiusd == Some(7)
    requires GetOrZero(s.tokens.assets, (7, 2)) == 49 && GetOrZero(s.tokens.assets, (7, 0)) == 2
    requires s.deposits.pools == map[1 := StakingInfo(6, 2, 2)]
    requires s.deposits.users == map[(2, 1) := StakingInfo(10, 1, 2), (3, 1) := At(2, 1)]
    requires s.natives == Book(Some(StakingInfo(5, 2, 1)), map[2 := StakingInfo(10, 1, 1), 3 := At(1, 1)])
    ensures var left := DoWithdraw(Lazy(), s, 2, 1, {});
            && left.Ok?
            && left.value.deposits == s.deposits.(pools := map[1 := StakingInfo(6, 1, 2)],
                 users := map[(3, 1) := At(2, 1)])
            && left.value.natives == Book(Some(StakingInfo(5, 1, 1)), map[3 := At(1, 1)])
            && left.value.now == s.now && left.value.settings == s.settings && left.value.rewards == s.rewards
            && left.value.tokens.aiusd == Some(7)
            && GetOrZero(left.value.tokens.assets, (7, 3)) == GetOrZero(s.tokens.assets, (7, 3))
            && GetOrZero(left.value.tokens.assets, (7, 0)) == 1
  {
    assert map[1 := StakingInfo(6, 2, 2)][1 := StakingInfo(6, 1, 2)] == map[1 := StakingInfo(6, 1, 2)];
    assert s.deposits.users - {(2, 1)} == map[(3, 1) := At(2, 1)];
    assert s.natives.users - {2} == map[3 := At(1, 1)];
  }

  /** What user 3 is left with at block 10. */
  ghost predicate Left3(s: State) {
    && s.now == 10 && s.settings == map[1 := Days(), 2 := Days()]
    && s.deposits == Deposits(map[1 := StakingInfo(6, 1, 2)], map[(3, 1) := At(2, 1)], [], map[1 := 0])
    && s.tokens.aiusd == Some(7) && GetOrZero(s.rewards.unclaimed, 1) == 0
    && GetOrZero(s.tokens.assets, (7, 3)) < 100 && GetOrZero(s.tokens.assets, (7, 0)) == 1
  }

  ghost function LeaveCall(): Action { CallWithdraw(Signed(2), 1, {}) }

  lemma Departs(s: State)
    requires Scene(s, 10, BothSettled(), BothNative(), 49, 2) && GetOrZero(s.tokens.assets, (7, 3)) < 100
    ensures Execute(Lazy(), s, LeaveCall()).Ok? && Left3(Apply(Lazy(), s, LeaveCall()))
  {
    var s1 := DepartsNative(s);
    var s2 := DepartsStable(s1);
    TakesOut(s2);
    assert Days().EndTime() == Some(9);
  }

  lemma DepartsNative(s: State) returns (t: State)
    requires Scene(s, 10, BothSettled(), BothNative(), 49, 2)
    ensures DoNativeClaim(Lazy(), s, 2, 10, {}) == Ok(t)
    ensures t.natives == Book(Some(StakingInfo(5, 2, 1)), map[2 := StakingInfo(10, 1, 1), 3 := At(1, 1)])
    ensures t == s.(natives := t.natives, tokens := s.tokens.(native := t.tokens.native), events := t.events)
  {
    var share := Share(StakingInfo(5, 2, 1), StakingInfo(10, 1, 1), 9, 18);
    assert TakeShare(At(1, 2), At(1, 1), 10) == Some(share);
    ClaimsNativeNothing(s, 2, share);
    t := DoNativeClaim(Lazy(), s, 2, 10, {}).value;
  }

  lemma DepartsStable(s: State) returns (t: State)
    requires s.now == 10 && s.deposits == BothSettled() && s.tokens.aiusd == Some(7)
          && GetOrZero(s.rewards.unclaimed, 1) == 0
    requires GetOrZero(s.tokens.assets, (7, 2)) == 49 && GetOrZero(s.tokens.assets, (7, 0)) == 2
    ensures DoStableClaim(Lazy(), s, 2, 1, 10, {}) == Ok(t)
    ensures t.deposits == s.deposits.(pools := map[1 := StakingInfo(6, 2, 2)],
                                      users := map[(2, 1) := StakingInfo(10, 1, 2), (3, 1) := At(2, 1)])
    ensures t.now == 10 && t.settings == s.settings && t.natives == s.natives && t.tokens.aiusd == Some(7)
    ensures forall w :: GetOrZero(t.tokens.assets, (7, w)) == GetOrZero(s.tokens.assets, (7, w))
    ensures GetOrZero(t.rewards.unclaimed, 1) == 0
  {
    var share := Share(StakingInfo(6, 2, 2), StakingInfo(10, 1, 2), 8, 16);
    assert TakeShare(At(2, 2), At(2, 1), 10) == Some(share);
    ClaimsStableNothing(s, 2, share);
    t := DoStableClaim(Lazy(), s, 2, 1, 10, {}).value;
    assert BothSettled().pools[1 := share.pool] == map[1 := StakingInfo(6, 2, 2)];
    assert BothSettled().users[(2, 1) := share.user] == map[(2, 1) := StakingInfo(10, 1, 2), (3, 1) := At(2, 1)];
  }

  /** In a run, two equal stakes: one user leaves after the end, and the pool counts less than the other. */
  lemma WithdrawalUncovers() returns (acts: seq<Action>, s: State, t: State)
    ensures Reached(acts, s) && SoundRun(acts) && t == Apply(Lazy(), s, LeaveCall()) && t != s
    ensures Reached(acts + [LeaveCall()], t) && SoundRun(acts + [LeaveCall()]) && Left3(t)
    ensures OneSided(PoolBook(s.deposits, 1)) && !OneSided(PoolBook(t.deposits, 1))
    ensures SignedWeight(t.deposits.pools[1], t.now) < SignedWeight(t.deposits.users[(3, 1)], t.now)
  {
    var equal, s2 := EqualStakes();
    acts := IdlesTo(equal, s2, 10);
    s := s2.(now := 10);
    Departs(s);
    Next(acts, s, LeaveCall());
    t := Apply(Lazy(), s, LeaveCall());
    TwoUsers(PoolBook(s.deposits, 1), (2, 1), (3, 1));
    OneUser(PoolBook(t.deposits, 1), (3, 1));
  }

  ghost function LastCall(): Action { CallClaimStable(Signed(3), 1, 10, {}) }

  lemma ClaimsLast(s: State)
    requires Left3(s)
    ensures var t := Apply(Lazy(), s, LastCall());
            && t.now == 10 && t.settings == s.settings
            && t.deposits == s.deposits.(pools := map[1 := StakingInfo(14, 1, 2)],
                 users := map[(3, 1) := StakingInfo(10, 1, 2)])
  {
    var share := Share(StakingInfo(14, 1, 2), StakingInfo(10, 1, 2), 8, 4);
    assert TakeShare(StakingInfo(6, 1, 2), At(2, 1), 10) == Some(share);
    ClaimsStableNothing(s, 3, share);
    assert s.deposits.pools[1 := share.pool] == map[1 := StakingInfo(14, 1, 2)];
    assert s.deposits.users[(3, 1) := share.user] == map[(3, 1) := StakingInfo(10, 1, 2)];
  }

  /**
   The run goes on: the other user claims, which pushes the pool's time from 6 to 14, and at the next
   block cannot withdraw although the pool ended at 9.
   */
  lemma WithdrawalLocks() returns (acts: seq<Action>, s: State)
    ensures Reached(acts, s) && SoundRun(acts)
    ensures s.now == 11 && HasEnded(s, 1) && (3, 1) in s.deposits.users
    ensures 1 in s.deposits.pools && s.deposits.pools[1].effectiveTime == 14
    ensures forall refused :: WithdrawStake(Lazy(), s, Signed(3), 1, refused).Err?
  {
    var before, _, t := WithdrawalUncovers();
    var left := before + [LeaveCall()];
    ClaimsLast(t);
    Next(left, t, LastCall());
    var u := Apply(Lazy(), t, LastCall());
    Idles(u);
    Next(left + [LastCall()], u, NextBlock);
    acts, s := left + [LastCall()] + [NextBlock], Apply(Lazy(), u, NextBlock);
    assert Days().EndTime() == Some(9);
    var start := Safe(acts, s);
    Locked(start, s);
  }

  lemma Locked(start: nat, s: State)
    requires Invariant(Lazy(), 7, start, s) && Begun(s) && (3, 1) in s.deposits.users
    requires 1 in s.deposits.pools && s.now < s.deposits.pools[1].effectiveTime
    ensures forall refused :: WithdrawStake(Lazy(), s, Signed(3), 1, refused).Err?
  {
    forall refused ensures WithdrawStake(Lazy(), s, Signed(3), 1, refused).Err? {
      TimeAheadLocks(Lazy(), 7, start, s, 3, 1, refused);
    }
  }

  /** Sound runs have the invariant. */
  lemma Safe(acts: seq<Action>, s: State) returns (start: nat)
    requires Reached(acts, s) && SoundRun(acts)
    ensures Invariant(Lazy(), 7, start, s) && Begun(s)
  {
    SoundRunsNeverFail(Lazy(), 7, Fresh(), acts);
    ReachableInvariant(Lazy(), 7, Fresh(), acts);
    ReachableBegun(Lazy(), Fresh(), acts);
    start := Gifts(Lazy(), 7, Fresh(), acts);
  }

  // A claim up to a block before another user started

  ghost function LateQueued(): Deposits {
    Deposits(map[1 := At(2, 1)], map[(2, 1) := At(2, 1)], [NewOrder(3, 1, 6, 1)], map[1 := 1])
  }

  ghost function LateSettled(): Deposits {
    Deposits(map[1 := StakingInfo(4, 2, 6)], map[(2, 1) := At(2, 1), (3, 1) := At(6, 1)], [], map[1 := 0])
  }

  ghost function LateNative(): Book<AccountId> {
    Book(Some(StakingInfo(3, 2, 5)), map[2 := At(1, 1), 3 := At(5, 1)])
  }

  ghost function EarlySettled(): Deposits { Deposits(map[1 := At(2, 1)], map[(2, 1) := At(2, 1)], [], map[1 := 0]) }

  lemma FirstSettles(s: State)
    requires Scene(s, 1, OneQueued(), OneNative(), 49, 1)
    ensures var t := Apply(Lazy(), s, NextBlock);
            && Scene(t, 2, EarlySettled(), OneNative(), 49, 1)
            && t.tokens == s.tokens && t.events == s.events + [SolvedEvent(NewOrder(2, 1, 2, 1), 2)]
  {
    SettlesOne(s, NewOrder(2, 1, 2, 1), At(2, 1), At(2, 1));
  }

  lemma LateDeposit(s: State)
    requires Scene(s, 5, EarlySettled(), OneNative(), 49, 1) && GetOrZero(s.tokens.assets, (7, 3)) == 50
    ensures var t := Apply(Lazy(), s, Stakes(3, 1, 1));
            && Scene(t, 5, LateQueued(), LateNative(), 49, 2) && t.events == s.events + [Staked(3, 1, 6, 1)]
  {
    assert At(1, 1).Added(5, 1) == Some(StakingInfo(3, 2, 5));
    Places(s, 3, 1, 1, StakingInfo(3, 2, 5), At(5, 1));
    assert [] + [NewOrder(3, 1, 6, 1)] == LateQueued().pending;
    assert EarlySettled().pendingAmount[1 := 1] == LateQueued().pendingAmount;
    assert OneNative().users[3 := At(5, 1)] == LateNative().users;
  }

  lemma LateSettles(s: State)
    requires Scene(s, 5, LateQueued(), LateNative(), 49, 2)
    ensures var t := Apply(Lazy(), s, NextBlock);
            && Scene(t, 6, LateSettled(), LateNative(), 49, 2)
            && t.events == s.events + [SolvedEvent(NewOrder(3, 1, 6, 1), 6)]
  {
    assert At(2, 1).Added(6, 1) == Some(StakingInfo(4, 2, 6));
    SettlesOne(s, NewOrder(3, 1, 6, 1), StakingInfo(4, 2, 6), At(6, 1));
    assert LateQueued().pools[1 := StakingInfo(4, 2, 6)] == LateSettled().pools;
    assert LateQueued().users[(3, 1) := At(6, 1)] == LateSettled().users;
    assert LateQueued().pendingAmount[1 := 0] == LateSettled().pendingAmount;
  }

  ghost function RewardCall(): Action { CallReward(Root, 1, 9, 50, false) }

  /** Block 6 with both settled, 50 to claim in the pool and 30 native. */
  ghost predicate Rich(s: State) {
    && s.now == 6 && s.deposits == LateSettled() && s.natives == LateNative() && s.tokens.aiusd == Some(7)
    && s.rewards.unclaimed == map[1 := 50] && s.tokens.native == map[1 := 30]
    && GetOrZero(s.tokens.assets, (7, 2)) == 49 && GetOrZero(s.tokens.assets, (7, 0)) == 52
  }

  lemma Rewarded(s: State)
    requires Scene(s, 6, LateSettled(), LateNative(), 49, 2)
    ensures var t := Apply(Lazy(), s, RewardCall()); Rich(t) && t.events == s.events + [RewardUpdated(1, 9, 50)]
  {
    assert EpochIndex(Days(), 6) == Ok(6);
  }

  lemma TakesAll(whole: Balance)
    ensures MulNearest(Parts(Lazy(), 2, 0), whole) == whole
  {
  }

  lemma StableTakesAll(s: State)
    requires Rich(s)
    ensures var t := Apply(Lazy(), s, CallClaimStable(Signed(2), 1, 4, {}));
            && GetOrZero(t.rewards.unclaimed, 1) == 0 && GetOrZero(t.tokens.assets, (7, 2)) == 99
            && 1 in t.deposits.pools && t.deposits.pools[1].effectiveTime == 5
  {
    assert TakeShare(StakingInfo(4, 2, 6), At(2, 1), 4)
        == Some(Share(StakingInfo(5, 2, 6), StakingInfo(4, 1, 2), 2, 0));
    TakesAll(50);
  }

  lemma NativeTakesAll(s: State)
    requires Rich(s)
    ensures var t := Apply(Lazy(), s, CallClaimNative(Signed(2), 3, {}));
            && GetOrZero(t.tokens.native, 1) == 0 && GetOrZero(t.tokens.native, 2) == 30
            && t.natives.pool.Some? && t.natives.pool.value.effectiveTime == 4
  {
    assert TakeShare(StakingInfo(3, 2, 5), At(1, 1), 3)
        == Some(Share(StakingInfo(4, 2, 5), StakingInfo(3, 1, 1), 2, 0));
    TakesAll(30);
  }

  ghost predicate NobodyTwice(events: seq<Event>, tr: Track) {
    !Left(events, tr) && !Repeats(events, tr)
  }

  /** Logging an event keeps first deposits first. */
  lemma StillFirst(events: seq<Event>, e: Event, tr: Track)
    requires NobodyTwice(events, tr) && !e.Withdraw? && (IsDeposit(e, tr) ==> !Seen(events, tr, e.who))
    ensures NobodyTwice(events + [e], tr)
    ensures forall u :: Seen(events + [e], tr, u) <==> Seen(events, tr, u) || (IsDeposit(e, tr) && e.who == u)
  {
    TrackAppend(events, e, tr);
    forall u ensures Seen(events + [e], tr, u) <==> Seen(events, tr, u) || (IsDeposit(e, tr) && e.who == u) {
      SeenAppend(events, e, tr, u);
    }
  }

  lemma OpeningIsQuiet(tr: Track)
    ensures NobodyTwice(Announcements(), tr) && forall u :: !Seen(Announcements(), tr, u)
  {
    StillFirst([], StakingPoolCreated(1, Days()), tr);
    StillFirst([] + [StakingPoolCreated(1, Days())], StakingPoolCreated(2, Days()), tr);
    StillFirst([] + [StakingPoolCreated(1, Days())] + [StakingPoolCreated(2, Days())], AiusdRegistered(7), tr);
    assert [] + [StakingPoolCreated(1, Days())] == [StakingPoolCreated(1, Days())];
  }

  lemma LateLog(tr: Track)
    requires tr == OnPool(1) || tr == OnNative
    ensures NobodyTwice(Announcements() + [Staked(2, 1, 2, 1)] + [SolvedEvent(NewOrder(2, 1, 2, 1), 2)]
                        + [Staked(3, 1, 6, 1)] + [SolvedEvent(NewOrder(3, 1, 6, 1), 6)] + [RewardUpdated(1, 9, 50)], tr)
  {
    var log := Announcements();
    OpeningIsQuiet(tr);
    StillFirst(log, Staked(2, 1, 2, 1), tr);
    log := log + [Staked(2, 1, 2, 1)];
    StillFirst(log, SolvedEvent(NewOrder(2, 1, 2, 1), 2), tr);
    log := log + [SolvedEvent(NewOrder(2, 1, 2, 1), 2)];
    StillFirst(log, Staked(3, 1, 6, 1), tr);
    log := log + [Staked(3, 1, 6, 1)];
    StillFirst(log, SolvedEvent(NewOrder(3, 1, 6, 1), 6), tr);
    log := log + [SolvedEvent(NewOrder(3, 1, 6, 1), 6)];
    StillFirst(log, RewardUpdated(1, 9, 50), tr);
  }

  /** A run to block 5 with user 2's unit settled in pool 1. */
  lemma OneStake() returns (acts: seq<Action>, s: State)
    ensures Reached(acts, s) && SoundRun(acts) && Scene(s, 5, EarlySettled(), OneNative(), 49, 1)
    ensures GetOrZero(s.tokens.assets, (7, 3)) == 50
    ensures s.events == Announcements() + [Staked(2, 1, 2, 1)] + [SolvedEvent(NewOrder(2, 1, 2, 1), 2)]
  {
    var start, s0 := Opening();
    FirstQueued(s0);
    Next(start, s0, Stakes(2, 1, 1));
    var s1 := Apply(Lazy(), s0, Stakes(2, 1, 1));
    FirstSettles(s1);
    Next(start + [Stakes(2, 1, 1)], s1, NextBlock);
    var s2 := Apply(Lazy(), s1, NextBlock);
    acts := IdlesTo(start + [Stakes(2, 1, 1)] + [NextBlock], s2, 5);
    s := s2.(now := 5);
  }

  /**
   In a run where nobody has deposited twice or left, a claim up to a block before the other user
   started finds the pool's weight there to be zero: it takes the whole reward of the pool, or the
   whole reward account, and pushes the pool's time past the claimed block.
   */
  lemma EarlyClaimTakesAll() returns (acts: seq<Action>, s: State)
    ensures Reached(acts, s) && SoundRun(acts) && s.now == 6
    ensures NobodyTwice(s.events, OnPool(1)) && NobodyTwice(s.events, OnNative)
    ensures GetOrZero(s.rewards.unclaimed, 1) == 50 && GetOrZero(s.tokens.native, 1) == 30
    ensures var t := Apply(Lazy(), s, CallClaimStable(Signed(2), 1, 4, {}));
            && GetOrZero(t.rewards.unclaimed, 1) == 0
            && GetOrZero(t.tokens.assets, (7, 2)) == GetOrZero(s.tokens.assets, (7, 2)) + 50
            && 1 in t.deposits.pools && t.deposits.pools[1].effectiveTime == 5
    ensures var t := Apply(Lazy(), s, CallClaimNative(Signed(2), 3, {}));
            && GetOrZero(t.tokens.native, 1) == 0 && GetOrZero(t.tokens.native, 2) == 30
            && t.natives.pool.Some? && t.natives.pool.value.effectiveTime == 4
  {
    var early, s5 := OneStake();
    LateDeposit(s5);
    Next(early, s5, Stakes(3, 1, 1));
    var s6 := Apply(Lazy(), s5, Stakes(3, 1, 1));
    LateSettles(s6);
    Next(early + [Stakes(3, 1, 1)], s6, NextBlock);
    var s7 := Apply(Lazy(), s6, NextBlock);
    Rewarded(s7);
    Next(early + [Stakes(3, 1, 1)] + [NextBlock], s7, RewardCall());
    acts, s := early + [Stakes(3, 1, 1)] + [NextBlock] + [RewardCall()], Apply(Lazy(), s7, RewardCall());
    LateLog(OnPool(1));
    LateLog(OnNative);
    StableTakesAll(s);
    NativeTakesAll(s);
  }

  // A claim at the block at which the pool's time stands

  lemma TakesAllOfNothing(whole: Balance)
    ensures MulNearest(Parts(Lazy(), 0, 0), whole) == whole
  {
  }

  lemma RewardedEqual(s: State)
    requires Scene(s, 2, BothSettled(), BothNative(), 49, 2)
    ensures var t := Apply(Lazy(), s, RewardCall());
            && t.now == 2 && t.deposits == BothSettled() && t.rewards.unclaimed == map[1 := 50]
            && t.tokens.aiusd == Some(7)
            && GetOrZero(t.tokens.assets, (7, 2)) == 49 && GetOrZero(t.tokens.assets, (7, 0)) == 52
            && t.events == s.events + [RewardUpdated(1, 9, 50)]
  {
    assert EpochIndex(Days(), 2) == Ok(2);
  }

  lemma StableTakesAllOfNothing(s: State)
    requires s.now == 2 && s.deposits == BothSettled() && s.rewards.unclaimed == map[1 := 50]
          && s.tokens.aiusd == Some(7)
    requires GetOrZero(s.tokens.assets, (7, 2)) == 49 && GetOrZero(s.tokens.assets, (7, 0)) == 52
    ensures var t := Apply(Lazy(), s, CallClaimStable(Signed(2), 1, 2, {}));
            GetOrZero(t.rewards.unclaimed, 1) == 0 && GetOrZero(t.tokens.assets, (7, 2)) == 99
  {
    assert TakeShare(At(2, 2), At(2, 1), 2) == Some(Share(At(2, 2), At(2, 1), 0, 0));
    TakesAllOfNothing(50);
  }

  /**
   In a run where two users have one equal deposit each, just settled, nobody has left and the pool covers
   both, a claim up to the current block weighs nothing and takes the whole reward of the pool.
   */
  lemma FreshClaimTakesAll() returns (acts: seq<Action>, s: State)
    ensures Reached(acts, s) && SoundRun(acts) && s.now == 2 && OneSided(PoolBook(s.deposits, 1))
    ensures (2, 1) in s.deposits.users && s.deposits.users[(2, 1)].Weight(2) == Some(0)
    ensures (3, 1) in s.deposits.users && s.deposits.users[(3, 1)] == s.deposits.users[(2, 1)]
    ensures GetOrZero(s.rewards.unclaimed, 1) == 50
    ensures var t := Apply(Lazy(), s, CallClaimStable(Signed(2), 1, 2, {}));
            && GetOrZero(t.rewards.unclaimed, 1) == 0
            && GetOrZero(t.tokens.assets, (7, 2)) == GetOrZero(s.tokens.assets, (7, 2)) + 50
  {
    var equal, s2 := EqualStakes();
    RewardedEqual(s2);
    Next(equal, s2, RewardCall());
    acts, s := equal + [RewardCall()], Apply(Lazy(), s2, RewardCall());
    TwoUsers(PoolBook(s.deposits, 1), (2, 1), (3, 1));
    StableTakesAllOfNothing(s);
  }

  /** In a run, the first staker claims in the block of its own deposit and empties the reward account. */
  lemma NativeClaimAtOnceTakesAll() returns (acts: seq<Action>, s: State)
    ensures Reached(acts, s) && SoundRun(acts) && s.now == 1
    ensures s.natives.pool.Some? && s.natives.pool.value.effectiveTime == 1 && GetOrZero(s.tokens.native, 1) == 30
    ensures var t := Apply(Lazy(), s, CallClaimNative(Signed(2), 1, {}));
            GetOrZero(t.tokens.native, 1) == 0 && GetOrZero(t.tokens.native, 2) == 30
  {
    var start, s0 := Opening();
    FirstQueued(s0);
    Next(start, s0, Stakes(2, 1, 1));
    acts, s := start + [Stakes(2, 1, 1)], Apply(Lazy(), s0, Stakes(2, 1, 1));
    NativeTakesAllOfNothing(s);
  }

  lemma NativeTakesAllOfNothing(s: State)
    requires Scene(s, 1, OneQueued(), OneNative(), 49, 1)
    ensures var t := Apply(Lazy(), s, CallClaimNative(Signed(2), 1, {}));
            GetOrZero(t.tokens.native, 1) == 0 && GetOrZero(t.tokens.native, 2) == 30
  {
    assert TakeShare(At(1, 1), At(1, 1), 1) == Some(Share(At(1, 1), At(1, 1), 0, 0));
    TakesAllOfNothing(30);
  }

  // Deposits of nothing

  /** A failing hook drops every order it had not settled: the stored queue was already emptied. */
  lemma {:induction false} FailureDropsQueue(d: Deposits, q: seq<Order>, n: BlockNumber)
    requires d.pending == [] && SolveLoop(d, q, n).failure.Some?
    ensures SolveLoop(d, q, n).deposits.pending == []
    decreases |q|
  {
    if SolveOne(d, q[0], n).failure.None? {
      SolveOneExact(d, q[0], n);
      FailureDropsQueue(SolveOne(d, q[0], n).deposits, q[1..], n);
    }
  }

  ghost function Order0(): Order { NewOrder(2, 2, 2, 5) }
  ghost function Order1(): Order { NewOrder(3, 1, 2, 0) }
  ghost function Order2(): Order { NewOrder(4, 1, 2, 0) }
  ghost function Order3(): Order { NewOrder(2, 1, 2, 7) }

  ghost function Queue1(): Deposits { Deposits(map[], map[], [Order0()], map[2 := 5]) }
  ghost function Queue2(): Deposits { Deposits(map[], map[], [Order0(), Order1()], map[2 := 5, 1 := 0]) }
  ghost function Queue3(): Deposits { Deposits(map[], map[], [Order0(), Order1(), Order2()], map[2 := 5, 1 := 0]) }

  ghost function Queue4(): Deposits {
    Deposits(map[], map[], [Order0(), Order1(), Order2(), Order3()], map[2 := 5, 1 := 7])
  }

  ghost function Native1(): Book<AccountId> { Book(Some(At(1, 5)), map[2 := At(1, 5)]) }
  ghost function Native2(): Book<AccountId> { Book(Some(At(1, 5)), map[2 := At(1, 5), 3 := At(1, 0)]) }
  ghost function Native3(): Book<AccountId> { Book(Some(At(1, 5)), map[2 := At(1, 5), 3 := At(1, 0), 4 := At(1, 0)]) }
  ghost function Native4(): Book<AccountId> { Book(Some(At(1, 12)), map[2 := At(1, 12), 3 := At(1, 0), 4 := At(1, 0)]) }

  lemma Places0(s: State)
    requires Scene(s, 1, Deposits(map[], map[], [], map[]), Book(None, map[]), 50, 0)
    ensures var t := Apply(Lazy(), s, Stakes(2, 2, 5));
            Scene(t, 1, Queue1(), Native1(), 45, 5) && t.events == s.events + [Staked(2, 2, 2, 5)]
  {
    Places(s, 2, 2, 5, At(1, 5), At(1, 5));
    FirstMaps(s.deposits, s.natives);
  }

  lemma FirstMaps(d: Deposits, natives: Book<AccountId>)
    requires d.pending == [] && d.pendingAmount == map[] && natives.users == map[]
    ensures d.pending + [Order0()] == Queue1().pending
    ensures d.pendingAmount[2 := 5] == Queue1().pendingAmount
    ensures natives.users[2 := At(1, 5)] == Native1().users
  {
  }

  lemma Places1(s: State)
    requires Scene(s, 1, Queue1(), Native1(), 45, 5)
    ensures var t := Apply(Lazy(), s, Stakes(3, 1, 0));
            Scene(t, 1, Queue2(), Native2(), 45, 5) && t.events == s.events + [Staked(3, 1, 2, 0)]
  {
    AddsNothing();
    Places(s, 3, 1, 0, At(1, 5), At(1, 0));
    SecondMaps();
  }

  lemma AddsNothing()
    ensures At(1, 5).Added(1, 0) == Some(At(1, 5))
  {
  }

  lemma SecondMaps()
    ensures Queue1().pending + [Order1()] == Queue2().pending
    ensures Queue1().pendingAmount[1 := 0] == Queue2().pendingAmount
    ensures Native1().users[3 := At(1, 0)] == Native2().users
  {
  }

  lemma Places2(s: State)
    requires Scene(s, 1, Queue2(), Native2(), 45, 5)
    ensures var t := Apply(Lazy(), s, Stakes(4, 1, 0));
            Scene(t, 1, Queue3(), Native3(), 45, 5) && t.events == s.events + [Staked(4, 1, 2, 0)]
  {
    AddsNothing();
    Places(s, 4, 1, 0, At(1, 5), At(1, 0));
    ThirdMaps();
  }

  lemma ThirdMaps()
    ensures Queue2().pending + [Order2()] == Queue3().pending
    ensures Queue2().pendingAmount[1 := 0] == Queue3().pendingAmount
    ensures Native2().users[4 := At(1, 0)] == Native3().users
  {
  }

  lemma Places3(s: State)
    requires Scene(s, 1, Queue3(), Native3(), 45, 5)
    ensures var t := Apply(Lazy(), s, Stakes(2, 1, 7));
            Scene(t, 1, Queue4(), Native4(), 38, 12) && t.events == s.events + [Staked(2, 1, 2, 7)]
  {
    AddsSeven();
    Places(s, 2, 1, 7, At(1, 12), At(1, 12));
    LastMaps();
  }

  lemma AddsSeven()
    ensures At(1, 5).Added(1, 7) == Some(At(1, 12))
  {
  }

  lemma LastMaps()
    ensures Queue3().pending + [Order3()] == Queue4().pending
    ensures Queue3().pendingAmount[1 := 7] == Queue4().pendingAmount
    ensures Native3().users[2 := At(1, 12)] == Native4().users
  {
  }

  /** The third order adds nothing to the empty position the second one made, and settling stops there. */
  lemma HookStops()
    ensures var solved := SolvePending(Queue4(), 2);
            && solved.failure.Some?
            && solved.events == [SolvedEvent(Order0(), 2), SolvedEvent(Order1(), 2)]
  {
    var d, q := Queue4().(pending := []), Queue4().pending;
    SolvesOne(d, q[0], 2, At(2, 5), At(2, 5));
    var one := SolveOne(d, q[0], 2);
    SolvesOne(one.deposits, q[1], 2, At(2, 0), At(2, 0));
    var two := SolveOne(one.deposits, q[1], 2);
    assert At(2, 0).Added(2, 0).None?;
    var three := SolveOne(two.deposits, q[2], 2);
    assert three == Settled(two.deposits, [], Some(TypeIncompatibleOrArithmeticError));
    assert q[1..][0] == q[1] && q[1..][1..] == q[2..] && q[2..][0] == q[2];
    assert SolveLoop(two.deposits, q[2..], 2) == three;
    assert SolveLoop(one.deposits, q[1..], 2).events == two.events + [];
  }

  /** Four deposits, two of them of nothing. */
  lemma FourDeposits() returns (acts: seq<Action>, s: State)
    ensures Reached(acts, s) && s.now == 1 && s.deposits == Queue4()
    ensures s.events == Announcements() + [Staked(2, 2, 2, 5)] + [Staked(3, 1, 2, 0)] + [Staked(4, 1, 2, 0)]
          + [Staked(2, 1, 2, 7)]
  {
    var start, s0 := Opening();
    Places0(s0);
    Next(start, s0, Stakes(2, 2, 5));
    var s1 := Apply(Lazy(), s0, Stakes(2, 2, 5));
    Places1(s1);
    Next(start + [Stakes(2, 2, 5)], s1, Stakes(3, 1, 0));
    var s2 := Apply(Lazy(), s1, Stakes(3, 1, 0));
    Places2(s2);
    Next(start + [Stakes(2, 2, 5)] + [Stakes(3, 1, 0)], s2, Stakes(4, 1, 0));
    var s3 := Apply(Lazy(), s2, Stakes(4, 1, 0));
    Places3(s3);
    Next(start + [Stakes(2, 2, 5)] + [Stakes(3, 1, 0)] + [Stakes(4, 1, 0)], s3, Stakes(2, 1, 7));
    s := Apply(Lazy(), s3, Stakes(2, 1, 7));
    acts := start + [Stakes(2, 2, 5)] + [Stakes(3, 1, 0)] + [Stakes(4, 1, 0)] + [Stakes(2, 1, 7)];
  }

  /** What the log says once the hook has stopped. */
  lemma FourLog(log: seq<Event>)
    requires log == Announcements() + [Staked(2, 2, 2, 5)] + [Staked(3, 1, 2, 0)] + [Staked(4, 1, 2, 0)]
          + [Staked(2, 1, 2, 7)]
    ensures var events := log + [SolvedEvent(Order0(), 2), SolvedEvent(Order1(), 2)];
            Order3() in Accepted(events) && Solved(events) == [Order0(), Order1()]
  {
    OpeningAcceptsNothing();
    var l1 := Announcements() + [Staked(2, 2, 2, 5)];
    LogAppend(Announcements(), Staked(2, 2, 2, 5));
    var l2 := l1 + [Staked(3, 1, 2, 0)];
    LogAppend(l1, Staked(3, 1, 2, 0));
    var l3 := l2 + [Staked(4, 1, 2, 0)];
    LogAppend(l2, Staked(4, 1, 2, 0));
    LogAppend(l3, Staked(2, 1, 2, 7));
    TwoMoreSolved(log);
  }

  lemma OpeningAcceptsNothing()
    ensures Accepted(Announcements()) == [] && Solved(Announcements()) == []
  {
    var created := [] + [StakingPoolCreated(1, Days())] + [StakingPoolCreated(2, Days())];
    LogAppend([], StakingPoolCreated(1, Days()));
    LogAppend([] + [StakingPoolCreated(1, Days())], StakingPoolCreated(2, Days()));
    LogAppend(created, AiusdRegistered(7));
    assert created + [AiusdRegistered(7)] == Announcements();
  }

  lemma TwoMoreSolved(log: seq<Event>)
    ensures var events := log + [SolvedEvent(Order0(), 2), SolvedEvent(Order1(), 2)];
            Accepted(events) == Accepted(log) && Solved(events) == Solved(log) + [Order0()] + [Order1()]
  {
    var e, f := SolvedEvent(Order0(), 2), SolvedEvent(Order1(), 2);
    LogAppend(log, e);
    LogAppend(log + [e], f);
    assert log + [e, f] == log + [e] + [f];
  }

  /**
   In a run of four accepted deposits, two of them of nothing, the next block's hook fails, and a
   deposit of 7 is neither settled nor waiting any more.
   */
  lemma ZeroDepositsLoseOrders() returns (acts: seq<Action>, s: State)
    ensures Reached(acts, s) && HookFails(s, NextBlock)
    ensures var t := Apply(Lazy(), s, NextBlock);
            Order3() in Accepted(t.events) && Order3() !in Solved(t.events) && t.deposits.pending == []
  {
    acts, s := FourDeposits();
    HookStops();
    FailureDropsQueue(Queue4().(pending := []), Queue4().pending, 2);
    FourLog(s.events);
  }
}
