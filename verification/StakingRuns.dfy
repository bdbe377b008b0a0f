/**
 Whole runs of the staking pallet: any sequence of calls, blocks and outside token movements.
 */
module StakingRuns {
  import opened Base
  import opened Sums
  import opened Epochs
  import opened Queue
  import opened Drift
  import opened Ledger
  import opened StakingState
  import opened StakingBooks
  import opened StakingSteps
  import opened StakingInvariants

  datatype Action =
    | NextBlock
    | CallCreate(origin: Origin, pool: PoolId, setting: PoolSetting)
    | CallReward(origin: Origin, pool: PoolId, epoch: u128, reward: Balance, refuses: bool)
    | CallStake(origin: Origin, pool: PoolId, amount: Balance, refused: Refused)
    | CallSolve(origin: Origin)
    | CallClaimNative(origin: Origin, until: BlockNumber, refused: Refused)
    | CallClaimStable(origin: Origin, pool: PoolId, until: BlockNumber, refused: Refused)
    | CallWithdraw(origin: Origin, pool: PoolId, refused: Refused)
    | CallRegist(origin: Origin, asset: AssetId)
    | OutsideAsset(asset: AssetId, account: AccountId, balance: Balance)
    | OutsideNative(account: AccountId, balance: Balance)
    | OutsideGift(asset: AssetId, amount: Balance)

  /** The result of one action; the last block number has no successor. */
  function Execute(cfg: Config, s: State, a: Action): Outcome {
    match a
    case NextBlock => if s.now + 1 < U32_LIMIT then Ok(BeginBlock(s, s.now + 1)) else Err(Overflow)
    case CallCreate(origin, pool, setting) => CreateStakingPool(s, origin, pool, setting)
    case CallReward(origin, pool, epoch, reward, refuses) => UpdateReward(cfg, s, origin, pool, epoch, reward, refuses)
    case CallStake(origin, pool, amount, refused) => Stake(cfg, s, origin, pool, amount, refused)
    case CallSolve(origin) => SolvePendingStake(s, origin)
    case CallClaimNative(origin, until, refused) => ClaimNative(cfg, s, origin, until, refused)
    case CallClaimStable(origin, pool, until, refused) => ClaimStable(cfg, s, origin, pool, until, refused)
    case CallWithdraw(origin, pool, refused) => WithdrawStake(cfg, s, origin, pool, refused)
    case CallRegist(origin, asset) => RegistAiusd(s, origin, asset)
    case OutsideAsset(asset, account, balance) =>
        Ok(s.(tokens := s.tokens.(assets := s.tokens.assets[(asset, account) := balance])))
    case OutsideNative(account, balance) => Ok(s.(tokens := s.tokens.(native := s.tokens.native[account := balance])))
    case OutsideGift(asset, amount) => GiveEscrow(cfg, s, asset, amount)
  }

  /** Anybody may send tokens to the escrow. */
  function GiveEscrow(cfg: Config, s: State, asset: AssetId, amount: Balance): Outcome {
    var assets :- Credit(s.tokens.assets, (asset, cfg.escrow), amount).OkOr(TokenFailure);
    Ok(s.(tokens := s.tokens.(assets := assets)))
  }

  /** A failed call changes nothing. */
  function Apply(cfg: Config, s: State, a: Action): State {
    var r := Execute(cfg, s, a);
    if r.Ok? then r.value else s
  }

  function After(cfg: Config, s: State, acts: seq<Action>): State {
    if acts == [] then s else Apply(cfg, After(cfg, s, acts[..|acts| - 1]), acts[|acts| - 1])
  }

  /** Nobody but the pallet takes from its escrow, and the registered asset stays the same. */
  predicate Admissible(cfg: Config, asset: AssetId, a: Action) {
    match a
    case CallStake(origin, _, _, _) => origin != Signed(cfg.escrow)
    case CallClaimStable(origin, _, _, _) => origin != Signed(cfg.escrow)
    case CallWithdraw(origin, _, _) => origin != Signed(cfg.escrow)
    case CallRegist(_, registered) => registered == asset
    case OutsideAsset(_, account, _) => account != cfg.escrow
    case _ => true
  }

  /** What an action adds to the escrow's holding of the asset from outside. */
  ghost function Gift(cfg: Config, asset: AssetId, s: State, a: Action): nat {
    if a.OutsideGift? && a.asset == asset && Execute(cfg, s, a).Ok? then a.amount else 0
  }

  ghost function Gifts(cfg: Config, asset: AssetId, s: State, acts: seq<Action>): nat {
    if acts == [] then 0
    else
      var before := acts[..|acts| - 1];
      Gifts(cfg, asset, s, before) + Gift(cfg, asset, After(cfg, s, before), acts[|acts| - 1])
  }

  /** Deposits of something into pools whose cap keeps every moment within a u128. */
  predicate Sound(a: Action) {
    match a
    case CallStake(_, _, amount, _) => 0 < amount
    case CallCreate(_, _, setting) => SmallCap(setting.poolCap)
    case _ => true
  }

  /** The hook has something to settle and cannot. */
  predicate HookFails(s: State, a: Action) {
    && a.NextBlock? && s.now + 1 < U32_LIMIT
    && s.deposits.pending != [] && s.deposits.pending[0].Time() <= s.now + 1
    && SolvePending(s.deposits, s.now + 1).failure.Some?
  }

  /** Empty storage over arbitrary token balances. */
  predicate Genesis(s: State) {
    && s.settings == map[] && s.deposits == Deposits(map[], map[], [], map[])
    && s.natives == Book(None, map[]) && s.rewards == Rewards(map[], map[])
    && s.tokens.aiusd == None && s.events == []
  }

  ghost predicate Invariant(cfg: Config, asset: AssetId, start: int, s: State) {
    && Conserved(Deposited(s))
    && Timely(s.now, s.settings, s.deposits.pending)
    && History(s.now, s.deposits.pending, s.events)
    && PrincipalKept(Deposited(s), s.events)
    && WithdrawalsFinal(s.now, s.settings, s.deposits, s.events)
    && RewardsRecorded(s.rewards, s.events)
    && Backed(cfg, asset, start, s.tokens, PoolAmount(s.natives), s.rewards.unclaimed)
  }

  ghost predicate Settleable(s: State) {
    CapsSmall(s.settings) && AllPositive(s.deposits.pending)
  }

  lemma GenesisBooks(s: State)
    requires Genesis(s)
    ensures Conserved(Deposited(s)) && PrincipalKept(Deposited(s), s.events)
  {
    var b := Deposited(s);
    assert b.pools == map[] && b.users == map[] && b.nativeOf == map[] && b.pendingAmount == map[];
    forall sel ensures Held(b.users, sel) == 0 && PrincipalFor(b, s.events, sel) {
      assert Selected(b.users, sel) == map[];
    }
    forall p ensures PoolConserved(b, p) {
      assert Held(b.users, OfPool(p)) == 0;
    }
    forall u ensures UserConserved(b, u) {
      assert Held(b.users, OfUser(u)) == 0;
    }
  }

  lemma GenesisRewards(s: State)
    requires Genesis(s)
    ensures RewardsRecorded(s.rewards, s.events) && Total(Integers(s.rewards.unclaimed)) == 0
  {
    assert Integers(s.rewards.unclaimed) == map[];
    forall p ensures RewardsFor(s.rewards, s.events, p) {
      assert PoolEpochs(s.rewards.perEpoch, p) == map[];
    }
  }

  lemma GenesisInvariant(cfg: Config, asset: AssetId, s: State)
    requires Genesis(s)
    ensures Invariant(cfg, asset, EscrowBalance(cfg, asset, s.tokens), s) && Settleable(s)
  {
    GenesisBooks(s);
    GenesisRewards(s);
  }

  // --- the calls, one by one ---

  lemma CreateKeeps(cfg: Config, asset: AssetId, start: int, s: State, origin: Origin, pool: PoolId,
          setting: PoolSetting)
    requires Invariant(cfg, asset, start, s) && CreateStakingPool(s, origin, pool, setting).Ok?
    ensures Invariant(cfg, asset, start, CreateStakingPool(s, origin, pool, setting).value)
  {
    var t := CreateStakingPool(s, origin, pool, setting).value;
    var e := StakingPoolCreated(pool, setting);
    CreateConserves(Deposited(s), pool, setting);
    assert Deposited(t) == Deposited(s).(settings := s.settings[pool := setting]);
    HistoryQuiet(s.now, s.deposits.pending, s.events, e);
    PrincipalOfBooks(Deposited(s), Deposited(t), s.events);
    PrincipalQuiet(Deposited(t), s.events, e);
    RewardsQuiet(s.rewards, s.events, e);
    TimelyMoreSettings(s.now, s.settings, pool, setting, s.deposits.pending);
    FinalQuiet(s, t, e);
  }

  lemma PrincipalOfBooks(b: Books, c: Books, events: seq<Event>)
    requires PrincipalKept(b, events) && c.users == b.users && c.pending == b.pending
    ensures PrincipalKept(c, events)
  {
    forall sel ensures PrincipalFor(c, events, sel) {
      assert PrincipalFor(b, events, sel);
    }
  }

  lemma TimelyMoreSettings(now: BlockNumber, settings: map<PoolId, PoolSetting>, pool: PoolId, setting: PoolSetting,
          pending: seq<Order>)
    requires Timely(now, settings, pending) && pool !in settings
    ensures Timely(now, settings[pool := setting], pending)
  {
    forall x | x in pending ensures Waits(now, settings[pool := setting], x) {
      assert Waits(now, settings, x);
    }
  }

  /** Withdrawals stay final while no position or order of theirs appears. */
  lemma FinalQuiet(s: State, t: State, e: Event)
    requires WithdrawalsFinal(s.now, s.settings, s.deposits, s.events)
    requires s.now <= t.now && t.events == s.events + [e] && !e.Withdraw?
    requires forall p :: p in s.settings ==> p in t.settings && t.settings[p] == s.settings[p]
    requires t.deposits.users.Keys <= s.deposits.users.Keys && t.deposits.pending == s.deposits.pending
    ensures WithdrawalsFinal(t.now, t.settings, t.deposits, t.events)
  {
    forall w | w in t.events && w.Withdraw? ensures FinalFor(t.now, t.settings, t.deposits, w.who, w.pool) {
      assert FinalFor(s.now, s.settings, s.deposits, w.who, w.pool);
    }
  }

  lemma RewardKeeps(cfg: Config, asset: AssetId, start: int, s: State, origin: Origin, pool: PoolId, epoch: u128,
          reward: Balance, refuses: bool)
    requires Invariant(cfg, asset, start, s) && UpdateReward(cfg, s, origin, pool, epoch, reward, refuses).Ok?
    ensures Invariant(cfg, asset, start, UpdateReward(cfg, s, origin, pool, epoch, reward, refuses).value)
  {
    var t := UpdateReward(cfg, s, origin, pool, epoch, reward, refuses).value;
    var e := RewardUpdated(pool, epoch, reward);
    HistoryQuiet(s.now, s.deposits.pending, s.events, e);
    PrincipalQuiet(Deposited(s), s.events, e);
    RewardsAdd(s.rewards, s.events, pool, epoch, reward);
    BackedReward(cfg, asset, start, s.tokens, PoolAmount(s.natives), s.rewards, pool, epoch, reward);
    FinalQuiet(s, t, e);
  }

  lemma StakeKeeps(cfg: Config, asset: AssetId, start: int, s: State, origin: Origin, pool: PoolId, amount: Balance,
          refused: Refused)
    requires Invariant(cfg, asset, start, s) && origin != Signed(cfg.escrow)
    requires Stake(cfg, s, origin, pool, amount, refused).Ok?
    ensures Invariant(cfg, asset, start, Stake(cfg, s, origin, pool, amount, refused).value)
  {
    var t := Stake(cfg, s, origin, pool, amount, refused).value;
    StakeParts(cfg, s, origin, pool, amount, refused);
    var x := OrderOf(s, origin.who, pool, amount);
    TargetIsLeastBoundary(s.settings[pool], s.now);
    assert Waits(s.now, s.settings, x);
    StakeUnderCap(s.settings, s.deposits, s.natives, x);
    StakedBooks(s.settings, s.deposits, s.natives, t.deposits, t.natives, x, s.now);
    assert PoolAmount(t.natives) == Deposited(t).native == PoolAmount(s.natives) + amount;
    BackedIn(cfg, asset, start, s.tokens, PoolAmount(s.natives), s.rewards.unclaimed, x.who, amount, refused);
    StakedKeeps(cfg, asset, start, s, t, x);
  }

  /** A queued and counted deposit on the books. */
  lemma StakedBooks(settings: map<PoolId, PoolSetting>, d: Deposits, natives: Book<AccountId>, e: Deposits,
          counted: Book<AccountId>, x: Order, now: BlockNumber)
    requires Conserved(BooksOf(settings, d, natives)) && x.pool in settings
    requires Enqueue(d, x) == Ok(e) && Deposit(natives, x.who, now, x.info.amount) == Some(counted)
    requires AmountOf(Amounts(d.pools), x.pool) + AmountOf(Integers(d.pendingAmount), x.pool)
          + x.info.amount <= settings[x.pool].poolCap
    ensures BooksOf(settings, e, counted) == BooksStake(BooksOf(settings, d, natives), x)
    ensures Conserved(BooksOf(settings, e, counted))
  {
    StakeOnBooks(settings, d, natives, x, now);
    StakeConserves(BooksOf(settings, d, natives), x);
  }

  lemma StakedQueue(s: State, t: State, x: Order)
    requires Timely(s.now, s.settings, s.deposits.pending) && History(s.now, s.deposits.pending, s.events)
    requires Waits(s.now, s.settings, x) && t.now == s.now && t.settings == s.settings
    requires t.deposits.pending == SortByTime(s.deposits.pending + [x])
    requires t.events == s.events + [Staked(x.who, x.pool, x.Time(), x.info.amount)]
    ensures Timely(t.now, t.settings, t.deposits.pending) && History(t.now, t.deposits.pending, t.events)
  {
    TimelyStake(s.now, s.settings, s.deposits.pending, x);
    HistoryStake(s.now, s.deposits.pending, s.events, x);
  }

  lemma StakedLog(s: State, t: State, x: Order)
    requires PrincipalKept(Deposited(s), s.events) && RewardsRecorded(s.rewards, s.events)
    requires Deposited(t) == BooksStake(Deposited(s), x) && t.rewards == s.rewards
    requires t.events == s.events + [Staked(x.who, x.pool, x.Time(), x.info.amount)]
    ensures PrincipalKept(Deposited(t), t.events) && RewardsRecorded(t.rewards, t.events)
  {
    PrincipalStake(Deposited(s), s.events, x);
    RewardsQuiet(s.rewards, s.events, Staked(x.who, x.pool, x.Time(), x.info.amount));
  }

  lemma StakedKeeps(cfg: Config, asset: AssetId, start: int, s: State, t: State, x: Order)
    requires Invariant(cfg, asset, start, s) && Waits(s.now, s.settings, x)
    requires Deposited(t) == BooksStake(Deposited(s), x) && Conserved(Deposited(t))
    requires t.deposits.pending == SortByTime(s.deposits.pending + [x]) && t.deposits.users == s.deposits.users
    requires Backed(cfg, asset, start, t.tokens, PoolAmount(t.natives), t.rewards.unclaimed)
    requires t.now == s.now && t.settings == s.settings && t.rewards == s.rewards
    requires t.events == s.events + [Staked(x.who, x.pool, x.Time(), x.info.amount)]
    ensures Invariant(cfg, asset, start, t)
  {
    StakedQueue(s, t, x);
    StakedLog(s, t, x);
    FinalStake(s, t, x);
  }

  lemma StakeUnderCap(settings: map<PoolId, PoolSetting>, d: Deposits, natives: Book<AccountId>, x: Order)
    requires x.pool in settings && AvailableCap(d, x.pool, settings[x.pool].poolCap).Ok?
    requires x.info.amount <= AvailableCap(d, x.pool, settings[x.pool].poolCap).value
    ensures var b := BooksOf(settings, d, natives);
            AmountOf(b.pools, x.pool) + AmountOf(b.pendingAmount, x.pool) + x.info.amount <= settings[x.pool].poolCap
  {
  }

  lemma FinalStake(s: State, t: State, x: Order)
    requires WithdrawalsFinal(s.now, s.settings, s.deposits, s.events) && Waits(s.now, s.settings, x)
    requires t.now == s.now && t.settings == s.settings && t.deposits.users == s.deposits.users
    requires t.deposits.pending == SortByTime(s.deposits.pending + [x])
    requires t.events == s.events + [Staked(x.who, x.pool, x.Time(), x.info.amount)]
    ensures WithdrawalsFinal(t.now, t.settings, t.deposits, t.events)
  {
    SortStable(s.deposits.pending + [x]);
    forall w | w in t.events && w.Withdraw? ensures FinalFor(t.now, t.settings, t.deposits, w.who, w.pool) {
      assert FinalFor(s.now, s.settings, s.deposits, w.who, w.pool);
      forall y | y in t.deposits.pending ensures y.pool != w.pool {
        assert y in multiset(s.deposits.pending + [x]);
      }
    }
  }

  lemma NativeClaimKeeps(cfg: Config, asset: AssetId, start: int, s: State, who: AccountId, until: BlockNumber,
          refused: Refused)
    requires Invariant(cfg, asset, start, s) && DoNativeClaim(cfg, s, who, until, refused).Ok?
    ensures Invariant(cfg, asset, start, DoNativeClaim(cfg, s, who, until, refused).value)
  {
    var t := DoNativeClaim(cfg, s, who, until, refused).value;
    NativeClaimParts(cfg, s, who, until, refused);
    assert PoolAmount(t.natives) == Deposited(t).native;
    if t != s {
      var e := t.events[|s.events|];
      assert e.NativeRewardClaimed? && t.events == s.events + [e];
      HistoryQuiet(s.now, s.deposits.pending, s.events, e);
      PrincipalQuiet(Deposited(s), s.events, e);
      RewardsQuiet(s.rewards, s.events, e);
      FinalQuiet(s, t, e);
    }
  }

  lemma StableClaimKeeps(cfg: Config, asset: AssetId, start: int, s: State, who: AccountId, pool: PoolId,
          until: BlockNumber, refused: Refused)
    requires Invariant(cfg, asset, start, s) && who != cfg.escrow
    requires DoStableClaim(cfg, s, who, pool, until, refused).Ok?
    ensures Invariant(cfg, asset, start, DoStableClaim(cfg, s, who, pool, until, refused).value)
  {
    var t := DoStableClaim(cfg, s, who, pool, until, refused).value;
    StableClaimParts(cfg, s, who, pool, until, refused);
    StableClaimOnBooks(cfg, s, who, pool, until, refused);
    if pool in s.deposits.pools && (who, pool) in s.deposits.users {
      var reward: Balance :| StableClaimPays(cfg, s, t, who, pool, until, refused, reward);
      PaidKeeps(cfg, asset, start, s, t, who, pool, until, refused, reward);
    }
  }

  lemma PaidKeeps(cfg: Config, asset: AssetId, start: int, s: State, t: State, who: AccountId, pool: PoolId,
          until: BlockNumber, refused: Refused, reward: Balance)
    requires Invariant(cfg, asset, start, s) && who != cfg.escrow
    requires StableClaimPays(cfg, s, t, who, pool, until, refused, reward) && Deposited(t) == Deposited(s)
    ensures Invariant(cfg, asset, start, t)
  {
    var e := StableRewardClaimed(who, pool, until, reward);
    PaidQuiet(s, t, e);
    RewardsPay(s.rewards, s.events, who, pool, until, reward);
    PaidBacked(cfg, asset, start, s, t, who, pool, until, refused, reward);
  }

  /** What a paid claim does not move. */
  lemma PaidQuiet(s: State, t: State, e: Event)
    requires Timely(s.now, s.settings, s.deposits.pending) && History(s.now, s.deposits.pending, s.events)
    requires PrincipalKept(Deposited(s), s.events) && WithdrawalsFinal(s.now, s.settings, s.deposits, s.events)
    requires e.StableRewardClaimed? && t.events == s.events + [e] && Deposited(t) == Deposited(s)
    requires t.now == s.now && t.settings == s.settings
    requires t.deposits.pending == s.deposits.pending && t.deposits.users.Keys == s.deposits.users.Keys
    ensures Timely(t.now, t.settings, t.deposits.pending) && History(t.now, t.deposits.pending, t.events)
    ensures PrincipalKept(Deposited(t), t.events) && WithdrawalsFinal(t.now, t.settings, t.deposits, t.events)
  {
    HistoryQuiet(s.now, s.deposits.pending, s.events, e);
    PrincipalQuiet(Deposited(s), s.events, e);
    FinalQuiet(s, t, e);
  }

  lemma PaidBacked(cfg: Config, asset: AssetId, start: int, s: State, t: State, who: AccountId, pool: PoolId,
          until: BlockNumber, refused: Refused, reward: Balance)
    requires Backed(cfg, asset, start, s.tokens, PoolAmount(s.natives), s.rewards.unclaimed) && who != cfg.escrow
    requires StableClaimPays(cfg, s, t, who, pool, until, refused, reward)
    ensures Backed(cfg, asset, start, t.tokens, PoolAmount(t.natives), t.rewards.unclaimed)
  {
    BackedPayout(cfg, asset, start, s.tokens, PoolAmount(s.natives), s.rewards.unclaimed, who, pool, reward, refused);
  }

  lemma DoWithdrawKeeps(cfg: Config, asset: AssetId, start: int, s: State, who: AccountId, pool: PoolId,
          refused: Refused)
    requires Invariant(cfg, asset, start, s) && who != cfg.escrow
    requires pool in s.settings && s.settings[pool].EndTime().Some? && s.settings[pool].EndTime().value < s.now
    requires DoWithdraw(cfg, s, who, pool, refused).Ok?
    ensures Invariant(cfg, asset, start, DoWithdraw(cfg, s, who, pool, refused).value)
  {
    var t := DoWithdraw(cfg, s, who, pool, refused).value;
    DoWithdrawParts(cfg, s, who, pool, refused);
    if pool in s.deposits.pools && (who, pool) in s.deposits.users {
      var v := s.deposits.users[(who, pool)].amount;
      var e := Event.Withdraw(who, pool, s.now, v);
      DoWithdrawOnBooks(cfg, s, who, pool, refused);
      WithdrawConserves(Deposited(s), who, pool);
      HistoryQuiet(s.now, s.deposits.pending, s.events, e);
      PrincipalWithdraw(Deposited(s), s.events, who, pool, s.now, v);
      RewardsQuiet(s.rewards, s.events, e);
      BackedOut(cfg, asset, start, s.tokens, PoolAmount(s.natives), s.rewards.unclaimed, who, v, refused);
      assert PoolAmount(t.natives) == Deposited(t).native == PoolAmount(s.natives) - v;
      FinalWithdraw(s, t, who, pool, e);
    }
  }

  lemma FinalWithdraw(s: State, t: State, who: AccountId, pool: PoolId, e: Event)
    requires WithdrawalsFinal(s.now, s.settings, s.deposits, s.events) && Timely(s.now, s.settings, s.deposits.pending)
    requires pool in s.settings && s.settings[pool].EndTime().Some? && s.settings[pool].EndTime().value < s.now
    requires t.now == s.now && t.settings == s.settings && t.deposits.users == s.deposits.users - {(who, pool)}
    requires t.deposits.pending == s.deposits.pending && t.events == s.events + [e]
    requires e.Withdraw? && e.who == who && e.pool == pool
    ensures WithdrawalsFinal(t.now, t.settings, t.deposits, t.events)
  {
    forall x | x in s.deposits.pending ensures x.pool != pool {
      assert Waits(s.now, s.settings, x);
    }
    forall w | w in t.events && w.Withdraw? ensures FinalFor(t.now, t.settings, t.deposits, w.who, w.pool) {
      if w in s.events {
        assert FinalFor(s.now, s.settings, s.deposits, w.who, w.pool);
      }
    }
  }

  lemma WithdrawKeeps(cfg: Config, asset: AssetId, start: int, s: State, origin: Origin, pool: PoolId, refused: Refused)
    requires Invariant(cfg, asset, start, s) && origin != Signed(cfg.escrow)
    requires WithdrawStake(cfg, s, origin, pool, refused).Ok?
    ensures Invariant(cfg, asset, start, WithdrawStake(cfg, s, origin, pool, refused).value)
  {
    var who := origin.who;
    var s1 := DoNativeClaim(cfg, s, who, s.now, refused).value;
    NativeClaimKeeps(cfg, asset, start, s, who, s.now, refused);
    NativeClaimParts(cfg, s, who, s.now, refused);
    var s2 := DoStableClaim(cfg, s1, who, pool, s.now, refused).value;
    StableClaimKeeps(cfg, asset, start, s1, who, pool, s.now, refused);
    StableClaimParts(cfg, s1, who, pool, s.now, refused);
    assert s2.settings == s.settings && s2.now == s.now;
    DoWithdrawKeeps(cfg, asset, start, s2, who, pool, refused);
  }

  lemma {:induction false} SolveLoopUsers(d: Deposits, q: seq<Order>, n: BlockNumber)
    ensures forall k :: k in SolveLoop(d, q, n).deposits.users ==>
              k in d.users || exists x :: x in q && (x.who, x.pool) == k
    decreases |q|
  {
    if q != [] && q[0].Time() <= n {
      var one := SolveOne(d, q[0], n);
      assert q[0] in q;
      if one.failure.None? {
        SolveLoopUsers(one.deposits, q[1..], n);
        forall k | k in SolveLoop(one.deposits, q[1..], n).deposits.users && k !in d.users
          ensures exists x :: x in q && (x.who, x.pool) == k
        {
          if k in one.deposits.users {
            assert k == (q[0].who, q[0].pool);
          } else {
            var x :| x in q[1..] && (x.who, x.pool) == k;
            assert x in q;
          }
        }
      }
    }
  }

  lemma FinalSettle(now: BlockNumber, n: BlockNumber, settings: map<PoolId, PoolSetting>, d: Deposits,
          events: seq<Event>)
    requires now <= n && WithdrawalsFinal(now, settings, d, events) && SolvePending(d, n).failure.None?
    ensures WithdrawalsFinal(n, settings, SolvePending(d, n).deposits, events + SolvePending(d, n).events)
  {
    var t := SolvePending(d, n);
    SolveLoopSettlesRipe(d.(pending := []), d.pending, n);
    SolveLoopUsers(d.(pending := []), d.pending, n);
    SolvingOnlySettles(d.(pending := []), d.pending, n);
    forall w | w in events + t.events && w.Withdraw? ensures FinalFor(n, settings, t.deposits, w.who, w.pool) {
      assert FinalFor(now, settings, d, w.who, w.pool);
      forall x | x in t.deposits.pending ensures x.pool != w.pool {
        assert x in d.pending;
      }
    }
  }

  /** The state settling leaves at block `n`. */
  ghost function SettledAt(s: State, n: BlockNumber): State {
    s.(now := n, deposits := SolvePending(s.deposits, n).deposits,
       events := s.events + SolvePending(s.deposits, n).events)
  }

  /** A block is one settling, whether or not anything is due and whatever becomes of it. */
  lemma BlockIsSettling(s: State, n: BlockNumber)
    ensures BeginBlock(s, n) == SettledAt(s, n)
    ensures SolvePending(s.deposits, n).failure.Some? ==> s.deposits.pending != [] && s.deposits.pending[0].Time() <= n
  {
    if s.deposits.pending == [] || s.deposits.pending[0].Time() > n {
      assert SolvePending(s.deposits, n) == Settled(s.deposits, [], None);
      assert s.events + [] == s.events;
    }
  }

  /** And it fails exactly when that settling does. */
  lemma HookIsSettling(s: State)
    requires s.now + 1 < U32_LIMIT
    ensures HookFails(s, NextBlock) <==> SolvePending(s.deposits, s.now + 1).failure.Some?
  {
    BlockIsSettling(s, s.now + 1);
  }

  lemma SettledKeeps(cfg: Config, asset: AssetId, start: int, s: State, t: State, n: BlockNumber)
    requires Invariant(cfg, asset, start, s) && n == s.now + 1 && SolvePending(s.deposits, n).failure.None?
    requires t == SettledAt(s, n)
    ensures Invariant(cfg, asset, start, t)
  {
    var d := s.deposits.(pending := []);
    var q := s.deposits.pending;
    var ripe := q[..RipeCount(q, n)];
    assert d.(pending := q) == s.deposits;
    SolveLoopSettlesRipe(d, q, n);
    SolveLoopConserves(s.settings, d, s.natives, q, n);
    QueueTick(s.settings, s.deposits, s.events, n);
    PrincipalSolveLoop(s.settings, d, s.natives, q, n, s.events);
    PrincipalLogSolved(Deposited(t), s.events, ripe, n);
    FinalSettle(s.now, n, s.settings, s.deposits, s.events);
    RewardsLogSolved(s.rewards, s.events, ripe, n);
  }

  /** With the hook run every block, settling by hand finds nothing due. */
  lemma SolveCallIdle(s: State, origin: Origin)
    requires Timely(s.now, s.settings, s.deposits.pending)
    ensures SolvePendingStake(s, origin) == if origin.Signed? then Ok(s) else Err(BadOrigin)
  {
    if s.deposits.pending != [] {
      assert s.deposits.pending[0] in s.deposits.pending;
      assert Waits(s.now, s.settings, s.deposits.pending[0]);
    }
    assert SolvePending(s.deposits, s.now) == Settled(s.deposits, [], None);
    assert s.events + [] == s.events;
  }

  lemma RegistKeeps(cfg: Config, asset: AssetId, start: int, s: State, origin: Origin)
    requires Invariant(cfg, asset, start, s) && RegistAiusd(s, origin, asset).Ok?
    ensures Invariant(cfg, asset, start, RegistAiusd(s, origin, asset).value)
  {
    var t := RegistAiusd(s, origin, asset).value;
    var e := AiusdRegistered(asset);
    HistoryQuiet(s.now, s.deposits.pending, s.events, e);
    PrincipalQuiet(Deposited(s), s.events, e);
    RewardsQuiet(s.rewards, s.events, e);
    FinalQuiet(s, t, e);
  }

  lemma OutsideKeeps(cfg: Config, asset: AssetId, start: int, s: State, other: AssetId, account: AccountId,
          balance: Balance)
    requires Invariant(cfg, asset, start, s) && account != cfg.escrow
    ensures Invariant(cfg, asset, start, s.(tokens :=
          s.tokens.(assets := s.tokens.assets[(other, account) := balance])))
  {
  }

  lemma GiftKeeps(cfg: Config, asset: AssetId, start: int, s: State, given: AssetId, amount: Balance)
    requires Invariant(cfg, asset, start, s) && GiveEscrow(cfg, s, given, amount).Ok?
    ensures Invariant(cfg, asset, start + (if given == asset then amount else 0),
          GiveEscrow(cfg, s, given, amount).value)
  {
  }

  predicate ByUser(a: Action) {
    a.CallStake? || a.CallClaimNative? || a.CallClaimStable? || a.CallWithdraw?
  }

  lemma UserStepKeeps(cfg: Config, asset: AssetId, start: int, s: State, a: Action)
    requires Invariant(cfg, asset, start, s) && Admissible(cfg, asset, a) && ByUser(a) && Execute(cfg, s, a).Ok?
    ensures Invariant(cfg, asset, start, Execute(cfg, s, a).value)
  {
    match a
    case CallStake(origin, pool, amount, refused) => StakeKeeps(cfg, asset, start, s, origin, pool, amount, refused);
    case CallClaimNative(origin, until, refused) => NativeClaimKeeps(cfg, asset, start, s, origin.who, until, refused);
    case CallClaimStable(origin, pool, until, refused) =>
        StableClaimKeeps(cfg, asset, start, s, origin.who, pool, until, refused);
    case CallWithdraw(origin, pool, refused) => WithdrawKeeps(cfg, asset, start, s, origin, pool, refused);
  }

  lemma OtherStepKeeps(cfg: Config, asset: AssetId, start: int, s: State, a: Action)
    requires Invariant(cfg, asset, start, s) && Admissible(cfg, asset, a) && Execute(cfg, s, a).Ok?
    requires !ByUser(a) && !a.NextBlock? && !a.OutsideGift?
    ensures Invariant(cfg, asset, start, Execute(cfg, s, a).value)
  {
    match a
    case CallCreate(origin, pool, setting) => CreateKeeps(cfg, asset, start, s, origin, pool, setting);
    case CallReward(origin, pool, epoch, reward, refuses) =>
        RewardKeeps(cfg, asset, start, s, origin, pool, epoch, reward, refuses);
    case CallSolve(origin) => SolveCallIdle(s, origin);
    case CallRegist(origin, _) => RegistKeeps(cfg, asset, start, s, origin);
    case OutsideAsset(other, account, balance) => OutsideKeeps(cfg, asset, start, s, other, account, balance);
    case OutsideNative(_, _) =>
  }

  lemma AppliesHook(cfg: Config, s: State)
    requires s.now + 1 < U32_LIMIT
    ensures Apply(cfg, s, NextBlock) == BeginBlock(s, s.now + 1)
  {
  }

  /** The next block keeps the invariant unless its hook fails. */
  lemma NextBlockKeeps(cfg: Config, asset: AssetId, start: int, s: State, t: State)
    requires s.now + 1 < U32_LIMIT && t == BeginBlock(s, s.now + 1)
    requires Invariant(cfg, asset, start, s) && !HookFails(s, NextBlock)
    ensures Invariant(cfg, asset, start, t)
  {
    NextBlockSettles(s);
    SettledKeeps(cfg, asset, start, s, t, s.now + 1);
  }

  lemma NextBlockSettles(s: State)
    requires s.now + 1 < U32_LIMIT && !HookFails(s, NextBlock)
    ensures SolvePending(s.deposits, s.now + 1).failure.None?
    ensures BeginBlock(s, s.now + 1) == SettledAt(s, s.now + 1)
  {
    HookIsSettling(s);
    BlockIsSettling(s, s.now + 1);
  }

  lemma BlockKeeps(cfg: Config, asset: AssetId, start: int, s: State)
    requires Invariant(cfg, asset, start, s) && !HookFails(s, NextBlock)
    ensures Invariant(cfg, asset, start + Gift(cfg, asset, s, NextBlock), Apply(cfg, s, NextBlock))
  {
    if s.now + 1 < U32_LIMIT {
      AppliesHook(cfg, s);
      NextBlockKeeps(cfg, asset, start, s, Apply(cfg, s, NextBlock));
    }
  }

  lemma CallKeeps(cfg: Config, asset: AssetId, start: int, s: State, a: Action)
    requires Invariant(cfg, asset, start, s) && Admissible(cfg, asset, a) && !a.NextBlock?
    ensures Invariant(cfg, asset, start + Gift(cfg, asset, s, a), Apply(cfg, s, a))
  {
    if Execute(cfg, s, a).Ok? {
      if ByUser(a) {
        UserStepKeeps(cfg, asset, start, s, a);
      } else if a.OutsideGift? {
        GiftKeeps(cfg, asset, start, s, a.asset, a.amount);
      } else {
        OtherStepKeeps(cfg, asset, start, s, a);
      }
    }
  }

  /** Every admissible action keeps the invariant, gifts to the escrow added, except a block whose hook fails. */
  lemma StepKeeps(cfg: Config, asset: AssetId, start: int, s: State, a: Action)
    requires Invariant(cfg, asset, start, s) && Admissible(cfg, asset, a) && !HookFails(s, a)
    ensures Invariant(cfg, asset, start + Gift(cfg, asset, s, a), Apply(cfg, s, a))
  {
    if a.NextBlock? {
      BlockKeeps(cfg, asset, start, s);
    } else {
      CallKeeps(cfg, asset, start, s, a);
    }
  }

  lemma SettlingNeverFails(settings: map<PoolId, PoolSetting>, d: Deposits, natives: Book<AccountId>, n: BlockNumber)
    requires Conserved(BooksOf(settings, d, natives)) && CapsSmall(settings) && AllPositive(d.pending)
    ensures SolvePending(d, n).failure.None?
  {
    var e := d.(pending := []);
    assert e.(pending := d.pending) == d;
    SolveLoopNeverFails(settings, e, natives, d.pending, n);
  }

  /** In a settleable state the hook cannot fail. */
  lemma SettleableHook(s: State, a: Action)
    requires Conserved(Deposited(s)) && Settleable(s)
    ensures !HookFails(s, a)
  {
    if s.now + 1 < U32_LIMIT {
      SettlingNeverFails(s.settings, s.deposits, s.natives, s.now + 1);
    }
  }

  lemma StakeSettleable(cfg: Config, s: State, origin: Origin, pool: PoolId, amount: Balance, refused: Refused)
    requires AllPositive(s.deposits.pending) && 0 < amount && Stake(cfg, s, origin, pool, amount, refused).Ok?
    ensures AllPositive(Stake(cfg, s, origin, pool, amount, refused).value.deposits.pending)
  {
    StakeParts(cfg, s, origin, pool, amount, refused);
    var x := OrderOf(s, origin.who, pool, amount);
    var q := s.deposits.pending + [x];
    SortStable(q);
    forall o | o in SortByTime(q) ensures 0 < o.info.amount {
      assert o in multiset(q);
    }
  }

  lemma TickSettleable(s: State, n: BlockNumber)
    requires Settleable(s) && !HookFails(s, NextBlock) && n == s.now + 1
    ensures Settleable(BeginBlock(s, n))
  {
    BlockIsSettling(s, n);
    SolveLoopSettlesRipe(s.deposits.(pending := []), s.deposits.pending, n);
    forall o | o in SolvePending(s.deposits, n).deposits.pending ensures 0 < o.info.amount {
      assert o in s.deposits.pending;
    }
  }

  lemma WithdrawLeavesQueue(cfg: Config, s: State, origin: Origin, pool: PoolId, refused: Refused)
    requires WithdrawStake(cfg, s, origin, pool, refused).Ok?
    ensures var t := WithdrawStake(cfg, s, origin, pool, refused).value;
            t.settings == s.settings && t.deposits.pending == s.deposits.pending
  {
    var who := origin.who;
    var s1 := DoNativeClaim(cfg, s, who, s.now, refused).value;
    NativeClaimParts(cfg, s, who, s.now, refused);
    var s2 := DoStableClaim(cfg, s1, who, pool, s.now, refused).value;
    StableClaimParts(cfg, s1, who, pool, s.now, refused);
    DoWithdrawParts(cfg, s2, who, pool, refused);
  }

  lemma UserStepSettleable(cfg: Config, s: State, a: Action)
    requires Settleable(s) && Sound(a) && ByUser(a) && Execute(cfg, s, a).Ok?
    ensures Settleable(Execute(cfg, s, a).value)
  {
    match a
    case CallStake(origin, pool, amount, refused) =>
      StakeParts(cfg, s, origin, pool, amount, refused);
      StakeSettleable(cfg, s, origin, pool, amount, refused);
    case CallClaimNative(origin, until, refused) => NativeClaimParts(cfg, s, origin.who, until, refused);
    case CallClaimStable(origin, pool, until, refused) => StableClaimParts(cfg, s, origin.who, pool, until, refused);
    case CallWithdraw(origin, pool, refused) => WithdrawLeavesQueue(cfg, s, origin, pool, refused);
  }

  lemma NextBlockSettleable(cfg: Config, s: State)
    requires Settleable(s) && !HookFails(s, NextBlock)
    ensures Settleable(Apply(cfg, s, NextBlock))
  {
    if s.now + 1 < U32_LIMIT {
      TickSettleable(s, s.now + 1);
    }
  }

  lemma OtherStepSettleable(cfg: Config, s: State, a: Action)
    requires Timely(s.now, s.settings, s.deposits.pending) && Settleable(s) && Sound(a) && !ByUser(a) && !a.NextBlock?
    ensures Settleable(Apply(cfg, s, a))
  {
    if a.CallSolve? {
      SolveCallIdle(s, a.origin);
    }
  }

  /** Sound actions keep the queue settleable. */
  lemma StepSettleable(cfg: Config, asset: AssetId, start: int, s: State, a: Action)
    requires Invariant(cfg, asset, start, s) && Settleable(s) && Sound(a)
    ensures Settleable(Apply(cfg, s, a))
  {
    if a.NextBlock? {
      SettleableHook(s, NextBlock);
      NextBlockSettleable(cfg, s);
    } else if !ByUser(a) {
      OtherStepSettleable(cfg, s, a);
    } else if Execute(cfg, s, a).Ok? {
      UserStepSettleable(cfg, s, a);
    }
  }

  // --- the theorems about whole runs ---

  ghost predicate AdmissibleRun(cfg: Config, asset: AssetId, acts: seq<Action>) {
    forall i :: 0 <= i < |acts| ==> Admissible(cfg, asset, acts[i])
  }

  ghost predicate HookSucceedsAt(cfg: Config, s: State, acts: seq<Action>, i: nat)
    requires i < |acts|
  {
    !HookFails(After(cfg, s, acts[..i]), acts[i])
  }

  /** No block of the run has a failing hook. */
  ghost predicate HooksSucceed(cfg: Config, s: State, acts: seq<Action>) {
    forall i: nat :: i < |acts| ==> HookSucceedsAt(cfg, s, acts, i)
  }

  ghost predicate SoundRun(acts: seq<Action>) {
    forall i :: 0 <= i < |acts| ==> Sound(acts[i])
  }

  lemma SameHook(cfg: Config, s: State, acts: seq<Action>, i: nat)
    requires i + 1 < |acts|
    ensures HookSucceedsAt(cfg, s, acts[..|acts| - 1], i) <==> HookSucceedsAt(cfg, s, acts, i)
  {
    var before := acts[..|acts| - 1];
    assert before[..i] == acts[..i] && before[i] == acts[i];
  }

  lemma HooksBefore(cfg: Config, s: State, acts: seq<Action>)
    requires acts != [] && HooksSucceed(cfg, s, acts)
    ensures HooksSucceed(cfg, s, acts[..|acts| - 1])
    ensures HookSucceedsAt(cfg, s, acts, |acts| - 1)
  {
    var before := acts[..|acts| - 1];
    forall i: nat | i < |before| ensures HookSucceedsAt(cfg, s, before, i) {
      SameHook(cfg, s, acts, i);
    }
  }

  lemma HooksExtend(cfg: Config, s: State, acts: seq<Action>)
    requires acts != [] && HooksSucceed(cfg, s, acts[..|acts| - 1])
    requires HookSucceedsAt(cfg, s, acts, |acts| - 1)
    ensures HooksSucceed(cfg, s, acts)
  {
    forall i: nat | i < |acts| ensures HookSucceedsAt(cfg, s, acts, i) {
      if i < |acts| - 1 {
        SameHook(cfg, s, acts, i);
      }
    }
  }

  /** Whatever is called in whatever order, while no hook fails every reachable state has the invariant. */
  lemma {:induction false} ReachableInvariant(cfg: Config, asset: AssetId, s: State, acts: seq<Action>)
    requires Genesis(s) && AdmissibleRun(cfg, asset, acts) && HooksSucceed(cfg, s, acts)
    ensures Invariant(cfg, asset, EscrowBalance(cfg, asset, s.tokens) + Gifts(cfg, asset, s, acts), After(cfg, s, acts))
    decreases |acts|
  {
    if acts == [] {
      GenesisInvariant(cfg, asset, s);
    } else {
      var before := acts[..|acts| - 1];
      HooksBefore(cfg, s, acts);
      ReachableInvariant(cfg, asset, s, before);
      var start := EscrowBalance(cfg, asset, s.tokens) + Gifts(cfg, asset, s, before);
      StepKeeps(cfg, asset, start, After(cfg, s, before), acts[|acts| - 1]);
    }
  }

  /** Sound deposits make every hook of every run succeed. */
  lemma {:induction false} SoundRunsNeverFail(cfg: Config, asset: AssetId, s: State, acts: seq<Action>)
    requires Genesis(s) && AdmissibleRun(cfg, asset, acts) && SoundRun(acts)
    ensures HooksSucceed(cfg, s, acts) && Settleable(After(cfg, s, acts))
    decreases |acts|
  {
    if acts == [] {
      GenesisInvariant(cfg, asset, s);
    } else {
      var before, a := acts[..|acts| - 1], acts[|acts| - 1];
      SoundRunsNeverFail(cfg, asset, s, before);
      ReachableInvariant(cfg, asset, s, before);
      var start := EscrowBalance(cfg, asset, s.tokens) + Gifts(cfg, asset, s, before);
      SettleableHook(After(cfg, s, before), a);
      StepSettleable(cfg, asset, start, After(cfg, s, before), a);
      HooksExtend(cfg, s, acts);
    }
  }
}
