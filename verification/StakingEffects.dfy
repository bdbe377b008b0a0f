/**
 What each staking call leaves behind, in terms of the state before it and its arguments: every balance,
 position, order and record, and that the rest stays.
 */
module StakingEffects {
  import opened Base
  import opened StakingInfos
  import opened Epochs
  import opened Queue
  import opened Drift
  import opened StakingState
  import opened StakingSteps
  import opened StakingRuns

  // Tokens

  /** What a movement between two accounts adds to one: nothing if both are the same. */
  ghost function Moved<K>(k: K, from: K, to: K, amount: int): int {
    (if k == to then amount else 0) - (if k == from then amount else 0)
  }

  /** An amount of the asset goes from one account to another, and no other balance changes. */
  ghost predicate AssetMoves(t: Tokens, u: Tokens, asset: AssetId, from: AccountId, to: AccountId, amount: int) {
    && u.aiusd == t.aiusd && u.native == t.native
    && forall k :: GetOrZero(u.assets, k) == GetOrZero(t.assets, k) + Moved(k, (asset, from), (asset, to), amount)
  }

  ghost predicate NativeMoves(t: Tokens, u: Tokens, from: AccountId, to: AccountId, amount: int) {
    && u.aiusd == t.aiusd && u.assets == t.assets
    && forall w :: GetOrZero(u.native, w) == GetOrZero(t.native, w) + Moved(w, from, to, amount)
  }

  lemma TransferMoves(t: Tokens, asset: AssetId, from: AccountId, to: AccountId, amount: Balance, refused: Refused)
    requires Transfer(t, asset, from, to, amount, refused).Ok?
    ensures AssetMoves(t, Transfer(t, asset, from, to, amount, refused).value, asset, from, to, amount)
  {
  }

  lemma TransferNativeMoves(t: Tokens, from: AccountId, to: AccountId, amount: Balance, refused: Refused)
    requires TransferNative(t, from, to, amount, refused).Ok?
    ensures NativeMoves(t, TransferNative(t, from, to, amount, refused).value, from, to, amount)
  {
  }

  // Shares

  /** The nearest unit to so many parts of the whole, ties down. */
  ghost predicate RoundsTo(parts: int, whole: int, reward: int) {
    -QUINTILLION <= 2 * (reward * QUINTILLION - parts * whole) < QUINTILLION
  }

  /**
   What a weight is paid against a total: all there is when it reaches the total, and else as many parts of
   it as the runtime's ratio of the two has, to the nearest unit.
   */
  ghost predicate NearestShare(cfg: Config, weight: u128, total: u128, whole: Balance, reward: Balance) {
    && reward <= whole
    && if weight >= total then reward == whole
       else RoundsTo(Min(cfg.fromRational(weight, total), QUINTILLION), whole, reward)
  }

  lemma PartsPayNearest(cfg: Config, weight: u128, total: u128, whole: Balance)
    ensures NearestShare(cfg, weight, total, whole, MulNearest(Parts(cfg, weight, total), whole))
  {
  }

  /** Of two equal weights with an exact ratio, each is worth half. */
  lemma HalfPaysHalf(cfg: Config, weight: u128, whole: Balance, reward: Balance)
    requires 0 < weight && 2 * weight < U128_LIMIT && cfg.fromRational(weight, 2 * weight) == 500_000_000_000_000_000
    requires 2 * whole < U128_LIMIT && NearestShare(cfg, weight, 2 * weight, 2 * whole, reward)
    ensures reward == whole
  {
  }

  /** The ratio is within `e` parts of the exact one. */
  ghost predicate AccurateTo(cfg: Config, weight: u128, total: u128, e: nat) {
    -(e * total) <= cfg.fromRational(weight, total) * total - weight * QUINTILLION <= e * total
  }

  /** The payment is the exact share but for half a unit and the error of the ratio. */
  ghost predicate PaysWithin(weight: int, total: int, whole: int, reward: int, e: int) {
    var off := 2 * QUINTILLION * (reward * total - weight * whole);
    var most := QUINTILLION * total + 2 * (e * (total * whole));
    -most <= off <= most
  }

  /** With an accurate ratio a payment is that close to the exact share. */
  lemma AccurateShare(cfg: Config, weight: u128, total: u128, whole: Balance, reward: Balance, e: nat)
    requires NearestShare(cfg, weight, total, whole, reward) && weight < total && AccurateTo(cfg, weight, total, e)
    ensures PaysWithin(weight, total, whole, reward, e)
  {
    var parts := Min(cfg.fromRational(weight, total), QUINTILLION);
    ClippedAccurate(cfg, weight, total, e);
    ScaledError(reward * QUINTILLION - parts * whole, total);
    ScaledParts(parts * total - weight * QUINTILLION, e * total, whole);
    Regroup(reward, parts, whole, total, weight, e);
  }

  /** Cutting the ratio off at one takes it nowhere further away. */
  lemma ClippedAccurate(cfg: Config, weight: u128, total: u128, e: nat)
    requires weight < total && AccurateTo(cfg, weight, total, e)
    ensures var parts := Min(cfg.fromRational(weight, total), QUINTILLION);
            -(e * total) <= parts * total - weight * QUINTILLION <= e * total
  {
    var exact := cfg.fromRational(weight, total);
    if QUINTILLION < exact {
      MulBounds(QUINTILLION, exact, total);
      MulBounds(weight, total, QUINTILLION);
      MulBounds(0, e, total);
    }
  }

  lemma ScaledError(x: int, total: int)
    requires -QUINTILLION <= 2 * x < QUINTILLION && 0 < total
    ensures -(QUINTILLION * total) <= 2 * (x * total) <= QUINTILLION * total
  {
    MulBounds(0, QUINTILLION + 2 * x, total);
    MulBounds(0, QUINTILLION - 2 * x, total);
    SpanTimes(-2 * x, QUINTILLION, total);
    SpanTimes(2 * x, QUINTILLION, total);
    Doubled(x, total);
  }

  lemma Doubled(x: int, total: int)
    ensures (2 * x) * total == 2 * (x * total) && (-2 * x) * total == -2 * (x * total)
  {
  }

  lemma ScaledParts(x: int, bound: int, whole: int)
    requires -bound <= x <= bound && 0 <= whole
    ensures -(bound * whole) <= x * whole <= bound * whole
  {
    MulBounds(0, bound - x, whole);
    MulBounds(0, bound + x, whole);
    SpanTimes(x, bound, whole);
    SpanTimes(-x, bound, whole);
  }

  lemma Regroup(reward: int, parts: int, whole: int, total: int, weight: int, e: int)
    ensures QUINTILLION * (reward * total - weight * whole) ==
              (reward * QUINTILLION - parts * whole) * total + (parts * total - weight * QUINTILLION) * whole
    ensures (e * total) * whole == e * (total * whole)
  {
  }

  /** A user is paid its share by the weights of both positions at a block that both and the last add have reached. */
  ghost predicate PaidShare(cfg: Config, p: StakingInfo, u: StakingInfo, until: BlockNumber, whole: Balance,
          reward: Balance) {
    var weight, total := SignedWeight(u, until), SignedWeight(p, until);
    && u.effectiveTime <= until && u.lastAddTime <= until && p.effectiveTime <= until
    && 0 <= weight < U128_LIMIT && 0 <= total < U128_LIMIT
    && NearestShare(cfg, weight, total, whole, reward)
  }

  /** A position that counts from another time and has lost an amount. */
  ghost predicate Lessened(p: StakingInfo, q: StakingInfo, time: int, v: int) {
    q.effectiveTime == time && q.amount == p.amount - v && q.lastAddTime == p.lastAddTime
  }

  /** A pool's time after a claim of one of its users: later by as many blocks as the weight has of the amount. */
  ghost function TimeAfter(p: StakingInfo, u: StakingInfo, until: BlockNumber): int {
    if p.amount == 0 then p.effectiveTime
    else (p.effectiveTime + SignedWeight(u, until) / p.amount) % U128_LIMIT
  }

  /** The user starts anew at the block, and the pool moves along. */
  ghost predicate Consumed(p: StakingInfo, u: StakingInfo, until: BlockNumber, p': StakingInfo, u': StakingInfo) {
    0 < p.amount && Lessened(p, p', TimeAfter(p, u, until), 0) && Lessened(u, u', until, 0)
  }

  lemma TakeShareConsumes(p: StakingInfo, u: StakingInfo, until: BlockNumber)
    requires TakeShare(p, u, until).Some?
    ensures var share := TakeShare(p, u, until).value;
            && share.weight == SignedWeight(u, until) && share.total == SignedWeight(p, until)
            && u.effectiveTime <= until && u.lastAddTime <= until && p.effectiveTime <= until
            && Consumed(p, u, until, share.pool, share.user)
  {
  }

  // Claims

  ghost predicate HasNative(s: State, who: AccountId) {
    s.natives.pool.Some? && who in s.natives.users
  }

  ghost predicate HasStable(s: State, who: AccountId, pool: PoolId) {
    pool in s.deposits.pools && (who, pool) in s.deposits.users
  }

  /** A native claim: the reward goes from the reward account to the user and its weight out of both positions. */
  ghost predicate NativeClaimed(cfg: Config, s: State, t: State, who: AccountId, until: BlockNumber, reward: Balance) {
    if !HasNative(s, who) then t == s && reward == 0
    else
      && HasNative(t, who)
      && PaidShare(cfg, s.natives.pool.value, s.natives.users[who], until,
                   GetOrZero(s.tokens.native, cfg.rewardAccount), reward)
      && NativeMoves(s.tokens, t.tokens, cfg.rewardAccount, who, reward)
      && Consumed(s.natives.pool.value, s.natives.users[who], until, t.natives.pool.value, t.natives.users[who])
      && t.natives.users == s.natives.users[who := t.natives.users[who]]
      && t == s.(natives := t.natives, tokens := t.tokens,
                 events := s.events + [NativeRewardClaimed(who, until, reward)])
  }

  /** A stable claim: the reward goes from the escrow to the user, off the pool's unclaimed reward. */
  ghost predicate StableClaimed(cfg: Config, s: State, t: State, who: AccountId, pool: PoolId, until: BlockNumber,
          reward: Balance) {
    s.tokens.aiusd.Some? &&
    if !HasStable(s, who, pool) then t == s && reward == 0
    else
      && HasStable(t, who, pool)
      && PaidShare(cfg, s.deposits.pools[pool], s.deposits.users[(who, pool)], until,
                   GetOrZero(s.rewards.unclaimed, pool), reward)
      && AssetMoves(s.tokens, t.tokens, s.tokens.aiusd.value, cfg.escrow, who, reward)
      && Consumed(s.deposits.pools[pool], s.deposits.users[(who, pool)], until, t.deposits.pools[pool],
                  t.deposits.users[(who, pool)])
      && t.deposits == s.deposits.(pools := s.deposits.pools[pool := t.deposits.pools[pool]],
                                   users := s.deposits.users[(who, pool) := t.deposits.users[(who, pool)]])
      && LessUnclaimed(s.rewards, t.rewards, pool, reward)
      && t == s.(deposits := t.deposits, rewards := t.rewards, tokens := t.tokens,
                 events := s.events + [StableRewardClaimed(who, pool, until, reward)])
  }

  ghost predicate LessUnclaimed(r: Rewards, q: Rewards, pool: PoolId, reward: int) {
    && q.perEpoch == r.perEpoch
    && forall p :: GetOrZero(q.unclaimed, p) == GetOrZero(r.unclaimed, p) - if p == pool then reward else 0
  }

  lemma NativeClaimExactly(cfg: Config, s: State, who: AccountId, until: BlockNumber,
          refused: Refused) returns (reward: Balance)
    requires DoNativeClaim(cfg, s, who, until, refused).Ok?
    ensures until <= s.now
    ensures NativeClaimed(cfg, s, DoNativeClaim(cfg, s, who, until, refused).value, who, until, reward)
  {
    reward := 0;
    if HasNative(s, who) {
      var whole := GetOrZero(s.tokens.native, cfg.rewardAccount);
      var share := TakeShare(s.natives.pool.value, s.natives.users[who], until).value;
      reward := MulNearest(Parts(cfg, share.weight, share.total), whole);
      TakeShareConsumes(s.natives.pool.value, s.natives.users[who], until);
      PartsPayNearest(cfg, share.weight, share.total, whole);
      TransferNativeMoves(s.tokens, cfg.rewardAccount, who, reward, refused);
    }
  }

  lemma StableClaimExactly(cfg: Config, s: State, who: AccountId, pool: PoolId, until: BlockNumber,
          refused: Refused) returns (reward: Balance)
    requires DoStableClaim(cfg, s, who, pool, until, refused).Ok?
    ensures until <= s.now
    ensures StableClaimed(cfg, s, DoStableClaim(cfg, s, who, pool, until, refused).value, who, pool, until, reward)
  {
    reward := 0;
    if HasStable(s, who, pool) {
      var whole := GetOrZero(s.rewards.unclaimed, pool);
      var share := TakeShare(s.deposits.pools[pool], s.deposits.users[(who, pool)], until).value;
      reward := MulNearest(Parts(cfg, share.weight, share.total), whole);
      TakeShareConsumes(s.deposits.pools[pool], s.deposits.users[(who, pool)], until);
      PartsPayNearest(cfg, share.weight, share.total, whole);
      TransferMoves(s.tokens, s.tokens.aiusd.value, cfg.escrow, who, reward, refused);
    }
  }

  /** A call for native rewards in full. */
  lemma ClaimNativeExactly(cfg: Config, s: State, origin: Origin, until: BlockNumber,
          refused: Refused) returns (reward: Balance)
    requires Execute(cfg, s, CallClaimNative(origin, until, refused)).Ok?
    ensures origin.Signed? && until <= s.now
    ensures NativeClaimed(cfg, s, Apply(cfg, s, CallClaimNative(origin, until, refused)), origin.who, until, reward)
  {
    reward := NativeClaimExactly(cfg, s, origin.who, until, refused);
  }

  /** And one for a pool's rewards. */
  lemma ClaimStableExactly(cfg: Config, s: State, origin: Origin, pool: PoolId, until: BlockNumber,
          refused: Refused) returns (reward: Balance)
    requires Execute(cfg, s, CallClaimStable(origin, pool, until, refused)).Ok?
    ensures origin.Signed? && until <= s.now
    ensures StableClaimed(cfg, s, Apply(cfg, s, CallClaimStable(origin, pool, until, refused)), origin.who, pool,
                          until, reward)
  {
    reward := StableClaimExactly(cfg, s, origin.who, pool, until, refused);
  }

  // Withdrawals

  ghost function Principal(s: State, who: AccountId, pool: PoolId): Balance {
    if HasStable(s, who, pool) then s.deposits.users[(who, pool)].amount else 0
  }

  /** What the two claims of a withdrawal come to, by the positions and balances before it. */
  ghost predicate WithdrawShares(cfg: Config, s: State, who: AccountId, pool: PoolId, native: Balance,
          stable: Balance) {
    && (if HasNative(s, who)
        then PaidShare(cfg, s.natives.pool.value, s.natives.users[who], s.now,
                       GetOrZero(s.tokens.native, cfg.rewardAccount), native)
        else native == 0)
    && (if HasStable(s, who, pool)
        then PaidShare(cfg, s.deposits.pools[pool], s.deposits.users[(who, pool)], s.now,
                       GetOrZero(s.rewards.unclaimed, pool), stable)
        else stable == 0)
  }

  /** Both rewards and the principal reach the user, and nobody else's balance changes. */
  ghost predicate WithdrawPays(cfg: Config, s: State, t: State, who: AccountId, pool: PoolId, native: int,
          stable: int) {
    && s.tokens.aiusd.Some? && t.tokens.aiusd == s.tokens.aiusd
    && (forall w :: GetOrZero(t.tokens.native, w)
         == GetOrZero(s.tokens.native, w) + Moved(w, cfg.rewardAccount, who, native))
    && (var asset := s.tokens.aiusd.value;
        forall k :: GetOrZero(t.tokens.assets, k) == GetOrZero(s.tokens.assets, k)
            + Moved(k, (asset, cfg.escrow), (asset, who), stable + Principal(s, who, pool)))
    && LessUnclaimed(s.rewards, t.rewards, pool, stable)
  }

  /** The position is gone, its pool has moved by its weight and lost its amount; orders are untouched. */
  ghost predicate WithdrawLeaves(d: Deposits, e: Deposits, who: AccountId, pool: PoolId, now: BlockNumber)
    requires pool in d.pools && (who, pool) in d.users
  {
    var p, u := d.pools[pool], d.users[(who, pool)];
    && pool in e.pools && 0 < p.amount && Lessened(p, e.pools[pool], TimeAfter(p, u, now), u.amount)
    && e == d.(pools := d.pools[pool := e.pools[pool]], users := d.users - {(who, pool)})
  }

  /** The native positions after a claim at `now` and the departure of an amount; an emptied one is dropped. */
  ghost predicate NativeLeaves(b: Book<AccountId>, c: Book<AccountId>, who: AccountId, now: BlockNumber, v: Balance,
          leaves: bool) {
    && (match b.pool
        case None => c.pool.None?
        case Some(p) =>
          c.pool.Some?
          && Lessened(p, c.pool.value, if who in b.users then TimeAfter(p, b.users[who], now) else p.effectiveTime, v))
    && (if who !in b.users then c.users == b.users
        else if leaves && b.users[who].amount == v then c.users == b.users - {who}
        else
          && who in c.users && c.users == b.users[who := c.users[who]]
          && Lessened(b.users[who], c.users[who], if b.pool.Some? then now else b.users[who].effectiveTime, v))
  }

  /** What a withdrawal announces: each claim that found a position, and the departure. */
  ghost function WithdrawEvents(s: State, who: AccountId, pool: PoolId, native: Balance, stable: Balance): seq<Event> {
    (if HasNative(s, who) then [NativeRewardClaimed(who, s.now, native)] else [])
    + if HasStable(s, who, pool)
      then [StableRewardClaimed(who, pool, s.now, stable), Event.Withdraw(who, pool, s.now, Principal(s, who, pool))]
      else []
  }

  ghost predicate Withdrawn(cfg: Config, s: State, t: State, who: AccountId, pool: PoolId, native: Balance,
          stable: Balance) {
    && WithdrawShares(cfg, s, who, pool, native, stable)
    && WithdrawPays(cfg, s, t, who, pool, native, stable)
    && (if HasStable(s, who, pool) then WithdrawLeaves(s.deposits, t.deposits, who, pool, s.now)
        else t.deposits == s.deposits)
    && NativeLeaves(s.natives, t.natives, who, s.now, Principal(s, who, pool), HasStable(s, who, pool))
    && t.events == s.events + WithdrawEvents(s, who, pool, native, stable)
    && t.now == s.now && t.settings == s.settings
  }

  /** The departure alone, once both claims are done. */
  ghost predicate Departed(cfg: Config, s: State, t: State, who: AccountId, pool: PoolId) {
    s.tokens.aiusd.Some? &&
    if !HasStable(s, who, pool) then t == s
    else
      var v := Principal(s, who, pool);
      && AssetMoves(s.tokens, t.tokens, s.tokens.aiusd.value, cfg.escrow, who, v)
      && pool in t.deposits.pools
      && Lessened(s.deposits.pools[pool], t.deposits.pools[pool], s.deposits.pools[pool].effectiveTime, v)
      && t.deposits == s.deposits.(pools := s.deposits.pools[pool := t.deposits.pools[pool]],
                                   users := s.deposits.users - {(who, pool)})
      && NativeDeparts(s.natives, t.natives, who, v)
      && t == s.(deposits := t.deposits, natives := t.natives, tokens := t.tokens,
                 events := s.events + [Event.Withdraw(who, pool, s.now, v)])
  }

  ghost predicate NativeDeparts(b: Book<AccountId>, c: Book<AccountId>, who: AccountId, v: Balance) {
    && (match b.pool
        case None => c.pool.None?
        case Some(p) => c.pool.Some? && Lessened(p, c.pool.value, p.effectiveTime, v))
    && (if who !in b.users then c.users == b.users
        else if b.users[who].amount == v then c.users == b.users - {who}
        else
          && who in c.users && c.users == b.users[who := c.users[who]]
          && Lessened(b.users[who], c.users[who], b.users[who].effectiveTime, v))
  }

  lemma DepartsExactly(cfg: Config, s: State, who: AccountId, pool: PoolId, refused: Refused)
    requires DoWithdraw(cfg, s, who, pool, refused).Ok?
    ensures Departed(cfg, s, DoWithdraw(cfg, s, who, pool, refused).value, who, pool)
  {
    DoWithdrawParts(cfg, s, who, pool, refused);
    if HasStable(s, who, pool) {
      TransferMoves(s.tokens, s.tokens.aiusd.value, cfg.escrow, who, Principal(s, who, pool), refused);
    }
  }

  /** Two claims and a departure in one: what they pay for. */
  lemma SharesAdd(cfg: Config, s: State, s1: State, s2: State, t: State, who: AccountId, pool: PoolId,
          native: Balance, stable: Balance)
    requires NativeClaimed(cfg, s, s1, who, s.now, native) && StableClaimed(cfg, s1, s2, who, pool, s.now, stable)
    requires Departed(cfg, s2, t, who, pool)
    ensures WithdrawShares(cfg, s, who, pool, native, stable)
    ensures t.events == s.events + WithdrawEvents(s, who, pool, native, stable)
    ensures t.now == s.now && t.settings == s.settings
  {
    assert HasStable(s2, who, pool) <==> HasStable(s, who, pool);
    assert Principal(s2, who, pool) == Principal(s, who, pool);
  }

  /** What they pay. */
  lemma PaymentsAdd(cfg: Config, s: State, s1: State, s2: State, t: State, who: AccountId, pool: PoolId,
          native: Balance, stable: Balance)
    requires NativeClaimed(cfg, s, s1, who, s.now, native) && StableClaimed(cfg, s1, s2, who, pool, s.now, stable)
    requires Departed(cfg, s2, t, who, pool)
    ensures WithdrawPays(cfg, s, t, who, pool, native, stable)
  {
    assert HasStable(s2, who, pool) <==> HasStable(s, who, pool);
    assert Principal(s2, who, pool) == Principal(s, who, pool);
  }

  /** And what they do to the positions. */
  lemma DeparturesAdd(cfg: Config, s: State, s1: State, s2: State, t: State, who: AccountId, pool: PoolId,
          native: Balance, stable: Balance)
    requires NativeClaimed(cfg, s, s1, who, s.now, native) && StableClaimed(cfg, s1, s2, who, pool, s.now, stable)
    requires Departed(cfg, s2, t, who, pool)
    ensures if HasStable(s, who, pool) then WithdrawLeaves(s.deposits, t.deposits, who, pool, s.now)
            else t.deposits == s.deposits
    ensures NativeLeaves(s.natives, t.natives, who, s.now, Principal(s, who, pool), HasStable(s, who, pool))
  {
    assert Principal(s2, who, pool) == Principal(s, who, pool);
  }

  /**
   A withdrawal in full: after the end of the pool, both rewards by the weights of that block and the principal
   are paid, the position and its amounts leave, and nothing else changes.
   */
  lemma WithdrawExactly(cfg: Config, s: State, origin: Origin, pool: PoolId,
          refused: Refused) returns (native: Balance, stable: Balance)
    requires Execute(cfg, s, CallWithdraw(origin, pool, refused)).Ok?
    ensures origin.Signed? && pool in s.settings
    ensures var p := s.settings[pool]; p.startTime + p.epochRange * p.epoch < s.now
    ensures Withdrawn(cfg, s, Apply(cfg, s, CallWithdraw(origin, pool, refused)), origin.who, pool, native, stable)
  {
    var who := origin.who;
    var s1 := DoNativeClaim(cfg, s, who, s.now, refused).value;
    native := NativeClaimExactly(cfg, s, who, s.now, refused);
    var s2 := DoStableClaim(cfg, s1, who, pool, s.now, refused).value;
    stable := StableClaimExactly(cfg, s1, who, pool, s.now, refused);
    DepartsExactly(cfg, s2, who, pool, refused);
    var t := Apply(cfg, s, CallWithdraw(origin, pool, refused));
    SharesAdd(cfg, s, s1, s2, t, who, pool, native, stable);
    PaymentsAdd(cfg, s, s1, s2, t, who, pool, native, stable);
    DeparturesAdd(cfg, s, s1, s2, t, who, pool, native, stable);
  }

  // Deposits

  /** A position an amount is added to at a block: new, or averaged with the floor losing less than a block. */
  ghost predicate AddedTo(before: Option<StakingInfo>, time: BlockNumber, added: Balance, after: StakingInfo) {
    match before
    case None => after == StakingInfo(time, added, time)
    case Some(p) =>
      && after.amount == p.amount + added && after.lastAddTime == Max(p.lastAddTime, time)
      && after.Moment() <= p.Moment() + time * added < after.Moment() + after.amount
  }

  lemma AddOrCreateAdds(before: Option<StakingInfo>, time: BlockNumber, added: Balance)
    requires AddOrCreate(before, time, added).Some?
    ensures AddedTo(before, time, added, AddOrCreate(before, time, added).value)
  {
    if before.Some? {
      AddKeepsMoment(before.value, time, added);
    }
  }

  /** An order goes in behind all that are not later. */
  ghost predicate GoesIn(q: seq<Order>, x: Order, r: seq<Order>) {
    exists i :: InsertedAt(q, x, r, i)
  }

  ghost predicate InsertedAt(q: seq<Order>, x: Order, r: seq<Order>, i: int) {
    && 0 <= i <= |q| && r == q[..i] + [x] + q[i..]
    && (forall j :: 0 <= j < i ==> q[j].info.effectiveTime <= x.info.effectiveTime)
    && (forall j :: i <= j < |q| ==> x.info.effectiveTime < q[j].info.effectiveTime)
  }

  lemma {:induction false} InsertGoesIn(q: seq<Order>, x: Order) returns (i: nat)
    requires Sorted(q)
    ensures InsertedAt(q, x, Insert(q, x), i)
    decreases |q|
  {
    i := |q|;
    if q != [] {
      SortedFront(q);
      if q[|q| - 1].Time() > x.Time() {
        var r, last := q[..|q| - 1], q[|q| - 1];
        i := InsertGoesIn(r, x);
        assert Insert(q, x) == r[..i] + [x] + r[i..] + [last];
        assert q[..i] == r[..i] && q[i..] == r[i..] + [last];
      }
    }
  }

  /** The least boundary of an epoch after the setup of a deposit made now, before the pool's end. */
  ghost predicate IsTarget(setting: PoolSetting, now: BlockNumber, target: BlockNumber) {
    && now + setting.setupTime < target < setting.startTime + setting.epochRange * setting.epoch
    && (exists k :: IsBoundary(setting, k, target))
    && (forall k, t :: IsBoundary(setting, k, t) && now + setting.setupTime < t ==> target <= t)
  }

  /** The deposit's order waits for its target, and its amount counts as queued for the pool. */
  ghost predicate Queues(d: Deposits, e: Deposits, who: AccountId, pool: PoolId, amount: Balance,
          target: BlockNumber) {
    && e.pools == d.pools && e.users == d.users
    && GoesIn(d.pending, Order(who, pool, StakingInfo(target, amount, target)), e.pending)
    && (forall p :: GetOrZero(e.pendingAmount, p) == GetOrZero(d.pendingAmount, p) + if p == pool then amount else 0)
  }

  /** It counts for native rewards from now on. */
  ghost predicate CountsFrom(b: Book<AccountId>, c: Book<AccountId>, who: AccountId, now: BlockNumber,
          amount: Balance) {
    && c.pool.Some? && AddedTo(b.pool, now, amount, c.pool.value)
    && who in c.users && AddedTo(Lookup(b.users, who), now, amount, c.users[who])
    && c.users == b.users[who := c.users[who]]
  }

  lemma EnqueueQueues(d: Deposits, who: AccountId, pool: PoolId, amount: Balance, target: BlockNumber)
    requires Sorted(d.pending) && Enqueue(d, NewOrder(who, pool, target, amount)).Ok?
    ensures Queues(d, Enqueue(d, NewOrder(who, pool, target, amount)).value, who, pool, amount, target)
  {
    var x := NewOrder(who, pool, target, amount);
    SortAfterPush(d.pending, x);
    var i := InsertGoesIn(d.pending, x);
  }

  lemma DepositCounts(b: Book<AccountId>, who: AccountId, now: BlockNumber, amount: Balance)
    requires Deposit(b, who, now, amount).Some?
    ensures CountsFrom(b, Deposit(b, who, now, amount).value, who, now, amount)
  {
    AddOrCreateAdds(b.pool, now, amount);
    AddOrCreateAdds(Lookup(b.users, who), now, amount);
  }

  lemma TargetIsTarget(setting: PoolSetting, now: BlockNumber)
    requires setting.startTime < now && TargetTime(setting, now).Ok?
    ensures IsTarget(setting, now, TargetTime(setting, now).value)
  {
    TargetIsLeastBoundary(setting, now);
  }

  /** A deposit in full: queued, counted and paid to the escrow; nothing else changes. */
  lemma StakeExactly(cfg: Config, s: State, origin: Origin, pool: PoolId, amount: Balance,
          refused: Refused) returns (target: BlockNumber)
    requires Sorted(s.deposits.pending) && Execute(cfg, s, CallStake(origin, pool, amount, refused)).Ok?
    ensures origin.Signed? && pool in s.settings && s.settings[pool].startTime < s.now
    ensures IsTarget(s.settings[pool], s.now, target) && s.tokens.aiusd.Some?
    ensures var t := Apply(cfg, s, CallStake(origin, pool, amount, refused));
            && Queues(s.deposits, t.deposits, origin.who, pool, amount, target)
            && CountsFrom(s.natives, t.natives, origin.who, s.now, amount)
            && AssetMoves(s.tokens, t.tokens, s.tokens.aiusd.value, origin.who, cfg.escrow, amount)
            && t == s.(deposits := t.deposits, natives := t.natives, tokens := t.tokens,
                       events := s.events + [Staked(origin.who, pool, target, amount)])
  {
    StakeParts(cfg, s, origin, pool, amount, refused);
    target := OrderOf(s, origin.who, pool, amount).Time();
    TargetIsTarget(s.settings[pool], s.now);
    EnqueueQueues(s.deposits, origin.who, pool, amount, target);
    DepositCounts(s.natives, origin.who, s.now, amount);
    TransferMoves(s.tokens, s.tokens.aiusd.value, origin.who, cfg.escrow, amount, refused);
  }

  // Settling

  /** A settled order is added at its block to its pool and to its user's position, and no longer counts as queued. */
  lemma SolveOneAdds(d: Deposits, x: Order, n: BlockNumber)
    requires SolveOne(d, x, n).failure.None?
    ensures var t := SolveOne(d, x, n).deposits;
            && x.pool in t.pools && AddedTo(Lookup(d.pools, x.pool), n, x.info.amount, t.pools[x.pool])
            && (x.who, x.pool) in t.users
            && AddedTo(Lookup(d.users, (x.who, x.pool)), n, x.info.amount, t.users[(x.who, x.pool)])
            && t == d.(pools := d.pools[x.pool := t.pools[x.pool]],
                       users := d.users[(x.who, x.pool) := t.users[(x.who, x.pool)]],
                       pendingAmount := t.pendingAmount)
            && forall p :: GetOrZero(t.pendingAmount, p)
                 == GetOrZero(d.pendingAmount, p) - if p == x.pool then x.info.amount else 0
    ensures SolveOne(d, x, n).events == [PendingStakingSolved(x.who, x.pool, n, x.info.amount)]
  {
    SolveOneExact(d, x, n);
    AddOrCreateAdds(Lookup(d.pools, x.pool), n, x.info.amount);
    AddOrCreateAdds(Lookup(d.users, (x.who, x.pool)), n, x.info.amount);
  }

  /** A block moves the clock by one and touches nothing but the deposits that are due and the log. */
  lemma NextBlockTouches(cfg: Config, s: State)
    ensures var t := Apply(cfg, s, NextBlock);
            if s.now + 1 < U32_LIMIT then
              && t == s.(now := s.now + 1, deposits := t.deposits, events := t.events)
              && (Unripe(s.deposits.pending, s.now + 1) == s.deposits.pending ==>
                    t == s.(now := s.now + 1))
            else t == s
  {
    if s.deposits.pending != [] && s.deposits.pending[0].Time() <= s.now + 1 {
      UnripeShorter(s.deposits.pending, s.now + 1);
    }
  }

  lemma UnripeShorter(q: seq<Order>, n: int)
    requires q != [] && q[0].Time() <= n
    ensures |Unripe(q, n)| < |q|
  {
    UnripeWithin(q[1..], n);
  }

  lemma {:induction false} UnripeWithin(q: seq<Order>, n: int)
    ensures |Unripe(q, n)| <= |q|
  {
    if q != [] {
      UnripeWithin(q[1..], n);
    }
  }

  // The committee

  /** What the committee's calls ask: a pool that has not begun under a new name, and a reward as below. */
  ghost predicate Permitted(cfg: Config, s: State, a: Action)
    requires a.CallCreate? || a.CallReward? || a.CallRegist?
  {
    && a.origin.Root?
    && match a
       case CallCreate(_, pool, setting) => s.now <= setting.startTime && pool !in s.settings
       case CallReward(_, pool, epoch, reward, refuses) =>
         && pool in s.settings && s.settings[pool].epochRange > 0
         && RewardsEpoch(s.settings[pool], s.now, epoch)
         && (pool, epoch) !in s.rewards.perEpoch
         && s.tokens.aiusd.Some? && !refuses
         && GetOrZero(s.tokens.assets, (s.tokens.aiusd.value, cfg.escrow)) + reward < U128_LIMIT
         && GetOrZero(s.rewards.unclaimed, pool) + reward < U128_LIMIT
       case CallRegist(_, _) => true
  }

  /** An epoch that is not over, or the end of the pool whenever it was. */
  ghost predicate RewardsEpoch(setting: PoolSetting, now: BlockNumber, epoch: u128) {
    || epoch == setting.epoch
    || (epoch < setting.epoch && now < setting.startTime + setting.epochRange * (epoch + 1))
  }

  /** What they leave behind. */
  ghost predicate Enacted(cfg: Config, s: State, a: Action, t: State)
    requires a.CallCreate? || a.CallReward? || a.CallRegist?
  {
    match a
    case CallCreate(_, pool, setting) =>
      t == s.(settings := s.settings[pool := setting], events := s.events + [StakingPoolCreated(pool, setting)])
    case CallReward(_, pool, epoch, reward, _) =>
      && t == s.(rewards := t.rewards, tokens := t.tokens, events := s.events + [RewardUpdated(pool, epoch, reward)])
      && t.rewards.perEpoch == s.rewards.perEpoch[(pool, epoch) := reward]
      && LessUnclaimed(t.rewards.(perEpoch := map[]), s.rewards.(perEpoch := map[]), pool, reward)
      && t.tokens == s.tokens.(assets := t.tokens.assets) && s.tokens.aiusd.Some?
      && forall k :: GetOrZero(t.tokens.assets, k) == GetOrZero(s.tokens.assets, k)
                       + if k == (s.tokens.aiusd.value, cfg.escrow) then reward else 0
    case CallRegist(_, asset) =>
      t == s.(tokens := s.tokens.(aiusd := Some(asset)), events := s.events + [AiusdRegistered(asset)])
  }

  /** Each call of the committee is accepted exactly as it asks and does exactly that, or changes nothing. */
  lemma CommitteeEnacts(cfg: Config, s: State, a: Action)
    requires a.CallCreate? || a.CallReward? || a.CallRegist?
    ensures Execute(cfg, s, a).Ok? <==> Permitted(cfg, s, a)
    ensures if Permitted(cfg, s, a) then Enacted(cfg, s, a, Apply(cfg, s, a)) else Apply(cfg, s, a) == s
  {
    if a.CallReward? && a.pool in s.settings && s.settings[a.pool].epochRange > 0
        && a.epoch < s.settings[a.pool].epoch {
      IndexAtMostIff(s.settings[a.pool], a.epoch, s.now);
    }
  }
}
