/**
 The invariants of the staking pallet beyond its amounts, one part of the storage at a time:
 timeliness of the queue, the event log as history, backing by the escrow account, and rewards.
 */
module StakingInvariants {
  import opened Base
  import opened Sums
  import opened Epochs
  import opened Queue
  import opened Drift
  import opened Ledger
  import opened StakingState
  import opened StakingBooks
  import opened StakingSteps

  /** An order fit to wait at `now`. */
  ghost predicate Waits(now: int, settings: map<PoolId, PoolSetting>, x: Order) {
    && x == NewOrder(x.who, x.pool, x.Time(), x.info.amount)
    && now < x.Time()
    && x.pool in settings && settings[x.pool].EndTime().Some?
    && x.Time() < settings[x.pool].EndTime().value
  }

  /** Every waiting order is for a later block, strictly before the end of its pool. */
  ghost predicate Timely(now: BlockNumber, settings: map<PoolId, PoolSetting>, pending: seq<Order>) {
    && Sorted(pending)
    && forall x :: x in pending ==> Waits(now, settings, x)
  }

  /** The orders the log says were accepted, in the order of acceptance. */
  ghost function Accepted(events: seq<Event>): seq<Order> {
    if events == [] then [] else
    var e := events[|events| - 1];
    var earlier := Accepted(events[..|events| - 1]);
    if e.Staked? then earlier + [NewOrder(e.who, e.pool, e.time, e.amount)] else earlier
  }

  /** The orders the log says were settled, each at the time it was recorded with. */
  ghost function Solved(events: seq<Event>): seq<Order> {
    if events == [] then [] else
    var e := events[|events| - 1];
    var earlier := Solved(events[..|events| - 1]);
    if e.PendingStakingSolved? then earlier + [NewOrder(e.who, e.pool, e.time, e.amount)] else earlier
  }

  /**
   The whole history of the queue: settled orders followed by waiting ones are the accepted ones,
   stably sorted by target time.  So no order is lost, repeated, overtaken or settled off time.
   */
  ghost predicate History(now: BlockNumber, pending: seq<Order>, events: seq<Event>) {
    && Solved(events) + pending == SortByTime(Accepted(events))
    && forall x :: x in Solved(events) ==> x.Time() <= now
  }

  lemma LogAppend(events: seq<Event>, e: Event)
    ensures Accepted(events + [e]) ==
              if e.Staked? then Accepted(events) + [NewOrder(e.who, e.pool, e.time, e.amount)] else Accepted(events)
    ensures Solved(events + [e]) ==
              if e.PendingStakingSolved? then Solved(events) + [NewOrder(e.who, e.pool, e.time, e.amount)]
                  else Solved(events)
  {
    assert (events + [e])[..|events|] == events;
  }

  lemma {:induction false} LogSolved(events: seq<Event>, q: seq<Order>, n: BlockNumber)
    requires forall x :: x in q ==> x == NewOrder(x.who, x.pool, n, x.info.amount)
    ensures Accepted(events + SolvedEvents(q, n)) == Accepted(events)
    ensures Solved(events + SolvedEvents(q, n)) == Solved(events) + q
    decreases |q|
  {
    if q == [] {
      assert events + SolvedEvents(q, n) == events;
    } else {
      var x := q[0];
      assert x in q;
      var more := events + [SolvedEvent(x, n)];
      LogAppend(events, SolvedEvent(x, n));
      LogOneSolved(events, q, n);
      LogSolved(more, q[1..], n);
      HeadFirst(Solved(events), q);
    }
  }

  lemma HeadFirst(done: seq<Order>, q: seq<Order>)
    requires q != []
    ensures done + q == done + [q[0]] + q[1..]
  {
  }

  lemma TimelyStake(now: BlockNumber, settings: map<PoolId, PoolSetting>, pending: seq<Order>, x: Order)
    requires Timely(now, settings, pending) && Waits(now, settings, x)
    ensures Timely(now, settings, SortByTime(pending + [x]))
  {
    SortAfterPush(pending, x);
    InsertSorted(pending, x);
  }

  lemma HistoryStake(now: BlockNumber, pending: seq<Order>, events: seq<Event>, x: Order)
    requires Sorted(pending) && History(now, pending, events)
    requires x == NewOrder(x.who, x.pool, x.Time(), x.info.amount) && now < x.Time()
    ensures History(now, SortByTime(pending + [x]), events + [Staked(x.who, x.pool, x.Time(), x.info.amount)])
  {
    var done, all := Solved(events), Accepted(events);
    LogAppend(events, Staked(x.who, x.pool, x.Time(), x.info.amount));
    assert SortByTime(all + [x]) == done + SortByTime(pending + [x]) by {
      SortAfterPush(all, x);
      SortAfterPush(pending, x);
      InsertBehind(done, pending, x);
    }
  }

  lemma HistoryQuiet(now: BlockNumber, pending: seq<Order>, events: seq<Event>, e: Event)
    requires History(now, pending, events) && !e.Staked? && !e.PendingStakingSolved?
    ensures History(now, pending, events + [e])
  {
    LogAppend(events, e);
  }

  lemma TimelyTick(settings: map<PoolId, PoolSetting>, q: seq<Order>, n: BlockNumber)
    requires 0 < n && Timely(n - 1, settings, q)
    ensures Timely(n, settings, q[RipeCount(q, n)..])
    ensures forall x :: x in q[..RipeCount(q, n)] ==> x == NewOrder(x.who, x.pool, n, x.info.amount)
  {
    RipeAreFirst(q, n);
    var k := RipeCount(q, n);
    forall x | x in q[..k] ensures x == NewOrder(x.who, x.pool, n, x.info.amount) {
      assert x in q && Waits(n - 1, settings, x);
    }
    forall x | x in q[k..] ensures Waits(n, settings, x) {
      assert x in q && Waits(n - 1, settings, x);
    }
    LaterSorted(q, k);
  }

  lemma LaterSorted(q: seq<Order>, k: nat)
    requires Sorted(q) && k <= |q|
    ensures Sorted(q[k..])
  {
  }

  lemma HistoryTick(q: seq<Order>, k: nat, events: seq<Event>, n: BlockNumber)
    requires 0 < n && History(n - 1, q, events) && k <= |q|
    requires forall x :: x in q[..k] ==> x == NewOrder(x.who, x.pool, n, x.info.amount)
    ensures History(n, q[k..], events + SolvedEvents(q[..k], n))
  {
    LogSolved(events, q[..k], n);
    assert q == q[..k] + q[k..];
    assert Solved(events) + q == Solved(events) + q[..k] + q[k..];
    forall x | x in Solved(events) + q[..k] ensures x.Time() <= n {
    }
  }

  /** A hook that succeeds at the next block settles exactly the orders due then, on their target block. */
  lemma QueueTick(settings: map<PoolId, PoolSetting>, d: Deposits, events: seq<Event>, n: BlockNumber)
    requires 0 < n && Timely(n - 1, settings, d.pending) && History(n - 1, d.pending, events)
    requires SolvePending(d, n).failure.None?
    ensures var t := SolvePending(d, n);
            && Timely(n, settings, t.deposits.pending)
            && History(n, t.deposits.pending, events + t.events)
            && t.deposits.pending == Unripe(d.pending, n)
  {
    SolveLoopSettlesRipe(d.(pending := []), d.pending, n);
    SolvePendingFilters(d, n);
    TimelyTick(settings, d.pending, n);
    HistoryTick(d.pending, RipeCount(d.pending, n), events, n);
  }

  /** Kinds of events that carry an amount of a user's deposits. */
  datatype Kind = Contributions | Withdrawals | Payouts

  ghost function Counted(e: Event, kind: Kind, sel: Selection): int {
    match e
    case Staked(who, pool, _, v) => if kind.Contributions? && sel.Has(who, pool) then v else 0
    case Withdraw(who, pool, _, v) => if kind.Withdrawals? && sel.Has(who, pool) then v else 0
    case StableRewardClaimed(who, pool, _, v) => if kind.Payouts? && sel.Has(who, pool) then v else 0
    case _ => 0
  }

  /** The total the log records of one kind for the selected users and pools. */
  ghost function Tally(events: seq<Event>, kind: Kind, sel: Selection): int {
    if events == [] then 0
    else Tally(events[..|events| - 1], kind, sel) + Counted(events[|events| - 1], kind, sel)
  }

  lemma TallyAppend(events: seq<Event>, e: Event, kind: Kind, sel: Selection)
    ensures Tally(events + [e], kind, sel) == Tally(events, kind, sel) + Counted(e, kind, sel)
  {
    assert (events + [e])[..|events|] == events;
  }

  lemma {:induction false} TallySolved(events: seq<Event>, q: seq<Order>, n: BlockNumber, kind: Kind, sel: Selection)
    ensures Tally(events + SolvedEvents(q, n), kind, sel) == Tally(events, kind, sel)
    decreases |q|
  {
    if q == [] {
      assert events + SolvedEvents(q, n) == events;
    } else {
      var e := SolvedEvent(q[0], n);
      TallyAppend(events, e, kind, sel);
      LogOneSolved(events, q, n);
      TallySolved(events + [e], q[1..], n, kind, sel);
    }
  }

  /** For any selection, everything ever staked is settled, waiting, or withdrawn. */
  ghost predicate PrincipalFor(b: Books, events: seq<Event>, sel: Selection) {
    Tally(events, Contributions, sel) == Held(b.users, sel) + Queued(b.pending, sel) + Tally(events, Withdrawals, sel)
  }

  ghost predicate PrincipalKept(b: Books, events: seq<Event>) {
    forall sel :: PrincipalFor(b, events, sel)
  }

  lemma PrincipalStake(b: Books, events: seq<Event>, x: Order)
    requires PrincipalKept(b, events)
    ensures PrincipalKept(BooksStake(b, x), events + [Staked(x.who, x.pool, x.Time(), x.info.amount)])
  {
    var e := Staked(x.who, x.pool, x.Time(), x.info.amount);
    forall sel ensures PrincipalFor(BooksStake(b, x), events + [e], sel) {
      assert PrincipalFor(b, events, sel);
      TallyAppend(events, e, Contributions, sel);
      TallyAppend(events, e, Withdrawals, sel);
      QueuedPush(b.pending, x, sel);
    }
  }

  lemma PrincipalSolve(b: Books, events: seq<Event>)
    requires PrincipalKept(b, events) && b.pending != []
    ensures PrincipalKept(BooksSolve(b), events)
  {
    var x := b.pending[0];
    forall sel ensures PrincipalFor(BooksSolve(b), events, sel) {
      assert PrincipalFor(b, events, sel);
      HeldPut(b.users, (x.who, x.pool), BooksSolve(b).users[(x.who, x.pool)], sel);
    }
  }

  lemma PrincipalWithdraw(b: Books, events: seq<Event>, who: AccountId, pool: PoolId, time: BlockNumber, v: Balance)
    requires PrincipalKept(b, events) && (who, pool) in b.users && b.users[(who, pool)] == v
    ensures PrincipalKept(BooksWithdraw(b, who, pool), events + [Event.Withdraw(who, pool, time, v)])
  {
    var e := Event.Withdraw(who, pool, time, v);
    forall sel ensures PrincipalFor(BooksWithdraw(b, who, pool), events + [e], sel) {
      assert PrincipalFor(b, events, sel);
      TallyAppend(events, e, Contributions, sel);
      TallyAppend(events, e, Withdrawals, sel);
      HeldDrop(b.users, (who, pool), sel);
    }
  }

  lemma PrincipalQuiet(b: Books, events: seq<Event>, e: Event)
    requires PrincipalKept(b, events) && !e.Staked? && !e.Withdraw?
    ensures PrincipalKept(b, events + [e])
  {
    forall sel ensures PrincipalFor(b, events + [e], sel) {
      assert PrincipalFor(b, events, sel);
      TallyAppend(events, e, Contributions, sel);
      TallyAppend(events, e, Withdrawals, sel);
    }
  }

  lemma {:induction false} PrincipalSolveLoop(settings: map<PoolId, PoolSetting>, d: Deposits,
          natives: Book<AccountId>, q: seq<Order>, n: BlockNumber, events: seq<Event>)
    requires d.pending == [] && SolveLoop(d, q, n).failure.None?
    requires PrincipalKept(BooksOf(settings, d.(pending := q), natives), events)
    ensures PrincipalKept(BooksOf(settings, SolveLoop(d, q, n).deposits, natives), events)
    decreases |q|
  {
    if q != [] && q[0].Time() <= n {
      SolveOneOnBooks(settings, d, natives, q, n);
      PrincipalSolve(BooksOf(settings, d.(pending := q), natives), events);
      PrincipalSolveLoop(settings, SolveOne(d, q[0], n).deposits, natives, q[1..], n, events);
    }
  }

  lemma PrincipalLogSolved(b: Books, events: seq<Event>, q: seq<Order>, n: BlockNumber)
    requires PrincipalKept(b, events)
    ensures PrincipalKept(b, events + SolvedEvents(q, n))
  {
    forall sel ensures PrincipalFor(b, events + SolvedEvents(q, n), sel) {
      assert PrincipalFor(b, events, sel);
      TallySolved(events, q, n, Contributions, sel);
      TallySolved(events, q, n, Withdrawals, sel);
    }
  }

  /** A withdrawal is final: its pool has ended, and the user has nothing left in or queued for it. */
  ghost predicate FinalFor(now: BlockNumber, settings: map<PoolId, PoolSetting>, d: Deposits, who: AccountId,
          pool: PoolId) {
    && pool in settings && settings[pool].EndTime().Some? && settings[pool].EndTime().value < now
    && (who, pool) !in d.users
    && forall x :: x in d.pending ==> x.pool != pool
  }

  ghost predicate WithdrawalsFinal(now: BlockNumber, settings: map<PoolId, PoolSetting>, d: Deposits,
          events: seq<Event>) {
    forall e :: e in events && e.Withdraw? ==> FinalFor(now, settings, d, e.who, e.pool)
  }

  lemma {:induction false} NoWithdrawalNoTally(events: seq<Event>, who: AccountId, pool: PoolId)
    requires forall e :: e in events && e.Withdraw? ==> !(e.who == who && e.pool == pool)
    ensures Tally(events, Withdrawals, OfBoth(who, pool)) == 0
  {
    if events != [] {
      var e := events[|events| - 1];
      assert e in events;
      NoWithdrawalNoTally(events[..|events| - 1], who, pool);
    }
  }

  /** The rewards recorded for a pool's epochs. */
  ghost function PoolEpochs(perEpoch: map<(PoolId, u128), Balance>, pool: PoolId): map<(PoolId, u128), int> {
    map k | k in perEpoch && k.0 == pool :: perEpoch[k]
  }

  /** Per pool, the rewards recorded for its epochs are what is unclaimed plus what was paid out. */
  ghost predicate RewardsFor(r: Rewards, events: seq<Event>, pool: PoolId) {
    Total(PoolEpochs(r.perEpoch, pool)) == GetOrZero(r.unclaimed, pool) + Tally(events, Payouts, OfPool(pool))
  }

  ghost predicate RewardsRecorded(r: Rewards, events: seq<Event>) {
    forall pool :: RewardsFor(r, events, pool)
  }

  lemma RewardsQuiet(r: Rewards, events: seq<Event>, e: Event)
    requires RewardsRecorded(r, events) && !e.StableRewardClaimed?
    ensures RewardsRecorded(r, events + [e])
  {
    forall p ensures RewardsFor(r, events + [e], p) {
      assert RewardsFor(r, events, p);
      TallyAppend(events, e, Payouts, OfPool(p));
    }
  }

  lemma RewardsAdd(r: Rewards, events: seq<Event>, pool: PoolId, epoch: u128, reward: Balance)
    requires RewardsRecorded(r, events) && RecordReward(r, pool, epoch, reward).Ok?
    ensures RewardsRecorded(RecordReward(r, pool, epoch, reward).value, events + [RewardUpdated(pool, epoch, reward)])
  {
    var e := RewardUpdated(pool, epoch, reward);
    var t := RecordReward(r, pool, epoch, reward).value;
    forall p ensures RewardsFor(t, events + [e], p) {
      assert RewardsFor(r, events, p);
      TallyAppend(events, e, Payouts, OfPool(p));
      if p == pool {
        assert PoolEpochs(t.perEpoch, p) == PoolEpochs(r.perEpoch, p)[(pool, epoch) := reward];
        TotalPut(PoolEpochs(r.perEpoch, p), (pool, epoch), reward);
      } else {
        assert PoolEpochs(t.perEpoch, p) == PoolEpochs(r.perEpoch, p);
      }
    }
  }

  lemma RewardsPay(r: Rewards, events: seq<Event>, who: AccountId, pool: PoolId, until: BlockNumber, reward: Balance)
    requires RewardsRecorded(r, events) && reward <= GetOrZero(r.unclaimed, pool)
    ensures RewardsRecorded(r.(unclaimed := r.unclaimed[pool := GetOrZero(r.unclaimed, pool) - reward]),
                            events + [StableRewardClaimed(who, pool, until, reward)])
  {
    var e := StableRewardClaimed(who, pool, until, reward);
    var t := r.(unclaimed := r.unclaimed[pool := GetOrZero(r.unclaimed, pool) - reward]);
    forall p ensures RewardsFor(t, events + [e], p) {
      assert RewardsFor(r, events, p);
      TallyAppend(events, e, Payouts, OfPool(p));
    }
  }

  lemma RewardsLogSolved(r: Rewards, events: seq<Event>, q: seq<Order>, n: BlockNumber)
    requires RewardsRecorded(r, events)
    ensures RewardsRecorded(r, events + SolvedEvents(q, n))
  {
    forall p ensures RewardsFor(r, events + SolvedEvents(q, n), p) {
      assert RewardsFor(r, events, p);
      TallySolved(events, q, n, Payouts, OfPool(p));
    }
  }

  ghost function EscrowBalance(cfg: Config, asset: AssetId, t: Tokens): int {
    GetOrZero(t.assets, (asset, cfg.escrow))
  }

  /** The escrow holds, beyond what it started with, every deposit and every unclaimed reward. */
  ghost predicate Backed(cfg: Config, asset: AssetId, start: int, t: Tokens, staked: int,
          unclaimed: map<PoolId, Balance>) {
    && (t.aiusd.Some? ==> t.aiusd.value == asset)
    && EscrowBalance(cfg, asset, t) == start + staked + Total(Integers(unclaimed))
  }

  lemma BackedIn(cfg: Config, asset: AssetId, start: int, t: Tokens, staked: int, unclaimed: map<PoolId, Balance>,
          who: AccountId, amount: Balance, refused: Refused)
    requires Backed(cfg, asset, start, t, staked, unclaimed) && t.aiusd.Some? && who != cfg.escrow
    requires Transfer(t, t.aiusd.value, who, cfg.escrow, amount, refused).Ok?
    ensures Backed(cfg, asset, start, Transfer(t, t.aiusd.value, who, cfg.escrow, amount, refused).value,
          staked + amount, unclaimed)
  {
  }

  lemma BackedOut(cfg: Config, asset: AssetId, start: int, t: Tokens, staked: int, unclaimed: map<PoolId, Balance>,
          who: AccountId, amount: Balance, refused: Refused)
    requires Backed(cfg, asset, start, t, staked, unclaimed) && t.aiusd.Some? && who != cfg.escrow
    requires Transfer(t, t.aiusd.value, cfg.escrow, who, amount, refused).Ok?
    ensures Backed(cfg, asset, start, Transfer(t, t.aiusd.value, cfg.escrow, who, amount, refused).value,
          staked - amount, unclaimed)
  {
  }

  lemma BackedPayout(cfg: Config, asset: AssetId, start: int, t: Tokens, staked: int,
          unclaimed: map<PoolId, Balance>, who: AccountId, pool: PoolId, amount: Balance, refused: Refused)
    requires Backed(cfg, asset, start, t, staked, unclaimed) && t.aiusd.Some? && who != cfg.escrow
    requires amount <= GetOrZero(unclaimed, pool)
    requires Transfer(t, t.aiusd.value, cfg.escrow, who, amount, refused).Ok?
    ensures Backed(cfg, asset, start, Transfer(t, t.aiusd.value, cfg.escrow, who, amount, refused).value, staked,
                   unclaimed[pool := GetOrZero(unclaimed, pool) - amount])
  {
    BackedOut(cfg, asset, start, t, staked, unclaimed, who, amount, refused);
    IntegersPut(unclaimed, pool, GetOrZero(unclaimed, pool) - amount);
    TotalPut(Integers(unclaimed), pool, GetOrZero(unclaimed, pool) - amount);
  }

  lemma BackedReward(cfg: Config, asset: AssetId, start: int, t: Tokens, staked: int, r: Rewards, pool: PoolId,
          epoch: u128, reward: Balance)
    requires Backed(cfg, asset, start, t, staked, r.unclaimed) && t.aiusd.Some?
    requires Credit(t.assets, (t.aiusd.value, cfg.escrow), reward).Some? && RecordReward(r, pool, epoch, reward).Ok?
    ensures Backed(cfg, asset, start, t.(assets := Credit(t.assets, (t.aiusd.value, cfg.escrow), reward).value), staked,
                   RecordReward(r, pool, epoch, reward).value.unclaimed)
  {
    IntegersPut(r.unclaimed, pool, GetOrZero(r.unclaimed, pool) + reward);
    TotalPut(Integers(r.unclaimed), pool, GetOrZero(r.unclaimed, pool) + reward);
  }
}
