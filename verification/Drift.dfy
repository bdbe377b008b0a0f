/**
 How far a synthetic checkpoint strays from the positions it stands for.  A `Book` is one
 synthetic position beside the positions of its holders; it serves a staking pool and, with
 accounts as keys, the global native checkpoint.
 */
module Drift {
  import opened Base
  import opened Sums
  import opened StakingInfos

  datatype Book<!K> = Book(pool: Option<StakingInfo>, users: map<K, StakingInfo>)

  /** A deposit: the same add on the pool and on its holder. */
  function Deposit<K>(b: Book<K>, k: K, time: BlockNumber, added: Balance): Option<Book<K>> {
    var pool := AddOrCreate(b.pool, time, added);
    var user := AddOrCreate(Lookup(b.users, k), time, added);
    if pool.None? || user.None? then None
    else Some(Book(pool, b.users[k := user.value]))
  }

  /** A claim consumes the holder's weight and as much of the pool's. */
  function Claim<K>(b: Book<K>, k: K, until: BlockNumber): Option<Book<K>> {
    if b.pool.None? || k !in b.users then Some(b) else
    var share := TakeShare(b.pool.value, b.users[k], until);
    if share.None? then None
    else Some(Book(Some(share.value.pool), b.users[k := share.value.user]))
  }

  /** A withdrawal takes an amount out of the holder's position and the pool's and leaves both times alone. */
  function Leave<K>(b: Book<K>, k: K, v: Balance): Option<Book<K>> {
    if b.pool.None? || k !in b.users then Some(b) else
    var pool := b.pool.value.Withdrawn(v);
    if pool.None? then None
    else if b.users[k].amount == v then Some(Book(pool, b.users - {k}))
    else if b.users[k].Withdrawn(v).None? then None
    else Some(Book(pool, b.users[k := b.users[k].Withdrawn(v).value]))
  }

  ghost function Amounts<K>(users: map<K, StakingInfo>): map<K, int> {
    map k | k in users :: users[k].amount
  }

  lemma AmountsPut<K>(users: map<K, StakingInfo>, k: K, p: StakingInfo)
    ensures Amounts(users[k := p]) == Amounts(users)[k := p.amount]
  {
  }

  lemma AmountsDrop<K>(users: map<K, StakingInfo>, k: K)
    ensures Amounts(users - {k}) == Amounts(users) - {k}
  {
  }

  ghost function Moments<K>(users: map<K, StakingInfo>): map<K, int> {
    map k | k in users :: users[k].Moment()
  }

  /** The weight of a position at `n` as an integer, negative before its effective time. */
  ghost function SignedWeight(p: StakingInfo, n: int): int { (n - p.effectiveTime) * p.amount }

  ghost function SignedWeights<K>(users: map<K, StakingInfo>, n: int): map<K, int> {
    map k | k in users :: SignedWeight(users[k], n)
  }

  ghost function PoolAmount<K>(b: Book<K>): int {
    if b.pool.None? then 0 else b.pool.value.amount
  }

  ghost function PoolMoment<K>(b: Book<K>): int {
    if b.pool.None? then 0 else b.pool.value.Moment()
  }

  /** The pool's amount is the sum of its holders' amounts. */
  ghost predicate Balanced<K>(b: Book<K>) {
    && PoolAmount(b) == Total(Amounts(b.users))
    && (b.pool.None? ==> b.users == map[])
  }

  /** The pool's moment less the sum of its holders' moments. */
  ghost function Gap<K>(b: Book<K>): int {
    PoolMoment(b) - Total(Moments(b.users))
  }

  /** After `steps` deposits and claims the moments differ by at most `steps` times the pool amount. */
  ghost predicate WithinDrift<K>(b: Book<K>, steps: nat) {
    && Balanced(b)
    && -(steps * PoolAmount(b)) <= Gap(b) <= steps * PoolAmount(b)
  }

  /** The pool never counts later than its holders: its weight covers theirs. */
  ghost predicate OneSided<K>(b: Book<K>) {
    Balanced(b) && Gap(b) <= 0
  }

  lemma UserCovered<K>(b: Book<K>, k: K)
    requires Balanced(b) && k in b.users
    ensures b.pool.Some? && b.users[k].amount <= b.pool.value.amount
  {
    TotalCovers(Amounts(b.users), k);
  }

  lemma PutUser<K>(users: map<K, StakingInfo>, k: K, p: StakingInfo)
    ensures Total(Amounts(users[k := p])) == Total(Amounts(users)) - (if k in users then users[k].amount else 0)
          + p.amount
    ensures Total(Moments(users[k := p])) == Total(Moments(users)) - (if k in users then users[k].Moment() else 0)
          + p.Moment()
  {
    AmountsPut(users, k, p);
    assert Moments(users[k := p]) == Moments(users)[k := p.Moment()];
    TotalPut(Amounts(users), k, p.amount);
    TotalPut(Moments(users), k, p.Moment());
  }

  /** What an add loses to flooring; nothing when it creates the position. */
  ghost function Floored(position: Option<StakingInfo>, time: BlockNumber, added: Balance): int {
    match position
    case None => 0
    case Some(p) => if p.amount + added == 0 then 0 else (p.Moment() + time * added) % (p.amount + added)
  }

  lemma AddOrCreateExact(position: Option<StakingInfo>, time: BlockNumber, added: Balance)
    requires AddOrCreate(position, time, added).Some?
    ensures var q := AddOrCreate(position, time, added).value;
            && q.amount == (if position.None? then 0 else position.value.amount) + added
            && q.Moment() == (if position.None? then 0 else position.value.Moment()) + time * added
                 - Floored(position, time, added)
            && 0 <= Floored(position, time, added) <= q.amount
  {
    if position.Some? {
      var p := position.value;
      AddSucceedsIff(p, time, added);
      MulBounds(0, p.effectiveTime, p.amount);
      MulBounds(0, time, added);
      DivBounds(p.Moment() + time * added, p.amount + added);
    }
  }

  lemma AddOrCreateAmount(position: Option<StakingInfo>, time: BlockNumber, added: Balance)
    requires AddOrCreate(position, time, added).Some?
    ensures AddOrCreate(position, time, added).value.amount
          == (if position.None? then 0 else position.value.amount) + added
  {
  }

  /** A deposit keeps the amounts balanced and changes the gap by exactly the two floors. */
  lemma DepositGap<K>(b: Book<K>, k: K, time: BlockNumber, added: Balance)
    requires Balanced(b) && Deposit(b, k, time, added).Some?
    ensures var c := Deposit(b, k, time, added).value;
            && Balanced(c)
            && PoolAmount(c) == PoolAmount(b) + added
            && Gap(c) == Gap(b) - Floored(b.pool, time, added) + Floored(Lookup(b.users, k), time, added)
            && 0 <= Floored(b.pool, time, added) <= PoolAmount(c)
            && 0 <= Floored(Lookup(b.users, k), time, added) <= PoolAmount(c)
  {
    var c := Deposit(b, k, time, added).value;
    AddOrCreateExact(b.pool, time, added);
    AddOrCreateExact(Lookup(b.users, k), time, added);
    PutUser(b.users, k, c.users[k]);
    if b.users == map[] {
      assert Amounts(b.users) == map[] && Moments(b.users) == map[];
    }
    UserCovered(c, k);
  }

  /** A claim keeps the amounts and lowers the gap by the part of the weight the pool cannot express. */
  lemma ClaimGap<K>(b: Book<K>, k: K, until: BlockNumber)
    requires Balanced(b) && Claim(b, k, until).Some?
    ensures var c := Claim(b, k, until).value;
            && Balanced(c) && PoolAmount(c) == PoolAmount(b)
            && Gap(b) - PoolAmount(b) <= Gap(c) <= Gap(b)
            && (b.pool.Some? && k in b.users ==>
                  Gap(c) == Gap(b) - b.users[k].Weight(until).value % PoolAmount(b))
  {
    if b.pool.Some? && k in b.users {
      var c := Claim(b, k, until).value;
      var p, u := b.pool.value, b.users[k];
      var w := u.Weight(until).value;
      UserCovered(b, k);
      ClaimConsumesWeight(u, until);
      MulBounds(until - u.effectiveTime, U32_LIMIT - 1, u.amount);
      MulBounds(u.amount, p.amount, U32_LIMIT - 1);
      WeightNeverWraps(p, w);
      ClaimByWeightMovesMoment(p, w);
      DivBounds(w, p.amount);
      PutUser(b.users, k, c.users[k]);
    } else {
      TotalNonNegative(Amounts(b.users));
    }
  }

  lemma StepsTimes(steps: nat, a: int, b: int)
    requires 0 <= a <= b
    ensures 0 <= steps * a <= steps * b
    ensures (steps + 1) * b == steps * b + b
  {
  }

  /** One more deposit costs at most one more pool amount of drift. */
  lemma DepositDrift<K>(b: Book<K>, k: K, time: BlockNumber, added: Balance, steps: nat)
    requires WithinDrift(b, steps) && Deposit(b, k, time, added).Some?
    ensures WithinDrift(Deposit(b, k, time, added).value, steps + 1)
  {
    DepositGap(b, k, time, added);
    TotalNonNegative(Amounts(b.users));
    StepsTimes(steps, PoolAmount(b), PoolAmount(b) + added);
  }

  /** One more claim costs at most one more pool amount of drift. */
  lemma ClaimDrift<K>(b: Book<K>, k: K, until: BlockNumber, steps: nat)
    requires WithinDrift(b, steps) && Claim(b, k, until).Some?
    ensures WithinDrift(Claim(b, k, until).value, steps + 1)
  {
    ClaimGap(b, k, until);
    TotalNonNegative(Amounts(b.users));
    StepsTimes(steps, PoolAmount(b), PoolAmount(b));
  }

  /** At every block the pool's weight is the holders' weight less the gap of the moments. */
  lemma WeightGap<K>(b: Book<K>, n: int)
    requires Balanced(b) && b.pool.Some?
    ensures SignedWeight(b.pool.value, n) == Total(SignedWeights(b.users, n)) - Gap(b)
  {
    var p := b.pool.value;
    SpanTimes(p.effectiveTime, n, p.amount);
    forall k | k in b.users
      ensures SignedWeights(b.users, n)[k] == n * Amounts(b.users)[k] - Moments(b.users)[k]
    {
      SpanTimes(b.users[k].effectiveTime, n, b.users[k].amount);
    }
    TotalLinear(Amounts(b.users), Moments(b.users), SignedWeights(b.users, n), n);
  }

  /** Drift seen through weights: at any block they differ by at most `steps` times the pool amount. */
  lemma WeightsWithinDrift<K>(b: Book<K>, steps: nat, n: int)
    requires WithinDrift(b, steps) && b.pool.Some?
    ensures var pool, users := SignedWeight(b.pool.value, n), Total(SignedWeights(b.users, n));
            users - steps * PoolAmount(b) <= pool <= users + steps * PoolAmount(b)
  {
    WeightGap(b, n);
  }

  /** A holder's first deposit keeps the pool covering its holders; a later one need not. */
  lemma FirstDepositOneSided<K>(b: Book<K>, k: K, time: BlockNumber, added: Balance)
    requires OneSided(b) && Deposit(b, k, time, added).Some? && k !in b.users
    ensures OneSided(Deposit(b, k, time, added).value)
  {
    DepositGap(b, k, time, added);
  }

  /** Any deposit keeps it exactly when the two floors do not outweigh the slack there was. */
  lemma DepositOneSidedIff<K>(b: Book<K>, k: K, time: BlockNumber, added: Balance)
    requires OneSided(b) && Deposit(b, k, time, added).Some?
    ensures OneSided(Deposit(b, k, time, added).value) <==>
              Floored(Lookup(b.users, k), time, added) <= Floored(b.pool, time, added) - Gap(b)
  {
    DepositGap(b, k, time, added);
  }

  lemma ClaimOneSided<K>(b: Book<K>, k: K, until: BlockNumber)
    requires OneSided(b) && Claim(b, k, until).Some?
    ensures OneSided(Claim(b, k, until).value)
  {
    ClaimGap(b, k, until);
  }

  ghost predicate AllStartedBy<K>(b: Book<K>, n: int) {
    forall k :: k in b.users ==> b.users[k].effectiveTime <= n
  }

  /**
   Once every holder has started, no holder's weight exceeds the pool's, so a claimed share is at
   most one, and the claim leaves the pool's time at or before the claimed block.
   */
  lemma ShareAtMostOne<K>(b: Book<K>, k: K, until: BlockNumber)
    requires OneSided(b) && AllStartedBy(b, until) && k in b.users && b.users[k].amount > 0
    ensures b.pool.Some? && b.pool.value.effectiveTime <= until
    ensures SignedWeight(b.users[k], until) <= SignedWeight(b.pool.value, until)
    ensures TakeShare(b.pool.value, b.users[k], until).Some? ==>
              var s := TakeShare(b.pool.value, b.users[k], until).value;
              s.weight <= s.total && s.pool.effectiveTime <= until
    ensures SignedWeight(b.pool.value, until) < U128_LIMIT && b.users[k].lastAddTime <= until ==>
              TakeShare(b.pool.value, b.users[k], until).Some?
  {
    var weights := SignedWeights(b.users, until);
    forall j | j in b.users ensures 0 <= weights[j] {
      MulBounds(0, until - b.users[j].effectiveTime, b.users[j].amount);
    }
    TotalCovers(weights, k);
    UserCovered(b, k);
    WeightGap(b, until);
    var p := b.pool.value;
    if p.effectiveTime > until {
      NegativeSpan(until, p.effectiveTime, p.amount);
    }
    var w := SignedWeight(b.users[k], until);
    if b.users[k].Weight(until).Some? {
      ClaimByWeightStaysBefore(p, w, until);
    }
  }

  lemma NegativeSpan(to: int, from: int, c: int)
    requires to < from && 0 < c
    ensures (to - from) * c < 0
  {
  }

  /** The pool's average time never runs ahead of the latest of its holders. */
  lemma PoolTimeWithinHolders<K>(b: Book<K>, n: int)
    requires OneSided(b) && AllStartedBy(b, n) && b.pool.Some? && b.pool.value.amount > 0
    ensures b.pool.value.effectiveTime <= n
  {
    var p := b.pool.value;
    var weights := SignedWeights(b.users, n);
    forall j | j in b.users ensures 0 <= weights[j] {
      MulBounds(0, n - b.users[j].effectiveTime, b.users[j].amount);
    }
    TotalNonNegative(weights);
    WeightGap(b, n);
    if p.effectiveTime > n {
      NegativeSpan(n, p.effectiveTime, p.amount);
    }
  }

  /**
   What a withdrawal does to the gap: the leaver takes a moment at its own time out of the users
   and one at the pool's time out of the pool.
   */
  lemma LeaveGap<K>(b: Book<K>, k: K, v: Balance)
    requires Balanced(b) && k in b.users && v <= b.users[k].amount
    ensures b.pool.Some? && Leave(b, k, v).Some?
    ensures var c := Leave(b, k, v).value;
            && Balanced(c) && PoolAmount(c) == PoolAmount(b) - v
            && Gap(c) == Gap(b) + (b.users[k].effectiveTime - b.pool.value.effectiveTime) * v
  {
    UserCovered(b, k);
    var p, u := b.pool.value, b.users[k];
    UserLeaves(b.users, k, v, Leave(b, k, v).value.users);
    LeaveProduct(p.effectiveTime, p.amount, u.effectiveTime, v);
    TotalNonNegative(Amounts(b.users));
  }

  lemma UserLeaves<K>(users: map<K, StakingInfo>, k: K, v: Balance, rest: map<K, StakingInfo>)
    requires k in users && v <= users[k].amount
    requires rest == if users[k].amount == v then users - {k} else users[k := users[k].(amount := users[k].amount - v)]
    ensures Total(Amounts(rest)) == Total(Amounts(users)) - v
    ensures Total(Moments(rest)) == Total(Moments(users)) - users[k].effectiveTime * v
  {
    var u := users[k];
    if u.amount == v {
      DropUser(users, k);
    } else {
      MomentLess(u, v);
      PutUser(users, k, u.(amount := u.amount - v));
    }
  }

  lemma DropUser<K>(users: map<K, StakingInfo>, k: K)
    requires k in users
    ensures Total(Amounts(users - {k})) == Total(Amounts(users)) - users[k].amount
    ensures Total(Moments(users - {k})) == Total(Moments(users)) - users[k].Moment()
  {
    AmountsDrop(users, k);
    assert Moments(users - {k}) == Moments(users) - {k};
    TotalDrop(Amounts(users), k);
    TotalDrop(Moments(users), k);
  }

  lemma MomentLess(u: StakingInfo, v: Balance)
    requires v <= u.amount
    ensures u.(amount := u.amount - v).Moment() == u.Moment() - u.effectiveTime * v
  {
    Distribute(u.effectiveTime, u.amount - v, v);
  }

  lemma LeaveProduct(t: int, a: int, e: int, v: int)
    ensures t * (a - v) + e * v == t * a + (e - t) * v
  {
    Distribute(t, a - v, v);
    SpanTimes(t, e, v);
  }

  /** So a withdrawal keeps the pool covering the rest exactly when that much slack was there. */
  lemma LeaveOneSidedIff<K>(b: Book<K>, k: K, v: Balance)
    requires OneSided(b) && k in b.users && v <= b.users[k].amount
    ensures b.pool.Some? && Leave(b, k, v).Some?
    ensures OneSided(Leave(b, k, v).value) <==>
              (b.users[k].effectiveTime - b.pool.value.effectiveTime) * v <= -Gap(b)
  {
    LeaveGap(b, k, v);
  }

  /**
   The pool's time, moved by a claimed weight, is close enough to `now` for an amount to leave: the
   weight the leaver takes along is within what the claim and the gap before it left over.
   */
  ghost predicate CloseEnough(pool: StakingInfo, weight: int, v: int, now: int, gap: int)
    requires 0 < pool.amount
  {
    (now - pool.effectiveTime - weight / pool.amount) * v <= weight % pool.amount - gap
  }

  /**
   A withdrawal comes after a claim at `now`, so the leaver's time is `now` and the pool's has moved by
   the weight claimed: the condition in terms of the book before both.
   */
  lemma ClaimedLeaveOneSidedIff<K>(b: Book<K>, k: K, v: Balance, now: BlockNumber)
    requires OneSided(b) && k in b.users && v <= b.users[k].amount && Claim(b, k, now).Some?
    ensures b.pool.Some? && 0 < PoolAmount(b) && Leave(Claim(b, k, now).value, k, v).Some?
    ensures OneSided(Leave(Claim(b, k, now).value, k, v).value) <==>
              CloseEnough(b.pool.value, SignedWeight(b.users[k], now), v, now, Gap(b))
  {
    UserCovered(b, k);
    TakeShareSucceedsIff(b.pool.value, b.users[k], now);
    ClaimGap(b, k, now);
    ClaimOneSided(b, k, now);
    LeaveOneSidedIff(Claim(b, k, now).value, k, v);
  }

  /**
   How a holder's weight compares with the pool's at a block: as the gap does with the weight of all
   the others, which is negative for those who have not started by then.
   */
  lemma CoverageCompares<K>(b: Book<K>, k: K, n: int)
    requires Balanced(b) && k in b.users
    ensures b.pool.Some?
    ensures SignedWeight(b.users[k], n) - SignedWeight(b.pool.value, n) ==
              Gap(b) - Total(SignedWeights(b.users - {k}, n))
  {
    WeightGap(b, n);
    TotalSplit(SignedWeights(b.users, n), k);
    assert SignedWeights(b.users, n) - {k} == SignedWeights(b.users - {k}, n);
  }

  /**
   With a pool that covers its holders a weight reaches the pool's only without a gap and beside
   others without any.
   */
  lemma WholeIff<K>(b: Book<K>, k: K, n: int)
    requires OneSided(b) && AllStartedBy(b, n) && k in b.users
    ensures b.pool.Some?
    ensures SignedWeight(b.pool.value, n) <= SignedWeight(b.users[k], n) <==>
              Gap(b) == 0 && Total(SignedWeights(b.users - {k}, n)) == 0
  {
    CoverageCompares(b, k, n);
    var others := SignedWeights(b.users - {k}, n);
    forall j | j in others ensures 0 <= others[j] {
      MulBounds(0, n - b.users[j].effectiveTime, b.users[j].amount);
    }
    TotalNonNegative(others);
  }
}
