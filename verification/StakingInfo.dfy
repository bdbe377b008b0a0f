/**
 A staking position, or the synthetic average of many positions: an amount and the
 amount-weighted average of the times it was added.  `StakingInfo` is the value kept in
 storage with the outcome of every operation; `Checkpoint` is the working copy the pallet
 mutates in place before writing it back.
 */
module StakingInfos {
  import opened Base

  datatype StakingInfo = StakingInfo(effectiveTime: BlockNumber, amount: Balance, lastAddTime: BlockNumber) {

    /** The amount times its average start: what adding positions is meant to preserve. */
    function Moment(): int { effectiveTime * amount }

    /** None on overflow, or when the old and the added amount are both zero. */
    function Added(time: BlockNumber, added: Balance): Option<StakingInfo> {
      var newAmount := amount + added;
      if newAmount >= U128_LIMIT then None else
      var before, extra := effectiveTime * amount, time * added;
      MulBounds(0, effectiveTime, amount); MulBounds(0, time, added);
      if before >= U128_LIMIT || extra >= U128_LIMIT || before + extra >= U128_LIMIT || newAmount == 0 then None else
      DivBounds(before + extra, newAmount);
      var average := (before + extra) / newAmount;
      if average >= U32_LIMIT then None
      else Some(StakingInfo(average, newAmount, Max(lastAddTime, time)))
    }

    /** The amount times the blocks it has been staked for; None if it cannot be told at `n`. */
    function Weight(n: BlockNumber): Option<u128> {
      if lastAddTime > n then None else WeightForce(n)
    }

    function WeightForce(n: BlockNumber): Option<u128> {
      if effectiveTime > n || (n - effectiveTime) * amount >= U128_LIMIT then None
      else MulBounds(0, n - effectiveTime, amount); Some((n - effectiveTime) * amount)
    }

    /** Consumes the whole weight up to `n`. */
    function Claimed(n: BlockNumber): Option<StakingInfo> {
      if Weight(n).None? then None else Some(this.(effectiveTime := n))
    }

    /** Consumes part of the weight by moving the average time; the sum wraps as a u128 does. */
    function ClaimedByWeight(weight: u128): Option<StakingInfo> {
      if amount == 0 then None else
      var moved := (effectiveTime + weight / amount) % U128_LIMIT;
      if moved >= U32_LIMIT then None else Some(this.(effectiveTime := moved))
    }

    function Withdrawn(v: Balance): Option<StakingInfo> {
      if v > amount then None else Some(this.(amount := amount - v))
    }
  }

  /** Adds to a position that may not exist yet; the first add creates it. */
  function AddOrCreate(position: Option<StakingInfo>, time: BlockNumber, added: Balance): Option<StakingInfo> {
    match position
    case None => Some(StakingInfo(time, added, time))
    case Some(p) => p.Added(time, added)
  }

  /** One user's part of a pool at a claim: both positions afterwards and the two weights compared. */
  datatype Share = Share(pool: StakingInfo, user: StakingInfo, weight: u128, total: u128)

  function TakeShare(pool: StakingInfo, user: StakingInfo, until: BlockNumber): Option<Share> {
    if user.Weight(until).None? || pool.WeightForce(until).None? then None else
    var weight := user.Weight(until).value;
    if pool.ClaimedByWeight(weight).None? then None
    else Some(Share(pool.ClaimedByWeight(weight).value, user.(effectiveTime := until), weight,
        pool.WeightForce(until).value))
  }

  lemma MulBounds(a: int, b: int, c: int)
    requires 0 <= a <= b && 0 <= c
    ensures 0 <= a * c <= b * c
  {
  }

  lemma SpanTimes(from: int, to: int, c: int)
    ensures (to - from) * c == to * c - from * c
  {
  }

  lemma DivBounds(x: int, d: int)
    requires 0 <= x && 0 < d
    ensures 0 <= x / d && (x / d) * d <= x < (x / d) * d + d && x - (x / d) * d == x % d
  {
  }

  lemma DivBelow(x: int, d: int, k: int)
    requires 0 < d && 0 <= x < k * d
    ensures x / d < k
  {
    DivBounds(x, d);
    if x / d >= k {
      MulBounds(k, x / d, d);
    }
  }

  /**
   An add succeeds exactly when something is staked afterwards and the moment fits a u128:
   the average can never leave the block-number range.
   */
  lemma AddSucceedsIff(p: StakingInfo, time: BlockNumber, added: Balance)
    ensures p.Added(time, added).Some? <==>
              0 < p.amount + added < U128_LIMIT && p.Moment() + time * added < U128_LIMIT
  {
    MulBounds(0, p.effectiveTime, p.amount);
    MulBounds(0, time, added);
    var d := p.amount + added;
    if 0 < d {
      AverageInRange(p.effectiveTime, p.amount, time, added, U32_LIMIT - 1);
      DivBelow(p.Moment() + time * added, d, U32_LIMIT);
    }
  }

  lemma AverageInRange(e1: int, a1: int, e2: int, a2: int, top: int)
    requires 0 <= e1 <= top && 0 <= e2 <= top && 0 <= a1 && 0 <= a2 && 0 < a1 + a2
    ensures 0 <= e1 * a1 + e2 * a2 <= top * (a1 + a2) < (top + 1) * (a1 + a2)
  {
    MulBounds(e1, top, a1);
    MulBounds(e2, top, a2);
  }

  /**
   What an add keeps: the amounts add up, and the moment loses to flooring less than the new
   amount, so the recorded time is never later than the exact average and under one block early.
   */
  lemma AddKeepsMoment(p: StakingInfo, time: BlockNumber, added: Balance)
    requires p.Added(time, added).Some?
    ensures var q := p.Added(time, added).value;
            && q.amount == p.amount + added
            && q.lastAddTime == Max(p.lastAddTime, time)
            && q.Moment() <= p.Moment() + time * added < q.Moment() + q.amount
            && q.effectiveTime <= Max(p.effectiveTime, time)
  {
    var q := p.Added(time, added).value;
    DivBounds(p.Moment() + time * added, q.amount);
    var top := Max(p.effectiveTime, time);
    AverageInRange(p.effectiveTime, p.amount, time, added, top);
    DivBelow(p.Moment() + time * added, q.amount, top + 1);
  }

  /** A claim moves the moment forward by exactly the weight it returns and leaves nothing to claim. */
  lemma ClaimConsumesWeight(p: StakingInfo, n: BlockNumber)
    requires p.Claimed(n).Some?
    ensures var q := p.Claimed(n).value;
            && p.lastAddTime <= n && p.effectiveTime <= n
            && q.amount == p.amount && q.effectiveTime == n
            && q.Moment() == p.Moment() + p.Weight(n).value
            && q.Weight(n) == Some(0)
  {
    var q := p.Claimed(n).value;
    var w := p.Weight(n).value;
    assert w == (n - p.effectiveTime) * p.amount;
    SpanTimes(p.effectiveTime, n, p.amount);
    assert q.Weight(n) == Some(0) by {
      SpanTimes(n, n, q.amount);
    }
  }

  /**
   Consuming a weight succeeds exactly when there is an amount and the moved time is a block number,
   or so large that the sum wraps.  Without the wrap the moment advances by the weight rounded down to
   a multiple of the amount; with it the time goes back, which only a single unit can do.
   */
  lemma ClaimByWeightMovesMoment(p: StakingInfo, weight: u128)
    ensures p.ClaimedByWeight(weight).Some? <==>
              0 < p.amount && !(U32_LIMIT <= p.effectiveTime + weight / p.amount < U128_LIMIT)
    ensures p.ClaimedByWeight(weight).Some? ==>
              var q := p.ClaimedByWeight(weight).value;
              && q.amount == p.amount && q.lastAddTime == p.lastAddTime
              && (if p.effectiveTime + weight / p.amount < U32_LIMIT
                  then p.effectiveTime <= q.effectiveTime && q.Moment() == p.Moment() + weight - weight % p.amount
                  else p.amount == 1 && q.effectiveTime < p.effectiveTime)
  {
    if 0 < p.amount {
      DivBounds(weight, p.amount);
      var d := weight / p.amount;
      SumTimes(p.effectiveTime, d, p.amount);
      if 2 <= p.amount {
        MulBounds(2, p.amount, d);
      }
    }
  }

  lemma SumTimes(x: int, y: int, c: int)
    ensures (x + y) * c == x * c + y * c
  {
  }

  /** A weight that a position of at most this amount can have over the life of the chain never wraps. */
  lemma WeightNeverWraps(p: StakingInfo, weight: u128)
    requires 0 < p.amount && weight < U32_LIMIT * p.amount
    ensures 0 <= weight / p.amount < U32_LIMIT
  {
    DivBounds(weight, p.amount);
    DivBelow(weight, p.amount, U32_LIMIT);
  }

  /** Consuming at most the weight available at `n` always succeeds and never passes `n`. */
  lemma ClaimByWeightStaysBefore(p: StakingInfo, weight: u128, n: BlockNumber)
    requires 0 < p.amount && p.effectiveTime <= n && weight <= (n - p.effectiveTime) * p.amount
    ensures p.ClaimedByWeight(weight).Some? && p.ClaimedByWeight(weight).value.effectiveTime <= n
  {
    var k := n - p.effectiveTime + 1;
    assert weight < k * p.amount by {
      assert k * p.amount == (n - p.effectiveTime) * p.amount + p.amount;
    }
    DivBelow(weight, p.amount, k);
    DivBounds(weight, p.amount);
  }

  /** What a claim up to `until` needs of a pool and a holder of part of it. */
  ghost predicate Claimable(p: StakingInfo, u: StakingInfo, until: BlockNumber) {
    && u.lastAddTime <= until && u.effectiveTime <= until && p.effectiveTime <= until
    && (until - u.effectiveTime) * u.amount < U128_LIMIT
    && (until - p.effectiveTime) * p.amount < U128_LIMIT
    && 0 < p.amount
    && p.effectiveTime + (until - u.effectiveTime) * u.amount / p.amount < U32_LIMIT
  }

  /**
   A claim of a holder finds a share exactly when the holder's last add and both average times have
   come, both weights fit a u128, the pool holds something and its moved time is a block number.
   */
  lemma TakeShareSucceedsIff(p: StakingInfo, u: StakingInfo, until: BlockNumber)
    requires u.amount <= p.amount
    ensures TakeShare(p, u, until).Some? <==> Claimable(p, u, until)
    ensures TakeShare(p, u, until).Some? ==> WeightsCompared(p, u, until, TakeShare(p, u, until).value)
  {
    if u.lastAddTime <= until && u.effectiveTime <= until && 0 < p.amount {
      var w := (until - u.effectiveTime) * u.amount;
      MulBounds(0, until - u.effectiveTime, u.amount);
      MulBounds(until - u.effectiveTime, U32_LIMIT - 1, u.amount);
      MulBounds(u.amount, p.amount, U32_LIMIT - 1);
      if w < U128_LIMIT {
        WeightNeverWraps(p, w);
        ClaimByWeightMovesMoment(p, w);
      }
    }
  }

  /** What the share is: the holder's weight and the pool's, and both positions moved by the holder's. */
  ghost predicate WeightsCompared(p: StakingInfo, u: StakingInfo, until: BlockNumber, share: Share) {
    && share.weight == (until - u.effectiveTime) * u.amount
    && share.total == (until - p.effectiveTime) * p.amount
    && share.user == u.(effectiveTime := until)
    && share.pool.amount == p.amount && share.pool.lastAddTime == p.lastAddTime
    && 0 < p.amount && share.pool.effectiveTime == p.effectiveTime + share.weight / p.amount
  }

  /** The total compared with is zero exactly when the pool's time is the claimed block itself. */
  lemma ZeroTotalIff(p: StakingInfo, u: StakingInfo, until: BlockNumber)
    requires u.amount <= p.amount && TakeShare(p, u, until).Some?
    ensures p.effectiveTime <= until
    ensures TakeShare(p, u, until).value.total == 0 <==> p.effectiveTime == until
  {
    TakeShareSucceedsIff(p, u, until);
    if p.effectiveTime < until {
      MulBounds(1, until - p.effectiveTime, p.amount);
    }
  }

  /** The claim leaves the pool's time at or before the claimed block exactly when the weight allows it. */
  lemma PoolTimePassesIff(p: StakingInfo, u: StakingInfo, until: BlockNumber)
    requires u.amount <= p.amount && TakeShare(p, u, until).Some?
    ensures TakeShare(p, u, until).value.pool.effectiveTime <= until <==>
              (until - u.effectiveTime) * u.amount < (until - p.effectiveTime + 1) * p.amount
  {
    TakeShareSucceedsIff(p, u, until);
    var w, k := (until - u.effectiveTime) * u.amount, until - p.effectiveTime + 1;
    MulBounds(0, until - u.effectiveTime, u.amount);
    DivBounds(w, p.amount);
    if w < k * p.amount {
      DivBelow(w, p.amount, k);
    } else if w / p.amount < k {
      MulBounds(w / p.amount + 1, k, p.amount);
      SumTimes(w / p.amount, 1, p.amount);
    }
  }

  /**
   How far it can pass: the weight of a holder of part of the pool moves the pool's time by no more than the
   blocks the holder claims, so never past twice the claimed block.
   */
  lemma PoolTimeMovesWithin(p: StakingInfo, u: StakingInfo, until: BlockNumber)
    requires u.amount <= p.amount && TakeShare(p, u, until).Some?
    ensures p.effectiveTime <= TakeShare(p, u, until).value.pool.effectiveTime
                            <= p.effectiveTime + until - u.effectiveTime <= 2 * until
  {
    TakeShareSucceedsIff(p, u, until);
    var w := (until - u.effectiveTime) * u.amount;
    MulBounds(u.amount, p.amount, until - u.effectiveTime);
    DivBounds(w, p.amount);
    SumTimes(until - u.effectiveTime, 1, p.amount);
    DivBelow(w, p.amount, until - u.effectiveTime + 1);
  }

  /** The working copy of one stored position. */
  class Checkpoint {
    var effectiveTime: BlockNumber
    var amount: Balance
    var lastAddTime: BlockNumber

    constructor (stored: StakingInfo)
      ensures Info() == stored
    {
      effectiveTime := stored.effectiveTime;
      amount := stored.amount;
      lastAddTime := stored.lastAddTime;
    }

    function Info(): StakingInfo
      reads this
    {
      StakingInfo(effectiveTime, amount, lastAddTime)
    }

    /** A failed add has already advanced the time of the last add; its caller drops the copy. */
    method Add(time: BlockNumber, added: Balance) returns (ok: bool)
      modifies this
      ensures ok <==> old(Info()).Added(time, added).Some?
      ensures Info() == if ok then old(Info()).Added(time, added).value
                        else old(Info()).(lastAddTime := Max(old(lastAddTime), time))
    {
      lastAddTime := Max(lastAddTime, time);
      if amount + added >= U128_LIMIT {
        return false;
      }
      var newAmount := amount + added;
      if effectiveTime * amount >= U128_LIMIT || time * added >= U128_LIMIT
         || effectiveTime * amount + time * added >= U128_LIMIT || newAmount == 0 {
        return false;
      }
      var newEffectiveTime := (effectiveTime * amount + time * added) / newAmount;
      AddSucceedsIff(old(Info()), time, added);
      amount := newAmount;
      if newEffectiveTime >= U32_LIMIT {
        return false;
      }
      effectiveTime := newEffectiveTime;
      return true;
    }

    method Claim(n: BlockNumber) returns (weight: Option<u128>)
      modifies this
      ensures weight == old(Info()).Weight(n)
      ensures Info() == if weight.Some? then old(Info()).Claimed(n).value else old(Info())
    {
      weight := Info().Weight(n);
      if weight.Some? {
        effectiveTime := n;
      }
    }

    method ClaimBasedOnWeight(weight: u128) returns (moved: Option<BlockNumber>)
      modifies this
      ensures moved.Some? <==> old(Info()).ClaimedByWeight(weight).Some?
      ensures moved.Some? ==> Info() == old(Info()).ClaimedByWeight(weight).value && moved.value == effectiveTime
      ensures moved.None? ==> Info() == old(Info())
    {
      if amount == 0 {
        return None;
      }
      var newEffectiveTime := (effectiveTime + weight / amount) % U128_LIMIT;
      if newEffectiveTime >= U32_LIMIT {
        return None;
      }
      effectiveTime := newEffectiveTime;
      return Some(newEffectiveTime);
    }

    method Withdraw(v: Balance) returns (left: Option<Balance>)
      modifies this
      ensures left.Some? <==> v <= old(amount)
      ensures left.Some? ==> left.value + v == old(amount)
      ensures Info() == if left.Some? then old(Info()).Withdrawn(v).value else old(Info())
    {
      if v > amount {
        return None;
      }
      amount := amount - v;
      return Some(amount);
    }
  }
}
