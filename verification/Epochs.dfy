/**
 The life of a staking pool in blocks and epochs, and the epoch boundary a deposit waits for.
 */
module Epochs {
  import opened Base

  datatype Error =
    | BadOrigin
    | RewardAlreadyExisted
    | PoolAlreadyStarted
    | PoolAlreadyEnded
    | PoolAlreadyExisted
    | PoolCapLimit
    | PoolNotEnded
    | PoolNotExisted
    | PoolNotStarted
    | CannotClaimFuture
    | EpochAlreadyEnded
    | EpochNotExisted
    | NoAssetId
    | TypeIncompatibleOrArithmeticError
    | Overflow
    | Underflow
    | DivisionByZero
    | TokenFailure

  datatype PoolSetting = PoolSetting(
    startTime: BlockNumber,
    epoch: u128,
    epochRange: BlockNumber,
    setupTime: BlockNumber,
    poolCap: Balance)
  {
    function EndTime(): Option<BlockNumber> {
      if epochRange * epoch >= U128_LIMIT || startTime + epochRange * epoch >= U32_LIMIT then None
      else Some(LastBlock(this))
    }
  }

  function LastBlock(setting: PoolSetting): (r: int)
    ensures setting.startTime <= r
  {
    EpochNonNegative(setting.epochRange, setting.epoch);
    setting.startTime + setting.epochRange * setting.epoch
  }

  lemma EpochNonNegative(range: int, k: int)
    requires 0 <= range && 0 <= k
    ensures 0 <= range * k
  {
  }

  /** The epoch a block belongs to: 0 before the start, `epoch` from the end on. */
  function EpochIndex(setting: PoolSetting, time: BlockNumber): Result<u128, Error> {
    if setting.epochRange == 0 then Err(DivisionByZero) else
    var index := Max(time - setting.startTime, 0) / setting.epochRange;
    Ok(if index >= setting.epoch then setting.epoch else index)
  }

  /** The first block of an epoch, or the end of the pool from epoch `epoch` on. */
  function EpochBeginTime(setting: PoolSetting, epoch: u128): Result<BlockNumber, Error> {
    if epoch >= setting.epoch then setting.EndTime().OkOr(TypeIncompatibleOrArithmeticError) else
    var _ :- Need(epoch < U32_LIMIT, TypeIncompatibleOrArithmeticError);
    EpochNonNegative(setting.epochRange, epoch);
    var _ :- Need(setting.epochRange * epoch < U32_LIMIT, Overflow);
    var _ :- Need(setting.startTime + setting.epochRange * epoch < U32_LIMIT, Overflow);
    Ok(setting.startTime + setting.epochRange * epoch)
  }

  /** The block from which a deposit made at `now` counts: the begin of the epoch after its setup. */
  function TargetTime(setting: PoolSetting, now: BlockNumber): Result<BlockNumber, Error> {
    var end :- setting.EndTime().OkOr(TypeIncompatibleOrArithmeticError);
    var _ :- Need(now + setting.setupTime < U32_LIMIT, Overflow);
    var current :- EpochIndex(setting, now + setting.setupTime);
    var _ :- Need(current + 1 < U128_LIMIT, Overflow);
    var target :- EpochBeginTime(setting, current + 1);
    var _ :- Need(end > target, PoolAlreadyEnded);
    Ok(target)
  }

  lemma DivRange(x: int, d: int)
    requires 0 <= x && 0 < d
    ensures 0 <= x / d <= x && d * (x / d) <= x < d * (x / d + 1)
  {
    assert x == d * (x / d) + x % d;
    assert d * (x / d + 1) == d * (x / d) + d;
    QuotientSmall(x, d, x / d);
  }

  lemma QuotientSmall(x: int, d: int, q: int)
    requires 0 <= x && 0 < d && d * q <= x < d * (q + 1)
    ensures 0 <= q <= x
  {
    if q < 0 {
      WeakMul(d, q + 1, 0);
    } else {
      WeakMul(q, 1, d);
    }
  }

  lemma StrictMul(d: int, a: int, b: int)
    requires 0 <= d && a < b
    ensures 0 < d ==> d * a < d * b
    ensures d * a <= d * b
  {
  }

  lemma DivExact(k: int, d: int)
    requires 0 <= k && 0 < d
    ensures d * k / d == k
  {
    EpochNonNegative(d, k);
    DivRange(d * k, d);
    var q := d * k / d;
    if q < k {
      StrictMul(d, q + 1, k + 1);
      WeakMul(d, q + 1, k);
    } else if q > k {
      StrictMul(d, k, q);
    }
  }

  lemma WeakMul(d: int, a: int, b: int)
    requires 0 <= d && a <= b
    ensures d * a <= d * b
  {
  }

  /** Every epoch of a pool whose end is a block has a begin, and that begin lies in the epoch. */
  lemma IndexOfBegin(setting: PoolSetting, k: u128)
    requires setting.epochRange > 0 && setting.EndTime().Some?
    ensures EpochBeginTime(setting, k).Ok?
    ensures EpochBeginTime(setting, k).value ==
              setting.startTime + setting.epochRange * Min(k, setting.epoch)
    ensures EpochIndex(setting, EpochBeginTime(setting, k).value) == Ok(Min(k, setting.epoch))
  {
    var d, m := setting.epochRange, Min(k, setting.epoch);
    WeakMul(d, m, setting.epoch);
    WeakMul(m, 1, d);
    EpochNonNegative(d, m);
    DivExact(m, d);
  }

  /** Inside its life every block of a pool lies between the begin of its epoch and of the next. */
  lemma BeginOfIndex(setting: PoolSetting, t: BlockNumber)
    requires setting.epochRange > 0 && setting.EndTime().Some?
    requires setting.startTime <= t < setting.EndTime().value
    ensures EpochIndex(setting, t).Ok? && EpochIndex(setting, t).value < setting.epoch
    ensures var i := EpochIndex(setting, t).value;
            && EpochBeginTime(setting, i).Ok? && EpochBeginTime(setting, i + 1).Ok?
            && EpochBeginTime(setting, i).value <= t < EpochBeginTime(setting, i + 1).value
  {
    var d, x := setting.epochRange, t - setting.startTime;
    DivRange(x, d);
    if x / d >= setting.epoch {
      WeakMul(d, setting.epoch, x / d);
    }
    IndexOfBegin(setting, x / d);
    IndexOfBegin(setting, x / d + 1);
  }

  /** The epoch of a block is at most `k` exactly before `k + 1` epochs have passed since the start. */
  lemma IndexAtMostIff(setting: PoolSetting, k: u128, t: BlockNumber)
    requires setting.epochRange > 0 && k < setting.epoch
    ensures EpochIndex(setting, t).Ok?
    ensures EpochIndex(setting, t).value <= k <==> t < setting.startTime + setting.epochRange * (k + 1)
  {
    var d, x := setting.epochRange, Max(t - setting.startTime, 0);
    DivRange(x, d);
    if x / d <= k {
      WeakMul(d, x / d + 1, k + 1);
    } else {
      WeakMul(d, k + 1, x / d);
    }
    EpochNonNegative(d, k);
    StrictMul(d, k, k + 1);
  }

  /** An epoch is not over yet exactly until the next one begins. */
  lemma EpochNotOverIff(setting: PoolSetting, k: u128, t: BlockNumber)
    requires setting.epochRange > 0 && setting.EndTime().Some? && k < setting.epoch
    ensures EpochIndex(setting, t).Ok? && EpochBeginTime(setting, k + 1).Ok?
    ensures EpochIndex(setting, t).value <= k <==> t < EpochBeginTime(setting, k + 1).value
  {
    IndexAtMostIff(setting, k, t);
    IndexOfBegin(setting, k + 1);
  }

  /** A boundary strictly inside the pool's life. */
  ghost predicate IsBoundary(setting: PoolSetting, k: int, t: int) {
    0 <= k < setting.epoch && t == setting.startTime + setting.epochRange * k
  }

  /**
   The target of an accepted deposit is the least epoch boundary strictly after `now + setupTime`,
   and it comes strictly before the end of the pool.
   */
  lemma TargetIsLeastBoundary(setting: PoolSetting, now: BlockNumber)
    requires setting.startTime < now && TargetTime(setting, now).Ok?
    ensures var target := TargetTime(setting, now).value;
            && setting.EndTime().Some?
            && now <= now + setting.setupTime < target < setting.EndTime().value
            && (exists k :: IsBoundary(setting, k, target))
            && (forall k, t :: IsBoundary(setting, k, t) && now + setting.setupTime < t ==> target <= t)
  {
    var target := TargetTime(setting, now).value;
    var d, x := setting.epochRange, now + setting.setupTime - setting.startTime;
    DivRange(x, d);
    var k := EpochIndex(setting, now + setting.setupTime).value + 1;
    IndexOfBegin(setting, k);
    assert k < setting.epoch;
    assert IsBoundary(setting, k, target);
    forall j, t | IsBoundary(setting, j, t) && now + setting.setupTime < t
      ensures target <= t
    {
      if j < k {
        WeakMul(d, j, k - 1);
      } else {
        WeakMul(d, k, j);
      }
    }
  }

  /**
   Once a pool has started, a deposit finds a target exactly when a whole epoch still fits between
   the end of its setup and the end of the pool.
   */
  lemma TargetExistsIff(setting: PoolSetting, now: BlockNumber)
    requires setting.startTime < now
    ensures TargetTime(setting, now).Ok? <==>
              && setting.EndTime().Some?
              && setting.epochRange > 0
              && now + setting.setupTime + setting.epochRange < setting.EndTime().value
  {
    if setting.EndTime().Some? && setting.epochRange > 0 && now + setting.setupTime < U32_LIMIT {
      var d, x := setting.epochRange, now + setting.setupTime - setting.startTime;
      DivRange(x, d);
      EpochStillFits(d, x / d, x, setting.epoch);
      IndexOfBegin(setting, Min(x / d, setting.epoch) + 1);
      if x / d + 1 < setting.epoch {
        StrictMul(d, x / d + 1, setting.epoch);
      }
    }
  }

  lemma EpochStillFits(d: int, q: int, x: int, e: int)
    requires 0 < d && d * q <= x < d * (q + 1)
    ensures q + 1 < e <==> x + d < d * e
  {
    assert d * (q + 1) == d * q + d;
    if q + 1 < e {
      assert d * (q + 2) == d * (q + 1) + d;
      WeakMul(d, q + 2, e);
    } else {
      WeakMul(d, e, q + 1);
    }
  }
}
