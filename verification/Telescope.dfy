/**
 One user's position through any run of adds and claims: claimed weight and remaining weight add up
 to the exact stake-blocks, plus what flooring the average gave away.
 */
module Telescope {
  import opened Base
  import opened StakingInfos
  import opened Drift

  datatype Move = Add(time: BlockNumber, amount: Balance) | Take(until: BlockNumber)

  /** A position after a run, and all the weight its claims returned. */
  datatype Track = Track(position: Option<StakingInfo>, claimed: nat)

  function Step(t: Track, m: Move): Option<Track> {
    match m
    case Add(time, amount) =>
      var p := AddOrCreate(t.position, time, amount);
      if p.None? then None else Some(Track(p, t.claimed))
    case Take(until) =>
      if t.position.None? then Some(t)
      else if t.position.value.Claimed(until).None? then None
      else Some(Track(t.position.value.Claimed(until), t.claimed + t.position.value.Weight(until).value))
  }

  /** The whole run, as far as every move succeeds. */
  function Play(moves: seq<Move>): Option<Track> {
    if moves == [] then Some(Track(None, 0)) else
    var earlier := Play(moves[..|moves| - 1]);
    if earlier.None? then None else Step(earlier.value, moves[|moves| - 1])
  }

  /** The exact stake-blocks at `n`: each added amount times the blocks since its time. */
  ghost function StakeBlocks(moves: seq<Move>, n: int): int {
    if moves == [] then 0 else
    var last := moves[|moves| - 1];
    StakeBlocks(moves[..|moves| - 1], n) + if last.Add? then (n - last.time) * last.amount else 0
  }

  /** The sum over the adds of the amount staked after each. */
  ghost function AmountsAfterAdds(moves: seq<Move>): int
    requires Play(moves).Some?
  {
    if moves == [] then 0
    else
      AmountsAfterAdds(moves[..|moves| - 1])
      + if moves[|moves| - 1].Add? then Play(moves).value.position.value.amount else 0
  }

  ghost function Remaining(t: Track, n: int): int {
    if t.position.None? then 0 else SignedWeight(t.position.value, n)
  }

  ghost function Rounding(moves: seq<Move>, n: int): int
    requires Play(moves).Some?
  {
    var t := Play(moves).value;
    t.claimed + Remaining(t, n) - StakeBlocks(moves, n)
  }

  lemma AddRounds(t: Track, time: BlockNumber, amount: Balance, n: int)
    requires AddOrCreate(t.position, time, amount).Some?
    ensures var p := AddOrCreate(t.position, time, amount).value;
            var rounded := SignedWeight(p, n) - Remaining(t, n) - (n - time) * amount;
            0 <= rounded <= p.amount && (0 < p.amount ==> rounded < p.amount)
  {
    var p := AddOrCreate(t.position, time, amount).value;
    AddOrCreateExact(t.position, time, amount);
    SpanTimes(p.effectiveTime, n, p.amount);
    SpanTimes(time, n, amount);
    if t.position.Some? {
      var o := t.position.value;
      SpanTimes(o.effectiveTime, n, o.amount);
      assert n * (o.amount + amount) == n * o.amount + n * amount;
    }
  }

  lemma TakeExact(p: StakingInfo, until: BlockNumber, n: int)
    requires p.Claimed(until).Some?
    ensures p.Weight(until).value + SignedWeight(p.Claimed(until).value, n) == SignedWeight(p, n)
  {
    var q := p.Claimed(until).value;
    assert p.Weight(until).value == (until - p.effectiveTime) * p.amount;
    SpanTimes(p.effectiveTime, until, p.amount);
    SpanTimes(p.effectiveTime, n, p.amount);
    SpanTimes(until, n, p.amount);
  }

  /**
   At every `n`, claimed plus remaining weight is the exact stake-blocks plus a rounding term between
   zero and, short of it unless that is zero too, the sum of the amounts after each add, so no stake-block counts
   twice beyond rounding.
   */
  lemma {:induction false} ClaimsTelescope(moves: seq<Move>, n: int)
    requires Play(moves).Some?
    ensures 0 <= Rounding(moves, n) <= AmountsAfterAdds(moves)
    ensures 0 < AmountsAfterAdds(moves) ==> Rounding(moves, n) < AmountsAfterAdds(moves)
  {
    if moves != [] {
      var before, last := moves[..|moves| - 1], moves[|moves| - 1];
      ClaimsTelescope(before, n);
      var t := Play(before).value;
      match last {
        case Add(time, amount) => AddRounds(t, time, amount, n);
        case Take(until) =>
          if t.position.Some? {
            TakeExact(t.position.value, until, n);
          }
      }
    }
  }
}
