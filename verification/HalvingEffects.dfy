/**
 What the manager's calls do and when they are refused, and how the blocks of a run are spent: each is
 minted in, skipped, or before its time.
 */
module HalvingEffects {
  import opened Base
  import opened HalvingMint

  /** What a call asks of its sender, its argument and the state. */
  ghost predicate Permitted(s: State, a: Action)
    requires !a.NextBlock?
  {
    && a.origin.Root?
    && match a
       case CallSetMintState(_, state) => s.startBlock.Some? && s.minting != state
       case CallSetOnTokenMintedState(_, state) => s.startBlock.Some? && s.callback != state
       case CallStartMintFromBlock(_, block) => s.startBlock.None? && s.now < block
       case CallStartMintFromNextBlock(_) => s.startBlock.None? && s.now + 1 < U32_LIMIT
  }

  /** What it turns and what it announces; the rest stays. */
  ghost predicate Turns(s: State, a: Action, t: State)
    requires !a.NextBlock?
  {
    && t.now == s.now && t.skipped == s.skipped && t.supply == s.supply
    && match a
       case CallSetMintState(_, state) =>
         && t.minting == state && t.callback == s.callback && t.startBlock == s.startBlock
         && t.events == s.events + [MintStateChanged(state)]
       case CallSetOnTokenMintedState(_, state) =>
         && t.minting == s.minting && t.callback == state && t.startBlock == s.startBlock
         && t.events == s.events + [OnTokenMintedStateChanged(state)]
       case CallStartMintFromBlock(_, block) =>
         && t.minting.Running? && t.callback.Running? && t.startBlock == Some(block)
         && t.events == s.events + [MintStarted(block)]
       case CallStartMintFromNextBlock(_) =>
         && t.minting.Running? && t.callback.Running? && t.startBlock.Some? && t.startBlock.value as int == s.now + 1
         && t.events == s.events + [MintStarted(t.startBlock.value)]
  }

  /** Each call of the manager is accepted exactly as it asks, does that, and is otherwise without effect. */
  lemma CallTurnsExactly(cfg: Config, s: State, a: Action)
    requires cfg.Usable() && !a.NextBlock? && s.now + 1 < U32_LIMIT
    ensures Call(s, a).Ok? <==> Permitted(s, a)
    ensures if Permitted(s, a) then Turns(s, a, Step(cfg, s, a)) else Step(cfg, s, a) == s
  {
  }

  /** What each refusal says of the call. */
  ghost predicate Explains(s: State, a: Action, e: Error)
    requires !a.NextBlock?
  {
    match e
    case BadOrigin => !a.origin.Root?
    case MintNotStarted => (a.CallSetMintState? || a.CallSetOnTokenMintedState?) && s.startBlock.None?
    case MintStateUnchanged => a.CallSetMintState? && a.state == s.minting
    case OnTokenMintedStateUnchanged => a.CallSetOnTokenMintedState? && a.state == s.callback
    case MintAlreadyStarted => (a.CallStartMintFromBlock? || a.CallStartMintFromNextBlock?) && s.startBlock.Some?
    case StartBlockTooEarly =>
      && s.startBlock.None?
      && (a.CallStartMintFromNextBlock? || (a.CallStartMintFromBlock? && a.block <= s.now))
  }

  lemma RefusalsExplain(s: State, a: Action)
    requires !a.NextBlock? && Call(s, a).Err?
    ensures Explains(s, a, Call(s, a).error)
  {
  }

  /** The state a run leads to. */
  ghost function After(cfg: Config, g: State, run: seq<Action>): State
    requires cfg.Usable()
  {
    if run == [] then g
    else
      var mid := After(cfg, g, run[..|run| - 1]);
      if mid.now + 1 < U32_LIMIT then Step(cfg, mid, run[|run| - 1]) else mid
  }

  lemma {:induction false} ReachesAfter(cfg: Config, g: State, run: seq<Action>, s: State)
    requires cfg.Usable() && Reaches(cfg, g, run, s)
    ensures s == After(cfg, g, run)
    decreases |run|
  {
    if run != [] {
      var mid :| Reaches(cfg, g, run[..|run| - 1], mid) && mid.now + 2 < U32_LIMIT
          && s == Step(cfg, mid, run[|run| - 1]);
      ReachesAfter(cfg, g, run[..|run| - 1], mid);
    }
  }

  /** A hook skips the block it finds the mint stopped in. */
  ghost predicate Skips(s: State, a: Action) {
    a.NextBlock? && s.startBlock.Some? && s.minting.Stopped?
  }

  /** It pays in one that comes as many blocks after the start as were skipped. */
  ghost predicate Pays(s: State, a: Action, skipped: int) {
    a.NextBlock? && s.startBlock.Some? && s.minting.Running? && s.startBlock.value + skipped <= s.now + 1
  }

  /** The blocks of a run begun while the mint was stopped, once it had a start. */
  ghost function StoppedBlocks(cfg: Config, g: State, run: seq<Action>): nat
    requires cfg.Usable()
  {
    if run == [] then 0
    else
      var before := run[..|run| - 1];
      var mid := After(cfg, g, before);
      StoppedBlocks(cfg, g, before) + if Skips(mid, run[|run| - 1]) then 1 else 0
  }

  /** The blocks begun while it ran, from its start on and as many later as were stopped before. */
  ghost function MintingBlocks(cfg: Config, g: State, run: seq<Action>): nat
    requires cfg.Usable()
  {
    if run == [] then 0
    else
      var before := run[..|run| - 1];
      var mid := After(cfg, g, before);
      MintingBlocks(cfg, g, before)
      + if Pays(mid, run[|run| - 1], StoppedBlocks(cfg, g, before)) then 1 else 0
  }

  lemma StepCounts(cfg: Config, s: State, a: Action)
    requires cfg.Usable() && Scheduled(cfg, s) && s.now + 2 < U32_LIMIT
    ensures var t := Step(cfg, s, a);
            && t.now as int == s.now + (if a.NextBlock? then 1 else 0)
            && t.skipped as int == s.skipped + (if Skips(s, a) then 1 else 0)
            && |Mints(t.events)| == |Mints(s.events)| + if Pays(s, a, s.skipped) then 1 else 0
  {
    if a.NextBlock? {
      HookMintsNextSlot(cfg, s, s.now + 1);
    } else if Call(s, a).Ok? {
      CallIsQuiet(s, a);
    }
  }

  /** The counts of a run are those of the run before its last step, and what that step adds. */
  lemma CountsAdd(cfg: Config, g: State, run: seq<Action>, mid: State, skipped: int, mints: int)
    requires cfg.Usable() && run != [] && mid == After(cfg, g, run[..|run| - 1])
    requires mid.skipped == StoppedBlocks(cfg, g, run[..|run| - 1])
    requires |Mints(mid.events)| == MintingBlocks(cfg, g, run[..|run| - 1])
    requires skipped == mid.skipped + (if Skips(mid, run[|run| - 1]) then 1 else 0)
    requires mints == |Mints(mid.events)| + (if Pays(mid, run[|run| - 1], mid.skipped) then 1 else 0)
    ensures skipped == StoppedBlocks(cfg, g, run) && mints == MintingBlocks(cfg, g, run)
  {
  }

  /**
   In every run the skipped blocks are those begun while stopped, and each block minted in is one begun
   while running with as many blocks since the start as were stopped.
   */
  lemma {:induction false} ReachableBlocks(cfg: Config, g: State, run: seq<Action>, s: State)
    requires cfg.Usable() && Genesis(g) && Reaches(cfg, g, run, s)
    ensures s.skipped == StoppedBlocks(cfg, g, run) && |Mints(s.events)| == MintingBlocks(cfg, g, run)
    decreases |run|
  {
    if run != [] {
      var before, a := run[..|run| - 1], run[|run| - 1];
      var mid :| Reaches(cfg, g, before, mid) && mid.now + 2 < U32_LIMIT && s == Step(cfg, mid, a);
      ReachesAfter(cfg, g, before, mid);
      ReachableBlocks(cfg, g, before, mid);
      ReachableScheduled(cfg, g, before, mid);
      StepCounts(cfg, mid, a);
      CountsAdd(cfg, g, run, mid, s.skipped, |Mints(s.events)|);
    }
  }

  /** So the number of mints is the blocks since the start less the stopped ones. */
  lemma MintsAreBlocks(cfg: Config, g: State, run: seq<Action>, s: State, stopped: nat)
    requires cfg.Usable() && Genesis(g) && Reaches(cfg, g, run, s) && s.startBlock.Some?
    requires stopped == StoppedBlocks(cfg, g, run)
    ensures |Mints(s.events)| == Max(0, s.now + 1 - s.startBlock.value - stopped)
  {
    ReachableScheduled(cfg, g, run, s);
    ReachableBlocks(cfg, g, run, s);
    MintsDue(cfg, s);
  }

  lemma MintsDue(cfg: Config, s: State)
    requires cfg.Usable() && Scheduled(cfg, s) && s.startBlock.Some?
    ensures |Mints(s.events)| == Max(0, s.now + 1 - s.startBlock.value - s.skipped)
  {
  }
}
