/**
 The halving mint: a block hook that pays the next slot of a halving schedule, or counts a
 skipped block while minting is paused, and the manager calls that start, pause and resume it.
 */
module HalvingMint {
  import opened Base
  import opened Halving
  import opened Sums

  datatype Switch = Stopped | Running

  datatype Error =
    | BadOrigin
    | MintStateUnchanged
    | OnTokenMintedStateUnchanged
    | MintAlreadyStarted
    | MintNotStarted
    | StartBlockTooEarly

  datatype Event =
    | MintStateChanged(state: Switch)
    | OnTokenMintedStateChanged(state: Switch)
    | MintStarted(block: BlockNumber)
    | Minted(amount: Balance)

  /** The runtime's constants; twice the interval must fit the width it is computed in. */
  datatype Config = Config(totalIssuance: Balance, interval: u32) {
    predicate Usable() { 0 < interval && interval * 2 < U32_LIMIT }

    function First(): Balance
      requires Usable()
    {
      QuotientRange(totalIssuance, interval * 2);
      FirstAmount(totalIssuance, interval)
    }
  }

  datatype State = State(
    now: BlockNumber,
    minting: Switch,
    callback: Switch,
    startBlock: Option<BlockNumber>,
    skipped: BlockNumber,
    supply: Balance,
    events: seq<Event>)

  type Outcome = Result<State, Error>

  function SaturatingAdd(a: int, b: int, limit: int): int {
    Min(a + b, limit - 1)
  }

  /** The hook of block `n`. */
  function OnInitialize(cfg: Config, s: State, n: BlockNumber): State
    requires cfg.Usable()
  {
    if s.startBlock.None? then s.(now := n)
    else if s.minting.Stopped? then s.(now := n, skipped := SaturatingAdd(s.skipped, 1, U32_LIMIT))
    else
      var begin := SaturatingAdd(s.startBlock.value, s.skipped, U32_LIMIT);
      if n < begin then s.(now := n)
      else
        var amount := Slot(cfg.First(), cfg.interval, n - begin);
        s.(now := n, supply := SaturatingAdd(s.supply, amount, U128_LIMIT), events := s.events + [Minted(amount)])
  }

  function SetMintState(s: State, origin: Origin, state: Switch): Outcome {
    var _ :- Need(origin.Root?, BadOrigin);
    var _ :- Need(s.startBlock.Some?, MintNotStarted);
    var _ :- Need(state != s.minting, MintStateUnchanged);
    Ok(s.(minting := state, events := s.events + [MintStateChanged(state)]))
  }

  function SetOnTokenMintedState(s: State, origin: Origin, state: Switch): Outcome {
    var _ :- Need(origin.Root?, BadOrigin);
    var _ :- Need(s.startBlock.Some?, MintNotStarted);
    var _ :- Need(state != s.callback, OnTokenMintedStateUnchanged);
    Ok(s.(callback := state, events := s.events + [OnTokenMintedStateChanged(state)]))
  }

  function StartMintFromBlock(s: State, origin: Origin, block: BlockNumber): Outcome {
    var _ :- Need(origin.Root?, BadOrigin);
    var _ :- Need(s.startBlock.None?, MintAlreadyStarted);
    var _ :- Need(block > s.now, StartBlockTooEarly);
    Ok(s.(minting := Running, callback := Running, startBlock := Some(block),
        events := s.events + [MintStarted(block)]))
  }

  function StartMintFromNextBlock(s: State, origin: Origin): Outcome {
    StartMintFromBlock(s, origin, (s.now + 1) % U32_LIMIT)
  }

  /** One step of the chain: the next block with its hook, or a call. */
  datatype Action =
    | NextBlock
    | CallSetMintState(origin: Origin, state: Switch)
    | CallSetOnTokenMintedState(origin: Origin, state: Switch)
    | CallStartMintFromBlock(origin: Origin, block: BlockNumber)
    | CallStartMintFromNextBlock(origin: Origin)

  function Call(s: State, a: Action): Outcome
    requires !a.NextBlock?
  {
    match a
    case CallSetMintState(origin, state) => SetMintState(s, origin, state)
    case CallSetOnTokenMintedState(origin, state) => SetOnTokenMintedState(s, origin, state)
    case CallStartMintFromBlock(origin, block) => StartMintFromBlock(s, origin, block)
    case CallStartMintFromNextBlock(origin) => StartMintFromNextBlock(s, origin)
  }

  function Step(cfg: Config, s: State, a: Action): State
    requires cfg.Usable() && s.now + 1 < U32_LIMIT
  {
    if a.NextBlock? then OnInitialize(cfg, s, s.now + 1)
    else match Call(s, a)
      case Ok(t) => t
      case Err(_) => s
  }

  /** The states after each run that stays below the last block number. */
  ghost predicate Reaches(cfg: Config, from: State, run: seq<Action>, to: State)
    requires cfg.Usable()
  {
    if run == [] then to == from
    else
      exists mid ::
        && Reaches(cfg, from, run[..|run| - 1], mid)
        && mid.now + 2 < U32_LIMIT
        && to == Step(cfg, mid, run[|run| - 1])
  }

  /** Every chain starts at block 0; a start block set at genesis must still lie ahead. */
  ghost predicate Genesis(s: State) {
    s.now == 0 && s.skipped == 0 && s.events == [] && (s.startBlock.Some? ==> 0 < s.startBlock.value)
  }

  /** The amounts minted so far, oldest first. */
  ghost function Mints(events: seq<Event>): seq<Balance> {
    if events == [] then []
    else
      var rest := Mints(events[..|events| - 1]);
      match events[|events| - 1]
      case Minted(amount) => rest + [amount]
      case _ => rest
  }

  lemma MintsAfter(events: seq<Event>, e: Event)
    ensures Mints(events + [e]) == Mints(events) + (if e.Minted? then [e.amount] else [])
  {
    assert (events + [e])[..|events|] == events;
  }

  /** How many slots are due once the hook of block `now` has run. */
  ghost function SlotsDue(s: State): int {
    if s.startBlock.None? then 0 else Max(0, s.now + 1 - s.startBlock.value - s.skipped)
  }

  /** Exactly the due slots have been paid, in order, with the amounts of the schedule. */
  ghost predicate Scheduled(cfg: Config, s: State)
    requires cfg.Usable()
  {
    && |Mints(s.events)| == SlotsDue(s)
    && OnSchedule(Mints(s.events), cfg.First(), cfg.interval)
    && s.skipped <= s.now
    && (s.startBlock.None? ==> s.skipped == 0)
  }

  /** The currency's issuance has grown by exactly what was minted, up to the width of a balance. */
  ghost predicate Supplied(initial: Balance, s: State) {
    s.supply == SaturatingAdd(initial, Sum(Mints(s.events)), U128_LIMIT)
  }

  ghost predicate StartFits(s: State) {
    s.startBlock.Some? ==> s.startBlock.value + s.skipped < U32_LIMIT
  }

  /**
   The hook mints exactly when minting runs and the start plus the skipped blocks have passed; the
   effective index of that mint is the number of mints before it.
   */
  lemma HookMintsNextSlot(cfg: Config, s: State, n: BlockNumber)
    requires cfg.Usable() && Scheduled(cfg, s) && n == s.now + 1
    requires n < U32_LIMIT - 1 || StartFits(s)
    ensures var t := OnInitialize(cfg, s, n);
            var m := |Mints(s.events)|;
            && Scheduled(cfg, t)
            && Mints(t.events) ==
                 if s.startBlock.Some? && s.minting.Running? && s.startBlock.value + s.skipped <= n
                 then
                   assert n - s.startBlock.value - s.skipped == m;
                   Mints(s.events) + [Slot(cfg.First(), cfg.interval, m)]
                 else Mints(s.events)
  {
    if s.startBlock.Some? && s.minting.Running? && s.startBlock.value + s.skipped <= n {
      var m := |Mints(s.events)|;
      assert n - SaturatingAdd(s.startBlock.value, s.skipped, U32_LIMIT) == m;
      MintsAfter(s.events, Minted(Slot(cfg.First(), cfg.interval, m)));
    }
  }

  /** No call mints, and none moves a start block that is set. */
  lemma CallIsQuiet(s: State, a: Action)
    requires !a.NextBlock? && Call(s, a).Ok?
    ensures var t := Call(s, a).value;
            && Mints(t.events) == Mints(s.events) && t.supply == s.supply && t.skipped == s.skipped && t.now == s.now
            && (if s.startBlock.Some? then t.startBlock == s.startBlock
                else t.startBlock.Some? ==> s.now < t.startBlock.value)
  {
    var t := Call(s, a).value;
    MintsAfter(s.events, t.events[|s.events|]);
  }

  lemma CallKeepsSchedule(cfg: Config, s: State, a: Action)
    requires cfg.Usable() && Scheduled(cfg, s) && !a.NextBlock? && Call(s, a).Ok?
    ensures Scheduled(cfg, Call(s, a).value)
  {
    CallIsQuiet(s, a);
  }

  /** A hook adds what it mints to the supply, which saturates on the way exactly when the whole sum does. */
  lemma HookSupplies(cfg: Config, initial: Balance, s: State, n: BlockNumber)
    requires cfg.Usable() && Scheduled(cfg, s) && n == s.now + 1 < U32_LIMIT - 1 && Supplied(initial, s)
    ensures Supplied(initial, OnInitialize(cfg, s, n))
  {
    var t := OnInitialize(cfg, s, n);
    HookMintsNextSlot(cfg, s, n);
    var mints, more := Mints(s.events), Mints(t.events);
    if more != mints {
      SumAppend(mints, [more[|mints|]]);
      assert [more[|mints|]][1..] == [];
    }
  }

  lemma StepKeepsSchedule(cfg: Config, initial: Balance, s: State, a: Action)
    requires cfg.Usable() && Scheduled(cfg, s) && s.now + 2 < U32_LIMIT && Supplied(initial, s)
    ensures var t := Step(cfg, s, a);
            Scheduled(cfg, t) && t.now + 1 < U32_LIMIT && Supplied(initial, t)
  {
    if a.NextBlock? {
      HookMintsNextSlot(cfg, s, s.now + 1);
      HookSupplies(cfg, initial, s, s.now + 1);
    } else if Call(s, a).Ok? {
      CallIsQuiet(s, a);
      CallKeepsSchedule(cfg, s, a);
    }
  }

  /** Under every pattern of starts, pauses and resumes the due slots have been paid and nothing else. */
  lemma {:induction false} ReachableScheduled(cfg: Config, g: State, run: seq<Action>, s: State)
    requires cfg.Usable() && Genesis(g) && Reaches(cfg, g, run, s)
    ensures Scheduled(cfg, s) && s.now + 1 < U32_LIMIT
    ensures Supplied(g.supply, s)
    decreases |run|
  {
    if run != [] {
      var mid :| Reaches(cfg, g, run[..|run| - 1], mid) && mid.now + 2 < U32_LIMIT
          && s == Step(cfg, mid, run[|run| - 1]);
      ReachableScheduled(cfg, g, run[..|run| - 1], mid);
      StepKeepsSchedule(cfg, g.supply, mid, run[|run| - 1]);
    }
  }

  // The switches and the start

  /** What the log says of the mint switch, the callback switch and the start block. */
  ghost function MintingOf(initial: Switch, events: seq<Event>): Switch {
    if events == [] then initial
    else match events[|events| - 1]
      case MintStateChanged(state) => state
      case MintStarted(_) => Running
      case _ => MintingOf(initial, events[..|events| - 1])
  }

  ghost function CallbackOf(initial: Switch, events: seq<Event>): Switch {
    if events == [] then initial
    else match events[|events| - 1]
      case OnTokenMintedStateChanged(state) => state
      case MintStarted(_) => Running
      case _ => CallbackOf(initial, events[..|events| - 1])
  }

  ghost function StartOf(initial: Option<BlockNumber>, events: seq<Event>): Option<BlockNumber> {
    if events == [] then initial
    else match events[|events| - 1]
      case MintStarted(block) => Some(block)
      case _ => StartOf(initial, events[..|events| - 1])
  }

  /** Each announcement of a change was one: a switch after a start, a start once and ahead. */
  ghost predicate Announced(g: State, events: seq<Event>) {
    events == [] ||
    var earlier := events[..|events| - 1];
    && Announced(g, earlier)
    && match events[|events| - 1]
       case MintStateChanged(state) => StartOf(g.startBlock, earlier).Some? && MintingOf(g.minting, earlier) != state
       case OnTokenMintedStateChanged(state) => StartOf(g.startBlock, earlier).Some?
           && CallbackOf(g.callback, earlier) != state
       case MintStarted(_) => StartOf(g.startBlock, earlier).None?
       case Minted(_) => StartOf(g.startBlock, earlier).Some? && MintingOf(g.minting, earlier).Running?
  }

  ghost predicate FollowsLog(g: State, s: State) {
    && s.minting == MintingOf(g.minting, s.events)
    && s.callback == CallbackOf(g.callback, s.events)
    && s.startBlock == StartOf(g.startBlock, s.events)
    && Announced(g, s.events)
  }

  /** All a hook can do besides counting is to mint while running. */
  lemma HookOnlyMints(cfg: Config, s: State, n: BlockNumber) returns (minted: seq<Event>)
    requires cfg.Usable()
    ensures var t := OnInitialize(cfg, s, n);
            && t.minting == s.minting && t.callback == s.callback && t.startBlock == s.startBlock
            && t.events == s.events + minted
    ensures minted == [] || (|minted| == 1 && minted[0].Minted? && s.startBlock.Some? && s.minting.Running?)
  {
    minted := OnInitialize(cfg, s, n).events[|s.events|..];
  }

  /** A change announced by one event, which it was time for. */
  ghost predicate Announces(s: State, t: State, e: Event) {
    && t.events == s.events + [e]
    && match e
       case MintStateChanged(state) =>
         s.startBlock.Some? && s.minting != state && t.minting == state && t.callback == s.callback
         && t.startBlock == s.startBlock
       case OnTokenMintedStateChanged(state) =>
         s.startBlock.Some? && s.callback != state && t.callback == state && t.minting == s.minting
         && t.startBlock == s.startBlock
       case MintStarted(block) =>
         s.startBlock.None? && t.startBlock == Some(block) && t.minting.Running? && t.callback.Running?
       case Minted(_) =>
         s.startBlock.Some? && s.minting.Running? && t.minting == s.minting && t.callback == s.callback
         && t.startBlock == s.startBlock
  }

  lemma AnnouncedChange(g: State, s: State, t: State, e: Event)
    requires FollowsLog(g, s) && Announces(s, t, e)
    ensures FollowsLog(g, t)
  {
    assert t.events[..|t.events| - 1] == s.events;
  }

  lemma HookFollowsLog(cfg: Config, g: State, s: State, n: BlockNumber)
    requires cfg.Usable() && FollowsLog(g, s)
    ensures FollowsLog(g, OnInitialize(cfg, s, n))
  {
    var minted := HookOnlyMints(cfg, s, n);
    if minted == [] {
      assert s.events + minted == s.events;
    } else {
      AnnouncedChange(g, s, OnInitialize(cfg, s, n), minted[0]);
    }
  }

  lemma CallAnnounces(s: State, a: Action) returns (e: Event)
    requires !a.NextBlock? && Call(s, a).Ok?
    ensures Announces(s, Call(s, a).value, e)
  {
    e := match a
      case CallSetMintState(_, state) => MintStateChanged(state)
      case CallSetOnTokenMintedState(_, state) => OnTokenMintedStateChanged(state)
      case CallStartMintFromBlock(_, block) => MintStarted(block)
      case CallStartMintFromNextBlock(_) => MintStarted((s.now + 1) % U32_LIMIT);
  }

  lemma CallFollowsLog(g: State, s: State, a: Action)
    requires FollowsLog(g, s) && !a.NextBlock? && Call(s, a).Ok?
    ensures FollowsLog(g, Call(s, a).value)
  {
    var e := CallAnnounces(s, a);
    AnnouncedChange(g, s, Call(s, a).value, e);
  }

  lemma StepFollowsLog(cfg: Config, g: State, s: State, a: Action)
    requires cfg.Usable() && s.now + 1 < U32_LIMIT && FollowsLog(g, s)
    ensures FollowsLog(g, Step(cfg, s, a))
  {
    if a.NextBlock? {
      HookFollowsLog(cfg, g, s, s.now + 1);
    } else if Call(s, a).Ok? {
      CallFollowsLog(g, s, a);
    }
  }

  /** The switches and the start are what was last announced, and nothing is minted while stopped. */
  lemma {:induction false} ReachableFollowsLog(cfg: Config, g: State, run: seq<Action>, s: State)
    requires cfg.Usable() && g.events == [] && Reaches(cfg, g, run, s)
    ensures FollowsLog(g, s)
    decreases |run|
  {
    if run != [] {
      var mid :| Reaches(cfg, g, run[..|run| - 1], mid) && mid.now + 2 < U32_LIMIT
          && s == Step(cfg, mid, run[|run| - 1]);
      ReachableFollowsLog(cfg, g, run[..|run| - 1], mid);
      StepFollowsLog(cfg, g, mid, run[|run| - 1]);
    }
  }

  /**
   Whatever the run, the total minted stays within the closed-form limit and so within the intended
   issuance, and equals the limit exactly from one interval of mints per bit of the first amount on.
   The first amount is what the issuance spreads over two intervals.
   */
  lemma ReachableSupplyLimit(cfg: Config, g: State, run: seq<Action>, s: State, b: nat)
    requires cfg.Usable() && Genesis(g) && Reaches(cfg, g, run, s) && Spreads(cfg.totalIssuance, cfg.interval, b)
    ensures var minted, limit := Sum(Mints(s.events)), Limit(b, cfg.interval);
            && minted <= limit <= cfg.totalIssuance
            && (minted == limit <==> SlotsToZero(b, cfg.interval) <= |Mints(s.events)|)
            && (s.supply == g.supply + minted <==> g.supply + minted < U128_LIMIT)
  {
    ReachableScheduled(cfg, g, run, s);
    FirstSpreads(cfg.totalIssuance, cfg.interval, b);
    PaidWithinLimit(Mints(s.events), cfg.totalIssuance, cfg.interval, b);
  }

  /** And mint number `j` is that amount divided by two to the number of full intervals before it. */
  lemma ReachableAmounts(cfg: Config, g: State, run: seq<Action>, s: State, b: nat, j: nat)
    requires cfg.Usable() && Genesis(g) && Reaches(cfg, g, run, s) && Spreads(cfg.totalIssuance, cfg.interval, b)
    requires j < |Mints(s.events)|
    ensures 0 <= j / cfg.interval && Mints(s.events)[j] == b / Pow2(j / cfg.interval)
  {
    ReachableScheduled(cfg, g, run, s);
    FirstSpreads(cfg.totalIssuance, cfg.interval, b);
    SlotIsHalved(b, cfg.interval, j);
  }

  /** A thousand over intervals of ten starts at fifty and comes to 970 in all. */
  lemma ThousandOverTen(cfg: Config)
    requires cfg == Config(1000, 10)
    ensures cfg.Usable() && cfg.First() == 50 && Limit(cfg.First(), 10) == 970
    ensures SlotsToZero(cfg.First(), 10) == 60
  {
    FirstSpreads(1000, 10, 50);
    BitsOfFifty();
  }

  lemma BitsOfFifty()
    ensures PopCount(50) == 3 && BitLength(50) == 6
  {
  }

  /** Two runs of one configuration mint the same amounts: pauses and start blocks only delay. */
  lemma PausesOnlyDelay(cfg: Config, g: State, run: seq<Action>, s: State, g': State, run': seq<Action>, s': State)
    requires cfg.Usable()
    requires Genesis(g) && Reaches(cfg, g, run, s)
    requires Genesis(g') && Reaches(cfg, g', run', s')
    requires |Mints(s.events)| <= |Mints(s'.events)|
    ensures Mints(s.events) <= Mints(s'.events)
  {
    ReachableScheduled(cfg, g, run, s);
    ReachableScheduled(cfg, g', run', s');
  }

  /**
   At the very last block number the saturated start can be reached too early: the schedule
   survives that block exactly when minting is stopped or its start has not saturated.
   */
  lemma LastBlockKeepsScheduleIff(cfg: Config, s: State)
    requires cfg.Usable() && Scheduled(cfg, s) && s.now == U32_LIMIT - 2 && s.startBlock.Some?
    ensures Scheduled(cfg, OnInitialize(cfg, s, U32_LIMIT - 1)) <==>
              s.minting.Stopped? || s.startBlock.value + s.skipped < U32_LIMIT
  {
    if StartFits(s) {
      HookMintsNextSlot(cfg, s, U32_LIMIT - 1);
    } else if s.minting.Running? {
      var t := OnInitialize(cfg, s, U32_LIMIT - 1);
      MintsAfter(s.events, t.events[|s.events|]);
      assert |Mints(t.events)| == 1 && SlotsDue(t) == 0;
    }
  }

  /** A chain begins on schedule exactly when its start block, if set at genesis, lies ahead. */
  lemma GenesisScheduledIff(cfg: Config, g: State)
    requires cfg.Usable() && g.now == 0 && g.skipped == 0 && g.events == []
    ensures Scheduled(cfg, g) <==> Genesis(g)
  {
    assert Mints(g.events) == [];
  }

  /** A start block of 0 set at genesis loses its first slot: no hook runs at block 0. */
  lemma GenesisBlockIsNeverMinted(cfg: Config, g: State)
    requires cfg.Usable() && cfg.interval == 1 && cfg.First() == 2
    requires g.now == 0 && g.skipped == 0 && g.events == [] && g.startBlock == Some(0) && g.minting.Running?
    ensures Mints(OnInitialize(cfg, g, 1).events) == [1]
  {
    var t := OnInitialize(cfg, g, 1);
    MintsAfter([], Minted(1));
    assert t.events == [] + [Minted(1)];
  }

  /** The pallet's storage, updated in place. */
  class Pallet {
    const cfg: Config
    ghost const initial: Balance
    var now: BlockNumber
    var minting: Switch
    var callback: Switch
    var startBlock: Option<BlockNumber>
    var skipped: BlockNumber
    var supply: Balance
    var events: seq<Event>

    /** The pallet over a stored state; `initial` is the supply at genesis. */
    constructor (cfg: Config, s: State, ghost initial: Balance)
      ensures this.cfg == cfg && this.initial == initial && View() == s
    {
      this.cfg, this.initial := cfg, initial;
      now, minting, callback, startBlock := s.now, s.minting, s.callback, s.startBlock;
      skipped, supply, events := s.skipped, s.supply, s.events;
    }

    function View(): State
      reads this
    {
      State(now, minting, callback, startBlock, skipped, supply, events)
    }

    /** The due slots have been paid and nothing else. */
    ghost predicate Valid()
      reads this
    {
      cfg.Usable() && Scheduled(cfg, View()) && Supplied(initial, View())
    }

    /** Finds what a slot pays by halving the first amount once per elapsed interval. */
    method SlotAmount(index: BlockNumber) returns (minted: Balance)
      requires cfg.Usable()
      ensures minted == Slot(cfg.First(), cfg.interval, index)
      ensures 0 <= index / cfg.interval && minted == cfg.First() / Pow2(index / cfg.interval)
    {
      minted := cfg.First();
      QuotientRange(index, cfg.interval);
      var halvingRound := index / cfg.interval;
      HalvedNone(cfg.First());
      var i := 0;
      while i < halvingRound
        invariant 0 <= i <= halvingRound
        invariant minted == Halved(cfg.First(), i)
      {
        HalvedNext(cfg.First(), i);
        minted := minted / 2;
        i := i + 1;
      }
      SlotIsHalved(cfg.First(), cfg.interval, index);
    }

    /** The hook of block `n`. */
    method BeginBlock(n: BlockNumber)
      requires cfg.Usable()
      modifies this
      ensures View() == OnInitialize(cfg, old(View()), n)
    {
      now := n;
      if startBlock.None? {
        return;
      }
      if minting.Stopped? {
        skipped := SaturatingAdd(skipped, 1, U32_LIMIT);
        return;
      }
      var begin := SaturatingAdd(startBlock.value, skipped, U32_LIMIT);
      if n < begin {
        return;
      }
      var minted := SlotAmount(n - begin);
      supply := SaturatingAdd(supply, minted, U128_LIMIT);
      events := events + [Minted(minted)];
    }

    method SetMinting(origin: Origin, state: Switch) returns (r: Result<(), Error>)
      modifies `minting, `events
      ensures match SetMintState(old(View()), origin, state)
              case Ok(t) => r == Ok(()) && View() == t
              case Err(e) => r == Err(e) && View() == old(View())
    {
      var _ :- Need(origin.Root?, BadOrigin);
      var _ :- Need(startBlock.Some?, MintNotStarted);
      var _ :- Need(state != minting, MintStateUnchanged);
      minting := state;
      events := events + [MintStateChanged(state)];
      return Ok(());
    }

    method SetCallback(origin: Origin, state: Switch) returns (r: Result<(), Error>)
      modifies `callback, `events
      ensures match SetOnTokenMintedState(old(View()), origin, state)
              case Ok(t) => r == Ok(()) && View() == t
              case Err(e) => r == Err(e) && View() == old(View())
    {
      var _ :- Need(origin.Root?, BadOrigin);
      var _ :- Need(startBlock.Some?, MintNotStarted);
      var _ :- Need(state != callback, OnTokenMintedStateUnchanged);
      callback := state;
      events := events + [OnTokenMintedStateChanged(state)];
      return Ok(());
    }

    method Start(origin: Origin, block: BlockNumber) returns (r: Result<(), Error>)
      modifies `minting, `callback, `startBlock, `events
      ensures match StartMintFromBlock(old(View()), origin, block)
              case Ok(t) => r == Ok(()) && View() == t
              case Err(e) => r == Err(e) && View() == old(View())
    {
      var _ :- Need(origin.Root?, BadOrigin);
      var _ :- Need(startBlock.None?, MintAlreadyStarted);
      var _ :- Need(block > now, StartBlockTooEarly);
      minting := Running;
      callback := Running;
      startBlock := Some(block);
      events := events + [MintStarted(block)];
      return Ok(());
    }

    method StartFromNextBlock(origin: Origin) returns (r: Result<(), Error>)
      modifies `minting, `callback, `startBlock, `events
      ensures match StartMintFromNextBlock(old(View()), origin)
              case Ok(t) => r == Ok(()) && View() == t
              case Err(e) => r == Err(e) && View() == old(View())
    {
      r := Start(origin, (now + 1) % U32_LIMIT);
    }

    /** Any call or block below the last one: one step of a run, which keeps the schedule. */
    method Dispatch(a: Action)
      requires cfg.Usable() && now + 2 < U32_LIMIT
      modifies this
      ensures View() == Step(cfg, old(View()), a)
      ensures old(Valid()) ==> Valid()
    {
      ghost var before := View();
      match a {
        case NextBlock => BeginBlock(now + 1);
        case CallSetMintState(origin, state) => var _ := SetMinting(origin, state);
        case CallSetOnTokenMintedState(origin, state) => var _ := SetCallback(origin, state);
        case CallStartMintFromBlock(origin, block) => var _ := Start(origin, block);
        case CallStartMintFromNextBlock(origin) => var _ := StartFromNextBlock(origin);
      }
      if Scheduled(cfg, before) && Supplied(initial, before) {
        StepKeepsSchedule(cfg, initial, before, a);
      }
    }
  }
}
