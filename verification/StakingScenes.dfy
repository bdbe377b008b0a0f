/**
 Concrete steps of a small chain: two pools of nine one-block epochs, users with a few units of the
 asset, and what a call or a block makes of a state whose positions are given.
 */
module StakingScenes {
  import opened Base
  import opened StakingInfos
  import opened Epochs
  import opened Queue
  import opened Drift
  import opened StakingState
  import opened StakingRuns

  ghost function Lazy(): Config { Config(0, 1, (p: u128, q: u128) => 0) }

  ghost function Days(): PoolSetting { PoolSetting(0, 9, 1, 0, 100) }

  /** Block 0: nothing stored, users 2 and 3 with 50 units of asset 7 each, 30 native tokens to pay out. */
  ghost function Fresh(): State {
    State(0, map[], Deposits(map[], map[], [], map[]), Book(None, map[]), Rewards(map[], map[]),
          Tokens(None, map[(7, 2) := 50, (7, 3) := 50], map[1 := 30]), [])
  }

  ghost predicate Reached(acts: seq<Action>, s: State) {
    && AdmissibleRun(Lazy(), 7, acts)
    && After(Lazy(), Fresh(), acts) == s
  }

  lemma Next(acts: seq<Action>, s: State, a: Action)
    requires Reached(acts, s) && Admissible(Lazy(), 7, a)
    ensures Reached(acts + [a], Apply(Lazy(), s, a))
    ensures SoundRun(acts) && Sound(a) ==> SoundRun(acts + [a])
  {
    assert (acts + [a])[..|acts + [a]| - 1] == acts;
  }

  /** Both pools open, the asset registered, and little in the escrow. */
  ghost predicate Plain(s: State) {
    && s.settings == map[1 := Days(), 2 := Days()]
    && s.tokens.aiusd == Some(7)
    && GetOrZero(s.tokens.assets, (7, 0)) < 1000
  }

  ghost function Announcements(): seq<Event> {
    [StakingPoolCreated(1, Days())] + [StakingPoolCreated(2, Days())] + [AiusdRegistered(7)]
  }

  lemma Creates(s: State, pool: PoolId)
    requires s.now == 0 && pool !in s.settings
    ensures Apply(Lazy(), s, CallCreate(Root, pool, Days())) ==
              s.(settings := s.settings[pool := Days()], events := s.events + [StakingPoolCreated(pool, Days())])
  {
  }

  lemma Registers(s: State)
    ensures Apply(Lazy(), s, CallRegist(Root, 7)) ==
              s.(tokens := s.tokens.(aiusd := Some(7)), events := s.events + [AiusdRegistered(7)])
  {
  }

  /** A block before anything is due. */
  lemma Idles(s: State)
    requires s.now < 100 && (s.deposits.pending == [] || s.now + 1 < s.deposits.pending[0].Time())
    ensures Apply(Lazy(), s, NextBlock) == s.(now := s.now + 1)
  {
  }

  lemma ReachesCreated(acts: seq<Action>, s: State, pool: PoolId) returns (more: seq<Action>)
    requires Reached(acts, s) && SoundRun(acts) && s.now == 0 && pool !in s.settings
    ensures SoundRun(more)
    ensures Reached(more, s.(settings := s.settings[pool := Days()],
          events := s.events + [StakingPoolCreated(pool, Days())]))
  {
    Creates(s, pool);
    Next(acts, s, CallCreate(Root, pool, Days()));
    more := acts + [CallCreate(Root, pool, Days())];
  }

  lemma ReachesRegistered(acts: seq<Action>, s: State) returns (more: seq<Action>)
    requires Reached(acts, s) && SoundRun(acts)
    ensures SoundRun(more)
    ensures Reached(more, s.(tokens := s.tokens.(aiusd := Some(7)), events := s.events + [AiusdRegistered(7)]))
  {
    Registers(s);
    Next(acts, s, CallRegist(Root, 7));
    more := acts + [CallRegist(Root, 7)];
  }

  /** Blocks up to `n` in which nothing is due. */
  lemma IdlesTo(acts: seq<Action>, s: State, n: BlockNumber) returns (more: seq<Action>)
    requires Reached(acts, s) && SoundRun(acts) && s.now <= n < 100
    requires s.deposits.pending == [] || n < s.deposits.pending[0].Time()
    ensures Reached(more, s.(now := n)) && SoundRun(more)
    decreases n - s.now
  {
    if s.now == n {
      more := acts;
    } else {
      Idles(s);
      Next(acts, s, NextBlock);
      more := IdlesTo(acts + [NextBlock], s.(now := s.now + 1), n);
    }
  }

  /** The two pools are created, the asset registered and the first block begun. */
  lemma Opening() returns (acts: seq<Action>, s: State)
    ensures Reached(acts, s) && SoundRun(acts) && Plain(s)
    ensures s == Fresh().(now := 1, settings := s.settings, tokens := Fresh().tokens.(aiusd := Some(7)),
          events := Announcements())
  {
    assert Reached([], Fresh()) && SoundRun([]);
    acts := ReachesCreated([], Fresh(), 1);
    s := Fresh().(settings := map[1 := Days()], events := [StakingPoolCreated(1, Days())]);
    assert Fresh().settings[1 := Days()] == s.settings && Fresh().events + [StakingPoolCreated(1, Days())] == s.events;
    acts := ReachesCreated(acts, s, 2);
    s := s.(settings := s.settings[2 := Days()], events := s.events + [StakingPoolCreated(2, Days())]);
    acts := ReachesRegistered(acts, s);
    s := s.(tokens := s.tokens.(aiusd := Some(7)), events := s.events + [AiusdRegistered(7)]);
    acts := IdlesTo(acts, s, 1);
    s := s.(now := 1);
  }

  lemma TargetIsNext(now: BlockNumber)
    requires 0 < now < 8
    ensures TargetTime(Days(), now) == Ok(now + 1)
  {
    assert EpochIndex(Days(), now) == Ok(now);
    assert EpochBeginTime(Days(), now + 1) == Ok(now + 1);
  }

  ghost function Stakes(who: AccountId, pool: PoolId, amount: Balance): Action {
    CallStake(Signed(who), pool, amount, {})
  }

  ghost predicate AllAt(q: seq<Order>, n: int) {
    forall i :: 0 <= i < |q| ==> q[i].Time() == n
  }

  /** An order behind those that wait. */
  ghost function Behind(d: Deposits, x: Order): Deposits
    requires GetOrZero(d.pendingAmount, x.pool) + x.info.amount <= 100
  {
    var queued := GetOrZero(d.pendingAmount, x.pool) + x.info.amount;
    d.(pending := d.pending + [x], pendingAmount := d.pendingAmount[x.pool := queued])
  }

  lemma Joins(d: Deposits, x: Order)
    requires AllAt(d.pending, x.Time())
    requires GetOrZero(d.pendingAmount, x.pool) + x.info.amount <= 100
    ensures Enqueue(d, x) == Ok(Behind(d, x))
  {
    SortAfterPush(d.pending, x);
  }

  /** A user has paid the escrow, and nobody else's balance has changed. */
  ghost predicate Paid(t: Tokens, u: Tokens, who: AccountId, amount: int) {
    && u.aiusd == t.aiusd && u.native == t.native
    && GetOrZero(u.assets, (7, 0)) == GetOrZero(t.assets, (7, 0)) + amount
    && GetOrZero(u.assets, (7, who)) == GetOrZero(t.assets, (7, who)) - amount
    && (forall w :: w != 0 && w != who ==> GetOrZero(u.assets, (7, w)) == GetOrZero(t.assets, (7, w)))
  }

  lemma Pays(t: Tokens, who: AccountId, amount: Balance)
    requires who != 0 && amount <= GetOrZero(t.assets, (7, who)) && GetOrZero(t.assets, (7, 0)) + amount < 1000
    ensures Transfer(t, 7, who, 0, amount, {}).Ok?
    ensures Paid(t, Transfer(t, 7, who, 0, amount, {}).value, who, amount)
  {
  }

  /** A deposit from what its parts come to. */
  lemma Accepts(s: State, who: AccountId, pool: PoolId, amount: Balance, d: Deposits, natives: Book<AccountId>,
          u: Tokens)
    requires pool in s.settings && s.settings[pool] == Days() && 0 < s.now < 8 && s.tokens.aiusd == Some(7)
    requires AvailableCap(s.deposits, pool, 100).Ok? && amount <= AvailableCap(s.deposits, pool, 100).value
    requires Enqueue(s.deposits, NewOrder(who, pool, s.now + 1, amount)) == Ok(d)
    requires Deposit(s.natives, who, s.now, amount) == Some(natives)
    requires Transfer(s.tokens, 7, who, 0, amount, {}) == Ok(u)
    ensures Apply(Lazy(), s, Stakes(who, pool, amount)) ==
              s.(deposits := d, natives := natives, tokens := u,
                  events := s.events + [Staked(who, pool, s.now + 1, amount)])
  {
    TargetIsNext(s.now);
  }

  /** A deposit at `now`, queued and counted natively. */
  ghost function Placed(s: State, who: AccountId, pool: PoolId, amount: Balance, whole: StakingInfo, part: StakingInfo,
          u: Tokens): State
    requires s.now < 8 && GetOrZero(s.deposits.pendingAmount, pool) + amount <= 100
  {
    s.(deposits := Behind(s.deposits, NewOrder(who, pool, s.now + 1, amount)),
       natives := Book(Some(whole), s.natives.users[who := part]), tokens := u,
       events := s.events + [Staked(who, pool, s.now + 1, amount)])
  }

  lemma Places(s: State, who: AccountId, pool: PoolId, amount: Balance, whole: StakingInfo, part: StakingInfo)
    requires Plain(s) && 0 < s.now < 8 && who != 0 && pool in s.settings
    requires AllAt(s.deposits.pending, s.now + 1)
    requires (if pool in s.deposits.pools then s.deposits.pools[pool].amount else 0)
             + GetOrZero(s.deposits.pendingAmount, pool) + amount <= 100
    requires amount <= GetOrZero(s.tokens.assets, (7, who)) && GetOrZero(s.tokens.assets, (7, 0)) + amount < 1000
    requires AddOrCreate(s.natives.pool, s.now, amount) == Some(whole)
    requires AddOrCreate(Lookup(s.natives.users, who), s.now, amount) == Some(part)
    ensures var t := Apply(Lazy(), s, Stakes(who, pool, amount));
            t == Placed(s, who, pool, amount, whole, part, t.tokens) && Paid(s.tokens, t.tokens, who, amount)
  {
    var x := NewOrder(who, pool, s.now + 1, amount);
    Pays(s.tokens, who, amount);
    Joins(s.deposits, x);
    RoomIsLeft(s.deposits, pool, amount);
    Counts(s.natives, who, s.now, amount, whole, part);
    Accepts(s, who, pool, amount, Behind(s.deposits, x), Book(Some(whole), s.natives.users[who := part]),
        Transfer(s.tokens, 7, who, 0, amount, {}).value);
  }

  lemma RoomIsLeft(d: Deposits, pool: PoolId, amount: Balance)
    requires (if pool in d.pools then d.pools[pool].amount else 0) + GetOrZero(d.pendingAmount, pool) + amount <= 100
    ensures AvailableCap(d, pool, 100).Ok? && amount <= AvailableCap(d, pool, 100).value
  {
  }

  lemma Counts(b: Book<AccountId>, who: AccountId, now: BlockNumber, amount: Balance, whole: StakingInfo,
          part: StakingInfo)
    requires AddOrCreate(b.pool, now, amount) == Some(whole)
    requires AddOrCreate(Lookup(b.users, who), now, amount) == Some(part)
    ensures Deposit(b, who, now, amount) == Some(Book(Some(whole), b.users[who := part]))
  {
  }

  /** One order settled with the positions it leads to. */
  lemma SolvesOne(d: Deposits, x: Order, n: BlockNumber, whole: StakingInfo, part: StakingInfo)
    requires AddOrCreate(Lookup(d.pools, x.pool), n, x.info.amount) == Some(whole)
    requires AddOrCreate(Lookup(d.users, (x.who, x.pool)), n, x.info.amount) == Some(part)
    requires x.info.amount <= GetOrZero(d.pendingAmount, x.pool)
    ensures SolveOne(d, x, n) == Settled(
              Deposits(d.pools[x.pool := whole], d.users[(x.who, x.pool) := part], d.pending,
                       d.pendingAmount[x.pool := GetOrZero(d.pendingAmount, x.pool) - x.info.amount]),
              [SolvedEvent(x, n)], None)
  {
  }

  /** A block that settles the one order waiting. */
  lemma SettlesOne(s: State, x: Order, whole: StakingInfo, part: StakingInfo)
    requires s.now < 100 && s.deposits.pending == [x] && x.Time() == s.now + 1
    requires AddOrCreate(Lookup(s.deposits.pools, x.pool), s.now + 1, x.info.amount) == Some(whole)
    requires AddOrCreate(Lookup(s.deposits.users, (x.who, x.pool)), s.now + 1, x.info.amount) == Some(part)
    requires x.info.amount <= GetOrZero(s.deposits.pendingAmount, x.pool)
    ensures Apply(Lazy(), s, NextBlock) == s.(now := s.now + 1,
              deposits := Deposits(s.deposits.pools[x.pool := whole], s.deposits.users[(x.who, x.pool) := part], [],
                s.deposits.pendingAmount[x.pool := GetOrZero(s.deposits.pendingAmount, x.pool) - x.info.amount]),
              events := s.events + [SolvedEvent(x, s.now + 1)])
  {
    var d, n := s.deposits.(pending := []), s.now + 1;
    SolvesOne(d, x, n, whole, part);
    var one := SolveOne(d, x, n);
    assert SolveLoop(one.deposits, [], n) == Settled(one.deposits.(pending := []), [], None);
    assert [x][1..] == [];
    assert SolveLoop(d, [x], n) == Settled(one.deposits.(pending := []), [SolvedEvent(x, n)] + [], None);
    assert [SolvedEvent(x, n)] + [] == [SolvedEvent(x, n)];
  }
}
