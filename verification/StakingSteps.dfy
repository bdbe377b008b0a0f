/**
 What each staking call does to the amounts, the queue and the event log, and when settling the
 queue can fail.
 */
module StakingSteps {
  import opened Base
  import opened StakingInfos
  import opened Epochs
  import opened Queue
  import opened Drift
  import opened StakingState
  import opened StakingBooks

  ghost function Deposited(s: State): Books {
    BooksOf(s.settings, s.deposits, s.natives)
  }

  /** The order an accepted deposit becomes. */
  ghost function OrderOf(s: State, who: AccountId, pool: PoolId, amount: Balance): Order
    requires pool in s.settings && TargetTime(s.settings[pool], s.now).Ok?
  {
    NewOrder(who, pool, TargetTime(s.settings[pool], s.now).value, amount)
  }

  /** An accepted deposit is an order for its target epoch, under the cap, queued, counted and paid for. */
  lemma StakeParts(cfg: Config, s: State, origin: Origin, pool: PoolId, amount: Balance, refused: Refused)
    requires Stake(cfg, s, origin, pool, amount, refused).Ok?
    ensures var t := Stake(cfg, s, origin, pool, amount, refused).value;
            && origin.Signed? && pool in s.settings && s.settings[pool].startTime < s.now
            && TargetTime(s.settings[pool], s.now).Ok?
            && AvailableCap(s.deposits, pool, s.settings[pool].poolCap).Ok?
            && amount <= AvailableCap(s.deposits, pool, s.settings[pool].poolCap).value
            && var x := OrderOf(s, origin.who, pool, amount);
            && Enqueue(s.deposits, x) == Ok(t.deposits)
            && Deposit(s.natives, origin.who, s.now, amount) == Some(t.natives)
            && s.tokens.aiusd.Some?
            && Transfer(s.tokens, s.tokens.aiusd.value, origin.who, cfg.escrow, amount, refused) == Ok(t.tokens)
            && t == s.(deposits := t.deposits, natives := t.natives, tokens := t.tokens,
                       events := s.events + [Staked(origin.who, pool, x.Time(), amount)])
  {
  }

  lemma StakeOnBooks(settings: map<PoolId, PoolSetting>, d: Deposits, natives: Book<AccountId>, x: Order,
          now: BlockNumber)
    requires Enqueue(d, x).Ok? && Deposit(natives, x.who, now, x.info.amount).Some?
    ensures BooksOf(settings, Enqueue(d, x).value, Deposit(natives, x.who, now, x.info.amount).value)
              == BooksStake(BooksOf(settings, d, natives), x)
  {
    var d1, n1 := Enqueue(d, x).value, Deposit(natives, x.who, now, x.info.amount).value;
    AddOrCreateAmount(natives.pool, now, x.info.amount);
    AddOrCreateAmount(Lookup(natives.users, x.who), now, x.info.amount);
    AmountsPut(natives.users, x.who, n1.users[x.who]);
    IntegersPut(d.pendingAmount, x.pool, d1.pendingAmount[x.pool]);
  }

  /** A settled order in one update of the deposits. */
  lemma SolveOneExact(d: Deposits, x: Order, n: BlockNumber)
    requires SolveOne(d, x, n).failure.None?
    ensures var whole := AddOrCreate(Lookup(d.pools, x.pool), n, x.info.amount);
            var part := AddOrCreate(Lookup(d.users, (x.who, x.pool)), n, x.info.amount);
            && whole.Some? && part.Some?
            && x.info.amount <= GetOrZero(d.pendingAmount, x.pool)
            && SolveOne(d, x, n) == Settled(d.(
                 pools := d.pools[x.pool := whole.value],
                 users := d.users[(x.who, x.pool) := part.value],
                 pendingAmount := d.pendingAmount[x.pool := GetOrZero(d.pendingAmount, x.pool) - x.info.amount]),
                 [SolvedEvent(x, n)], None)
  {
  }

  /** What an order writes and announces, whether it fails or not. */
  lemma SolvedMaps(d: Deposits, x: Order, n: BlockNumber)
    ensures var one := SolveOne(d, x, n);
            var whole := AddOrCreate(Lookup(d.pools, x.pool), n, x.info.amount);
            var part := AddOrCreate(Lookup(d.users, (x.who, x.pool)), n, x.info.amount);
            && one.deposits.pools == (if whole.None? then d.pools else d.pools[x.pool := whole.value])
            && (if whole.None? || part.None? then one.deposits.users == d.users && one.events == []
                else one.deposits.users == d.users[(x.who, x.pool) := part.value] && one.events == [SolvedEvent(x, n)])
            && one.deposits.pending == d.pending
            && (one.failure.Some? ==> one.deposits.pendingAmount == d.pendingAmount)
            && (one.failure.Some? <==>
                  whole.None? || part.None? || GetOrZero(d.pendingAmount, x.pool) < x.info.amount)
  {
  }

  lemma SettleMaps(d: Deposits, x: Order, whole: StakingInfo, part: StakingInfo)
    requires x.info.amount <= GetOrZero(d.pendingAmount, x.pool)
    requires whole.amount == AmountOf(Amounts(d.pools), x.pool) + x.info.amount
    requires part.amount == (if (x.who, x.pool) in d.users then d.users[(x.who, x.pool)].amount else 0) + x.info.amount
    ensures Amounts(d.pools[x.pool := whole])
          == Amounts(d.pools)[x.pool := AmountOf(Amounts(d.pools), x.pool) + x.info.amount]
    ensures var k, users := (x.who, x.pool), Amounts(d.users);
            Amounts(d.users[k := part]) == users[k := (if k in users then users[k] else 0) + x.info.amount]
    ensures var rest: Balance := GetOrZero(d.pendingAmount, x.pool) - x.info.amount;
            Integers(d.pendingAmount[x.pool := rest]) ==
              Integers(d.pendingAmount)[x.pool := AmountOf(Integers(d.pendingAmount), x.pool) - x.info.amount]
  {
    AmountsPut(d.pools, x.pool, whole);
    AmountsPut(d.users, (x.who, x.pool), part);
    IntegersPut(d.pendingAmount, x.pool, GetOrZero(d.pendingAmount, x.pool) - x.info.amount);
  }

  lemma SettleOnBooks(settings: map<PoolId, PoolSetting>, d: Deposits, natives: Book<AccountId>, q: seq<Order>,
          whole: StakingInfo, part: StakingInfo, t: Deposits)
    requires q != [] && q[0].info.amount <= GetOrZero(d.pendingAmount, q[0].pool)
    requires var x := q[0];
             && whole.amount == AmountOf(Amounts(d.pools), x.pool) + x.info.amount
             && part.amount == (if (x.who, x.pool) in d.users then d.users[(x.who, x.pool)].amount else 0)
                  + x.info.amount
             && t.pools == d.pools[x.pool := whole] && t.users == d.users[(x.who, x.pool) := part]
                  && t.pending == q[1..]
             && t.pendingAmount == d.pendingAmount[x.pool := GetOrZero(d.pendingAmount, x.pool) - x.info.amount]
    ensures BooksOf(settings, t, natives) == BooksSolve(BooksOf(settings, d.(pending := q), natives))
  {
    SettleMaps(d, q[0], whole, part);
    SolvedBooks(BooksOf(settings, d.(pending := q), natives), BooksOf(settings, t, natives));
  }

  lemma SolvedBooks(b: Books, c: Books)
    requires b.pending != [] && c.pending == b.pending[1..]
    requires c.settings == b.settings && c.native == b.native && c.nativeOf == b.nativeOf
    requires var x := b.pending[0];
             && c.pools == b.pools[x.pool := AmountOf(b.pools, x.pool) + x.info.amount]
             && c.users == b.users[(x.who, x.pool) :=
                  (if (x.who, x.pool) in b.users then b.users[(x.who, x.pool)] else 0) + x.info.amount]
             && c.pendingAmount == b.pendingAmount[x.pool := AmountOf(b.pendingAmount, x.pool) - x.info.amount]
    ensures c == BooksSolve(b)
  {
  }

  /** Settling one order moves it from the pending amount to its pool and user. */
  lemma SolveOneOnBooks(settings: map<PoolId, PoolSetting>, d: Deposits, natives: Book<AccountId>, q: seq<Order>,
          n: BlockNumber)
    requires d.pending == [] && q != [] && SolveOne(d, q[0], n).failure.None?
    ensures var t := SolveOne(d, q[0], n).deposits;
            && t.pending == []
            && BooksOf(settings, t.(pending := q[1..]), natives)
                 == BooksSolve(BooksOf(settings, d.(pending := q), natives))
  {
    var x := q[0];
    SolveOneExact(d, x, n);
    var whole := AddOrCreate(Lookup(d.pools, x.pool), n, x.info.amount);
    var part := AddOrCreate(Lookup(d.users, (x.who, x.pool)), n, x.info.amount);
    AddOrCreateAmount(Lookup(d.pools, x.pool), n, x.info.amount);
    AddOrCreateAmount(Lookup(d.users, (x.who, x.pool)), n, x.info.amount);
    SettleOnBooks(settings, d, natives, q, whole.value, part.value, SolveOne(d, x, n).deposits.(pending := q[1..]));
  }

  ghost function SolvedEvents(q: seq<Order>, n: BlockNumber): seq<Event> {
    if q == [] then [] else [SolvedEvent(q[0], n)] + SolvedEvents(q[1..], n)
  }

  lemma LogOneSolved(events: seq<Event>, q: seq<Order>, n: BlockNumber)
    requires q != []
    ensures events + SolvedEvents(q, n) == (events + [SolvedEvent(q[0], n)]) + SolvedEvents(q[1..], n)
  {
  }

  /** A run of the loop that does not fail settles exactly the ripe front and keeps the rest in order. */
  lemma {:induction false} SolveLoopSettlesRipe(d: Deposits, q: seq<Order>, n: BlockNumber)
    requires d.pending == [] && SolveLoop(d, q, n).failure.None?
    ensures SolveLoop(d, q, n).deposits.pending == q[RipeCount(q, n)..]
    ensures SolveLoop(d, q, n).events == SolvedEvents(q[..RipeCount(q, n)], n)
    decreases |q|
  {
    if q != [] && q[0].Time() <= n {
      var one := SolveOne(d, q[0], n);
      SolveOneExact(d, q[0], n);
      SolveLoopSettlesRipe(one.deposits, q[1..], n);
      var k := RipeCount(q[1..], n);
      assert q[1..][k..] == q[k + 1..];
      assert q[..k + 1][1..] == q[1..][..k];
    }
  }

  lemma SolveLoopSplits(d: Deposits, q: seq<Order>, n: BlockNumber, events: seq<Event>)
    requires q != [] && q[0].Time() <= n && SolveOne(d, q[0], n).failure.None?
    ensures var one := SolveOne(d, q[0], n);
            var rest := SolveLoop(one.deposits, q[1..], n);
            && SolveLoop(d, q, n).deposits == rest.deposits
            && events + SolveLoop(d, q, n).events == events + one.events + rest.events
  {
    var one := SolveOne(d, q[0], n);
    var rest := SolveLoop(one.deposits, q[1..], n);
    assert events + (one.events + rest.events) == events + one.events + rest.events;
  }

  /** Whatever becomes of the loop, it announces nothing but settled orders. */
  lemma {:induction false} SolvingOnlySettles(d: Deposits, q: seq<Order>, n: BlockNumber)
    ensures forall e :: e in SolveLoop(d, q, n).events ==> e.PendingStakingSolved?
    decreases |q|
  {
    if q != [] && q[0].Time() <= n {
      SolvingOnlySettles(SolveOne(d, q[0], n).deposits, q[1..], n);
    }
  }

  lemma {:induction false} SolveLoopConserves(settings: map<PoolId, PoolSetting>, d: Deposits,
          natives: Book<AccountId>, q: seq<Order>, n: BlockNumber)
    requires d.pending == [] && SolveLoop(d, q, n).failure.None?
    requires Conserved(BooksOf(settings, d.(pending := q), natives))
    ensures Conserved(BooksOf(settings, SolveLoop(d, q, n).deposits, natives))
    decreases |q|
  {
    if q != [] && q[0].Time() <= n {
      SolveOneOnBooks(settings, d, natives, q, n);
      SolveConserves(BooksOf(settings, d.(pending := q), natives));
      SolveLoopConserves(settings, SolveOne(d, q[0], n).deposits, natives, q[1..], n);
    }
  }

  /** Settling at `n` leaves exactly the orders that are not due, in their order. */
  lemma SolvePendingFilters(d: Deposits, n: BlockNumber)
    requires Sorted(d.pending) && SolvePending(d, n).failure.None?
    ensures SolvePending(d, n).deposits.pending == Unripe(d.pending, n)
  {
    SolveLoopSettlesRipe(d.(pending := []), d.pending, n);
    DropRipeIsFilter(d.pending, n);
  }

  /** A cap under which no moment of a pool can leave a u128. */
  predicate SmallCap(cap: int) {
    cap * (U32_LIMIT - 1) < U128_LIMIT
  }

  ghost predicate CapsSmall(settings: map<PoolId, PoolSetting>) {
    forall p :: p in settings ==> SmallCap(settings[p].poolCap)
  }

  /** An add of nothing to a position of nothing: the average would divide by zero. */
  ghost predicate DividesByZero(position: Option<StakingInfo>, added: Balance) {
    position.Some? && position.value.amount == 0 && added == 0
  }

  /** An add that neither divides by zero nor takes the moment out of a u128. */
  ghost predicate Fits(position: Option<StakingInfo>, time: BlockNumber, added: Balance) {
    position.Some? ==>
      0 < position.value.amount + added && position.value.Moment() + time * added < U128_LIMIT
  }

  lemma AddFitsIff(position: Option<StakingInfo>, time: BlockNumber, added: Balance)
    requires (if position.None? then 0 else position.value.amount) + added < U128_LIMIT
    ensures AddOrCreate(position, time, added).Some? <==> Fits(position, time, added)
  {
    if position.Some? {
      AddSucceedsIff(position.value, time, added);
    }
  }

  /** Under a small cap only a zero amount on an empty position does not fit. */
  lemma FitsUnderCapIff(position: Option<StakingInfo>, time: BlockNumber, added: Balance, cap: Balance)
    requires (if position.None? then 0 else position.value.amount) + added <= cap
    requires SmallCap(cap)
    ensures Fits(position, time, added) <==> !DividesByZero(position, added)
  {
    if position.Some? && 0 < position.value.amount + added {
      var p := position.value;
      AverageInRange(p.effectiveTime, p.amount, time, added, U32_LIMIT - 1);
      MulBounds(p.amount + added, cap, U32_LIMIT - 1);
    }
  }

  lemma HeadUnderCap(settings: map<PoolId, PoolSetting>, d: Deposits, natives: Book<AccountId>, q: seq<Order>)
    requires q != [] && Conserved(BooksOf(settings, d.(pending := q), natives))
    ensures var x := q[0];
            && x.pool in settings
            && x.info.amount <= GetOrZero(d.pendingAmount, x.pool)
            && (if x.pool in d.pools then d.pools[x.pool].amount else 0) + x.info.amount <= settings[x.pool].poolCap
            && ((x.who, x.pool) in d.users ==>
                  x.pool in d.pools && d.users[(x.who, x.pool)].amount <= d.pools[x.pool].amount)
  {
    var x := q[0];
    var b := BooksOf(settings, d.(pending := q), natives);
    assert PoolConserved(b, x.pool) && x in b.pending;
    SolveConserves(b);
    if (x.who, x.pool) in d.users {
      assert (x.who, x.pool) in b.users;
      PositionCovered(b, x.who, x.pool);
    }
  }

  /** Settling one order fails exactly when its add to the pool or to its user's position does not fit. */
  lemma SolveOneFailsIff(settings: map<PoolId, PoolSetting>, d: Deposits, natives: Book<AccountId>, q: seq<Order>,
          n: BlockNumber)
    requires q != [] && Conserved(BooksOf(settings, d.(pending := q), natives))
    ensures SolveOne(d, q[0], n).failure.None? <==>
              && Fits(Lookup(d.pools, q[0].pool), n, q[0].info.amount)
              && Fits(Lookup(d.users, (q[0].who, q[0].pool)), n, q[0].info.amount)
  {
    var x := q[0];
    HeadUnderCap(settings, d, natives, q);
    AddFitsIff(Lookup(d.pools, x.pool), n, x.info.amount);
    AddFitsIff(Lookup(d.users, (x.who, x.pool)), n, x.info.amount);
  }

  /** Under small caps that is when a zero amount meets an empty position. */
  lemma SolveOneFailsOnZeroIff(settings: map<PoolId, PoolSetting>, d: Deposits, natives: Book<AccountId>, q: seq<Order>,
          n: BlockNumber)
    requires q != [] && Conserved(BooksOf(settings, d.(pending := q), natives)) && CapsSmall(settings)
    ensures SolveOne(d, q[0], n).failure.None? <==>
              && !DividesByZero(Lookup(d.pools, q[0].pool), q[0].info.amount)
              && !DividesByZero(Lookup(d.users, (q[0].who, q[0].pool)), q[0].info.amount)
  {
    var x := q[0];
    HeadUnderCap(settings, d, natives, q);
    SolveOneFailsIff(settings, d, natives, q, n);
    FitsUnderCapIff(Lookup(d.pools, x.pool), n, x.info.amount, settings[x.pool].poolCap);
    FitsUnderCapIff(Lookup(d.users, (x.who, x.pool)), n, x.info.amount, settings[x.pool].poolCap);
  }

  ghost predicate AllPositive(q: seq<Order>) {
    forall o :: o in q ==> 0 < o.info.amount
  }

  /** With positive amounts and small caps, settling the queue never fails. */
  lemma {:induction false} SolveLoopNeverFails(settings: map<PoolId, PoolSetting>, d: Deposits,
          natives: Book<AccountId>, q: seq<Order>, n: BlockNumber)
    requires d.pending == [] && Conserved(BooksOf(settings, d.(pending := q), natives)) && CapsSmall(settings)
          && AllPositive(q)
    ensures SolveLoop(d, q, n).failure.None?
    decreases |q|
  {
    if q != [] && q[0].Time() <= n {
      assert q[0] in q;
      SolveOneFailsOnZeroIff(settings, d, natives, q, n);
      SolveOneOnBooks(settings, d, natives, q, n);
      SolveConserves(BooksOf(settings, d.(pending := q), natives));
      forall o | o in q[1..] ensures 0 < o.info.amount {
        assert o in q;
      }
      SolveLoopNeverFails(settings, SolveOne(d, q[0], n).deposits, natives, q[1..], n);
    }
  }

  /** A claim of native reward moves times and native tokens only. */
  lemma NativeClaimParts(cfg: Config, s: State, who: AccountId, until: BlockNumber, refused: Refused)
    requires DoNativeClaim(cfg, s, who, until, refused).Ok?
    ensures var t := DoNativeClaim(cfg, s, who, until, refused).value;
            && Deposited(t) == Deposited(s)
            && until <= s.now
            && Claim(s.natives, who, until) == Some(t.natives)
            && t.tokens == s.tokens.(native := t.tokens.native)
            && (t == s || exists reward: Balance ::
                  t == s.(natives := t.natives, tokens := t.tokens,
                      events := s.events + [NativeRewardClaimed(who, until, reward)]))
  {
    var t := DoNativeClaim(cfg, s, who, until, refused).value;
    if s.natives.pool.Some? && who in s.natives.users {
      AmountsPut(s.natives.users, who, t.natives.users[who]);
      assert Amounts(t.natives.users) == Amounts(s.natives.users);
      var reward := t.events[|s.events|].amount;
      assert t == s.(natives := t.natives, tokens := t.tokens,
          events := s.events + [NativeRewardClaimed(who, until, reward)]);
    }
  }

  /** A claim that pays `reward`, as seen from everything but the positions. */
  ghost predicate StableClaimPays(cfg: Config, s: State, t: State, who: AccountId, pool: PoolId, until: BlockNumber,
          refused: Refused, reward: Balance) {
    && reward <= GetOrZero(s.rewards.unclaimed, pool)
    && s.tokens.aiusd.Some?
    && Transfer(s.tokens, s.tokens.aiusd.value, cfg.escrow, who, reward, refused) == Ok(t.tokens)
    && t.rewards == s.rewards.(unclaimed := s.rewards.unclaimed[pool := GetOrZero(s.rewards.unclaimed, pool) - reward])
    && t.events == s.events + [StableRewardClaimed(who, pool, until, reward)]
    && t.now == s.now && t.settings == s.settings && t.natives == s.natives
    && t.deposits.pending == s.deposits.pending && t.deposits.pendingAmount == s.deposits.pendingAmount
    && t.deposits.users.Keys == s.deposits.users.Keys
  }

  /** A claim of stable reward moves times, and pays at most what the pool has unclaimed. */
  lemma StableClaimParts(cfg: Config, s: State, who: AccountId, pool: PoolId, until: BlockNumber, refused: Refused)
    requires DoStableClaim(cfg, s, who, pool, until, refused).Ok?
    ensures s.tokens.aiusd.Some? && until <= s.now
    ensures if pool !in s.deposits.pools || (who, pool) !in s.deposits.users
            then DoStableClaim(cfg, s, who, pool, until, refused).value == s
            else exists reward: Balance ::
                   StableClaimPays(cfg, s, DoStableClaim(cfg, s, who, pool, until, refused).value, who, pool, until,
                       refused, reward)
  {
    var t := DoStableClaim(cfg, s, who, pool, until, refused).value;
    if pool in s.deposits.pools && (who, pool) in s.deposits.users {
      var reward := t.events[|s.events|].amount;
      assert StableClaimPays(cfg, s, t, who, pool, until, refused, reward);
    }
  }

  /** Its positions are those of one share taken from the pool. */
  lemma StableClaimShare(cfg: Config, s: State, who: AccountId, pool: PoolId, until: BlockNumber, refused: Refused)
    requires DoStableClaim(cfg, s, who, pool, until, refused).Ok?
    requires pool in s.deposits.pools && (who, pool) in s.deposits.users
    ensures TakeShare(s.deposits.pools[pool], s.deposits.users[(who, pool)], until).Some?
    ensures var t := DoStableClaim(cfg, s, who, pool, until, refused).value;
            var share := TakeShare(s.deposits.pools[pool], s.deposits.users[(who, pool)], until).value;
            && t.deposits.pools == s.deposits.pools[pool := share.pool]
            && t.deposits.users == s.deposits.users[(who, pool) := share.user]
  {
  }

  lemma StableClaimOnBooks(cfg: Config, s: State, who: AccountId, pool: PoolId, until: BlockNumber, refused: Refused)
    requires DoStableClaim(cfg, s, who, pool, until, refused).Ok?
    ensures Deposited(DoStableClaim(cfg, s, who, pool, until, refused).value) == Deposited(s)
  {
    var t := DoStableClaim(cfg, s, who, pool, until, refused).value;
    if pool in s.deposits.pools && (who, pool) in s.deposits.users {
      StableClaimShare(cfg, s, who, pool, until, refused);
      AmountsPut(s.deposits.users, (who, pool), t.deposits.users[(who, pool)]);
      AmountsPut(s.deposits.pools, pool, t.deposits.pools[pool]);
      assert Amounts(t.deposits.users) == Amounts(s.deposits.users);
      assert Amounts(t.deposits.pools) == Amounts(s.deposits.pools);
    }
  }

  lemma WithdrawNativeOnBooks(b: Book<AccountId>, who: AccountId, amount: Balance)
    requires WithdrawNative(b, who, amount).Some?
    requires amount <= PoolAmount(b) && who in b.users && amount <= b.users[who].amount
    ensures var c := WithdrawNative(b, who, amount).value;
            && PoolAmount(c) == PoolAmount(b) - amount
            && Amounts(c.users) == (if b.users[who].amount == amount then Amounts(b.users) - {who}
                                    else Amounts(b.users)[who := b.users[who].amount - amount])
  {
    var c := WithdrawNative(b, who, amount).value;
    AmountsDrop(b.users, who);
    if who in c.users {
      AmountsPut(b.users, who, c.users[who]);
    }
  }

  /** A withdrawal that finds a position pays all of it from the escrow. */
  lemma DoWithdrawParts(cfg: Config, s: State, who: AccountId, pool: PoolId, refused: Refused)
    requires DoWithdraw(cfg, s, who, pool, refused).Ok?
    ensures s.tokens.aiusd.Some?
    ensures if pool !in s.deposits.pools || (who, pool) !in s.deposits.users
            then DoWithdraw(cfg, s, who, pool, refused).value == s
            else
              var t := DoWithdraw(cfg, s, who, pool, refused).value;
              var v := s.deposits.users[(who, pool)].amount;
              && s.deposits.pools[pool].Withdrawn(v).Some?
              && WithdrawNative(s.natives, who, v) == Some(t.natives)
              && t.deposits == s.deposits.(pools := s.deposits.pools[pool := s.deposits.pools[pool].Withdrawn(v).value],
                                           users := s.deposits.users - {(who, pool)})
              && Transfer(s.tokens, s.tokens.aiusd.value, cfg.escrow, who, v, refused) == Ok(t.tokens)
              && t == s.(deposits := t.deposits, natives := t.natives, tokens := t.tokens,
                         events := s.events + [Event.Withdraw(who, pool, s.now, v)])
  {
  }

  /** And takes it off the books; on conserved books a user's position always has its pool. */
  lemma DoWithdrawOnBooks(cfg: Config, s: State, who: AccountId, pool: PoolId, refused: Refused)
    requires DoWithdraw(cfg, s, who, pool, refused).Ok? && Conserved(Deposited(s)) && (who, pool) in s.deposits.users
    ensures pool in s.deposits.pools
    ensures Deposited(DoWithdraw(cfg, s, who, pool, refused).value) == BooksWithdraw(Deposited(s), who, pool)
  {
    var v := s.deposits.users[(who, pool)].amount;
    PositionCoveredInState(s, who, pool);
    DoWithdrawParts(cfg, s, who, pool, refused);
    var left := s.deposits.pools[pool].Withdrawn(v).value;
    NativeWithdrawOnBooks(s, who, v);
    LeaveOnBooks(s, WithdrawNative(s.natives, who, v).value, who, pool, left);
  }

  lemma LeaveOnBooks(s: State, natives: Book<AccountId>, who: AccountId, pool: PoolId, left: StakingInfo)
    requires pool in s.deposits.pools && (who, pool) in s.deposits.users
    requires var v := s.deposits.users[(who, pool)].amount;
             && left.amount == s.deposits.pools[pool].amount - v
             && PoolAmount(natives) == PoolAmount(s.natives) - v
             && Amounts(natives.users) == NativeLess(Amounts(s.natives.users), who, v)
    ensures BooksOf(s.settings, s.deposits.(pools := s.deposits.pools[pool := left],
          users := s.deposits.users - {(who, pool)}), natives)
              == BooksWithdraw(Deposited(s), who, pool)
  {
    AmountsPut(s.deposits.pools, pool, left);
    AmountsDrop(s.deposits.users, (who, pool));
  }

  lemma PositionCoveredInState(s: State, who: AccountId, pool: PoolId)
    requires Conserved(Deposited(s)) && (who, pool) in s.deposits.users
    ensures pool in s.deposits.pools
    ensures s.deposits.users[(who, pool)].amount <= s.deposits.pools[pool].amount
    ensures s.deposits.users[(who, pool)].amount <= NativeOf(Amounts(s.natives.users), who)
    ensures s.deposits.users[(who, pool)].amount <= PoolAmount(s.natives)
  {
    var b := Deposited(s);
    assert (who, pool) in b.users && pool in b.pools;
    PositionCovered(b, who, pool);
  }

  lemma NativeWithdrawOnBooks(s: State, who: AccountId, v: Balance)
    requires v <= NativeOf(Amounts(s.natives.users), who) && v <= PoolAmount(s.natives)
    requires WithdrawNative(s.natives, who, v).Some?
    ensures var c := WithdrawNative(s.natives, who, v).value;
            && PoolAmount(c) == PoolAmount(s.natives) - v
            && Amounts(c.users) == NativeLess(Amounts(s.natives.users), who, v)
  {
    if who in s.natives.users {
      WithdrawNativeOnBooks(s.natives, who, v);
    } else {
      assert Amounts(s.natives.users) - {who} == Amounts(s.natives.users);
    }
  }
}
