/**
 The amounts behind the staking storage, and the equations every successful step keeps:
 what is staked in a pool, queued for it and counted for native rewards always agree.
 */
module StakingBooks {
  import opened Base
  import opened Sums
  import opened Epochs
  import opened Queue
  import opened StakingState
  import opened Drift

  /** Which deposits to count. */
  datatype Selection = All | OfPool(p: PoolId) | OfUser(u: AccountId) | OfBoth(w: AccountId, q: PoolId) {
    predicate Has(who: AccountId, pool: PoolId) {
      match this
      case All => true
      case OfPool(p) => pool == p
      case OfUser(u) => who == u
      case OfBoth(u, p) => who == u && pool == p
    }
  }

  /** The amounts queued by the selected orders. */
  ghost function Queued(q: seq<Order>, sel: Selection): int {
    if q == [] then 0
    else (if sel.Has(q[0].who, q[0].pool) then q[0].info.amount else 0) + Queued(q[1..], sel)
  }

  ghost function Selected(users: map<(AccountId, PoolId), int>, sel: Selection): map<(AccountId, PoolId), int> {
    map k | k in users && sel.Has(k.0, k.1) :: users[k]
  }

  /** The amounts settled for the selected users and pools. */
  ghost function Held(users: map<(AccountId, PoolId), int>, sel: Selection): int {
    Total(Selected(users, sel))
  }

  lemma {:induction false} QueuedAppend(a: seq<Order>, b: seq<Order>, sel: Selection)
    ensures Queued(a + b, sel) == Queued(a, sel) + Queued(b, sel)
  {
    if a == [] {
      assert a + b == b;
    } else {
      assert (a + b)[1..] == a[1..] + b;
      QueuedAppend(a[1..], b, sel);
    }
  }

  lemma {:induction false} QueuedInsert(q: seq<Order>, x: Order, sel: Selection)
    ensures Queued(Insert(q, x), sel) == Queued(q, sel) + Queued([x], sel)
  {
    if q == [] || q[|q| - 1].Time() <= x.Time() {
      QueuedAppend(q, [x], sel);
    } else {
      var r, last := q[..|q| - 1], [q[|q| - 1]];
      assert q == r + last;
      QueuedAppend(r, last, sel);
      QueuedInsert(r, x, sel);
      QueuedAppend(Insert(r, x), last, sel);
    }
  }

  lemma {:induction false} QueuedSort(q: seq<Order>, sel: Selection)
    ensures Queued(SortByTime(q), sel) == Queued(q, sel)
  {
    if q != [] {
      var r, last := q[..|q| - 1], q[|q| - 1];
      assert q == r + [last];
      QueuedSort(r, sel);
      QueuedInsert(SortByTime(r), last, sel);
      QueuedAppend(r, [last], sel);
    }
  }

  lemma {:induction false} QueuedNonNegative(q: seq<Order>, sel: Selection)
    ensures 0 <= Queued(q, sel)
  {
    if q != [] {
      QueuedNonNegative(q[1..], sel);
    }
  }

  lemma HeldPut(users: map<(AccountId, PoolId), int>, k: (AccountId, PoolId), v: int, sel: Selection)
    ensures Held(users[k := v], sel) ==
              Held(users, sel) + if sel.Has(k.0, k.1) then v - (if k in users then users[k] else 0) else 0
  {
    if sel.Has(k.0, k.1) {
      assert Selected(users[k := v], sel) == Selected(users, sel)[k := v];
      TotalPut(Selected(users, sel), k, v);
    } else {
      assert Selected(users[k := v], sel) == Selected(users, sel);
    }
  }

  lemma HeldDrop(users: map<(AccountId, PoolId), int>, k: (AccountId, PoolId), sel: Selection)
    ensures Held(users - {k}, sel) ==
              Held(users, sel) - if sel.Has(k.0, k.1) && k in users then users[k] else 0
  {
    assert Selected(users - {k}, sel) == Selected(users, sel) - {k};
    TotalDrop(Selected(users, sel), k);
  }

  /** The amounts of the storage, without times and rewards. */
  datatype Books = Books(
    settings: map<PoolId, PoolSetting>,
    pools: map<PoolId, int>,
    users: map<(AccountId, PoolId), int>,
    native: int,
    nativeOf: map<AccountId, int>,
    pending: seq<Order>,
    pendingAmount: map<PoolId, int>)

  ghost function AmountOf(m: map<PoolId, int>, p: PoolId): int {
    if p in m then m[p] else 0
  }

  ghost function NativeOf(m: map<AccountId, int>, u: AccountId): int {
    if u in m then m[u] else 0
  }

  ghost function Integers<K>(m: map<K, Balance>): map<K, int> {
    map k | k in m :: m[k]
  }

  lemma IntegersPut<K>(m: map<K, Balance>, k: K, v: Balance)
    ensures Integers(m[k := v]) == Integers(m)[k := v]
  {
  }

  ghost function BooksOf(settings: map<PoolId, PoolSetting>, d: Deposits, natives: Book<AccountId>): Books {
    Books(settings, Amounts(d.pools), Amounts(d.users), PoolAmount(natives), Amounts(natives.users), d.pending,
        Integers(d.pendingAmount))
  }

  /** One pool: its amount is its users' amounts, its pending amount is its queued orders, and both fit the cap. */
  ghost predicate PoolConserved(b: Books, p: PoolId) {
    && AmountOf(b.pools, p) == Held(b.users, OfPool(p))
    && AmountOf(b.pendingAmount, p) == Queued(b.pending, OfPool(p))
    && (if p in b.settings then AmountOf(b.pools, p) + AmountOf(b.pendingAmount, p) <= b.settings[p].poolCap
        else p !in b.pools && AmountOf(b.pendingAmount, p) == 0)
  }

  /** One user: the native amount is what it has settled and queued over all pools. */
  ghost predicate UserConserved(b: Books, u: AccountId) {
    NativeOf(b.nativeOf, u) == Held(b.users, OfUser(u)) + Queued(b.pending, OfUser(u))
  }

  /** The global native amount is the users' native amounts, and the pools' settled and pending amounts. */
  ghost predicate NativeConserved(b: Books) {
    && b.native == Total(b.nativeOf)
    && b.native == Total(b.pools) + Total(b.pendingAmount)
    && Total(b.pools) == Held(b.users, All)
    && Total(b.pendingAmount) == Queued(b.pending, All)
  }

  ghost predicate Grounded(b: Books) {
    && NonNegative(b.pools) && NonNegative(b.users) && NonNegative(b.nativeOf) && NonNegative(b.pendingAmount)
    && (forall k :: k in b.users ==> k.1 in b.pools)
    && (forall o :: o in b.pending ==> o.pool in b.settings)
  }

  ghost predicate Conserved(b: Books) {
    && Grounded(b)
    && (forall p :: PoolConserved(b, p))
    && (forall u :: UserConserved(b, u))
    && NativeConserved(b)
  }

  /** A deposit on the books: queued for its pool and counted for native rewards at once. */
  ghost function BooksStake(b: Books, x: Order): Books {
    b.(pending := SortByTime(b.pending + [x]),
       pendingAmount := b.pendingAmount[x.pool := AmountOf(b.pendingAmount, x.pool) + x.info.amount],
       native := b.native + x.info.amount,
       nativeOf := b.nativeOf[x.who := NativeOf(b.nativeOf, x.who) + x.info.amount])
  }

  /** A settled order on the books: from the head of the queue to its pool and user. */
  ghost function BooksSolve(b: Books): Books
    requires b.pending != []
  {
    var x := b.pending[0];
    var k := (x.who, x.pool);
    b.(pending := b.pending[1..],
       pendingAmount := b.pendingAmount[x.pool := AmountOf(b.pendingAmount, x.pool) - x.info.amount],
       pools := b.pools[x.pool := AmountOf(b.pools, x.pool) + x.info.amount],
       users := b.users[k := (if k in b.users then b.users[k] else 0) + x.info.amount])
  }

  /** The native amounts once a user has taken some out; nothing is kept for a user who took all. */
  ghost function NativeLess(m: map<AccountId, int>, who: AccountId, v: int): map<AccountId, int> {
    if NativeOf(m, who) == v then m - {who} else m[who := NativeOf(m, who) - v]
  }

  /** A withdrawal on the books: a user's whole position leaves the pool and the native counts. */
  ghost function BooksWithdraw(b: Books, who: AccountId, pool: PoolId): Books
    requires (who, pool) in b.users
  {
    var v := b.users[(who, pool)];
    b.(pools := b.pools[pool := AmountOf(b.pools, pool) - v],
       users := b.users - {(who, pool)},
       native := b.native - v,
       nativeOf := NativeLess(b.nativeOf, who, v))
  }

  lemma QueuedPush(q: seq<Order>, x: Order, sel: Selection)
    ensures Queued(SortByTime(q + [x]), sel) ==
              Queued(q, sel) + if sel.Has(x.who, x.pool) then x.info.amount else 0
  {
    QueuedSort(q + [x], sel);
    QueuedAppend(q, [x], sel);
    assert Queued([x], sel) == (if sel.Has(x.who, x.pool) then x.info.amount else 0) + Queued([x][1..], sel);
  }

  lemma StakeConservesPool(b: Books, x: Order, p: PoolId)
    requires PoolConserved(b, p)
    requires p == x.pool ==> p in b.settings
    requires p == x.pool ==>
               AmountOf(b.pools, p) + AmountOf(b.pendingAmount, p) + x.info.amount <= b.settings[p].poolCap
    ensures PoolConserved(BooksStake(b, x), p)
  {
    QueuedPush(b.pending, x, OfPool(p));
  }

  lemma StakeConservesUser(b: Books, x: Order, u: AccountId)
    requires UserConserved(b, u)
    ensures UserConserved(BooksStake(b, x), u)
  {
    QueuedPush(b.pending, x, OfUser(u));
  }

  lemma PutMore<K>(m: map<K, int>, k: K, before: int, more: int)
    requires before == if k in m then m[k] else 0
    ensures Total(m[k := before + more]) == Total(m) + more
  {
    TotalPut(m, k, before + more);
  }

  lemma StakeTotals(b: Books, x: Order)
    ensures Total(BooksStake(b, x).pendingAmount) == Total(b.pendingAmount) + x.info.amount
    ensures Total(BooksStake(b, x).nativeOf) == Total(b.nativeOf) + x.info.amount
  {
    PutMore(b.pendingAmount, x.pool, AmountOf(b.pendingAmount, x.pool), x.info.amount);
    PutMore(b.nativeOf, x.who, NativeOf(b.nativeOf, x.who), x.info.amount);
  }

  lemma StakeConservesNative(b: Books, x: Order)
    requires NativeConserved(b)
    ensures NativeConserved(BooksStake(b, x))
  {
    StakeTotals(b, x);
    QueuedPush(b.pending, x, All);
  }

  lemma StakeGrounded(b: Books, x: Order)
    requires Grounded(b) && x.pool in b.settings
    ensures Grounded(BooksStake(b, x))
  {
    forall o | o in SortByTime(b.pending + [x]) ensures o.pool in b.settings {
      SortStable(b.pending + [x]);
      assert o in multiset(b.pending + [x]);
    }
  }

  /** Depositing under the cap of a known pool keeps every equation. */
  lemma StakeConserves(b: Books, x: Order)
    requires Conserved(b) && x.pool in b.settings
    requires AmountOf(b.pools, x.pool) + AmountOf(b.pendingAmount, x.pool) + x.info.amount <= b.settings[x.pool].poolCap
    ensures Conserved(BooksStake(b, x))
  {
    StakeGrounded(b, x);
    StakeConservesNative(b, x);
    forall p ensures PoolConserved(BooksStake(b, x), p) {
      assert PoolConserved(b, p);
      StakeConservesPool(b, x, p);
    }
    forall u ensures UserConserved(BooksStake(b, x), u) {
      assert UserConserved(b, u);
      StakeConservesUser(b, x, u);
    }
  }

  lemma SolveConservesPool(b: Books, p: PoolId)
    requires b.pending != [] && PoolConserved(b, p) && b.pending[0].pool in b.settings
    ensures PoolConserved(BooksSolve(b), p)
    ensures p == b.pending[0].pool ==> b.pending[0].info.amount <= AmountOf(b.pendingAmount, p)
  {
    var x := b.pending[0];
    var k := (x.who, x.pool);
    QueuedNonNegative(b.pending[1..], OfPool(p));
    HeldPut(b.users, k, BooksSolve(b).users[k], OfPool(p));
  }

  lemma SolveConservesUser(b: Books, u: AccountId)
    requires b.pending != [] && UserConserved(b, u)
    ensures UserConserved(BooksSolve(b), u)
  {
    var x := b.pending[0];
    var k := (x.who, x.pool);
    HeldPut(b.users, k, BooksSolve(b).users[k], OfUser(u));
  }

  lemma SolveConservesNative(b: Books)
    requires b.pending != [] && NativeConserved(b)
    ensures NativeConserved(BooksSolve(b))
  {
    var c, x := BooksSolve(b), b.pending[0];
    var k := (x.who, x.pool);
    HeldPut(b.users, k, c.users[k], All);
    TotalPut(b.pools, x.pool, c.pools[x.pool]);
    TotalPut(b.pendingAmount, x.pool, c.pendingAmount[x.pool]);
  }

  /** Settling the head of the queue keeps every equation. */
  lemma SolveConserves(b: Books)
    requires Conserved(b) && b.pending != []
    ensures b.pending[0].info.amount <= AmountOf(b.pendingAmount, b.pending[0].pool)
    ensures Conserved(BooksSolve(b))
  {
    var x := b.pending[0];
    SolveConservesNative(b);
    assert PoolConserved(b, x.pool);
    SolveConservesPool(b, x.pool);
    forall p ensures PoolConserved(BooksSolve(b), p) {
      assert PoolConserved(b, p);
      SolveConservesPool(b, p);
    }
    forall u ensures UserConserved(BooksSolve(b), u) {
      assert UserConserved(b, u);
      SolveConservesUser(b, u);
    }
    SolveGrounded(b);
  }

  lemma SolveGrounded(b: Books)
    requires Grounded(b) && b.pending != []
    requires b.pending[0].info.amount <= AmountOf(b.pendingAmount, b.pending[0].pool)
    ensures Grounded(BooksSolve(b))
  {
  }

  lemma PositionCovered(b: Books, who: AccountId, pool: PoolId)
    requires Conserved(b) && (who, pool) in b.users
    ensures b.users[(who, pool)] <= AmountOf(b.pools, pool)
    ensures b.users[(who, pool)] <= NativeOf(b.nativeOf, who) <= b.native
  {
    var k := (who, pool);
    assert PoolConserved(b, pool) && UserConserved(b, who);
    TotalCovers(Selected(b.users, OfPool(pool)), k);
    TotalCovers(Selected(b.users, OfUser(who)), k);
    QueuedNonNegative(b.pending, OfUser(who));
    if who in b.nativeOf {
      TotalCovers(b.nativeOf, who);
    } else {
      TotalNonNegative(b.nativeOf);
    }
  }

  lemma WithdrawConservesNative(b: Books, who: AccountId, pool: PoolId)
    requires NativeConserved(b) && (who, pool) in b.users
    ensures NativeConserved(BooksWithdraw(b, who, pool))
  {
    var c, v := BooksWithdraw(b, who, pool), b.users[(who, pool)];
    HeldDrop(b.users, (who, pool), All);
    TotalPut(b.pools, pool, c.pools[pool]);
    TotalDrop(b.nativeOf, who);
    TotalPut(b.nativeOf, who, NativeOf(b.nativeOf, who) - v);
  }

  /** Withdrawing a position keeps every equation. */
  lemma WithdrawConserves(b: Books, who: AccountId, pool: PoolId)
    requires Conserved(b) && (who, pool) in b.users
    ensures Conserved(BooksWithdraw(b, who, pool))
  {
    var c, k := BooksWithdraw(b, who, pool), (who, pool);
    PositionCovered(b, who, pool);
    WithdrawConservesNative(b, who, pool);
    forall p ensures PoolConserved(c, p) {
      assert PoolConserved(b, p);
      HeldDrop(b.users, k, OfPool(p));
    }
    forall u ensures UserConserved(c, u) {
      assert UserConserved(b, u);
      HeldDrop(b.users, k, OfUser(u));
    }
  }

  /** Opening a pool nobody has used keeps every equation. */
  lemma CreateConserves(b: Books, pool: PoolId, setting: PoolSetting)
    requires Conserved(b) && pool !in b.settings
    ensures Conserved(b.(settings := b.settings[pool := setting]))
  {
    var c := b.(settings := b.settings[pool := setting]);
    forall p ensures PoolConserved(c, p) {
      assert PoolConserved(b, p);
    }
    forall u ensures UserConserved(c, u) {
      assert UserConserved(b, u);
    }
  }
}
