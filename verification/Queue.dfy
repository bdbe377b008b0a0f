/**
 The queue of deposits waiting for their epoch: a stable sort by effective time, and the
 prefix that is ripe at a block.
 */
module Queue {
  import opened Base
  import opened StakingInfos

  type PoolId = u128

  datatype Order = Order(who: AccountId, pool: PoolId, info: StakingInfo) {
    function Time(): BlockNumber { info.effectiveTime }
  }

  function NewOrder(who: AccountId, pool: PoolId, time: BlockNumber, amount: Balance): Order {
    Order(who, pool, StakingInfo(time, amount, time))
  }

  ghost predicate Sorted(q: seq<Order>) {
    forall i, j :: 0 <= i < j < |q| ==> q[i].Time() <= q[j].Time()
  }

  /** Puts `x` behind everything that is not later than it. */
  function Insert(q: seq<Order>, x: Order): seq<Order> {
    if q == [] || q[|q| - 1].Time() <= x.Time() then q + [x]
    else Insert(q[..|q| - 1], x) + [q[|q| - 1]]
  }

  /** A stable sort by effective time, standing for the slice sort of the standard library. */
  function SortByTime(q: seq<Order>): seq<Order> {
    if q == [] then [] else Insert(SortByTime(q[..|q| - 1]), q[|q| - 1])
  }

  /** The orders for one block, in the order they stand in the queue. */
  ghost function AtTime(q: seq<Order>, t: int): seq<Order> {
    if q == [] then []
    else AtTime(q[..|q| - 1], t) + (if q[|q| - 1].Time() == t then [q[|q| - 1]] else [])
  }

  lemma SortedEnds(q: seq<Order>, x: Order)
    requires Sorted(q) && forall o :: o in q ==> o.Time() <= x.Time()
    ensures Sorted(q + [x])
  {
  }

  lemma SortedFront(q: seq<Order>)
    requires Sorted(q) && q != []
    ensures Sorted(q[..|q| - 1]) && forall o :: o in q ==> o.Time() <= q[|q| - 1].Time()
  {
  }

  lemma {:induction false} InsertSorted(q: seq<Order>, x: Order)
    requires Sorted(q)
    ensures Sorted(Insert(q, x)) && multiset(Insert(q, x)) == multiset(q) + multiset{x}
    ensures forall o :: o in Insert(q, x) <==> o in q || o == x
  {
    if q != [] {
      SortedFront(q);
    }
    if q == [] || q[|q| - 1].Time() <= x.Time() {
      SortedEnds(q, x);
    } else {
      var r, last := q[..|q| - 1], q[|q| - 1];
      InsertSorted(r, x);
      assert q == r + [last];
      SortedEnds(Insert(r, x), last);
    }
  }

  lemma {:induction false} InsertAtTime(q: seq<Order>, x: Order, t: int)
    requires Sorted(q)
    ensures AtTime(Insert(q, x), t) == AtTime(q, t) + (if x.Time() == t then [x] else [])
  {
    if q == [] || q[|q| - 1].Time() <= x.Time() {
      assert (q + [x])[..|q|] == q;
    } else {
      var r, last := q[..|q| - 1], q[|q| - 1];
      InsertAtTime(r, x, t);
      assert (Insert(r, x) + [last])[..|Insert(r, x)|] == Insert(r, x);
    }
  }

  /** The sort orders the queue by time, loses and adds nothing, and keeps equal times first come, first served. */
  lemma {:induction false} SortStable(q: seq<Order>)
    ensures Sorted(SortByTime(q)) && multiset(SortByTime(q)) == multiset(q)
    ensures forall t :: AtTime(SortByTime(q), t) == AtTime(q, t)
  {
    if q != [] {
      var r, last := q[..|q| - 1], q[|q| - 1];
      SortStable(r);
      assert q == r + [last];
      InsertSorted(SortByTime(r), last);
      forall t ensures AtTime(SortByTime(q), t) == AtTime(q, t) {
        InsertAtTime(SortByTime(r), last, t);
      }
    }
  }

  lemma {:induction false} NoneAtTime(q: seq<Order>, t: int)
    requires forall o :: o in q ==> o.Time() < t
    ensures AtTime(q, t) == []
  {
    if q != [] {
      assert q[|q| - 1] in q;
      NoneAtTime(q[..|q| - 1], t);
    }
  }

  lemma AtTimeSnoc(q: seq<Order>, x: Order, t: int)
    ensures AtTime(q + [x], t) == if x.Time() == t then AtTime(q, t) + [x] else AtTime(q, t)
  {
    assert (q + [x])[..|q|] == q;
    assert AtTime(q, t) + [] == AtTime(q, t);
  }

  /** Two queues hold the same orders, in the same order, at every time. */
  ghost predicate SameAtTimes(a: seq<Order>, b: seq<Order>) {
    forall t :: AtTime(a, t) == AtTime(b, t)
  }

  /** No other queue has those three properties, whatever algorithm sorts. */
  lemma {:induction false} StableSortUnique(a: seq<Order>, b: seq<Order>)
    requires Sorted(a) && Sorted(b) && SameAtTimes(a, b)
    ensures a == b
    decreases |a| + |b|
  {
    SameEmptiness(a, b);
    if a != [] {
      var a', x, b', y := a[..|a| - 1], a[|a| - 1], b[..|b| - 1], b[|b| - 1];
      assert a == a' + [x] && b == b' + [y];
      SortedFront(a);
      SortedFront(b);
      LastNotLater(a', x, b', y);
      LastNotLater(b', y, a', x);
      SameEnds(a', x, b', y);
      StableSortUnique(a', b');
    }
  }

  lemma LastNotLater(a: seq<Order>, x: Order, b: seq<Order>, y: Order)
    requires SameAtTimes(a + [x], b + [y]) || SameAtTimes(b + [y], a + [x])
    requires forall o :: o in b + [y] ==> o.Time() <= y.Time()
    ensures x.Time() <= y.Time()
  {
    if y.Time() < x.Time() {
      assert AtTime(a + [x], x.Time()) == AtTime(b + [y], x.Time());
      AtTimeSnoc(a, x, x.Time());
      NoneAtTime(b + [y], x.Time());
    }
  }

  /** Queues that end at the same time end in the same order, and the rest agrees at every time. */
  lemma SameEnds(a: seq<Order>, x: Order, b: seq<Order>, y: Order)
    requires SameAtTimes(a + [x], b + [y]) && x.Time() == y.Time()
    ensures x == y && SameAtTimes(a, b)
  {
    var last := x.Time();
    AtTimeSnoc(a, x, last);
    AtTimeSnoc(b, y, last);
    assert AtTime(a + [x], last) == AtTime(b + [y], last);
    SameLast(AtTime(a, last), x, AtTime(b, last), y);
    forall t ensures AtTime(a, t) == AtTime(b, t) {
      AtTimeSnoc(a, x, t);
      AtTimeSnoc(b, y, t);
      assert AtTime(a + [x], t) == AtTime(b + [y], t);
    }
  }

  lemma SameEmptiness(a: seq<Order>, b: seq<Order>)
    requires SameAtTimes(a, b)
    ensures a == [] <==> b == []
  {
    var ta := if a == [] then 0 else a[|a| - 1].Time();
    var tb := if b == [] then 0 else b[|b| - 1].Time();
    assert AtTime(a, ta) == AtTime(b, ta) && AtTime(a, tb) == AtTime(b, tb);
  }

  lemma SameLast(a: seq<Order>, x: Order, b: seq<Order>, y: Order)
    requires a + [x] == b + [y]
    ensures a == b && x == y
  {
    assert (a + [x])[|a|] == x && (b + [y])[|b|] == y;
    assert a == (a + [x])[..|a|] && b == (b + [y])[..|b|];
  }

  lemma {:induction false} SortOfSorted(q: seq<Order>)
    requires Sorted(q)
    ensures SortByTime(q) == q
  {
    SortStable(q);
    StableSortUnique(SortByTime(q), q);
  }

  /** Sorting after a push onto a sorted queue is one insertion. */
  lemma SortAfterPush(q: seq<Order>, x: Order)
    ensures SortByTime(q + [x]) == Insert(SortByTime(q), x)
    ensures Sorted(q) ==> SortByTime(q + [x]) == Insert(q, x)
  {
    assert (q + [x])[..|q|] == q;
    if Sorted(q) {
      SortOfSorted(q);
    }
  }

  /** An insertion never reaches into a prefix that is no later than the new order. */
  lemma {:induction false} InsertBehind(a: seq<Order>, b: seq<Order>, x: Order)
    requires forall o :: o in a ==> o.Time() <= x.Time()
    ensures Insert(a + b, x) == a + Insert(b, x)
  {
    if b == [] {
      assert a + b == a;
    } else if b[|b| - 1].Time() <= x.Time() {
      assert a + b + [x] == a + (b + [x]);
    } else {
      assert (a + b)[..|a + b| - 1] == a + b[..|b| - 1];
      InsertBehind(a, b[..|b| - 1], x);
      assert a + Insert(b[..|b| - 1], x) + [b[|b| - 1]] == a + (Insert(b[..|b| - 1], x) + [b[|b| - 1]]);
    }
  }

  /** How many orders at the front are due at `n`. */
  function RipeCount(q: seq<Order>, n: int): (k: nat)
    ensures k <= |q|
  {
    if q == [] || q[0].Time() > n then 0 else 1 + RipeCount(q[1..], n)
  }

  /** The orders that are not due at `n`, in order. */
  ghost function Unripe(q: seq<Order>, n: int): seq<Order> {
    if q == [] then [] else (if q[0].Time() > n then [q[0]] else []) + Unripe(q[1..], n)
  }

  lemma {:induction false} UnripeAll(q: seq<Order>, n: int)
    requires forall i :: 0 <= i < |q| ==> q[i].Time() > n
    ensures Unripe(q, n) == q
  {
    if q != [] {
      UnripeAll(q[1..], n);
    }
  }

  lemma SortedBack(q: seq<Order>)
    requires Sorted(q) && q != []
    ensures Sorted(q[1..]) && forall i :: 0 <= i < |q| ==> q[0].Time() <= q[i].Time()
  {
  }

  /** In a sorted queue the ripe orders are exactly those at the front. */
  lemma {:induction false} RipeAreFirst(q: seq<Order>, n: int)
    requires Sorted(q)
    ensures forall i :: 0 <= i < |q| ==> (q[i].Time() <= n <==> i < RipeCount(q, n))
  {
    if q != [] {
      SortedBack(q);
      var rest := q[1..];
      RipeAreFirst(rest, n);
      forall i | 0 <= i < |q| ensures q[i].Time() <= n <==> i < RipeCount(q, n) {
        if i > 0 {
          assert q[i] == rest[i - 1];
        }
      }
    }
  }

  /** So dropping the ripe front is filtering. */
  lemma {:induction false} DropRipeIsFilter(q: seq<Order>, n: int)
    requires Sorted(q)
    ensures q[RipeCount(q, n)..] == Unripe(q, n)
  {
    if q == [] {
    } else if q[0].Time() > n {
      RipeAreFirst(q, n);
      UnripeAll(q, n);
    } else {
      SortedBack(q);
      DropRipeIsFilter(q[1..], n);
      assert q[1..][RipeCount(q[1..], n)..] == q[RipeCount(q[1..], n) + 1..];
    }
  }
}
