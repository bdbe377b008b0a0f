/** Repeated halving: powers of two, the slots of a halving schedule and their sum in closed form. */
module Halving {
  import opened Base
  import opened Sums

  function Pow2(k: nat): (r: int)
    ensures 0 < r
  {
    if k == 0 then 1 else 2 * Pow2(k - 1)
  }

  /** The number of one bits. */
  ghost function PopCount(n: nat): nat {
    if n == 0 then 0 else n % 2 + PopCount(n / 2)
  }

  /** The number of bits needed to write a number down; none for zero. */
  ghost function BitLength(n: nat): nat {
    if n == 0 then 0 else 1 + BitLength(n / 2)
  }

  /** The bit length of a positive number locates it between two powers of two. */
  lemma {:induction false} BitLengthLocates(n: nat)
    requires 0 < n
    ensures 0 < BitLength(n) && Pow2(BitLength(n) - 1) <= n < Pow2(BitLength(n))
  {
    if n == 1 {
      assert BitLength(0) == 0 && Pow2(0) == 1;
    } else {
      BitLengthLocates(n / 2);
    }
  }

  /** The amount after `k` halvings. */
  function Halved(b: nat, k: nat): (r: nat)
    ensures r <= b
  {
    QuotientRange(b, Pow2(k));
    b / Pow2(k)
  }

  lemma QuotientRange(x: int, d: int)
    requires 0 <= x && 0 < d
    ensures 0 <= x / d <= x && d * (x / d) <= x < d * (x / d) + d
  {
    var q := x / d;
    assert x == d * q + x % d;
    if q < 0 {
      Scaled(d, q, -1);
    } else {
      Scaled(q, 1, d);
    }
  }

  /** Halving once more divides by the next power of two: floors do not add up. */
  lemma HalvedNext(b: nat, k: nat)
    ensures Halved(b, k + 1) == Halved(b, k) / 2
  {
    DivTwice(b, Pow2(k), 2);
  }

  lemma HalvedFirst(b: nat, k: nat)
    ensures Halved(b, k + 1) == Halved(b / 2, k)
  {
    DivTwice(b, 2, Pow2(k));
  }

  lemma DivTwice(x: int, c: int, d: int)
    requires 0 <= x && 0 < c && 0 < d
    ensures 0 < c * d && x / (c * d) == x / c / d
  {
    Positive(c, d);
    var q, r := x / c, x % c;
    var p, s := q / d, q % d;
    Regroup(c, d, p, s, r);
    Scaled(c, s, d - 1);
    Scaled(c, 0, s);
    QuotientIs(x, c * d, p, c * s + r);
  }

  lemma Regroup(c: int, d: int, p: int, s: int, r: int)
    ensures c * (d * p + s) + r == (c * d) * p + (c * s + r)
    ensures c * (d - 1) == c * d - c
  {
  }

  lemma Positive(c: int, d: int)
    requires 0 < c && 0 < d
    ensures 0 < c * d
  {
  }

  lemma Scaled(c: int, a: int, b: int)
    requires 0 <= c && a <= b
    ensures c * a <= c * b
  {
  }

  lemma QuotientIs(x: int, d: int, q: int, r: int)
    requires 0 < d && x == d * q + r && 0 <= r < d
    ensures x / d == q
  {
    var e := x / d;
    assert x == d * e + x % d;
    if e < q {
      Scaled(d, 1, q - e);
    } else if e > q {
      Scaled(d, 1, e - q);
    }
  }

  /** What the first interval pays per slot: half of the intended issuance spread over it. */
  function FirstAmount(issuance: nat, interval: nat): nat
    requires 0 < interval
  {
    QuotientRange(issuance, interval * 2);
    issuance / (interval * 2)
  }

  /** That many units per slot, over both halves, go into the issuance, and one more would not. */
  ghost predicate Spreads(issuance: nat, interval: nat, b: nat) {
    b * (2 * interval) <= issuance < (b + 1) * (2 * interval)
  }

  /** The first amount is the one number that does. */
  lemma FirstSpreads(issuance: nat, interval: nat, b: nat)
    requires 0 < interval
    ensures Spreads(issuance, interval, b) <==> b == FirstAmount(issuance, interval)
  {
    var d, first := interval * 2, FirstAmount(issuance, interval);
    QuotientRange(issuance, d);
    SumTimes(first, 1, d);
    SumTimes(b, 1, d);
    if Spreads(issuance, interval, b) {
      QuotientIs(issuance, d, b, issuance - b * d);
    }
  }

  /** What slot `j` of the schedule pays: every interval halves what the slots after it pay. */
  function Slot(b: nat, interval: nat, j: nat): (r: nat)
    requires 0 < interval
    ensures r <= b
    decreases j
  {
    if j < interval then b else Slot(b / 2, interval, j - interval)
  }

  /** In closed form: the first amount halved once per full interval, that is divided by that power of two. */
  lemma {:induction false} SlotIsHalved(b: nat, interval: nat, j: nat)
    requires 0 < interval
    ensures 0 <= j / interval && Slot(b, interval, j) == Halved(b, j / interval)
    decreases j
  {
    if j < interval {
      QuotientIs(j, interval, 0, j);
      HalvedNone(b);
    } else {
      DivStep(j, interval);
      SlotIsHalved(b / 2, interval, j - interval);
      HalvedFirst(b, (j - interval) / interval);
    }
  }

  /** The first `m` slots, an interval at a time. */
  ghost function SlotsTotal(b: nat, interval: nat, m: nat): int
    requires 0 < interval
    decreases m
  {
    if m <= interval then m * b else interval * b + SlotsTotal(b / 2, interval, m - interval)
  }

  lemma {:induction false} NextSlot(b: nat, interval: nat, m: nat)
    requires 0 < interval
    ensures SlotsTotal(b, interval, m + 1) == SlotsTotal(b, interval, m) + Slot(b, interval, m)
    decreases m
  {
    if m < interval {
      SumTimes(m, 1, b);
    } else if m == interval {
      SumTimes(0, 1, b / 2);
    } else {
      NextSlot(b / 2, interval, m - interval);
    }
  }

  lemma HalvedNone(b: nat)
    ensures Halved(b, 0) == b
  {
  }

  lemma SumTimes(x: int, y: int, c: int)
    ensures (x + y) * c == x * c + y * c && 1 * c == c && 0 * c == 0
  {
  }

  lemma DivStep(m: int, d: int)
    requires 0 < d <= m
    ensures m / d == (m - d) / d + 1 && 0 <= (m - d) / d
  {
    QuotientRange(m - d, d);
    QuotientIs(m, d, (m - d) / d + 1, (m - d) % d);
  }

  ghost predicate OnSchedule(mints: seq<Balance>, b: nat, interval: nat)
    requires 0 < interval
  {
    forall j :: 0 <= j < |mints| ==> mints[j] == Slot(b, interval, j)
  }

  /** Amounts paid slot by slot sum to the total of that many slots. */
  lemma {:induction false} ScheduleSum(mints: seq<Balance>, b: nat, interval: nat)
    requires 0 < interval && OnSchedule(mints, b, interval)
    ensures Sum(mints) == SlotsTotal(b, interval, |mints|)
    decreases |mints|
  {
    if mints != [] {
      var k := |mints| - 1;
      ScheduleSum(mints[..k], b, interval);
      NextSlot(b, interval, k);
      SumAppend(mints[..k], [mints[k]]);
      assert mints[..k] + [mints[k]] == mints;
    }
  }

  lemma {:induction false} Bits(b: nat)
    ensures PopCount(b) <= b
    ensures 0 < b ==> PopCount(b / 2) + b % 2 == PopCount(b)
  {
    if b != 0 {
      Bits(b / 2);
    }
  }

  /** The most a schedule pays: an interval of twice the first amount less its one bits. */
  ghost function Limit(b: nat, interval: nat): int {
    interval * (2 * b - PopCount(b))
  }

  /** An interval for every bit of the first amount: from then on every slot pays nothing. */
  ghost function SlotsToZero(b: nat, interval: nat): int {
    interval * BitLength(b)
  }

  /**
   The supply limit in closed form: no number of slots exceeds `interval` times twice the first
   amount less its one bits, and the limit is met from one interval per bit on, not a slot before.
   */
  lemma {:induction false} SupplyLimit(b: nat, interval: nat, m: nat)
    requires 0 < interval
    ensures SlotsTotal(b, interval, m) <= Limit(b, interval)
    ensures SlotsTotal(b, interval, m) == Limit(b, interval) <==> SlotsToZero(b, interval) <= m
    decreases m
  {
    Bits(b);
    var half, g := b / 2, 2 * (b / 2) - PopCount(b / 2);
    Bits(half);
    if b == 0 {
      NothingToMint(interval, m);
    } else {
      assert 2 * b - PopCount(b) == b + g;
      Distribute(interval, b, g);
      Distribute(interval, BitLength(half), 1);
      if m <= interval {
        LimitInFirstInterval(b, interval, m, g);
      } else {
        SupplyLimit(half, interval, m - interval);
      }
    }
  }

  lemma {:induction false} NothingToMint(interval: nat, m: nat)
    requires 0 < interval
    ensures SlotsTotal(0, interval, m) == 0
    decreases m
  {
    if interval < m {
      NothingToMint(interval, m - interval);
    }
  }

  lemma LimitInFirstInterval(b: nat, interval: nat, m: nat, g: int)
    requires 0 < b && 0 < interval && m <= interval && g == 2 * (b / 2) - PopCount(b / 2)
    ensures m * b <= interval * b + interval * g
    ensures m * b == interval * b + interval * g <==> interval * BitLength(b / 2) + interval <= m
  {
    Bits(b / 2);
    if b / 2 == 0 {
      assert interval * BitLength(b / 2) == 0;
    } else {
      BitLengthLocates(b / 2);
      Positive(interval, BitLength(b / 2));
      assert g > 0;
      Positive(interval, g);
    }
    Scaled(b, m, interval);
    if m < interval {
      Scaled(b, m + 1, interval);
      assert b * (m + 1) == b * m + b;
      Scaled(interval, 0, g);
      Scaled(interval, 0, BitLength(b / 2));
    }
  }

  /** The limit never exceeds the issuance the first amount spreads. */
  lemma LimitWithinIssuance(issuance: nat, interval: nat, b: nat)
    requires 0 < interval && Spreads(issuance, interval, b)
    ensures Limit(b, interval) <= issuance
  {
    Scaled(interval, 2 * b - PopCount(b), 2 * b);
    Regrouped(b, interval);
  }

  lemma Regrouped(b: int, interval: int)
    ensures interval * (2 * b) == b * (2 * interval)
  {
  }

  /** The limit seen from the amounts paid. */
  lemma PaidWithinLimit(mints: seq<Balance>, issuance: nat, interval: nat, b: nat)
    requires 0 < interval && Spreads(issuance, interval, b) && OnSchedule(mints, b, interval)
    ensures Sum(mints) <= Limit(b, interval) <= issuance
    ensures Sum(mints) == Limit(b, interval) <==> SlotsToZero(b, interval) <= |mints|
  {
    ScheduleSum(mints, b, interval);
    SupplyLimit(b, interval, |mints|);
    LimitWithinIssuance(issuance, interval, b);
  }
}
