/** The age-priority order: waiting time over the square root of the cost, compared by cross products. */
module AgeOrder {
  import opened Wrappers

  const U64_LIMIT: nat := 0x1_0000_0000_0000_0000
  const U128_LIMIT: nat := 0x1_0000_0000_0000_0000_0000_0000_0000_0000
  /** One more than the longest wait, in nanoseconds. */
  const DURATION_LIMIT: nat := U64_LIMIT * 1_000_000_000

  type u64 = x: nat | x < U64_LIMIT
  type Instant = t: nat | t < DURATION_LIMIT

  /** A queued job; its cost is whatever its metadata says, if anything. */
  datatype Job = Job(id: string, cost: Option<u64>)

  datatype Entry = Entry(cost: u64, ord: nat, since: Instant, job: Job)

  datatype Cmp = LT | EQ | GT

  // ------------------------------------------------------------- square root

  function FloorSqrt(v: nat): (r: nat)
    ensures r * r <= v < (r + 1) * (r + 1)
  {
    if v == 0 then 0 else
      var r := FloorSqrt(v - 1);
      assert (r + 2) * (r + 2) == (r + 1) * (r + 1) + 2 * r + 3;
      if (r + 1) * (r + 1) <= v then r + 1 else r
  }

  lemma Squares(a: nat, b: nat)
    requires a <= b
    ensures a * a <= b * b
  {
    assert b * b == a * a + (b - a) * (b + a);
  }

  lemma SqrtTop(v: nat, x: nat)
    requires x * x <= v
    ensures x <= FloorSqrt(v)
  {
    if FloorSqrt(v) < x { Squares(FloorSqrt(v) + 1, x); }
  }

  /** The weight of a cost: its integer square root, at least one. */
  function Root(v: nat): (r: nat)
    ensures r >= 1 && (v >= 1 ==> r * r <= v < (r + 1) * (r + 1))
  {
    if v == 0 then 1 else
      SqrtTop(v, 1);
      FloorSqrt(v)
  }

  /** A Newton step from above stays above. */
  lemma NewtonAbove(v: nat, x: nat)
    requires x > 0
    ensures (x + v / x) / 2 >= FloorSqrt(v)
  {
    DivAbove(v, x);
    AmGm(x, v / x + 1, FloorSqrt(v));
  }

  lemma DivAbove(v: nat, x: nat)
    requires x > 0
    ensures v < x * (v / x + 1)
  {
    var q := v / x;
    assert v == x * q + v % x;
    assert x * (q + 1) == x * q + x;
  }

  lemma AmGm(a: nat, b: nat, s: nat)
    requires s * s < a * b
    ensures 2 * s < a + b
  {
    if a + b <= 2 * s {
      ProductBelow(a, b, s);
    }
  }

  lemma ProductBelow(a: nat, b: nat, s: nat)
    requires a + b <= 2 * s
    ensures a * b <= s * s
  {
    var c, d := 2 * s - a, s - a;
    assert a * c == a * b + a * (c - b);
    assert a * c == s * s - d * d by { assert a == s - d && c == s + d; }
    assert a * (c - b) >= 0 && d * d >= 0;
  }

  lemma HalfAbove(v: nat)
    requires v > 0
    ensures (v + 1) / 2 >= FloorSqrt(v)
  {
    var s := FloorSqrt(v);
    if s >= 2 {
      assert s * s >= 2 * s by { assert s * s == 2 * s + s * (s - 2); }
    }
  }

  /** The Newton loop ends with the exact root. */
  method IntegerSqrt(value: nat) returns (r: nat)
    ensures r == Root(value)
    ensures if value == 0 then r == 1 else r * r <= value < (r + 1) * (r + 1)
  {
    var x := value;
    var y := (x + 1) / 2;
    if value > 0 { HalfAbove(value); }
    while y < x
      invariant y >= FloorSqrt(value) && x >= FloorSqrt(value)
      invariant (x == value && y == (value + 1) / 2) || (x > 0 && y == (x + value / x) / 2)
      invariant value > 0 ==> y > 0
      decreases x
    {
      x := y;
      NewtonAbove(value, x);
      y := (x + value / x) / 2;
      SqrtTop(value, 1);
    }
    r := if x < 1 then 1 else x;
    if value > 0 { Stopped(value, x); }
  }

  lemma Stopped(v: nat, x: nat)
    requires v > 0 && x >= FloorSqrt(v)
    requires (x == v && (v + 1) / 2 >= v) || (x > 0 && (x + v / x) / 2 >= x)
    ensures x == FloorSqrt(v) && x >= 1
  {
    assert x * x <= v by {
      if x == v && (v + 1) / 2 >= v {
        assert v == 1;
      } else {
        QuotientAbove(v, x);
      }
    }
    SqrtTop(v, x);
  }

  lemma QuotientAbove(v: nat, x: nat)
    requires x > 0 && v / x >= x
    ensures x * x <= v
  {
    var q := v / x;
    assert v == x * q + v % x;
    assert x * q == x * x + x * (q - x);
  }

  // -------------------------------------------------------------- comparison

  function SaturatingMul(a: nat, b: nat): (r: nat)
    ensures if a * b <= U128_LIMIT - 1 then r == a * b else r == U128_LIMIT - 1
  {
    if a * b < U128_LIMIT then a * b else U128_LIMIT - 1
  }

  /** Time in the queue; zero if the clock reads earlier than the arrival. */
  function Wait(e: Entry, now: Instant): Instant {
    if now < e.since then 0 else now - e.since
  }

  function Weight(e: Entry): (w: nat)
    ensures w >= 1
  {
    Root(if e.cost < 1 then 1 else e.cost)
  }

  function CompareNat(a: nat, b: nat): Cmp {
    if a < b then LT else if a == b then EQ else GT
  }

  /** Longest weighted wait is greatest; among equals, the earlier arrival. */
  function Compare(left: Entry, right: Entry, now: Instant): Cmp {
    var scores := CompareNat(SaturatingMul(Wait(left, now), Weight(right)),
                             SaturatingMul(Wait(right, now), Weight(left)));
    if scores.EQ? then CompareNat(right.ord, left.ord) else scores
  }

  /** The weight of a 64-bit cost fits 32 bits. */
  lemma WeightFits(e: Entry)
    ensures Weight(e) < 0x1_0000_0000
  {
    var v: nat := if e.cost < 1 then 1 else e.cost;
    if Weight(e) >= 0x1_0000_0000 { Squares(0x1_0000_0000, FloorSqrt(v)); }
  }

  /** No product of a wait and a weight comes near the saturation point. */
  lemma NeverSaturates(a: Entry, b: Entry, now: Instant)
    ensures SaturatingMul(Wait(a, now), Weight(b)) == Wait(a, now) * Weight(b) < U128_LIMIT
  {
    WeightFits(b);
    Product(Wait(a, now), Weight(b), DURATION_LIMIT, 0x1_0000_0000);
  }

  lemma Product(a: nat, b: nat, m: nat, n: nat)
    requires a <= m && b <= n
    ensures a * b <= m * n
  {
    assert m * n == a * b + (m - a) * b + m * (n - b);
  }

  /** The comparison without the saturating products. */
  lemma CompareScores(a: Entry, b: Entry, now: Instant)
    ensures var l, r := Wait(a, now) * Weight(b), Wait(b, now) * Weight(a);
            Compare(a, b, now) == if l < r then LT else if l > r then GT else CompareNat(b.ord, a.ord)
  {
    NeverSaturates(a, b, now);
    NeverSaturates(b, a, now);
  }

  /** A floor square root is unique. */
  lemma SqrtUnique(v: nat, a: nat, b: nat)
    requires a * a <= v < (a + 1) * (a + 1) && b * b <= v < (b + 1) * (b + 1)
    ensures a == b
  {
    if a < b { Squares(a + 1, b); } else if b < a { Squares(b + 1, a); }
  }

  /** The time an entry has waited; a clock that reads earlier than the arrival counts as zero. */
  function Waited(since: nat, now: nat): nat {
    if since <= now then now - since else 0
  }

  /**
   * The order in terms of arrival, cost and ordinal alone: with p and q the floor square roots of
   * the costs (at least 1), the entry with the smaller wait per root is the lesser; among equals
   * the one with the later ordinal.
   */
  lemma OrderLaw(a: Entry, b: Entry, now: Instant, p: nat, q: nat)
    requires var c := if a.cost < 1 then 1 else a.cost; p * p <= c < (p + 1) * (p + 1)
    requires var c := if b.cost < 1 then 1 else b.cost; q * q <= c < (q + 1) * (q + 1)
    ensures var l, r := Waited(a.since, now) * q, Waited(b.since, now) * p;
      && (Compare(a, b, now) == LT <==> l < r || (l == r && a.ord > b.ord))
      && (Compare(a, b, now) == GT <==> l > r || (l == r && a.ord < b.ord))
  {
    SqrtUnique(if a.cost < 1 then 1 else a.cost, p, Weight(a));
    SqrtUnique(if b.cost < 1 then 1 else b.cost, q, Weight(b));
    CompareScores(a, b, now);
  }

  /** Of two entries of equal cost the one that arrived earlier is the greater, whatever the ordinals. */
  lemma EarlierIsGreater(a: Entry, b: Entry, now: Instant)
    requires a.cost == b.cost && a.since < b.since <= now
    ensures Compare(a, b, now) == GT && Compare(b, a, now) == LT
  {
    var w := Weight(a);
    OrderLaw(a, b, now, w, w);
    OrderLaw(b, a, now, w, w);
    MulLe(now - b.since, now - a.since, w);
  }

  /** Cross products compare like fractions. */
  lemma Ratios(wa: nat, ca: nat, wb: nat, cb: nat, wc: nat, cc: nat)
    requires ca > 0 && cb > 0 && cc > 0 && wa * cb <= wb * ca && wb * cc <= wc * cb
    ensures wa * cc <= wc * ca
    ensures wa * cb < wb * ca || wb * cc < wc * cb ==> wa * cc < wc * ca
  {
    Rotate(wa, cb, cc);
    Rotate(wc, cb, ca);
    Commute(wb, ca, cc);
    MulLe(wa * cb, wb * ca, cc);
    MulLe(wb * cc, wc * cb, ca);
    Cancel(cb, wa * cc, wc * ca);
  }

  lemma Rotate(w: nat, a: nat, b: nat)
    ensures (w * a) * b == a * (w * b)
  {
  }

  lemma Commute(w: nat, a: nat, b: nat)
    ensures (w * a) * b == (w * b) * a
  {
  }

  lemma MulLe(a: nat, b: nat, c: nat)
    requires a <= b && c > 0
    ensures a * c <= b * c && (a < b ==> a * c < b * c)
  {
    assert b * c == a * c + (b - a) * c;
  }

  lemma Cancel(c: nat, a: nat, b: nat)
    requires c > 0
    ensures (c * a <= c * b ==> a <= b) && (c * a < c * b ==> a < b)
  {
    if b <= a { MulLe(b, a, c); }
    if b < a { MulLe(b, a, c); }
  }

  /** At any one time the order is total and transitive, and ties only an entry with its own ordinal. */
  lemma TotalOrder(a: Entry, b: Entry, c: Entry, now: Instant)
    ensures Compare(a, b, now) == LT <==> Compare(b, a, now) == GT
    ensures Compare(a, b, now) == EQ ==> a.ord == b.ord
    ensures a.ord != b.ord ==> Compare(a, b, now) == LT || Compare(b, a, now) == LT
    ensures Compare(a, b, now) == LT && Compare(b, c, now) == LT ==> Compare(a, c, now) == LT
    ensures Compare(a, b, now) != GT && Compare(b, c, now) != GT ==> Compare(a, c, now) != GT
  {
    CompareScores(a, b, now);
    CompareScores(b, a, now);
    CompareScores(b, c, now);
    CompareScores(a, c, now);
    if Compare(a, b, now) != GT && Compare(b, c, now) != GT {
      Ratios(Wait(a, now), Weight(a), Wait(b, now), Weight(b), Wait(c, now), Weight(c));
      if Wait(a, now) * Weight(b) == Wait(b, now) * Weight(a) && Wait(b, now) * Weight(c) == Wait(c, now) * Weight(b) {
        EqualRatios(a, b, c, now);
      }
    }
  }

  lemma EqualRatios(a: Entry, b: Entry, c: Entry, now: Instant)
    requires Wait(a, now) * Weight(b) == Wait(b, now) * Weight(a)
    requires Wait(b, now) * Weight(c) == Wait(c, now) * Weight(b)
    ensures Wait(a, now) * Weight(c) == Wait(c, now) * Weight(a)
  {
    Ratios(Wait(a, now), Weight(a), Wait(b, now), Weight(b), Wait(c, now), Weight(c));
    Ratios(Wait(c, now), Weight(c), Wait(b, now), Weight(b), Wait(a, now), Weight(a));
  }

  ghost function Lead(a: Entry, b: Entry, t: Instant): int {
    Wait(a, t) * Weight(b) - Wait(b, t) * Weight(a)
  }

  lemma LeadGrows(a: Entry, b: Entry, t: Instant, u: Instant)
    requires a.since <= t <= u && b.since <= t
    ensures Lead(a, b, u) - Lead(a, b, t) == (u - t) * (Weight(b) - Weight(a))
  {
    Linear(Wait(a, t), Wait(b, t), u - t, Weight(b), Weight(a));
  }

  lemma Linear(wa: int, wb: int, d: int, m: int, n: int)
    ensures ((wa + d) * m - (wb + d) * n) - (wa * m - wb * n) == d * (m - n)
  {
  }

  /** Once both wait, their relative order changes at most once as time goes on. */
  lemma FlipsAtMostOnce(a: Entry, b: Entry, t1: Instant, t2: Instant, t3: Instant)
    requires a.ord != b.ord && a.since <= t1 && b.since <= t1 <= t2 <= t3
    requires Compare(a, b, t1) != Compare(a, b, t2)
    ensures Compare(a, b, t3) == Compare(a, b, t2)
  {
    CompareScores(a, b, t1);
    CompareScores(a, b, t2);
    CompareScores(a, b, t3);
    LeadGrows(a, b, t1, t2);
    LeadGrows(a, b, t2, t3);
    SameSign(t2 - t1, t3 - t2, Weight(b) - Weight(a));
  }

  lemma SameSign(p: nat, q: nat, k: int)
    ensures k >= 0 ==> p * k >= 0 && q * k >= 0
    ensures k <= 0 ==> p * k <= 0 && q * k <= 0
  {
  }
}
