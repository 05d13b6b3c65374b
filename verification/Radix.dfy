/** Fixed-length numerals, most significant digit first. */
module Radix {

  function Pow(r: nat, n: nat): nat {
    if n == 0 then 1 else r * Pow(r, n - 1)
  }

  /** The n lowest digits of v. */
  function Digits(v: nat, r: nat, n: nat): (ds: seq<nat>)
    requires r > 0
    ensures |ds| == n && forall i | 0 <= i < n :: ds[i] < r
    decreases n
  {
    if n == 0 then [] else Digits(v / r, r, n - 1) + [v % r]
  }

  function Value(ds: seq<nat>, r: nat): nat {
    if ds == [] then 0 else Value(ds[..|ds| - 1], r) * r + ds[|ds| - 1]
  }

  lemma MulMono(r: nat, a: nat, b: nat)
    requires a <= b
    ensures r * a <= r * b
  {
  }

  lemma SmallMultiple(k: int, r: int)
    requires -r < k * r < r
    ensures k == 0
  {
  }

  /** Division with remainder is the only way to write v as q * r + d. */
  lemma DivModOf(v: nat, r: nat, q: nat, d: nat)
    requires d < r && v == q * r + d
    ensures v / r == q && v % r == d
  {
    var p, e := v / r, v % r;
    assert v == r * p + e;
    assert (q - p) * r == e - d;
    SmallMultiple(q - p, r);
  }

  lemma DivBound(v: nat, r: nat, p: nat)
    requires r > 0 && v < r * p
    ensures v / r < p && v == (v / r) * r + v % r
  {
  }

  /** Writing then reading returns the number, if it fits. */
  lemma {:induction false} ValueOfDigits(v: nat, r: nat, n: nat)
    requires r > 0 && v < Pow(r, n)
    ensures Value(Digits(v, r, n), r) == v
    decreases n
  {
    if n > 0 {
      DivBound(v, r, Pow(r, n - 1));
      var q, d := v / r, v % r;
      ValueOfDigits(q, r, n - 1);
      var ds := Digits(v, r, n);
      assert ds[..|ds| - 1] == Digits(q, r, n - 1);
      assert Value(ds, r) == Value(Digits(q, r, n - 1), r) * r + d;
    }
  }

  /** Reading then writing returns the numeral. */
  lemma {:induction false} DigitsOfValue(ds: seq<nat>, r: nat)
    requires r > 0 && forall i | 0 <= i < |ds| :: ds[i] < r
    ensures Value(ds, r) < Pow(r, |ds|) && Digits(Value(ds, r), r, |ds|) == ds
  {
    if ds != [] {
      var init, d := ds[..|ds| - 1], ds[|ds| - 1];
      DigitsOfValue(init, r);
      AppendDigit(Value(init, r), d, r, |init|);
      assert ds == init + [d];
    }
  }

  lemma AppendDigit(q: nat, d: nat, r: nat, n: nat)
    requires d < r && q < Pow(r, n)
    ensures q * r + d < Pow(r, n + 1) && Digits(q * r + d, r, n + 1) == Digits(q, r, n) + [d]
  {
    Carry(q, d, r, Pow(r, n));
    var v := q * r + d;
    DivModOf(v, r, q, d);
    assert Digits(v, r, n + 1) == Digits(v / r, r, n) + [v % r];
  }

  lemma Carry(q: nat, d: nat, r: nat, p: nat)
    requires d < r && q < p
    ensures q * r + d < r * p
  {
    MulMono(r, q + 1, p);
    assert r * (q + 1) == q * r + r;
  }

  lemma LastDigit(v: nat, r: nat, n: nat)
    requires r > 0 && n > 0
    ensures Digits(v, r, n)[..n - 1] == Digits(v / r, r, n - 1) && Digits(v, r, n)[n - 1] == v % r
  {
  }
}
