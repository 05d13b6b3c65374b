/** Counting elements of a finite set by the number that orders them. */
module Counting {

  /** The members of `xs` whose number is below `n`. */
  ghost function Below<T>(xs: set<T>, num: map<T, nat>, n: nat): set<T>
    requires xs <= num.Keys
  {
    set x | x in xs && num[x] < n
  }

  /** The members of `xs` that fewer than `m` others precede. */
  ghost function First<T>(xs: set<T>, num: map<T, nat>, m: nat): set<T>
    requires xs <= num.Keys
  {
    set x | x in xs && |Below(xs, num, num[x])| < m
  }

  ghost predicate Injective<T>(xs: set<T>, num: map<T, nat>)
    requires xs <= num.Keys
  {
    forall x, y | x in xs && y in xs && x != y :: num[x] != num[y]
  }

  lemma SubsetSize<T>(a: set<T>, b: set<T>)
    requires a <= b
    ensures |a| <= |b|
  {
    assert b == a + (b - a);
  }

  lemma UnionSize<T>(a: set<T>, b: set<T>)
    ensures |a + b| <= |a| + |b|
  {
    assert a + b == a + (b - a);
    SubsetSize(b - a, b);
  }

  /** A non-empty set has a member with the greatest number. */
  lemma {:induction false} HasTop<T>(xs: set<T>, num: map<T, nat>) returns (top: T)
    requires xs != {} && xs <= num.Keys
    ensures top in xs && forall x | x in xs :: num[x] <= num[top]
  {
    var x :| x in xs;
    if xs == {x} {
      top := x;
    } else {
      var rest := xs - {x};
      assert rest != {} by { assert xs == rest + {x}; }
      var t := HasTop(rest, num);
      top := if num[t] < num[x] then x else t;
    }
  }

  /** Exactly min(|xs|, m) members have fewer than m predecessors. */
  lemma {:induction false} FirstCount<T>(xs: set<T>, num: map<T, nat>, m: nat)
    requires xs <= num.Keys && Injective(xs, num)
    ensures |First(xs, num, m)| == if |xs| < m then |xs| else m
  {
    if xs == {} {
      assert First(xs, num, m) == {};
    } else {
      var top := HasTop(xs, num);
      var rest := xs - {top};
      FirstCount(rest, num, m);
      assert |rest| == |xs| - 1;
      forall x | x in rest
        ensures Below(xs, num, num[x]) == Below(rest, num, num[x])
      {
      }
      assert Below(xs, num, num[top]) == rest;
      assert First(xs, num, m) ==
        First(rest, num, m) + if |rest| < m then {top} else {};
    }
  }

  /** The keys of a table whose value satisfies p. */
  ghost function Sel<K, V>(m: map<K, V>, p: V -> bool): set<K> {
    set k | k in m && p(m[k])
  }

  ghost function One(b: bool): nat {
    if b then 1 else 0
  }

  /** How one update moves a count. */
  lemma SelUpdate<K, V>(m: map<K, V>, k: K, v: V, p: V -> bool)
    ensures |Sel(m[k := v], p)| == |Sel(m, p)| - One(k in m && p(m[k])) + One(p(v))
  {
    var before, after := Sel(m, p), Sel(m[k := v], p);
    var rest := before - {k};
    assert after - {k} == rest;
    assert (k in before) == (k in m && p(m[k])) && (k in after) == p(v);
    WithOrWithout(before, k);
    WithOrWithout(after, k);
  }

  lemma WithOrWithout<K>(s: set<K>, k: K)
    ensures |s| == |s - {k}| + One(k in s)
  {
    if k in s {
      assert s == (s - {k}) + {k};
    } else {
      assert s - {k} == s;
    }
  }

  /** If what leaves p between two tables is exactly what satisfied q, the counts differ by it. */
  lemma SelSplit<K, V>(m: map<K, V>, n: map<K, V>, p: V -> bool, q: V -> bool)
    requires m.Keys == n.Keys
    requires forall k | k in m :: p(m[k]) == (p(n[k]) || q(m[k])) && !(p(n[k]) && q(m[k]))
    ensures |Sel(m, p)| == |Sel(n, p)| + |Sel(m, q)|
  {
    assert Sel(m, p) == Sel(n, p) + Sel(m, q);
    assert Sel(n, p) !! Sel(m, q);
  }

  lemma SelSame<K, V>(m: map<K, V>, n: map<K, V>, p: V -> bool)
    requires m.Keys == n.Keys && forall k | k in m :: p(m[k]) == p(n[k])
    ensures Sel(m, p) == Sel(n, p)
  {
  }

  // ---------------------------------------------- counting along a sequence

  ghost function Tally<T>(s: seq<T>, p: T -> bool): (n: nat)
    ensures n <= |s|
  {
    if s == [] then 0 else Tally(s[..|s| - 1], p) + One(p(s[|s| - 1]))
  }

  lemma {:induction false} TallyUpdate<T>(s: seq<T>, i: nat, x: T, p: T -> bool)
    requires i < |s|
    ensures Tally(s[i := x], p) == Tally(s, p) - One(p(s[i])) + One(p(x))
    ensures Tally(s, p) >= One(p(s[i]))
  {
    var n := |s| - 1;
    if i == n {
      assert s[i := x][..n] == s[..n];
    } else {
      TallyUpdate(s[..n], i, x, p);
      assert s[i := x][..n] == s[..n][i := x];
    }
  }

  lemma TallyAppend<T>(s: seq<T>, x: T, p: T -> bool)
    ensures Tally(s + [x], p) == Tally(s, p) + One(p(x))
  {
    assert (s + [x])[..|s|] == s;
  }

  lemma {:induction false} TallyLess<T>(s: seq<T>, p: T -> bool, q: T -> bool)
    requires forall x | x in s :: p(x) ==> q(x)
    ensures Tally(s, p) <= Tally(s, q)
  {
    if s != [] {
      TallyLess(s[..|s| - 1], p, q);
    }
  }

  // ------------------------------------------------------ the size of a map

  lemma OneFewer<K, V>(m: map<K, V>, k: K)
    requires k in m
    ensures |m - {k}| == |m| - 1
  {
    assert m.Keys == (m - {k}).Keys + {k} && |m| == |m.Keys|;
  }

  lemma OneMore<K, V>(m: map<K, V>, k: K, v: V)
    ensures |m[k := v]| == |m| + One(k !in m)
  {
    assert m[k := v].Keys == m.Keys + {k} && |m| == |m.Keys| && |m[k := v]| == |m[k := v].Keys|;
  }
}
