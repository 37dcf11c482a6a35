/** Sums over the gaps of an ascending list of times. */
module Grids {
  import opened Sequences

  ghost function Integral(f: (real, real) -> real, ts: seq<real>): real {
    if |ts| < 2 then 0.0
    else Integral(f, ts[..|ts| - 1]) + f(ts[|ts| - 2], ts[|ts| - 1])
  }

  ghost predicate Increasing(ts: seq<real>) {
    forall i, j :: 0 <= i <= j < |ts| ==> ts[i] <= ts[j]
  }

  /** The value of `f` on the gap that ends at position `k`. */
  ghost function OnGap(f: (real, real) -> real, ts: seq<real>, k: nat): real
    requires 1 <= k < |ts|
  {
    f(ts[k - 1], ts[k])
  }

  lemma {:induction false} IntegralMonotone(f: (real, real) -> real, g: (real, real) -> real, ts: seq<real>)
    requires forall k :: 1 <= k < |ts| ==> OnGap(f, ts, k) <= OnGap(g, ts, k)
    ensures Integral(f, ts) <= Integral(g, ts)
  {
    if |ts| >= 2 {
      var r := ts[..|ts| - 1];
      assert forall k :: 1 <= k < |r| ==> OnGap(f, r, k) == OnGap(f, ts, k) && OnGap(g, r, k) == OnGap(g, ts, k);
      IntegralMonotone(f, g, r);
      assert OnGap(f, ts, |ts| - 1) <= OnGap(g, ts, |ts| - 1);
    }
  }

  lemma {:induction false} IntegralSum(f: (real, real) -> real, g: (real, real) -> real,
                                       h: (real, real) -> real, ts: seq<real>)
    requires forall a, b :: f(a, b) + g(a, b) == h(a, b)
    ensures Integral(f, ts) + Integral(g, ts) == Integral(h, ts)
  {
    if |ts| >= 2 {
      IntegralSum(f, g, h, ts[..|ts| - 1]);
    }
  }

  lemma {:induction false} IntegralBounds(n: real, f: (real, real) -> real, d: (real, real) -> real, ts: seq<real>)
    requires forall k :: 1 <= k < |ts| ==> OnGap(f, ts, k) <= OnGap(d, ts, k) <= n * OnGap(f, ts, k)
    ensures Integral(f, ts) <= Integral(d, ts) <= n * Integral(f, ts)
  {
    if |ts| >= 2 {
      var r := ts[..|ts| - 1];
      assert forall k :: 1 <= k < |r| ==> OnGap(f, r, k) == OnGap(f, ts, k) && OnGap(d, r, k) == OnGap(d, ts, k);
      IntegralBounds(n, f, d, r);
      assert OnGap(f, ts, |ts| - 1) <= OnGap(d, ts, |ts| - 1);
      Distribute(n, Integral(f, r), OnGap(f, ts, |ts| - 1));
    }
  }

  lemma {:induction false} Telescope(antiderivative: real -> real, f: (real, real) -> real, ts: seq<real>)
    requires forall a, b :: f(a, b) == antiderivative(b) - antiderivative(a)
    requires |ts| >= 1
    ensures Integral(f, ts) == antiderivative(ts[|ts| - 1]) - antiderivative(ts[0])
  {
    if |ts| >= 2 {
      Telescope(antiderivative, f, ts[..|ts| - 1]);
    }
  }

  lemma {:induction false} IntegralZero(f: (real, real) -> real, ts: seq<real>)
    requires forall a, b :: f(a, b) == 0.0
    ensures Integral(f, ts) == 0.0
  {
    if |ts| >= 2 {
      IntegralZero(f, ts[..|ts| - 1]);
    }
  }

  lemma {:induction false} IntegralZeroIff(f: (real, real) -> real, ts: seq<real>)
    requires forall k :: 1 <= k < |ts| ==> OnGap(f, ts, k) >= 0.0
    ensures Integral(f, ts) >= 0.0
    ensures Integral(f, ts) == 0.0 <==> forall k :: 1 <= k < |ts| ==> OnGap(f, ts, k) == 0.0
  {
    if |ts| >= 2 {
      var r := ts[..|ts| - 1];
      assert forall k :: 1 <= k < |r| ==> OnGap(f, r, k) == OnGap(f, ts, k);
      IntegralZeroIff(f, r);
      assert OnGap(f, ts, |ts| - 1) >= 0.0;
    }
  }

  /** `ts` without adjacent repeats. */
  ghost function Dedup(ts: seq<real>): seq<real> {
    if |ts| < 2 then ts
    else if ts[|ts| - 2] == ts[|ts| - 1] then Dedup(ts[..|ts| - 1])
    else Dedup(ts[..|ts| - 1]) + [ts[|ts| - 1]]
  }

  ghost predicate Strict(ts: seq<real>) {
    forall i, j :: 0 <= i < j < |ts| ==> ts[i] < ts[j]
  }

  ghost predicate SameElements<T(!new)>(s: seq<T>, t: seq<T>) {
    forall x :: x in s <==> x in t
  }

  lemma {:induction false} DedupStrict(ts: seq<real>)
    requires Increasing(ts)
    ensures Strict(Dedup(ts)) && SameElements(Dedup(ts), ts)
    ensures ts != [] ==> Dedup(ts) != [] && Dedup(ts)[|Dedup(ts)| - 1] == ts[|ts| - 1]
  {
    if |ts| >= 2 {
      var r, x := ts[..|ts| - 1], ts[|ts| - 1];
      hide Strict, SameElements;
      DedupStrict(r);
      assert ts == r + [x];
      assert r[|r| - 1] == ts[|ts| - 2];
      if ts[|ts| - 2] == x {
        KnownElement(Dedup(r), r, x);
      } else {
        StrictPush(Dedup(r), x);
        SameElementsPush(Dedup(r), r, x);
      }
    } else {
      SameAsItself(ts);
    }
  }

  lemma StrictPush(s: seq<real>, x: real)
    requires Strict(s) && s != [] && s[|s| - 1] < x
    ensures Strict(s + [x])
  {
    forall i | 0 <= i < |s|
      ensures s[i] < x
    {
      assert i < |s| - 1 ==> s[i] < s[|s| - 1];
    }
  }

  lemma SameElementsPush(s: seq<real>, t: seq<real>, x: real)
    requires SameElements(s, t)
    ensures SameElements(s + [x], t + [x])
  {
  }

  lemma KnownElement(s: seq<real>, t: seq<real>, x: real)
    requires SameElements(s, t) && x in t
    ensures SameElements(s, t + [x])
  {
  }

  lemma SameAsItself(ts: seq<real>)
    ensures SameElements(ts, ts) && (|ts| < 2 ==> Strict(ts))
  {
  }

  lemma {:induction false} DedupKeeps(f: (real, real) -> real, ts: seq<real>)
    requires Increasing(ts) && forall a :: f(a, a) == 0.0
    ensures Integral(f, Dedup(ts)) == Integral(f, ts)
  {
    if |ts| >= 2 {
      hide Strict, SameElements;
      var r, x := ts[..|ts| - 1], ts[|ts| - 1];
      DedupKeeps(f, r);
      DedupStrict(r);
      assert (Dedup(r) + [x])[..|Dedup(r)|] == Dedup(r);
    }
  }

  lemma DropLast(s: seq<real>, t: seq<real>)
    requires Strict(s) && Strict(t) && SameElements(s, t) && s != [] && t != [] && s[|s| - 1] == t[|t| - 1]
    ensures SameElements(s[..|s| - 1], t[..|t| - 1])
  {
    var x, s', t' := s[|s| - 1], s[..|s| - 1], t[..|t| - 1];
    assert s == s' + [x] && t == t' + [x];
    assert x !in s' && x !in t';
    forall y
      ensures y in s' <==> y in t'
    {
      assert y in s <==> y in s' || y == x;
      assert y in t <==> y in t' || y == x;
    }
  }

  lemma {:induction false} StrictUnique(s: seq<real>, t: seq<real>)
    requires Strict(s) && Strict(t) && SameElements(s, t)
    ensures s == t
  {
    if s == [] {
      assert forall i :: 0 <= i < |t| ==> t[i] in s;
    } else {
      var x := s[|s| - 1];
      assert x in t && t[|t| - 1] in s;
      assert x == t[|t| - 1];
      var s', t' := s[..|s| - 1], t[..|t| - 1];
      assert s == s' + [x] && t == t' + [x];
      DropLast(s, t);
      StrictUnique(s', t');
    }
  }

  /** A sum that ignores empty gaps depends only on which times are listed. */
  lemma IntegralOfSameTimes(f: (real, real) -> real, s: seq<real>, t: seq<real>)
    requires Increasing(s) && Increasing(t) && SameElements(s, t)
    requires forall a :: f(a, a) == 0.0
    ensures Integral(f, s) == Integral(f, t)
  {
    DedupKeeps(f, s);
    DedupKeeps(f, t);
    DedupStrict(s);
    DedupStrict(t);
    StrictUnique(Dedup(s), Dedup(t));
  }

  ghost function SumOver<T>(g: T -> real, s: seq<T>): real {
    if s == [] then 0.0 else SumOver(g, s[..|s| - 1]) + g(s[|s| - 1])
  }

  ghost function CountIn<T>(c: set<T>, s: seq<T>): nat {
    if s == [] then 0 else CountIn(c, s[..|s| - 1]) + if s[|s| - 1] in c then 1 else 0
  }

  /** A sum over items that are each worth `share` if they are in `c` and nothing otherwise. */
  lemma {:induction false} SumShares<T>(g: T -> real, c: set<T>, s: seq<T>, share: real)
    requires forall t :: t in s ==> g(t) == if t in c then share else 0.0
    ensures SumOver(g, s) == share * CountIn(c, s) as real
  {
    if s != [] {
      var r := s[..|s| - 1];
      SumShares(g, c, r, share);
      ScaleSucc(share, CountIn(c, r));
    }
  }

  lemma ScaleSucc(share: real, n: nat)
    ensures share * (n + 1) as real == share * n as real + share
  {
  }

  lemma {:induction false} CountAll<T>(c: set<T>, s: seq<T>)
    requires NoDup(s) && forall t :: t in c ==> t in s
    ensures CountIn(c, s) == |c|
  {
    if s == [] {
      assert c == {};
    } else {
      var r, t := s[..|s| - 1], s[|s| - 1];
      assert s == r + [t] && t !in r;
      CountAll(c - {t}, r);
      CountWithout(c, r, t);
    }
  }

  lemma {:induction false} CountWithout<T>(c: set<T>, s: seq<T>, t: T)
    requires t !in s
    ensures CountIn(c - {t}, s) == CountIn(c, s)
  {
    if s != [] {
      CountWithout(c, s[..|s| - 1], t);
    }
  }

  /** A permutation of distinct items is distinct and has the same items. */
  lemma SamePermutation<T>(s: seq<T>, p: seq<T>)
    requires NoDup(s) && multiset(p) == multiset(s)
    ensures NoDup(p) && forall x :: x in p <==> x in s
  {
    forall x
      ensures x in p <==> x in s
    {
      assert x in p <==> x in multiset(p);
      assert x in s <==> x in multiset(s);
    }
    forall i, j | 0 <= i < j < |p|
      ensures p[i] != p[j]
    {
      Multiplicity(s, p[i]);
      assert p == p[..i] + [p[i]] + p[i + 1..j] + [p[j]] + p[j + 1..];
    }
  }

  lemma {:induction false} Multiplicity<T>(s: seq<T>, x: T)
    requires NoDup(s)
    ensures multiset(s)[x] <= 1
  {
    if s != [] {
      var r := s[..|s| - 1];
      Multiplicity(r, x);
      assert s == r + [s[|s| - 1]];
      assert x == s[|s| - 1] ==> x !in r;
    }
  }

  lemma {:induction false} DistinctSize<T>(s: seq<T>)
    requires NoDup(s)
    ensures |Elements(s)| == |s|
  {
    if s == [] {
      assert Elements(s) == {};
    } else {
      var r := s[..|s| - 1];
      DistinctSize(r);
      assert s == r + [s[|s| - 1]];
      assert Elements(s) == Elements(r) + {s[|s| - 1]};
    }
  }

  lemma NoneInBetween(ts: seq<real>, k: nat, x: real)
    requires Increasing(ts) && 1 <= k < |ts| && x in ts
    ensures ts[k - 1] <= ts[k] && (x <= ts[k - 1] || ts[k] <= x)
  {
    var i :| 0 <= i < |ts| && ts[i] == x;
    assert i <= k - 1 || k <= i;
  }

  lemma Extremes(ts: seq<real>, x: real)
    requires Increasing(ts) && x in ts
    ensures |ts| >= 1 && ts[0] <= x <= ts[|ts| - 1]
  {
  }

  lemma SubsetSize<T>(a: set<T>, b: set<T>)
    requires a <= b
    ensures |a| <= |b|
  {
    if a != {} {
      var x :| x in a;
      SubsetSize(a - {x}, b - {x});
    }
  }

  lemma Distribute(n: real, x: real, y: real)
    ensures n * (x + y) == n * x + n * y
  {
  }

  lemma ShareBounds(d: real, m: nat, n: nat)
    requires d >= 0.0 && 1 <= m <= n
    ensures d / m as real <= d <= n as real * (d / m as real)
  {
    var q := d / m as real;
    assert m as real * q == d;
    assert q >= 0.0;
    Scale(q, 1.0, m as real);
    Scale(q, m as real, n as real);
  }

  lemma Scale(q: real, x: real, y: real)
    requires x <= y && q >= 0.0
    ensures x * q <= y * q
  {
    assert (y - x) * q >= 0.0;
  }

  lemma ShareFromProduct(d: real, n: nat, w: real)
    requires n > 0 && d <= n as real * w
    ensures d / n as real <= w
  {
    var x := n as real;
    var q := d / x;
    assert x * q == d;
    if q > w {
      assert x * (q - w) > 0.0;
    }
  }
}
