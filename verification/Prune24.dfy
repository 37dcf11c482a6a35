/** benchmarks/cutlass_benchmarks/utils.py: pruning a tensor to 2:4 sparsity and
    quantising it afterwards.  Entries are real numbers, so -0.0 is 0.0. */
module Prune24 {

  datatype Result<T> = Ok(value: T) | ShapeError

  function Abs(x: real): real {
    if x < 0.0 then -x else x
  }

  /** The k-th group of four entries. */
  ghost function Group(t: seq<real>, k: nat): (g: seq<real>)
    requires 4 * k + 4 <= |t|
    ensures |g| == 4
  {
    t[4 * k..4 * k + 4]
  }

  /** `i` and `j` index two largest absolute values of the group. */
  ghost predicate IsTopTwo(g: seq<real>, i: nat, j: nat) {
    && |g| == 4 && i < 4 && j < 4 && i != j
    && forall k :: 0 <= k < 4 && k != i && k != j ==> Abs(g[k]) <= Abs(g[i]) && Abs(g[k]) <= Abs(g[j])
  }

  /** `p` keeps two largest entries of `g` and zeroes the others; ties may go either way. */
  ghost predicate GroupPruned(g: seq<real>, p: seq<real>) {
    exists i: nat, j: nat :: IsTopTwo(g, i, j) && Kept(g, p, i, j)
  }

  ghost predicate Kept(g: seq<real>, p: seq<real>, i: nat, j: nat) {
    |g| == |p| == 4 && forall k :: 0 <= k < 4 ==> p[k] == if k == i || k == j then g[k] else 0.0
  }

  ghost predicate Pruned(t: seq<real>, p: seq<real>) {
    |t| == |p| && |t| % 4 == 0 && forall k :: 0 <= k < |t| / 4 ==> GroupPruned(Group(t, k), Group(p, k))
  }

  /** At most two of the four entries are non-zero. */
  ghost predicate GroupSparse(g: seq<real>) {
    |g| == 4 && exists a, b :: 0 <= a < b < 4 && g[a] == 0.0 && g[b] == 0.0
  }

  ghost predicate Sparse(t: seq<real>) {
    |t| % 4 == 0 && forall k :: 0 <= k < |t| / 4 ==> GroupSparse(Group(t, k))
  }

  // ----- the pruning

  /** `torch.topk` with k = 2 on one group. */
  method TopTwo(g: seq<real>) returns (i: nat, j: nat)
    requires |g| == 4
    ensures IsTopTwo(g, i, j)
  {
    i := 0;
    for k := 1 to 4
      invariant i < k
      invariant forall m :: 0 <= m < k ==> Abs(g[m]) <= Abs(g[i])
    {
      if Abs(g[k]) > Abs(g[i]) {
        i := k;
      }
    }
    j := if i == 0 then 1 else 0;
    for k := 0 to 4
      invariant j < 4 && j != i
      invariant forall m :: 0 <= m < k && m != i ==> Abs(g[m]) <= Abs(g[j])
    {
      if k != i && Abs(g[k]) > Abs(g[j]) {
        j := k;
      }
    }
  }

  /** The binary mask: ones scattered at the chosen indices of each group. */
  ghost predicate MaskFor(t: seq<real>, mask: seq<real>, k: nat)
    requires |mask| == |t| && 4 * k + 4 <= |t|
  {
    exists i: nat, j: nat :: IsTopTwo(Group(t, k), i, j) && OnesAt(mask[4 * k..4 * k + 4], i, j)
  }

  ghost predicate OnesAt(mask: seq<real>, i: nat, j: nat) {
    |mask| == 4 && forall m :: 0 <= m < 4 ==> mask[m] == if m == i || m == j then 1.0 else 0.0
  }

  method PruneTo24(t: seq<real>) returns (r: Result<seq<real>>)
    ensures r.ShapeError? <==> |t| % 4 != 0
    ensures r.Ok? ==> Pruned(t, r.value)
  {
    if |t| % 4 != 0 {
      return ShapeError;
    }
    var mask := new real[|t|](_ => 0.0);
    for k := 0 to |t| / 4
      invariant forall m :: 4 * k <= m < |t| ==> mask[m] == 0.0
      invariant forall q :: 0 <= q < k ==> MaskFor(t, mask[..], q)
    {
      ghost var was := mask[..];
      var i, j := TopTwo(t[4 * k..4 * k + 4]);
      mask[4 * k + i] := 1.0;
      mask[4 * k + j] := 1.0;
      MaskExtended(t, was, mask[..], k, i, j);
    }
    var pruned := seq(|t|, x requires 0 <= x < |t| reads mask requires mask.Length == |t| => t[x] * mask[x]);
    forall k | 0 <= k < |t| / 4
      ensures GroupPruned(Group(t, k), Group(pruned, k))
    {
      ApplyMask(t, mask[..], pruned, k);
    }
    r := Ok(pruned);
  }

  lemma MaskExtended(t: seq<real>, was: seq<real>, mask: seq<real>, k: nat, i: nat, j: nat)
    requires |was| == |mask| == |t| && 4 * k + 4 <= |t| && IsTopTwo(Group(t, k), i, j)
    requires forall m :: 4 * k <= m < |t| ==> was[m] == 0.0
    requires mask == was[4 * k + i := 1.0][4 * k + j := 1.0]
    requires forall q :: 0 <= q < k ==> MaskFor(t, was, q)
    ensures forall q :: 0 <= q <= k ==> MaskFor(t, mask, q)
  {
    forall q | 0 <= q < k
      ensures MaskFor(t, mask, q)
    {
      assert MaskFor(t, was, q);
      assert mask[4 * q..4 * q + 4] == was[4 * q..4 * q + 4];
    }
    assert OnesAt(mask[4 * k..4 * k + 4], i, j);
  }

  lemma ApplyMask(t: seq<real>, mask: seq<real>, pruned: seq<real>, k: nat)
    requires |pruned| == |mask| == |t| && 4 * k + 4 <= |t| && MaskFor(t, mask, k)
    requires forall x :: 0 <= x < |t| ==> pruned[x] == t[x] * mask[x]
    ensures GroupPruned(Group(t, k), Group(pruned, k))
  {
    var h := mask[4 * k..4 * k + 4];
    var i: nat, j: nat :| IsTopTwo(Group(t, k), i, j) && OnesAt(h, i, j);
    var g, p := Group(t, k), Group(pruned, k);
    forall m | 0 <= m < 4
      ensures p[m] == if m == i || m == j then g[m] else 0.0
    {
      assert p[m] == pruned[4 * k + m] && g[m] == t[4 * k + m] && h[m] == mask[4 * k + m];
      ByMask(g[m], h[m], p[m]);
    }
    assert Kept(g, p, i, j);
  }

  lemma ByMask(x: real, bit: real, y: real)
    requires y == x * bit && (bit == 0.0 || bit == 1.0)
    ensures y == if bit == 1.0 then x else 0.0
  {
  }

  // ----- what pruning promises

  lemma PrunedIsSparse(t: seq<real>, p: seq<real>)
    requires Pruned(t, p)
    ensures Sparse(p)
  {
    forall k | 0 <= k < |p| / 4
      ensures GroupSparse(Group(p, k))
    {
      assert GroupPruned(Group(t, k), Group(p, k));
      var g, h := Group(t, k), Group(p, k);
      var i: nat, j: nat :| IsTopTwo(g, i, j) && Kept(g, h, i, j);
      var a, b := Others(i, j);
      assert h[a] == 0.0 && h[b] == 0.0;
    }
  }

  /** The two positions that are not `i` or `j`. */
  lemma Others(i: nat, j: nat) returns (a: nat, b: nat)
    requires i < 4 && j < 4 && i != j
    ensures a < b < 4 && a != i && a != j && b != i && b != j
  {
    a := if 0 != i && 0 != j then 0 else if 1 != i && 1 != j then 1 else 2;
    b := if 3 != i && 3 != j then 3 else if 2 != i && 2 != j then 2 else 1;
  }

  ghost function GroupError(g: seq<real>, p: seq<real>): real
    requires |g| == |p| == 4
  {
    Abs(g[0] - p[0]) + Abs(g[1] - p[1]) + Abs(g[2] - p[2]) + Abs(g[3] - p[3])
  }

  /** The total absolute error of the first `n` groups. */
  ghost function Error(t: seq<real>, p: seq<real>, n: nat): real
    requires |t| == |p| && 4 * n <= |t|
  {
    if n == 0 then 0.0 else Error(t, p, n - 1) + GroupError(Group(t, n - 1), Group(p, n - 1))
  }

  lemma GroupBest(g: seq<real>, p: seq<real>, q: seq<real>)
    requires GroupPruned(g, p) && GroupSparse(q)
    ensures GroupError(g, p) <= GroupError(g, q)
  {
    var i: nat, j: nat :| IsTopTwo(g, i, j) && Kept(g, p, i, j);
    var c, d := Others(i, j);
    var a, b :| 0 <= a < b < 4 && q[a] == 0.0 && q[b] == 0.0;
    DroppedError(g, p, i, j, c, d);
    ZeroedError(g, q, a, b);
    TwoSmallest(g, i, j, c, d, a, b);
  }

  lemma DroppedError(g: seq<real>, p: seq<real>, i: nat, j: nat, c: nat, d: nat)
    requires IsTopTwo(g, i, j) && Kept(g, p, i, j)
    requires c < d < 4 && c != i && c != j && d != i && d != j
    ensures GroupError(g, p) == Abs(g[c]) + Abs(g[d])
  {
    assert p[i] == g[i] && p[j] == g[j] && p[c] == 0.0 && p[d] == 0.0;
    assert {i, j, c, d} == {0, 1, 2, 3};
  }

  lemma ZeroedError(g: seq<real>, q: seq<real>, a: nat, b: nat)
    requires |g| == |q| == 4 && a < b < 4 && q[a] == 0.0 && q[b] == 0.0
    ensures Abs(g[a]) + Abs(g[b]) <= GroupError(g, q)
  {
  }

  lemma TwoSmallest(g: seq<real>, i: nat, j: nat, c: nat, d: nat, a: nat, b: nat)
    requires IsTopTwo(g, i, j) && c < d < 4 && c != i && c != j && d != i && d != j && a < b < 4
    ensures Abs(g[c]) + Abs(g[d]) <= Abs(g[a]) + Abs(g[b])
  {
    assert a == i || a == j || a == c || a == d;
    assert b == i || b == j || b == c || b == d;
  }

  /** Pruning is a best 2:4 approximation: no 2:4 tensor of the shape has a smaller
      total absolute error, whatever its entries are. */
  lemma {:induction false} PruningIsBest(t: seq<real>, p: seq<real>, q: seq<real>, n: nat)
    requires Pruned(t, p) && Sparse(q) && |q| == |t| && 4 * n <= |t|
    ensures Error(t, p, n) <= Error(t, q, n)
  {
    if n > 0 {
      PruningIsBest(t, p, q, n - 1);
      assert GroupPruned(Group(t, n - 1), Group(p, n - 1)) && GroupSparse(Group(q, n - 1));
      GroupBest(Group(t, n - 1), Group(p, n - 1), Group(q, n - 1));
    }
  }

  lemma GroupIdempotent(g: seq<real>, p: seq<real>, q: seq<real>)
    requires GroupPruned(g, p) && GroupPruned(p, q)
    ensures q == p
  {
    var i: nat, j: nat :| IsTopTwo(g, i, j) && Kept(g, p, i, j);
    var a: nat, b: nat :| IsTopTwo(p, a, b) && Kept(p, q, a, b);
    var c, d := Others(i, j);
    assert p[c] == 0.0 && p[d] == 0.0;
    forall k | 0 <= k < 4
      ensures q[k] == p[k]
    {
      if k != a && k != b {
        DroppedIsZero(p, a, b, c, d, k);
      }
    }
  }

  /** With two zeros in the group, what falls outside the two largest is zero. */
  lemma DroppedIsZero(p: seq<real>, a: nat, b: nat, c: nat, d: nat, k: nat)
    requires IsTopTwo(p, a, b) && c < d < 4 && p[c] == 0.0 && p[d] == 0.0 && k < 4 && k != a && k != b
    ensures p[k] == 0.0
  {
    if k != c && k != d {
      assert a == c || a == d || b == c || b == d;
    }
  }

  /** Pruning a pruned tensor changes nothing, however ties are broken. */
  lemma PruningIdempotent(t: seq<real>, p: seq<real>, q: seq<real>)
    requires Pruned(t, p) && Pruned(p, q)
    ensures q == p
  {
    forall x | 0 <= x < |p|
      ensures q[x] == p[x]
    {
      var k := x / 4;
      assert GroupPruned(Group(t, k), Group(p, k)) && GroupPruned(Group(p, k), Group(q, k));
      GroupIdempotent(Group(t, k), Group(p, k), Group(q, k));
      assert Group(q, k)[x - 4 * k] == q[x] && Group(p, k)[x - 4 * k] == p[x];
    }
  }

  // ----- quantising

  function Clamp(x: real, lo: real, hi: real): real {
    if x < lo then lo else if x > hi then hi else x
  }

  /** Rounding to the nearest integer, ties to the even one. */
  function Round(x: real): int {
    var f := x.Floor;
    var rest := x - f as real;
    if rest < 0.5 then f else if rest > 0.5 then f + 1 else if f % 2 == 0 then f else f + 1
  }

  /** `to_int8` */
  function ToInt8(x: real): (r: int)
    ensures -128 <= r <= 127
  {
    Round(Clamp(x, -128.0, 127.0))
  }

  lemma RoundIsNearest(x: real, n: int)
    ensures Abs(x - Round(x) as real) <= Abs(x - n as real)
    ensures n != Round(x) && Abs(x - Round(x) as real) == Abs(x - n as real) ==> Round(x) % 2 == 0
  {
    var f := x.Floor;
    assert n <= f || n >= f + 1;
    assert n <= f ==> n as real <= f as real;
    assert n >= f + 1 ==> n as real >= f as real + 1.0;
  }

  /** `to_int8` picks the nearest representable value, the even one if there are two. */
  lemma Int8IsNearest(x: real, n: int)
    requires -128 <= n <= 127
    ensures Abs(x - ToInt8(x) as real) <= Abs(x - n as real)
    ensures n != ToInt8(x) && Abs(x - ToInt8(x) as real) == Abs(x - n as real) ==> ToInt8(x) % 2 == 0
  {
    var y := Clamp(x, -128.0, 127.0);
    RoundIsNearest(y, n);
    hide Round;
    if y != x {
      RoundIsNearest(y, if y == 127.0 then 127 else -128);
    }
  }

  ghost predicate SparseInts(t: seq<int>) {
    |t| % 4 == 0 && forall k :: 0 <= k < |t| / 4 ==> GroupSparseInts(t[4 * k..4 * k + 4])
  }

  ghost predicate GroupSparseInts(g: seq<int>) {
    |g| == 4 && exists a, b :: 0 <= a < b < 4 && g[a] == 0 && g[b] == 0
  }

  /** Quantising after pruning keeps the 2:4 pattern. */
  lemma QuantisingKeepsPattern(t: seq<real>, p: seq<real>, q: seq<int>)
    requires Pruned(t, p) && |q| == |p| && forall x :: 0 <= x < |q| ==> q[x] == ToInt8(p[x])
    ensures SparseInts(q)
  {
    PrunedIsSparse(t, p);
    assert ToInt8(0.0) == 0;
    forall k | 0 <= k < |q| / 4
      ensures GroupSparseInts(q[4 * k..4 * k + 4])
    {
      var h := Group(p, k);
      assert GroupSparse(h);
      var a, b :| 0 <= a < b < 4 && h[a] == 0.0 && h[b] == 0.0;
      var g := q[4 * k..4 * k + 4];
      assert g[a] == q[4 * k + a] == ToInt8(p[4 * k + a]);
      assert g[b] == q[4 * k + b] == ToInt8(p[4 * k + b]);
    }
  }
}
