/** vllm/config.py: the table that pads a batch size to a captured CUDA graph size, and
    the default capture sizes. */
module CudaGraphs {
  import opened Options

  // ----- the reference: a search in the list of sizes

  ghost predicate IsSize(sizes: seq<nat>, x: nat) {
    x == 0 || x in sizes
  }

  /** `p` is the least of the sizes and 0 that is at least `bs`. */
  ghost predicate PadsTo(sizes: seq<nat>, bs: nat, p: nat) {
    && IsSize(sizes, p) && bs <= p
    && forall x :: IsSize(sizes, x) && bs <= x ==> p <= x
  }

  ghost predicate IsLargest(sizes: seq<nat>, m: nat) {
    IsSize(sizes, m) && forall x :: x in sizes ==> x <= m
  }

  ghost predicate Descending(s: seq<nat>) {
    forall i, j :: 0 <= i <= j < |s| ==> s[i] >= s[j]
  }

  // ----- building the table

  method SortDescending(sizes: seq<nat>) returns (s: seq<nat>)
    ensures Descending(s) && multiset(s) == multiset(sizes)
  {
    s := [];
    for i := 0 to |sizes|
      invariant Descending(s) && multiset(s) == multiset(sizes[..i])
    {
      s := InsertDescending(s, sizes[i]);
      assert sizes[..i + 1] == sizes[..i] + [sizes[i]];
    }
    assert sizes[..|sizes|] == sizes;
  }

  method InsertDescending(s: seq<nat>, x: nat) returns (r: seq<nat>)
    requires Descending(s)
    ensures Descending(r) && multiset(r) == multiset(s) + multiset{x}
  {
    var j := |s|;
    while j > 0 && s[j - 1] < x
      invariant 0 <= j <= |s|
      invariant forall k :: j <= k < |s| ==> s[k] < x
    {
      j := j - 1;
    }
    r := s[..j] + [x] + s[j..];
    Inserted(s, j, x);
  }

  lemma Inserted(s: seq<nat>, j: nat, x: nat)
    requires Descending(s) && j <= |s|
    requires (j > 0 ==> x <= s[j - 1]) && forall k :: j <= k < |s| ==> s[k] < x
    ensures var r := s[..j] + [x] + s[j..];
            Descending(r) && multiset(r) == multiset(s) + multiset{x}
  {
    hide Descending;
    assert multiset(s[..j] + [x] + s[j..]) == multiset(s) + multiset{x} by {
      assert s == s[..j] + s[j..];
    }
    InsertedDescending(s, j, x, s[..j] + [x] + s[j..]);
  }

  lemma InsertedDescending(s: seq<nat>, j: nat, x: nat, r: seq<nat>)
    requires Descending(s) && j <= |s| && r == s[..j] + [x] + s[j..]
    requires (j > 0 ==> x <= s[j - 1]) && forall k :: j <= k < |s| ==> s[k] < x
    ensures Descending(r)
  {
    forall i, k | 0 <= i < k < |r|
      ensures r[i] >= r[k]
    {
      if i < j {
        assert r[i] == s[i] && s[i] >= s[j - 1];
      }
      if k > j {
        assert r[k] == s[k - 1];
      }
      if i > j {
        assert r[i] == s[i - 1];
      }
    }
  }

  /** The lower end of the stretch that the k-th size closes. */
  function Below(s: seq<nat>, k: nat): nat
    requires k < |s|
  {
    if k + 1 < |s| then s[k + 1] else 0
  }

  /** Between neighbouring sizes everything pads up to the larger one. */
  lemma PadBetween(s: seq<nat>, k: nat, bs: nat)
    requires Descending(s) && k < |s| && Below(s, k) <= bs < s[k]
    ensures PadsTo(s, bs, if bs == Below(s, k) then bs else s[k])
  {
    forall x | IsSize(s, x) && bs <= x
      ensures bs == Below(s, k) || s[k] <= x
    {
      if x in s {
        var i :| 0 <= i < |s| && s[i] == x;
        assert i <= k || s[i] <= Below(s, k);
      }
    }
  }

  class CompilationConfig {
    var cudagraphCaptureSizes: Option<seq<nat>>
    var candidateCompileSizes: seq<nat>
    var captureSizes: seq<nat>
    var compileSizes: seq<nat>
    var maxCaptureSize: nat
    var bsToPaddedGraphSize: array<nat>

    constructor (cudagraphCaptureSizes: Option<seq<nat>>, candidateCompileSizes: seq<nat>)
      ensures this.cudagraphCaptureSizes == cudagraphCaptureSizes
      ensures this.candidateCompileSizes == candidateCompileSizes
    {
      this.cudagraphCaptureSizes := cudagraphCaptureSizes;
      this.candidateCompileSizes := candidateCompileSizes;
      captureSizes, compileSizes, maxCaptureSize := [], [], 0;
      bsToPaddedGraphSize := new nat[0];
    }

    /** The table holds, for every batch size up to the largest capture size, the
        size that a search in the list would find. */
    ghost predicate TableFor(sizes: seq<nat>)
      reads this, bsToPaddedGraphSize
    {
      && IsLargest(sizes, maxCaptureSize)
      && bsToPaddedGraphSize.Length == maxCaptureSize + 1
      && forall bs :: 0 <= bs <= maxCaptureSize ==> PadsTo(sizes, bs, bsToPaddedGraphSize[bs])
    }

    /** The sizes that are used: a configured list overrides the given one. */
    ghost function Effective(sizesToSpecialize: seq<nat>): seq<nat>
      reads this
    {
      match cudagraphCaptureSizes case None => sizesToSpecialize case Some(s) => s
    }

    method InitWithCudagraphSizes(sizesToSpecialize: seq<nat>)
      modifies this
      ensures TableFor(old(Effective(sizesToSpecialize)))
      ensures Descending(captureSizes)
      ensures multiset(captureSizes) == multiset(old(Effective(sizesToSpecialize)))
      ensures forall x :: x in compileSizes <==> x in candidateCompileSizes && x in captureSizes
      ensures candidateCompileSizes == old(candidateCompileSizes) && fresh(bsToPaddedGraphSize)
    {
      ghost var effective := Effective(sizesToSpecialize);
      var sizes := match cudagraphCaptureSizes case None => sizesToSpecialize case Some(s) => s;
      compileSizes := Intersect(candidateCompileSizes, sizes);
      captureSizes := SortDescending(sizes);
      SameSizes(captureSizes, sizes);
      maxCaptureSize := if captureSizes != [] then captureSizes[0] else 0;
      bsToPaddedGraphSize := FillTable(captureSizes, maxCaptureSize);
    }

    /** `pad_for_cudagraph`; a batch size beyond the table is an index error. */
    method PadForCudagraph(batchSize: nat, ghost sizes: seq<nat>) returns (r: Option<nat>)
      requires TableFor(sizes)
      ensures r.Some? <==> batchSize <= maxCaptureSize
      ensures r.Some? ==> PadsTo(sizes, batchSize, r.value)
    {
      if batchSize >= bsToPaddedGraphSize.Length {
        return None;
      }
      r := Some(bsToPaddedGraphSize[batchSize]);
    }
  }

  method Intersect(candidates: seq<nat>, sizes: seq<nat>) returns (r: seq<nat>)
    ensures forall x :: x in r <==> x in candidates && x in sizes
  {
    r := [];
    for i := 0 to |candidates|
      invariant forall x :: x in r <==> x in candidates[..i] && x in sizes
    {
      if candidates[i] in sizes {
        r := r + [candidates[i]];
      }
      assert candidates[..i + 1] == candidates[..i] + [candidates[i]];
    }
    assert candidates[..|candidates|] == candidates;
  }

  lemma SameSizes(s: seq<nat>, t: seq<nat>)
    requires multiset(s) == multiset(t)
    ensures forall x :: x in s <==> x in t
    ensures forall x :: IsSize(s, x) <==> IsSize(t, x)
    ensures forall bs, p :: PadsTo(s, bs, p) <==> PadsTo(t, bs, p)
  {
    forall x
      ensures x in s <==> x in t
    {
      assert x in s <==> x in multiset(s);
      assert x in t <==> x in multiset(t);
    }
  }

  /** The nested loops, from the largest size down. */
  method FillTable(s: seq<nat>, largest: nat) returns (table: array<nat>)
    requires Descending(s) && largest == if s != [] then s[0] else 0
    ensures fresh(table) && table.Length == largest + 1
    ensures forall bs :: 0 <= bs <= largest ==> PadsTo(s, bs, table[bs])
  {
    table := new nat[largest + 1](_ => 0);
    for k := 0 to |s|
      invariant forall bs :: (if k == 0 then largest else Below(s, k - 1)) <= bs < largest ==> PadsTo(s, bs, table[bs])
    {
      var start, end := Below(s, k), s[k];
      assert end == if k == 0 then largest else Below(s, k - 1);
      for bs := start to end
        invariant forall b :: start <= b < bs ==> PadsTo(s, b, table[b])
        invariant forall b :: end <= b < largest ==> PadsTo(s, b, table[b])
      {
        PadBetween(s, k, bs);
        table[bs] := if bs == start then start else end;
      }
    }
    table[largest] := largest;
  }

  // ----- what the lookup promises

  /** The padded size is unique, grows with the batch size, pads to itself, and no
      smaller captured size would do: the waste is less than the gap to the next
      smaller size. */
  lemma PaddingLaws(sizes: seq<nat>, a: nat, b: nat, pa: nat, pb: nat)
    requires PadsTo(sizes, a, pa) && PadsTo(sizes, b, pb)
    ensures a <= b ==> pa <= pb
    ensures PadsTo(sizes, pa, pa)
    ensures forall q: nat :: IsSize(sizes, q) && q < pa ==> pa - a < pa - q
  {
  }

  /** Exactly the batch sizes up to the largest size can be padded. */
  lemma PaddingExistsIff(sizes: seq<nat>, m: nat, bs: nat)
    requires IsLargest(sizes, m)
    ensures bs <= m <==> exists p :: PadsTo(sizes, bs, p)
  {
    if bs <= m {
      LeastAbove(sizes, bs, m);
    }
  }

  lemma {:induction false} LeastAbove(sizes: seq<nat>, bs: nat, p: nat)
    requires IsSize(sizes, p) && bs <= p
    ensures exists q :: PadsTo(sizes, bs, q)
    decreases p
  {
    if x: nat :| IsSize(sizes, x) && bs <= x < p {
      LeastAbove(sizes, bs, x);
    } else {
      assert PadsTo(sizes, bs, p);
    }
  }

  // ----- default sizes

  /** [1, 2, 4] followed by the multiples of 8 up to 8 n. */
  function SmallAndEights(n: nat): (r: seq<nat>)
    ensures |r| == n + 3
    ensures forall k :: 3 <= k < |r| ==> r[k] == 8 * (k - 2)
  {
    [1, 2, 4] + seq(n, i => 8 * (i + 1))
  }

  lemma DefaultSizeIff(n: nat, x: nat)
    ensures x in SmallAndEights(n) <==> x == 1 || x == 2 || x == 4 || (8 <= x <= 8 * n && x % 8 == 0)
  {
    var r := SmallAndEights(n);
    assert r[0] == 1 && r[1] == 2 && r[2] == 4;
    if 8 <= x <= 8 * n && x % 8 == 0 {
      assert r[x / 8 + 2] == x;
    }
  }

  /** The first element of an ascending list that is at least `bound`, or its last one. */
  method FirstAtLeast(s: seq<nat>, bound: nat) returns (m: nat)
    requires s != [] && forall i, j :: 0 <= i < j < |s| ==> s[i] < s[j]
    ensures m in s
    ensures bound <= s[|s| - 1] ==> bound <= m && forall x :: x in s && bound <= x ==> m <= x
    ensures bound > s[|s| - 1] ==> m == s[|s| - 1]
  {
    for i := 0 to |s|
      invariant forall j :: 0 <= j < i ==> s[j] < bound
    {
      if s[i] >= bound {
        return s[i];
      }
    }
    m := s[|s| - 1];
  }

  /** The default capture sizes without the V1 engine: those that cover
      [1, maxNumSeqs], up to the largest possible size 8192. */
  method DefaultSizes(maxNumSeqs: nat) returns (sizes: seq<nat>, largest: nat)
    ensures IsLargest(sizes, largest) && largest <= 8192
    ensures maxNumSeqs <= largest <==> maxNumSeqs <= 8192
    ensures maxNumSeqs <= 8192 ==> largest < maxNumSeqs + 8
    ensures forall x :: x in sizes <==> x in SmallAndEights(1024) && x <= largest
    // small batches and multiples of eight are not padded
    ensures forall x :: x in sizes <==> x <= largest && (x == 1 || x == 2 || x == 4 || (8 <= x <= 8192 && x % 8 == 0))
    ensures forall x :: x <= largest && (x == 1 || x == 2 || x == 4 || (x > 0 && x % 8 == 0)) ==> PadsTo(sizes, x, x)
  {
    forall x
      ensures x in SmallAndEights(1024) <==> x == 1 || x == 2 || x == 4 || (8 <= x <= 8192 && x % 8 == 0)
    {
      DefaultSizeIff(1024, x);
    }
    var possible := SmallAndEights(1024);
    assert possible[1026] == 8192;
    largest := FirstAtLeast(possible, maxNumSeqs);
    sizes := UpTo(possible, largest);
    if maxNumSeqs <= 8192 {
      EightsAreDense(1024, maxNumSeqs);
      assert possible[0] == 1 && possible[0] in possible;
    }
  }

  method UpTo(s: seq<nat>, bound: nat) returns (r: seq<nat>)
    ensures forall x :: x in r <==> x in s && x <= bound
  {
    r := [];
    for i := 0 to |s|
      invariant forall x :: x in r <==> x in s[..i] && x <= bound
    {
      if s[i] <= bound {
        r := r + [s[i]];
      }
      assert s[..i + 1] == s[..i] + [s[i]];
    }
    assert s[..|s|] == s;
  }

  /** Some listed size is less than 8 above any batch size the list covers. */
  lemma EightsAreDense(n: nat, bs: nat)
    requires bs <= 8 * n
    ensures bs == 0 || exists x :: x in SmallAndEights(n) && bs <= x < bs + 8
  {
    var r := SmallAndEights(n);
    var k := (bs + 7) / 8;
    if bs > 0 {
      assert r[k + 2] == 8 * k;
      assert r[k + 2] in r;
    }
  }

  /** With default sizes less than 8 slots are wasted on any batch. */
  lemma DefaultWaste(n: nat, sizes: seq<nat>, largest: nat, bs: nat, p: nat)
    requires forall x :: x in sizes <==> x in SmallAndEights(n) && x <= largest
    requires largest in SmallAndEights(n) && largest <= 8 * n
    requires bs <= largest && PadsTo(sizes, bs, p)
    ensures p < bs + 8
  {
    EightsAreDense(n, bs);
    if bs == 0 {
      assert IsSize(sizes, 0);
    } else {
      var x :| x in SmallAndEights(n) && bs <= x < bs + 8;
      assert IsSize(sizes, largest);
      if x <= largest {
        assert IsSize(sizes, x);
      }
    }
  }
}
