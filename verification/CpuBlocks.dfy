/** When the free CPU blocks of the KV-cache manager are really free.

    `Exclusive` says that the queue of free CPU blocks lists no block twice and none that
    is referenced or mapped by a GPU block.  Allocation, prefix hits and release keep it.
    The two loops of `swap_in` free a CPU block as soon as its count is zero, without
    asking whether an idle GPU block is still mapped to it; they keep `Exclusive` exactly
    when there is no such GPU block. */
module CpuBlocks {
  import opened Sequences
  import opened Options
  import opened BlockPools

  ghost predicate Maps(gpu: seq<Gpu>, b: nat, c: nat) {
    b < |gpu| && gpu[b].mappedCpu == c
  }

  ghost predicate Exclusive(p: Pools) {
    && NoDup(p.freeCpu)
    && forall c :: c in p.freeCpu ==> c < |p.cpuRef| && p.cpuRef[c] == 0 && forall b :: !Maps(p.gpu, b, c)
  }

  lemma NewPoolsAreExclusive(numGpu: nat, numCpu: nat)
    requires numGpu <= numCpu
    ensures Exclusive(FreshPools(numGpu, numCpu))
  {
    var p := FreshPools(numGpu, numCpu);
    forall c, b | c in p.freeCpu
      ensures !Maps(p.gpu, b, c)
    {
      assert c >= numGpu;
    }
  }

  lemma TouchKeeps(p: Pools, b: nat)
    requires Exclusive(p) && b < |p.gpu| && p.gpu[b].mappedCpu < |p.cpuRef|
    ensures Exclusive(TouchOne(p, b))
  {
    var q := TouchOne(p, b);
    assert Maps(p.gpu, b, p.gpu[b].mappedCpu);
    forall c, x | c in q.freeCpu
      ensures !Maps(q.gpu, x, c)
    {
      assert !Maps(p.gpu, x, c);
    }
  }

  lemma ReleaseKeeps(p: Pools, b: nat, keepCpu: bool, swapped: bool)
    requires Exclusive(p) && b < |p.gpu| && p.gpu[b].mappedCpu < |p.cpuRef| && ReleaseOne(p, b, keepCpu, swapped).Some?
    ensures Exclusive(ReleaseOne(p, b, keepCpu, swapped).value)
  {
    var q := ReleaseOne(p, b, keepCpu, swapped).value;
    assert Maps(p.gpu, b, p.gpu[b].mappedCpu);
    forall c, x | c in q.freeCpu
      ensures !Maps(q.gpu, x, c)
    {
      assert !Maps(p.gpu, x, c);
    }
  }

  /** A new block gets a CPU block that no other block is mapped to, or keeps its own. */
  lemma TakeKeeps(p: Pools, enableCaching: bool, held: multiset<nat>, heldCpu: multiset<nat>)
    requires Counts(p, held, heldCpu) && Exclusive(p) && p.freeGpu != [] && TakeOne(p, enableCaching).Some?
    ensures Exclusive(TakeOne(p, enableCaching).value)
  {
    hide CpuCounts, GpuCounts, Evict;
    var q, b := TakeOne(p, enableCaching).value, p.freeGpu[0];
    EvictFrame(p, b);
    assert Maps(p.gpu, b, p.gpu[b].mappedCpu);
    if p.freeCpu != [] {
      TailFacts(p.freeCpu);
    }
    forall c, x | c in q.freeCpu
      ensures !Maps(q.gpu, x, c)
    {
      assert c in p.freeCpu && !Maps(p.gpu, x, c);
    }
  }

  /** A new block has a CPU block to itself: nobody else refers to it. */
  lemma TakeGetsOwnCpu(p: Pools, enableCaching: bool, held: multiset<nat>, heldCpu: multiset<nat>)
    requires Counts(p, held, heldCpu) && Exclusive(p) && p.freeGpu != [] && TakeOne(p, enableCaching).Some?
    ensures var q, b := TakeOne(p, enableCaching).value, p.freeGpu[0];
            && q.gpu[b].mappedCpu < |q.cpuRef| && q.cpuRef[q.gpu[b].mappedCpu] == 1
            && forall x :: 0 <= x < |q.gpu| && x != b && q.gpu[x].mappedCpu == q.gpu[b].mappedCpu ==>
                 q.gpu[x].refCnt == 0
  {
    hide CpuCounts, Evict;
    var q, b := TakeOne(p, enableCaching).value, p.freeGpu[0];
    EvictFrame(p, b);
    TakeCounts(p, enableCaching, held, heldCpu);
    var c := q.gpu[b].mappedCpu;
    NotNegative(p, held, heldCpu, p.gpu[b].mappedCpu);
    CountedOnce(p, held, heldCpu, c);
    forall x | 0 <= x < |q.gpu| && x != b && q.gpu[x].mappedCpu == c
      ensures q.gpu[x].refCnt == 0
    {
      assert q.gpu[x] == p.gpu[x];
    }
  }

  lemma NotNegative(p: Pools, held: multiset<nat>, heldCpu: multiset<nat>, c: nat)
    requires Counts(p, held, heldCpu) && c < |p.cpuRef|
    ensures p.cpuRef[c] >= 0
  {
    MappedRefsNonNegative(p.gpu, c);
  }

  /** Nobody holds a block that is mapped to an unreferenced CPU block. */
  lemma CountedOnce(p: Pools, held: multiset<nat>, heldCpu: multiset<nat>, c: nat)
    requires Counts(p, held, heldCpu) && c < |p.cpuRef| && p.cpuRef[c] == 0
    ensures forall x :: 0 <= x < |p.gpu| && p.gpu[x].mappedCpu == c ==> p.gpu[x].refCnt == 0
  {
    forall x | 0 <= x < |p.gpu| && p.gpu[x].mappedCpu == c
      ensures p.gpu[x].refCnt == 0
    {
      MappedRefsAtLeast(p.gpu, x);
    }
  }

  // ----- no CPU block is lost

  /** Every CPU block is queued, referenced or mapped. */
  ghost predicate NoneLost(p: Pools) {
    forall c :: 0 <= c < |p.cpuRef| ==> Accounted(p, c)
  }

  ghost predicate Accounted(p: Pools, c: nat) {
    c < |p.cpuRef| && (c in p.freeCpu || p.cpuRef[c] > 0 || exists b :: Maps(p.gpu, b, c))
  }

  lemma NewPoolsLoseNone(numGpu: nat, numCpu: nat)
    requires numGpu <= numCpu
    ensures NoneLost(FreshPools(numGpu, numCpu))
  {
    var p := FreshPools(numGpu, numCpu);
    forall c | 0 <= c < numCpu
      ensures Accounted(p, c)
    {
      assert c < numGpu ==> Maps(p.gpu, c, c);
      assert c >= numGpu ==> p.freeCpu[c - numGpu] == c;
    }
  }

  /** The steps that leave the mapping alone. */
  lemma SameMappingLosesNone(p: Pools, q: Pools)
    requires NoneLost(p) && SameMapping(p, q) && q.freeCpu == p.freeCpu
    requires forall c :: 0 <= c < |p.cpuRef| && p.cpuRef[c] > 0 ==> q.cpuRef[c] > 0 || exists b :: Maps(p.gpu, b, c)
    ensures NoneLost(q)
  {
    forall c | 0 <= c < |q.cpuRef|
      ensures Accounted(q, c)
    {
      assert Accounted(p, c);
      if b :| Maps(p.gpu, b, c) {
        assert Maps(q.gpu, b, c);
      }
    }
  }

  lemma TouchLosesNone(p: Pools, b: nat)
    requires NoneLost(p) && b < |p.gpu| && p.gpu[b].mappedCpu < |p.cpuRef|
    ensures NoneLost(TouchOne(p, b))
  {
    SameMappingLosesNone(p, TouchOne(p, b));
  }

  lemma ReleaseLosesNone(p: Pools, b: nat, keepCpu: bool, swapped: bool)
    requires NoneLost(p) && b < |p.gpu| && p.gpu[b].mappedCpu < |p.cpuRef| && ReleaseOne(p, b, keepCpu, swapped).Some?
    ensures NoneLost(ReleaseOne(p, b, keepCpu, swapped).value)
  {
    assert Maps(p.gpu, b, p.gpu[b].mappedCpu);
    SameMappingLosesNone(p, ReleaseOne(p, b, keepCpu, swapped).value);
  }

  lemma TakeLosesNone(p: Pools, enableCaching: bool, held: multiset<nat>, heldCpu: multiset<nat>)
    requires Counts(p, held, heldCpu) && NoneLost(p) && p.freeGpu != [] && TakeOne(p, enableCaching).Some?
    ensures NoneLost(TakeOne(p, enableCaching).value)
  {
    hide CpuCounts, GpuCounts, Evict;
    var q, b := TakeOne(p, enableCaching).value, p.freeGpu[0];
    EvictFrame(p, b);
    forall c | 0 <= c < |q.cpuRef|
      ensures Accounted(q, c)
    {
      assert Accounted(p, c);
      assert Maps(q.gpu, b, q.gpu[b].mappedCpu);
      if x :| Maps(p.gpu, x, c) {
        assert x != b ==> Maps(q.gpu, x, c);
      }
      assert c in p.freeCpu && p.freeCpu[0] != c ==> c in p.freeCpu[1..];
    }
  }

  lemma DropLosesNone(p: Pools, c: nat, held: multiset<nat>, heldCpu: multiset<nat>)
    requires Counts(p, held, heldCpu) && NoneLost(p) && c in heldCpu
    ensures NoneLost(DropCpu(p, c))
  {
    hide GpuCounts, CpuCounts;
    HeldIsReferenced(p, held, heldCpu, c);
    var q := DropCpu(p, c);
    forall d | 0 <= d < |q.cpuRef|
      ensures Accounted(q, d)
    {
      assert Accounted(p, d);
      if x :| Maps(p.gpu, x, d) {
        assert Maps(q.gpu, x, d);
      }
      assert p.cpuRef[c] == 1 ==> q.freeCpu[|p.freeCpu|] == c;
    }
  }

  lemma RelocateLosesNone(p: Pools, b: nat, c: nat, held: multiset<nat>, heldCpu: multiset<nat>)
    requires Counts(p, held, heldCpu) && NoneLost(p) && c in heldCpu && b < |p.gpu| && p.gpu[b].refCnt == 1
    ensures NoneLost(Relocate(p, b, c))
  {
    hide GpuCounts, CpuCounts;
    HeldIsReferenced(p, held, heldCpu, c);
    LiveIsReferenced(p, held, heldCpu, b);
    var q, own := Relocate(p, b, c), p.gpu[b].mappedCpu;
    forall d | 0 <= d < |q.cpuRef|
      ensures Accounted(q, d)
    {
      assert Accounted(p, d);
      assert Maps(q.gpu, b, c);
      if x :| Maps(p.gpu, x, d) {
        assert x != b ==> Maps(q.gpu, x, d);
      }
      assert p.cpuRef[own] == 1 ==> q.freeCpu[|p.freeCpu|] == own;
    }
  }

  // ----- both together

  /** Free CPU blocks stay free and no CPU block gets lost. */
  ghost predicate KeepsCpu(p: Pools, q: Pools) {
    (Exclusive(p) ==> Exclusive(q)) && (NoneLost(p) ==> NoneLost(q))
  }

  lemma KeepsThrough(p: Pools, q: Pools, r: Pools)
    requires KeepsCpu(p, q) && KeepsCpu(q, r)
    ensures KeepsCpu(p, r) && KeepsCpu(p, p)
  {
    hide Exclusive, NoneLost;
  }

  lemma KeepsSelf(p: Pools)
    ensures KeepsCpu(p, p)
  {
  }

  lemma TouchKeepsCpu(p: Pools, b: nat)
    requires b < |p.gpu| && p.gpu[b].mappedCpu < |p.cpuRef|
    ensures KeepsCpu(p, TouchOne(p, b))
  {
    hide Exclusive, NoneLost, TouchOne;
    if Exclusive(p) {
      TouchKeeps(p, b);
    }
    if NoneLost(p) {
      TouchLosesNone(p, b);
    }
  }

  lemma ReleaseKeepsCpu(p: Pools, b: nat, keepCpu: bool, swapped: bool)
    requires b < |p.gpu| && p.gpu[b].mappedCpu < |p.cpuRef| && ReleaseOne(p, b, keepCpu, swapped).Some?
    ensures KeepsCpu(p, ReleaseOne(p, b, keepCpu, swapped).value)
  {
    hide Exclusive, NoneLost, ReleaseOne;
    if Exclusive(p) {
      ReleaseKeeps(p, b, keepCpu, swapped);
    }
    if NoneLost(p) {
      ReleaseLosesNone(p, b, keepCpu, swapped);
    }
  }

  lemma TakeKeepsCpu(p: Pools, enableCaching: bool, held: multiset<nat>, heldCpu: multiset<nat>)
    requires Counts(p, held, heldCpu) && p.freeGpu != [] && TakeOne(p, enableCaching).Some?
    ensures KeepsCpu(p, TakeOne(p, enableCaching).value)
  {
    hide Exclusive, NoneLost, Counts, TakeOne;
    if Exclusive(p) {
      TakeKeeps(p, enableCaching, held, heldCpu);
    }
    if NoneLost(p) {
      TakeLosesNone(p, enableCaching, held, heldCpu);
    }
  }

  /** Changing keys, status or references of GPU blocks only. */
  lemma SameCpuKeeps(p: Pools, q: Pools)
    requires SameMapping(p, q) && q.cpuRef == p.cpuRef && q.freeCpu == p.freeCpu
    ensures KeepsCpu(p, q)
  {
    hide NoneLost;
    if NoneLost(p) {
      SameMappingLosesNone(p, q);
    }
    if Exclusive(p) {
      forall c, x | c in q.freeCpu
        ensures !Maps(q.gpu, x, c)
      {
        assert !Maps(p.gpu, x, c);
      }
    }
  }

  // ----- swapping in

  /** First loop of `swap_in`. */
  lemma DropKeepsIff(p: Pools, c: nat, held: multiset<nat>, heldCpu: multiset<nat>)
    requires Counts(p, held, heldCpu) && Exclusive(p) && c in heldCpu
    ensures Exclusive(DropCpu(p, c)) <==> (p.cpuRef[c] == 1 ==> forall b :: !Maps(p.gpu, b, c))
  {
    hide GpuCounts;
    var q := DropCpu(p, c);
    HeldIsReferenced(p, held, heldCpu, c);
    assert c !in p.freeCpu;
    if p.cpuRef[c] == 1 {
      assert q.freeCpu[|p.freeCpu|] == c;
      assert c in q.freeCpu;
    }
  }

  /** Second loop of `swap_in`. */
  lemma RelocateKeepsIff(p: Pools, b: nat, c: nat, held: multiset<nat>, heldCpu: multiset<nat>)
    requires Counts(p, held, heldCpu) && Exclusive(p) && c in heldCpu && b < |p.gpu| && p.gpu[b].refCnt == 1
    ensures var own := p.gpu[b].mappedCpu;
            Exclusive(Relocate(p, b, c)) <==> (p.cpuRef[own] == 1 ==> forall x :: x != b ==> !Maps(p.gpu, x, own))
  {
    hide GpuCounts, CpuCounts;
    var q, own := Relocate(p, b, c), p.gpu[b].mappedCpu;
    HeldIsReferenced(p, held, heldCpu, c);
    LiveIsReferenced(p, held, heldCpu, b);
    assert Maps(p.gpu, b, own);
    assert own !in p.freeCpu && c !in p.freeCpu;
    forall x, d | d in p.freeCpu
      ensures !Maps(q.gpu, x, d)
    {
      assert !Maps(p.gpu, x, d);
    }
    if p.cpuRef[own] == 1 {
      OnlyReference(p, held, heldCpu, b, c);
      assert q.freeCpu[|p.freeCpu|] == own;
      assert own in q.freeCpu;
      forall x | x != b
        ensures Maps(q.gpu, x, own) <==> Maps(p.gpu, x, own)
      {
      }
      assert !Maps(q.gpu, b, own);
    }
  }

  lemma HeldIsReferenced(p: Pools, held: multiset<nat>, heldCpu: multiset<nat>, c: nat)
    requires Counts(p, held, heldCpu) && c in heldCpu
    ensures c < |p.cpuRef| && p.cpuRef[c] >= 1
  {
    MappedRefsNonNegative(p.gpu, c);
  }

  lemma LiveIsReferenced(p: Pools, held: multiset<nat>, heldCpu: multiset<nat>, b: nat)
    requires Counts(p, held, heldCpu) && b < |p.gpu| && p.gpu[b].refCnt == 1
    ensures p.gpu[b].mappedCpu < |p.cpuRef| && p.cpuRef[p.gpu[b].mappedCpu] >= 1 + heldCpu[p.gpu[b].mappedCpu]
  {
    MappedRefsAtLeast(p.gpu, b);
  }

  lemma OnlyReference(p: Pools, held: multiset<nat>, heldCpu: multiset<nat>, b: nat, c: nat)
    requires Counts(p, held, heldCpu) && c in heldCpu && b < |p.gpu| && p.gpu[b].refCnt == 1
    requires p.gpu[b].mappedCpu < |p.cpuRef| && p.cpuRef[p.gpu[b].mappedCpu] == 1
    ensures p.gpu[b].mappedCpu != c
  {
    LiveIsReferenced(p, held, heldCpu, b);
  }

  lemma {:induction false} MappedRefsAtLeast(gpu: seq<Gpu>, b: nat)
    requires b < |gpu| && forall x :: 0 <= x < |gpu| ==> gpu[x].refCnt >= 0
    ensures MappedRefs(gpu, gpu[b].mappedCpu) >= gpu[b].refCnt
  {
    var n := |gpu| - 1;
    if b < n {
      MappedRefsAtLeast(gpu[..n], b);
    } else {
      MappedRefsNonNegative(gpu[..n], gpu[b].mappedCpu);
    }
  }

  lemma {:induction false} MappedRefsNonNegative(gpu: seq<Gpu>, c: nat)
    requires forall x :: 0 <= x < |gpu| ==> gpu[x].refCnt >= 0
    ensures MappedRefs(gpu, c) >= 0
  {
    if gpu != [] {
      MappedRefsNonNegative(gpu[..|gpu| - 1], c);
    }
  }

  // ----- a run in which one CPU block is given to two requests

  /** What happens to a request with one block: admission, swapping out of block `b`,
      swapping in of the data in CPU block `c`, and the end of the request in block `b`. */
  datatype Step = Admit | SwapOut(b: nat) | SwapIn(c: nat) | Finish(b: nat)

  function Apply(p: Pools, s: Step): Option<Pools> {
    match s
    case SwapOut(b) =>
      if b < |p.gpu| && p.gpu[b].mappedCpu < |p.cpuRef| then ReleaseOne(p, b, true, true) else None
    case Finish(b) =>
      if b < |p.gpu| && p.gpu[b].mappedCpu < |p.cpuRef| then ReleaseOne(p, b, false, false) else None
    case Admit => Take(p)
    case SwapIn(c) =>
      var q := Take(p);
      if q.None? then None
      else
        var b := p.freeGpu[0];
        if b < |q.value.gpu| && q.value.gpu[b].mappedCpu < |q.value.cpuRef| then Some(Relocate(q.value, b, c)) else None
  }

  /** One new block without prefix caching. */
  function Take(p: Pools): (q: Option<Pools>)
    ensures q.Some? ==> p.freeGpu != []
  {
    if p.freeGpu == [] || p.freeGpu[0] >= |p.gpu| || p.gpu[p.freeGpu[0]].mappedCpu >= |p.cpuRef| then None
    else if p.freeCpu != [] && p.freeCpu[0] >= |p.cpuRef| then None
    else TakeOne(p, false)
  }

  /** A run of such steps leads from one state of the pools to another. */
  ghost predicate Leads(p: Pools, steps: seq<Step>, q: Pools)
    decreases |steps|
  {
    if steps == [] then q == p
    else Apply(p, steps[0]).Some? && Leads(Apply(p, steps[0]).value, steps[1..], q)
  }

  lemma OneStep(p: Pools, p': Pools, steps: seq<Step>, q: Pools)
    requires steps != [] && Apply(p, steps[0]).Some? && Apply(p, steps[0]).value == p' && Leads(p', steps[1..], q)
    ensures Leads(p, steps, q)
  {
  }

  function Idle(c: nat): Gpu {
    Gpu(0, c, Free, None)
  }

  function Used(c: nat): Gpu {
    Gpu(1, c, Empty, None)
  }

  /** Three GPU blocks and three CPU blocks, no prefix caching. */
  function Start(): Pools {
    Pools([Idle(0), Idle(1), Idle(2)], [0, 0, 0], [0, 1, 2], [], map[])
  }

  /** CPU block 0 is in the queue although GPU block 2 is mapped to it. */
  function AfterSwaps(): Pools {
    Pools([Used(1), Idle(1), Idle(0)], [0, 1, 0], [1, 2], [2, 0], map[])
  }

  /** Requests R and S are admitted; R is swapped out and in again, which moves it to
      block 2; S is swapped out; R finishes; S is swapped in to block 0. */
  lemma SwapsFreeAMappedBlock()
    ensures Exclusive(Start()) && !Exclusive(AfterSwaps())
    ensures Leads(Start(), [Admit, Admit, SwapOut(0), SwapIn(0), SwapOut(1), Finish(2), SwapIn(1)], AfterSwaps())
  {
    hide Leads, Apply;
    var p3 := Pools([Idle(0), Used(1), Idle(2)], [1, 1, 0], [2, 0], [], map[]);
    var p5 := Pools([Idle(0), Idle(1), Used(0)], [1, 1, 0], [0, 1], [2], map[]);
    FirstSwap(p3);
    SecondSwap(p3, p5);
    ThirdSwap(p5);
    Joined(Start(), [Admit, Admit, SwapOut(0)], p3, [SwapIn(0), SwapOut(1)], p5);
    Joined(Start(), [Admit, Admit, SwapOut(0)] + [SwapIn(0), SwapOut(1)], p5, [Finish(2), SwapIn(1)], AfterSwaps());
    assert [Admit, Admit, SwapOut(0)] + [SwapIn(0), SwapOut(1)] + [Finish(2), SwapIn(1)] ==
           [Admit, Admit, SwapOut(0), SwapIn(0), SwapOut(1), Finish(2), SwapIn(1)];
    assert AfterSwaps().freeCpu[1] == 0 && 0 in AfterSwaps().freeCpu;
    assert Maps(AfterSwaps().gpu, 2, 0);
  }

  lemma {:induction false} Joined(p: Pools, a: seq<Step>, q: Pools, b: seq<Step>, r: Pools)
    requires Leads(p, a, q) && Leads(q, b, r)
    ensures Leads(p, a + b, r)
    decreases |a|
  {
    hide Apply;
    if a == [] {
      assert a + b == b;
    } else {
      Joined(Apply(p, a[0]).value, a[1..], q, b, r);
      assert (a + b)[1..] == a[1..] + b;
      OneStep(p, Apply(p, a[0]).value, a + b, r);
    }
  }

  lemma FirstSwap(q: Pools)
    requires q == Pools([Idle(0), Used(1), Idle(2)], [1, 1, 0], [2, 0], [], map[])
    ensures Leads(Start(), [Admit, Admit, SwapOut(0)], q)
  {
    hide Leads;
    var p1 := Pools([Used(0), Idle(1), Idle(2)], [1, 0, 0], [1, 2], [], map[]);
    var p2 := Pools([Used(0), Used(1), Idle(2)], [1, 1, 0], [2], [], map[]);
    assert Apply(Start(), Admit).Some? && Apply(Start(), Admit).value == p1;
    assert Apply(p1, Admit).Some? && Apply(p1, Admit).value == p2;
    assert Apply(p2, SwapOut(0)).Some? && Apply(p2, SwapOut(0)).value == q;
    Stay(q);
    OneStep(p2, q, [SwapOut(0)], q);
    OneStep(p1, p2, [Admit, SwapOut(0)], q);
    OneStep(Start(), p1, [Admit, Admit, SwapOut(0)], q);
  }

  lemma Stay(p: Pools)
    ensures Leads(p, [], p)
  {
  }

  lemma SecondSwap(p: Pools, q: Pools)
    requires p == Pools([Idle(0), Used(1), Idle(2)], [1, 1, 0], [2, 0], [], map[])
    requires q == Pools([Idle(0), Idle(1), Used(0)], [1, 1, 0], [0, 1], [2], map[])
    ensures Leads(p, [SwapIn(0), SwapOut(1)], q)
  {
    hide Leads;
    var p1 := Pools([Idle(0), Used(1), Used(0)], [1, 1, 0], [0], [2], map[]);
    assert Apply(p, SwapIn(0)).Some? && Apply(p, SwapIn(0)).value == p1;
    assert Apply(p1, SwapOut(1)).Some? && Apply(p1, SwapOut(1)).value == q;
    Stay(q);
    OneStep(p1, q, [SwapOut(1)], q);
    OneStep(p, p1, [SwapIn(0), SwapOut(1)], q);
  }

  lemma ThirdSwap(p: Pools)
    requires p == Pools([Idle(0), Idle(1), Used(0)], [1, 1, 0], [0, 1], [2], map[])
    ensures Leads(p, [Finish(2), SwapIn(1)], AfterSwaps())
  {
    hide Leads;
    var p1 := Pools([Idle(0), Idle(1), Idle(0)], [0, 1, 0], [0, 1, 2], [2], map[]);
    assert Apply(p, Finish(2)).Some? && Apply(p, Finish(2)).value == p1;
    assert Apply(p1, SwapIn(1)).Some? && Apply(p1, SwapIn(1)).value == AfterSwaps();
    Stay(AfterSwaps());
    OneStep(p1, AfterSwaps(), [SwapIn(1)], AfterSwaps());
    OneStep(p, p1, [Finish(2), SwapIn(1)], AfterSwaps());
  }

  /** From there T is admitted and swapped out, then U and V are admitted: each holds a
      GPU block of its own, and both blocks are backed by CPU block 0. */
  lemma OneCpuBlockForTwoRequests(q: Pools)
    requires q == Pools([Used(1), Used(0), Used(0)], [2, 1, 1], [], [], map[])
    ensures Leads(AfterSwaps(), [Admit, SwapOut(1), Admit, Admit], q)
  {
    hide Leads, Apply;
    var p := Pools([Used(1), Idle(2), Idle(0)], [0, 1, 1], [2, 1], [0], map[]);
    ThirdRequest(p);
    TwoMore(p, q);
    Joined(AfterSwaps(), [Admit, SwapOut(1)], p, [Admit, Admit], q);
    assert [Admit, SwapOut(1)] + [Admit, Admit] == [Admit, SwapOut(1), Admit, Admit];
  }

  lemma ThirdRequest(q: Pools)
    requires q == Pools([Used(1), Idle(2), Idle(0)], [0, 1, 1], [2, 1], [0], map[])
    ensures Leads(AfterSwaps(), [Admit, SwapOut(1)], q)
  {
    hide Leads;
    var p1 := Pools([Used(1), Used(2), Idle(0)], [0, 1, 1], [2], [0], map[]);
    assert Apply(AfterSwaps(), Admit).Some? && Apply(AfterSwaps(), Admit).value == p1;
    assert Apply(p1, SwapOut(1)).Some? && Apply(p1, SwapOut(1)).value == q;
    Stay(q);
    OneStep(p1, q, [SwapOut(1)], q);
    OneStep(AfterSwaps(), p1, [Admit, SwapOut(1)], q);
  }

  lemma TwoMore(p: Pools, q: Pools)
    requires p == Pools([Used(1), Idle(2), Idle(0)], [0, 1, 1], [2, 1], [0], map[])
    requires q == Pools([Used(1), Used(0), Used(0)], [2, 1, 1], [], [], map[])
    ensures Leads(p, [Admit, Admit], q)
  {
    hide Leads;
    var p1 := Pools([Used(1), Idle(2), Used(0)], [1, 1, 1], [1], [0], map[]);
    assert Apply(p, Admit).Some? && Apply(p, Admit).value == p1;
    assert Apply(p1, Admit).Some? && Apply(p1, Admit).value == q;
    Stay(q);
    OneStep(p1, q, [Admit], q);
    OneStep(p, p1, [Admit, Admit], q);
  }
}
