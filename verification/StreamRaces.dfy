/** A batch that depends on the order of its copies.  A request is swapped out to make room,
    and in the same step another one is swapped in and given the block that has just become
    free.  The step queues a copy out of this block and a copy into it; made on two streams,
    the second may come first. */
module StreamRaces {
  import opened Options
  import opened BlockPools
  import opened CpuBlocks
  import opened CpuDemand
  import opened PoolLoops
  import opened KVCacheManagers
  import opened SwapCopies
  import opened CopyStreams
  import opened Incidents
  import CachedTwins

  /** One GPU block and three CPU blocks of two tokens, with prefix caching. */
  ghost predicate Tiny(m: KVCacheManager)
    reads m
  {
    && m.Valid() && m.blockSize == 2 && m.preallocateBlocks == 0 && m.enableCaching && m.maxBlocks == 1
    && m.leaked == multiset{} && |m.pools.gpu| == 1 && |m.pools.cpuRef| == 3
  }

  /** The only block is free, but its CPU block is needed, and another one is free. */
  lemma PlanReplaced(p: Pools)
    requires p.freeGpu == [0] && IsReferenced(p, MappedCpu(p, 0)) && p.freeCpu != []
    ensures PlannedSlots(p, 1, [], 0, 1, 2, true) == Allocated([0]) && PlannedSwapIn(p, 1, [], true) == Allocated([0])
    ensures Claims(p, [], p.freeGpu, 1) == Claim([p.freeCpu[0]], 1) && CeilDiv(1, 2) == 1
    ensures FreeBesides(p.freeGpu, []) == p.freeGpu && CpusOf(p, []) == []
  {
    hide FreeBesides;
    FreeBesidesNone(p.freeGpu);
    assert CpusOf(p, []) == [];
    assert Claims(p, [], p.freeGpu, 0) == Claim([], 0);
    assert p.freeGpu[..1] == [0];
  }

  /** S is admitted with one token. */
  method FirstIn() returns (m: KVCacheManager)
    ensures fresh(m) && Tiny(m) && m.tables == map["S" := [0]] && m.cpuTables == map[] && m.pools.freeGpu == []
    ensures m.pools.gpu[0].mappedCpu == 0 && m.pools.freeCpu == [1, 2]
  {
    hide KVCacheManager.Valid, Claims, KeepsCpu, Held, PlannedSlots, FreeBesides, RefsGrown;
    m := new KVCacheManager(2, 1, 3, 1, 0, true);
    ghost var p := m.pools;
    FreshQueue(1, 3);
    CachedTwins.PlanForToken(p, 0);
    NoneKeyed(p.gpu);
    var a := m.AllocateSlots("S", 1, [], [], false);
    assert a == Allocated([0]) && [] + [0] == [0];
    CachedTwins.SameCpuLength(p, m.pools, [], [0], SlotClaims(p, [], 1));
  }

  /** It is swapped out, and its copy is made. */
  method FirstOut() returns (m: KVCacheManager)
    ensures fresh(m) && Tiny(m) && m.tables == map[] && m.cpuTables == map["S" := [0]] && m.pools.freeGpu == [0]
    ensures m.pools.gpu[0].mappedCpu == 0 && m.pools.freeCpu == [1, 2] && m.pendingOut == [] && m.pendingIn == []
  {
    hide KVCacheManager.Valid, KeepsCpu, Held, NewlyFree, DirtyPairs;
    m := FirstIn();
    CachedTwins.OneIsFreed(m.tables, "S", 0);
    assert CpuOf(m.pools.gpu, [0]) == [0];
    var freed := m.SwapOut("S");
    assert m.tables == map[] && m.cpuTables == map["S" := [0]];
    var ins, outs := m.TakePendingCopies();
  }

  /** R is given the block, with another CPU block behind it. */
  method SecondIn() returns (m: KVCacheManager)
    ensures fresh(m) && Tiny(m) && m.tables == map["R" := [0]] && m.cpuTables == map["S" := [0]]
    ensures m.pools.gpu[0].mappedCpu == 1 && m.pools.freeCpu == [2] && m.pools.freeGpu == []
    ensures m.pools.gpu[0].status == HalfDirty && m.pendingOut == [] && m.pendingIn == []
  {
    hide KVCacheManager.Valid, Claims, KeepsCpu, Held, PlannedSlots, FreeBesides, RefsGrown;
    m := FirstOut();
    ghost var p := m.pools;
    SwappedIsReferenced(m, "S", 0);
    PlanReplaced(p);
    NoneKeyed(p.gpu);
    var a := m.AllocateSlots("R", 1, [], [], false);
    assert a == Allocated([0]) && [] + [0] == [0];
    CachedTwins.SameCpuLength(p, m.pools, [], [0], SlotClaims(p, [], 1));
  }

  /** R is swapped out early. */
  method SecondOut() returns (m: KVCacheManager)
    ensures fresh(m) && Tiny(m) && m.tables == map[] && m.cpuTables == map["S" := [0], "R" := [1]]
    ensures m.pools.gpu[0].mappedCpu == 1 && m.pools.freeCpu == [2] && m.pools.freeGpu == [0]
    ensures m.pendingOut == [(0, 1)] && m.pendingIn == []
  {
    hide KVCacheManager.Valid, KeepsCpu, Held, NewlyFree;
    m := SecondIn();
    CachedTwins.OneIsFreed(m.tables, "R", 0);
    assert CpuOf(m.pools.gpu, [0]) == [1];
    assert [0][..0] == [];
    assert DirtyPairs(m.pools.gpu, [0]) == [(0, 1)];
    var freed := m.SwapOut("R");
    assert m.tables == map[];
  }

  /** S comes back to the same block in the same step. */
  method OutAndIn() returns (m: KVCacheManager)
    ensures fresh(m) && m.Valid() && m.enableCaching && m.tables == map["S" := [0]] && m.cpuTables == map["R" := [1]]
    ensures m.pendingOut == [(0, 1)] && m.pendingIn == [(0, 0)]
  {
    hide KVCacheManager.Valid, KeepsCpu, Held, PlannedSwapIn, Claims, FreeBesides, Restored, Exclusive, NoneLost,
         SwapInSafe, SwapInEffect, BackedBy, CopiesIn;
    m := SecondOut();
    SwappedIsReferenced(m, "R", 0);
    PlanReplaced(m.pools);
    NoneKeyed(m.pools.gpu);
    OneCopyIn();
    var a := m.SwapIn("S", [], [], 1);
    assert a == Allocated([0]) && [] + [0] == [0];
    assert m.tables == map["S" := [0]];
    assert m.cpuTables == map["R" := [1]];
  }

  lemma OneCopyIn()
    ensures CopiesIn([0], [0], 0, 1, 2, 1) == [(0, 0)]
  {
    assert CopiesIn([0], [0], 0, 0, 2, 1) == [];
  }

  /** If the copy in is made first, the CPU block of R is left with the data of S. */
  method StreamsLoseData<T>(ghost gpuMem: seq<T>, ghost cpuMem: seq<T>) returns (m: KVCacheManager)
    requires |gpuMem| == 1 && |cpuMem| == 3
    ensures fresh(m) && m.Valid() && m.enableCaching && m.tables == map["S" := [0]] && m.cpuTables == map["R" := [1]]
    ensures m.pendingOut == [(0, 1)] && m.pendingIn == [(0, 0)] && !Apart(m.pendingOut, m.pendingIn)
    ensures var s := InsFirst(m.pendingOut, m.pendingIn);
            && IsInterleaving(s, m.pendingOut, m.pendingIn) && Within(s, 1, 3)
            && (Made(Mem(gpuMem, cpuMem), s).cpu[m.cpuTables["R"][0]] == gpuMem[0] <==> cpuMem[0] == gpuMem[0])
  {
    hide KVCacheManager.Valid, Made, InsFirst, Within, Copied, OutsOf, InsOf;
    m := OutAndIn();
    ghost var outs, ins := [(0, 1)], [(0, 0)];
    ghost var mem := Mem(gpuMem, cpuMem);
    BothOrders(outs, ins);
    InsFirstIs(mem, outs, ins);
    CopiedOne(cpuMem, gpuMem, 0, 0);
    CopiedOne(gpuMem[0 := cpuMem[0]], cpuMem, 0, 1);
    SameBlock(outs, ins);
  }

  lemma SameBlock(outs: Pairs, ins: Pairs)
    requires outs == [(0, 1)] && ins == [(0, 0)]
    ensures !Apart(outs, ins)
  {
    assert LastSource(outs, 1) == Some(0);
    assert ins[0].1 == 0;
    assert !Undisturbed(outs, ins) by {
      assert outs[0].1 == 1;
    }
  }
}
