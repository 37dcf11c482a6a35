/** With prefix caching, too, two blocks can come to rely on one CPU block.  Swapping in moves
    a request to other GPU blocks in front of its old CPU blocks, and the GPU blocks it had
    before keep pointing there.  When a new block is cached and released, an old one is free,
    and the CPU block that both are mapped to is referenced by nobody: the next request that
    gets the old block overwrites the copy of the cached one. */
module CachedTwins {
  import opened Sequences
  import opened Options
  import opened BlockPools
  import opened CpuBlocks
  import opened CpuDemand
  import opened PoolLoops
  import opened KVCacheManagers
  import opened SwapCopies
  import opened KVData
  import opened Incidents
  import PrefixSharing

  /** What the steps of the run have in common: two GPU and two CPU blocks of two tokens. */
  ghost predicate Small(m: KVCacheManager)
    reads m
  {
    && m.Valid() && m.blockSize == 2 && m.preallocateBlocks == 0 && m.enableCaching && m.maxBlocks == 1
    && m.leaked == multiset{} && |m.pools.gpu| == 2 && |m.pools.cpuRef| == 2
  }

  lemma PlanForToken(p: Pools, c: nat)
    requires p.freeGpu != [] && MappedCpu(p, p.freeGpu[0]) == c && !IsReferenced(p, c)
    ensures PlannedSlots(p, 1, [], 0, 1, 2, true) == Allocated([p.freeGpu[0]])
    ensures Claims(p, [], p.freeGpu, 1) == Claim([c], 0) && CeilDiv(1, 2) == 1
    ensures FreeBesides(p.freeGpu, []) == p.freeGpu && CpusOf(p, []) == []
    ensures PlannedSwapIn(p, 1, [], true) == Allocated([p.freeGpu[0]])
  {
    hide Claims, FreeBesides;
    FreeBesidesNone(p.freeGpu);
    assert CpusOf(p, []) == [];
    OneClaim(p, p.freeGpu);
    assert p.freeGpu[..1] == [p.freeGpu[0]];
  }

  /** A CPU block is referenced when a swapped-out table lists it or a live block is mapped
      to it; here no block is live. */
  lemma UnreferencedWhenIdle(m: KVCacheManager, c: nat)
    requires m.Valid() && m.tables == map[] && m.leaked == multiset{} && c !in Held(m.cpuTables) && c < |m.pools.cpuRef|
    ensures !IsReferenced(m.pools, c)
  {
    hide Agrees, TablesAgree, NoKeys, NotTooLong, Held;
    HeldOfNone();
    NoMappedRefs(m.pools.gpu, c);
  }

  lemma HeldOfOne(tables: map<Id, seq<nat>>, r: Id, t: seq<nat>)
    requires tables == map[r := t]
    ensures Held(tables) == multiset(t)
  {
    hide Held;
    HeldOfNone();
    HeldAdd(map[], r, t);
    assert map[][r := t] == tables;
  }

  /** What is free when one of two blocks is held. */
  lemma OtherIsFree(m: KVCacheManager, r: Id, b: nat)
    requires Small(m) && m.tables == map[r := [b]] && b < 2
    ensures m.pools.freeGpu == [1 - b] && m.pools.gpu[b].refCnt > 0
  {
    hide Agrees, TablesAgree, NoKeys, NotTooLong, Held, CpuCounts;
    HeldOfOne(m.tables, r, [b]);
    var free := m.pools.freeGpu;
    assert multiset([b])[1 - b] == 0 && multiset([b])[b] == 1;
    assert 1 - b in free && b !in free;
    assert forall i :: 0 <= i < |free| ==> free[i] == 1 - b;
    assert NoDup(free);
    OneOfAKind(free, 1 - b);
  }

  lemma OneOfAKind(s: seq<nat>, x: nat)
    requires NoDup(s) && x in s && forall i :: 0 <= i < |s| ==> s[i] == x
    ensures s == [x]
  {
    PrefixSharing.DistinctCount(s);
    assert Elements(s) == {x};
  }

  lemma OneIsFreed(tables: map<Id, seq<nat>>, r: Id, b: nat)
    requires tables == map[r := [b]]
    ensures NewlyFree(Held(tables) + multiset{}, tables, r, true) == [b]
  {
    hide Held;
    HeldOfOne(tables, r, [b]);
    var held := Held(tables) + multiset{};
    ReverseIndex([b]);
    assert ReleaseOrder([b], true) == [b];
    FreedNext(held, [b], 0);
    NoneFreed(held, [b]);
  }

  /** R is admitted with one token, in block 0. */
  method Admitted() returns (m: KVCacheManager)
    ensures fresh(m) && Small(m) && m.tables == map["R" := [0]] && m.cpuTables == map[]
    ensures m.pools.gpu[0].mappedCpu == 0 && m.pools.gpu[1].mappedCpu == 1
  {
    hide KVCacheManager.Valid, Claims, KeepsCpu, Held, PlannedSlots, FreeBesides, RefsGrown;
    m := new KVCacheManager(2, 2, 2, 1, 0, true);
    ghost var p := m.pools;
    FreshQueue(2, 2);
    PlanForToken(p, 0);
    NoneKeyed(p.gpu);
    var a := m.AllocateSlots("R", 1, [], [], false);
    assert a == Allocated([0]) && [] + [0] == [0];
    SameCpuLength(p, m.pools, [], [0], SlotClaims(p, [], 1));
  }

  /** It is swapped out. */
  method Out() returns (m: KVCacheManager)
    ensures fresh(m) && Small(m) && m.tables == map[] && m.cpuTables == map["R" := [0]] && m.pools.freeGpu == [1, 0]
    ensures m.pools.gpu[0].mappedCpu == 0 && m.pools.gpu[1].mappedCpu == 1
  {
    hide KVCacheManager.Valid, KeepsCpu, Held, NewlyFree, DirtyPairs;
    m := Admitted();
    OtherIsFree(m, "R", 0);
    OneIsFreed(m.tables, "R", 0);
    assert CpuOf(m.pools.gpu, [0]) == [0];
    var freed := m.SwapOut("R");
    assert m.tables == map[] && m.cpuTables == map["R" := [0]];
  }

  /** It is swapped in again: it now has block 1, and both blocks are mapped to CPU block 0. */
  method Moved() returns (m: KVCacheManager)
    ensures fresh(m) && Small(m) && m.tables == map["R" := [1]] && m.cpuTables == map[] && m.chains == map["R" := []]
    ensures m.pools.gpu[0].mappedCpu == 0 && m.pools.gpu[1].mappedCpu == 0
  {
    hide KVCacheManager.Valid, KeepsCpu, Held, PlannedSwapIn, Claims, FreeBesides, Restored, CopiesIn, Exclusive,
         NoneLost, SwapInSafe;
    m := Out();
    HeldOfOne(m.cpuTables, "R", [0]);
    UnreferencedWhenIdle(m, 1);
    PlanForToken(m.pools, 1);
    NoneKeyed(m.pools.gpu);
    var a := m.SwapIn("R", [], [], 1);
    assert a == Allocated([1]) && [] + [1] == [1];
    assert m.cpuTables == map[];
    ChainsOfOne(m, "R");
  }

  lemma ChainsOfOne(m: KVCacheManager, r: Id)
    requires m.Valid() && m.tables.Keys == {r} && r in m.chains && m.chains[r] == []
    ensures m.chains == map[r := []]
  {
    hide Counts, Agrees, Held;
  }

  /** Its block is filled and cached, and it finishes. */
  method Cached(k: Key) returns (m: KVCacheManager)
    ensures fresh(m) && Small(m) && m.tables == map[] && m.cpuTables == map[] && m.pools.freeGpu == [0, 1]
    ensures m.pools.gpu[0].mappedCpu == 0 && m.pools.gpu[1].mappedCpu == 0 && m.pools.gpu[1].key == Some(k)
    ensures m.pendingIn == [] && m.pendingOut == []
  {
    hide KVCacheManager.Valid, KeepsCpu, Held, NewlyFree, CopiesOut, Marked, Planned;
    m := Moved();
    var a := m.AppendSlots("R", 2, 0, 2, [k]);
    assert a == Allocated([]) && [1] + [] == [1];
    assert [k][..1] == [k];
    WholeTableCached(m, "R", [k]);
    assert m.pools.gpu[m.tables["R"][0]].key == Some([k][0]);
    OtherIsFree(m, "R", 1);
    OneIsFreed(m.tables, "R", 1);
    m.Free("R");
    var ins, outs := m.TakePendingCopies();
  }

  /** S gets block 0: two blocks rely on one CPU block. */
  method Twins(k: Key) returns (m: KVCacheManager)
    ensures fresh(m) && Small(m) && m.tables == map["S" := [0]] && m.cpuTables == map[] && !Separate(m.pools)
    ensures m.pools.gpu[0].mappedCpu == 0 && m.pools.gpu[1].mappedCpu == 0 && m.pools.gpu[1].key == Some(k)
    ensures m.pools.gpu[0].status == HalfDirty && m.pendingIn == [] && m.pendingOut == []
  {
    hide KVCacheManager.Valid, Claims, KeepsCpu, Held, PlannedSlots, FreeBesides, RefsGrown;
    m := Cached(k);
    ghost var p := m.pools;
    HeldOfNone();
    UnreferencedWhenIdle(m, 0);
    PlanForToken(p, 0);
    NoneKeyed(p.gpu);
    var a := m.AllocateSlots("S", 1, [], [], false);
    assert a == Allocated([0]) && [] + [0] == [0];
    SameCpuLength(p, m.pools, [], [0], SlotClaims(p, [], 1));
    OtherIsFree(m, "S", 0);
    NotAlone(m.pools);
  }

  lemma SameCpuLength(p: Pools, q: Pools, computed: seq<nat>, blocks: seq<nat>, claim: Claim)
    requires Grown(p, q, computed, blocks, claim)
    ensures |q.cpuRef| == |p.cpuRef|
  {
  }

  lemma NotAlone(p: Pools)
    requires |p.gpu| == 2 && p.gpu[0].mappedCpu == p.gpu[1].mappedCpu && p.gpu[1].key.Some?
    requires p.gpu[0].refCnt > 0 && p.gpu[0].status.IsDirty()
    ensures !Separate(p)
  {
    assert !Alone(p, 0);
  }

  /** S is swapped out in turn: the copy that was behind the cached block 1 is replaced by the
      data of S. */
  method TwinLosesItsCopy<T>(k: Key, ghost gpuMem: seq<T>, ghost cpuMem: seq<T>) returns (m: KVCacheManager)
    requires |gpuMem| == 2 && |cpuMem| == 2
    ensures fresh(m) && m.Valid() && m.enableCaching && |m.pools.gpu| == 2 && m.pools.gpu[1].key == Some(k)
    ensures m.pendingIn == [] && m.pendingOut == [(0, 0)] && m.pools.gpu[1].mappedCpu == 0
    ensures CopyBehind(m.pools.gpu, gpuMem, Copied(gpuMem, cpuMem, m.pendingOut), 1) <==> gpuMem[0] == gpuMem[1]
  {
    hide KVCacheManager.Valid, KeepsCpu, Held, NewlyFree, Copied, Separate;
    m := Twins(k);
    assert [0][..0] == [];
    assert DirtyPairs(m.pools.gpu, [0]) == [(0, 0)];
    var freed := m.SwapOut("S");
    CopiedOne(gpuMem, cpuMem, 0, 0);
  }
}
