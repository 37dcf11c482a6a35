/** Short runs of the KV-cache manager that end in the failures its contracts describe. */
module Incidents {
  import opened Sequences
  import opened Options
  import opened BlockPools
  import opened CpuBlocks
  import opened CpuDemand
  import opened PoolLoops
  import opened KVCacheManagers
  import opened PrefixSharing
  import opened BlockHashes
  import opened Serving
  import opened SwapCopies

  /** With free CPU blocks behind all free GPU blocks, nothing has to be replaced. */
  lemma {:induction false} FreshClaims(p: Pools, n: nat)
    requires n <= |p.freeGpu| && NoDup(p.freeGpu)
    requires forall i :: 0 <= i < |p.freeGpu| ==>
               MappedCpu(p, p.freeGpu[i]) == p.freeGpu[i] && !IsReferenced(p, p.freeGpu[i])
    ensures Claims(p, [], p.freeGpu, n) == Claim(p.freeGpu[..n], 0)
  {
    if n > 0 {
      FreshClaims(p, n - 1);
      var b := p.freeGpu[n - 1];
      assert b !in p.freeGpu[..n - 1];
      assert p.freeGpu[..n] == p.freeGpu[..n - 1] + [b];
    }
  }

  lemma FreshQueue(numGpu: nat, numCpu: nat)
    requires numGpu <= numCpu
    ensures var p := FreshPools(numGpu, numCpu);
            && NoDup(p.freeGpu) && |p.freeGpu| == numGpu
            && forall i :: 0 <= i < |p.freeGpu| ==>
                 MappedCpu(p, p.freeGpu[i]) == p.freeGpu[i] == i && !IsReferenced(p, p.freeGpu[i])
  {
  }

  /** The first request of a new manager gets the first blocks. */
  lemma FirstPlan(p: Pools, numTokens: nat, inAdvance: nat, maxBlocks: nat, blockSize: nat, enableCaching: bool)
    requires blockSize == 1 && inAdvance == 0 && 0 < numTokens <= |p.freeGpu| && numTokens <= maxBlocks
    requires NoDup(p.freeGpu)
    requires forall i :: 0 <= i < |p.freeGpu| ==>
               MappedCpu(p, p.freeGpu[i]) == p.freeGpu[i] && !IsReferenced(p, p.freeGpu[i])
    ensures PlannedSlots(p, numTokens, [], inAdvance, maxBlocks, blockSize, enableCaching) ==
            Allocated(p.freeGpu[..numTokens])
  {
    hide Claims, FreeBesides, NoDup, CeilDiv;
    CeilDivExact(numTokens, 1);
    FreeBesidesNone(p.freeGpu);
    assert CpusOf(p, []) == [];
    FreshClaims(p, numTokens);
  }

  /** Request R computes one token, whose block is then cached. */
  method OneCachedBlock(numGpu: nat, k: Key) returns (m: KVCacheManager)
    requires numGpu >= 2
    ensures fresh(m) && m.Valid() && m.blockSize == 1 && m.preallocateBlocks == 0 && m.enableCaching
    ensures m.maxBlocks == numGpu
    ensures m.tables == map["R" := [0]] && m.chains == map["R" := [k]] && m.cpuTables == map[] && m.leaked == multiset{}
    ensures |m.pools.gpu| == numGpu && m.pools.freeGpu == seq(numGpu - 1, i requires 0 <= i => i + 1)
    ensures m.pools.gpu[0].key == Some(k)
  {
    hide KVCacheManager.Valid, Claims, Grown, KeepsCpu, Prepared, Held, NoDup, FreeBesides, PlannedSlots;
    m := new KVCacheManager(1, numGpu, numGpu, numGpu, 0, true);
    ghost var p := m.pools;
    FreshQueue(numGpu, numGpu);
    FirstPlan(p, 1, 0, numGpu, 1, true);
    NoneKeyed(p.gpu);
    assert p.freeGpu[..1] == [0];
    var a := m.AllocateSlots("R", 1, [], [], false);
    assert a == Allocated([0]);
    assert [] + [0] == [0];
    assert m.tables == map["R" := [0]];
    FreeBesidesNone(p.freeGpu);
    GrownQueue(p, m.pools, [], [0], SlotClaims(p, [], 1));
    CacheWhole(m, "R", [k]);
    assert m.tables["R"] == [0] && m.pools.gpu[m.tables["R"][0]].key == Some([k][0]);
  }

  /** A refused allocation leaves a reference behind: R has cached block 0; S asks for two
      blocks besides that one, of which one is free, and is refused; R finishes.  Nobody has
      a table, and block 0 is not free. */
  method RefusalLeaks(k: Key) returns (m: KVCacheManager)
    ensures fresh(m) && m.Valid() && m.tables == map[] && m.cpuTables == map[]
    ensures m.leaked == multiset{0} && |m.pools.freeGpu| < |m.pools.gpu|
  {
    hide Counts, Agrees, Claims, Grown, KeepsCpu, Prepared, Held, NewlyFree, TablesAgree, KVCacheManager.Valid;
    m := OneCachedBlock(2, k);
    assert m.pools.freeGpu == [1];
    assert FreeBesides([1], [0]) == [1];
    CeilDivExact(2, 1);
    var a := m.AllocateSlots("S", 2, [0], [k], false);
    m.Free("R");
    AllFreeIff(m);
    FreeAndLive(m);
  }

  /** A manager of two blocks without caching has admitted a request for one. */
  method OneAdmitted() returns (m: KVCacheManager)
    ensures fresh(m) && m.Valid() && m.blockSize == 1 && m.preallocateBlocks == 0 && !m.enableCaching
    ensures m.maxBlocks == 1
    ensures m.tables == map["R" := [0]] && m.cpuTables == map[] && m.leaked == multiset{}
    ensures |m.pools.gpu| == 2 && m.pools.freeGpu == [1] && m.pools.freeCpu == []
    ensures m.pools.gpu[0].mappedCpu == 0 && m.pools.gpu[1].mappedCpu == 1 && m.pools.gpu[0].status == Empty
    ensures m.pendingOut == [] && m.pendingIn == []
  {
    hide KVCacheManager.Valid, Claims, Grown, KeepsCpu, Held, Prepared, PlannedSlots, NoDup, FreeBesides;
    m := new KVCacheManager(1, 2, 2, 1, 0, false);
    ghost var p := m.pools;
    FreshQueue(2, 2);
    PlanForOne(p, false);
    FreshClaims(p, 1);
    assert p.freeGpu == [0, 1] && p.freeGpu[..1] == [0];
    var a := m.AllocateSlots("R", 1, [], [], false);
    assert a == Allocated([0]);
    assert [] + [0] == [0];
    FirstGrown(p, m.pools);
  }

  /** It is swapped out, and nothing else is going on.  Without caching no block was ever
      marked as written, so nothing is queued for copying. */
  method OneSwappedOut() returns (m: KVCacheManager)
    ensures fresh(m) && m.Valid() && m.blockSize == 1 && m.preallocateBlocks == 0 && !m.enableCaching
    ensures m.maxBlocks == 1
    ensures m.tables == map[] && m.cpuTables == map["R" := [0]] && m.leaked == multiset{}
    ensures |m.pools.gpu| == 2 && m.pools.freeGpu == [1, 0] && m.pools.freeCpu == []
    ensures MappedCpu(m.pools, 0) == 0 && MappedCpu(m.pools, 1) == 1
    ensures m.pendingOut == [] && m.pendingIn == []
  {
    hide KVCacheManager.Valid, KeepsCpu, Held, NewlyFree;
    m := OneAdmitted();
    assert CpuOf(m.pools.gpu, [0]) == [0];
    assert [0][..0] == [];
    assert DirtyPairs(m.pools.gpu, [0]) == [];
    OneFreed(Held(m.tables) + m.leaked, m.tables);
    var freed := m.SwapOut("R");
    assert m.cpuTables == map["R" := [0]];
    assert m.tables == map[];
  }

  lemma FirstGrown(p: Pools, q: Pools)
    requires p == FreshPools(2, 2) && |FreeBesides(p.freeGpu, [])| >= 1
    requires Grown(p, q, [], [0], SlotClaims(p, [], 1)) && Claims(p, [], p.freeGpu, 1) == Claim([0], 0)
    requires Prepared(q.gpu, [0], 0)
    ensures |q.gpu| == 2 && q.freeGpu == [1] && q.freeCpu == []
    ensures q.gpu[0].mappedCpu == 0 && q.gpu[1].mappedCpu == 1 && q.gpu[0].status == Empty
  {
    hide Claims, FreeBesides, RefsGrown;
    FreeBesidesNone(p.freeGpu);
    assert CpusOf(p, []) == [];
    assert p.freeGpu == [0, 1] && p.freeGpu[1..] == [1];
  }

  lemma OneFreed(held: multiset<nat>, tables: map<Id, seq<nat>>)
    requires tables == map["R" := [0]] && held == Held(tables) + multiset{}
    ensures NewlyFree(held, tables, "R", false) == [0]
  {
    hide Held;
    HeldAdd(map[], "R", [0]);
    HeldOfNone();
    assert map[]["R" := [0]] == tables;
    FreedNext(held, [0], 0);
    NoneFreed(held, [0]);
  }

  lemma HeldOfNone()
    ensures Held(map[]) == multiset{}
  {
  }

  /** The CPU pool runs out: R holds block 0 and is swapped out, S gets block 1, and T is
      offered block 0, whose CPU block R still needs.  No other CPU block is free, and the
      block in hand is lost. */
  method AllocationLosesBlock() returns (m: KVCacheManager)
    ensures fresh(m) && !m.Valid() && LostOne(m.pools)
    ensures m.tables.Keys == {"S"} && m.cpuTables.Keys == {"R"}
  {
    hide Counts, Agrees, Grown, KeepsCpu, Prepared, Held, TablesAgree, LostOne;
    m := OneSwappedOut();
    ghost var p := m.pools;
    SwappedIsReferenced(m, "R", 0);
    IdleIsUnreferenced(m);
    PlanForIdle(p);
    var a := m.AllocateSlots("S", 1, [], [], false);
    assert a == Allocated([1]);
    FreeBesidesNone(p.freeGpu);
    SecondGrown(p, m.pools);
    SwappedIsReferenced(m, "R", 0);
    PlanForShared(m.pools);
    a := m.AllocateSlots("T", 1, [], [], false);
  }

  lemma SwappedIsReferenced(m: KVCacheManager, r: Id, i: nat)
    requires m.Valid() && r in m.cpuTables && i < |m.cpuTables[r]|
    ensures IsReferenced(m.pools, m.cpuTables[r][i])
  {
    hide Counts, Agrees, TablesAgree, NoKeys, NotTooLong, Held;
    HeldRemove(m.cpuTables, r);
    assert m.cpuTables[r][i] in multiset(m.cpuTables[r]);
    HeldIsReferenced(m.pools, Held(m.tables) + m.leaked, Held(m.cpuTables), m.cpuTables[r][i]);
  }

  lemma IdleIsUnreferenced(m: KVCacheManager)
    requires m.Valid() && m.tables == map[] && m.leaked == multiset{} && m.cpuTables == map["R" := [0]]
    ensures !IsReferenced(m.pools, 1)
  {
    hide Agrees, TablesAgree, NoKeys, NotTooLong, Held;
    HeldOfNone();
    HeldAdd(map[], "R", [0]);
    assert map[]["R" := [0]] == m.cpuTables;
    NoMappedRefs(m.pools.gpu, 1);
  }

  lemma OneClaim(p: Pools, queue: seq<nat>)
    requires queue != []
    ensures var c, claim := MappedCpu(p, queue[0]), Claims(p, [], queue, 1);
            if IsReferenced(p, c) then claim.popped == 1 else claim == Claim([c], 0)
  {
    assert Claims(p, [], queue, 0) == Claim([], 0);
  }

  lemma PlanForOne(p: Pools, enableCaching: bool)
    requires p.freeGpu != []
    ensures PlannedSlots(p, 1, [], 0, 1, 1, enableCaching) ==
            if Suffices(p, [], p.freeGpu, 1) then Allocated([p.freeGpu[0]]) else Raised(NoFreeCpuBlock)
  {
    hide Claims, FreeBesides, Suffices, CeilDiv;
    CeilDivExact(1, 1);
    FreeBesidesNone(p.freeGpu);
    assert CpusOf(p, []) == [];
    assert p.freeGpu[..1] == [p.freeGpu[0]];
  }

  lemma PlanForIdle(p: Pools)
    requires p.freeGpu == [1, 0] && MappedCpu(p, 1) == 1 && !IsReferenced(p, 1)
    ensures PlannedSlots(p, 1, [], 0, 1, 1, false) == Allocated([1]) && Claims(p, [], p.freeGpu, 1) == Claim([1], 0)
  {
    hide Claims, PlannedSlots;
    OneClaim(p, p.freeGpu);
    PlanForOne(p, false);
  }

  lemma SecondGrown(p: Pools, q: Pools)
    requires p.freeGpu == [1, 0] && |p.gpu| == 2 && p.freeCpu == [] && |FreeBesides(p.freeGpu, [])| >= 1
    requires Grown(p, q, [], [1], SlotClaims(p, [], 1)) && Claims(p, [], p.freeGpu, 1) == Claim([1], 0)
    ensures q.freeGpu == [0] && q.freeCpu == [] && MappedCpu(q, 0) == MappedCpu(p, 0)
  {
    hide Claims, FreeBesides, RefsGrown;
    FreeBesidesNone(p.freeGpu);
    assert CpusOf(p, []) == [];
    assert p.freeGpu[1..] == [0];
  }

  lemma PlanForShared(p: Pools)
    requires p.freeGpu == [0] && p.freeCpu == [] && MappedCpu(p, 0) == 0 && IsReferenced(p, 0)
    ensures PlannedSlots(p, 1, [], 0, 1, 1, false) == Raised(NoFreeCpuBlock)
  {
    hide Claims, PlannedSlots;
    OneClaim(p, p.freeGpu);
    PlanForOne(p, false);
  }

  /** R is admitted with one token, and `n` blocks are left, each with a CPU block of its
      own. */
  method Overtaking(n: nat) returns (m: KVCacheManager)
    requires n > 0
    ensures fresh(m) && m.Valid() && m.enableCaching && m.leaked == multiset{} && m.blockSize == 1 && m.maxBlocks == n
    ensures m.preallocateBlocks == 0 && m.tables == map["R" := [0]] && m.cpuTables == map[]
    ensures |m.pools.freeGpu| == n && NoDup(m.pools.freeGpu)
    ensures forall i :: 0 <= i < n ==>
              MappedCpu(m.pools, m.pools.freeGpu[i]) == m.pools.freeGpu[i] && !IsReferenced(m.pools, m.pools.freeGpu[i])
  {
    hide KVCacheManager.Valid, Claims, Grown, KeepsCpu, Held, Prepared, PlannedSlots, NoDup, FreeBesides, Keyed;
    m := new KVCacheManager(1, n + 1, n + 1, n, 0, true);
    ghost var p := m.pools;
    NoneKeyed(p.gpu);
    FreshQueue(n + 1, n + 1);
    FirstPlan(p, 1, 0, n, 1, true);
    FreshClaims(p, 1);
    assert p.freeGpu[..1] == [0];
    var a := m.AllocateSlots("R", 1, [], [], false);
    assert a == Allocated([0]) && [] + [0] == [0];
    NextQueue(p, m.pools, n);
  }

  /** The tokens of a request have filled all blocks of its table, which are then cached. */
  method CacheWhole(m: KVCacheManager, r: Id, keys: seq<Key>)
    requires m.Valid() && m.enableCaching && m.blockSize == 1 && r in m.tables && r in m.chains
    requires m.chains[r] == [] && |m.tables[r]| == |keys|
    modifies m
    ensures m.Valid() && m.tables == old(m.tables) && m.chains == old(m.chains)[r := keys] && m.leaked == old(m.leaked)
    ensures m.cpuTables == old(m.cpuTables) && m.pools.freeGpu == old(m.pools).freeGpu
    ensures |m.pools.gpu| == |old(m.pools).gpu|
    ensures Keyed(m.pools.gpu, m.tables[r], keys)
  {
    hide KVCacheManager.Valid, KeepsCpu, Held, CopiesOut, Marked, Keyed, Planned, CeilDiv;
    var n := |keys|;
    CeilDivExact(n, 1);
    assert n * 1 == n;
    var a := m.AppendSlots(r, n, 0, n, keys);
    assert a == Allocated([]);
    assert old(m.tables)[r] + [] == old(m.tables)[r];
    assert keys[..n] == keys;
    WholeTableCached(m, r, keys);
  }

  /** Request S overtakes R: R has computed one token and is swapped out, S with the same
      prompt has computed and cached as many tokens as there are keys. */
  method Overtaken(keys: seq<Key>) returns (m: KVCacheManager)
    requires keys != []
    ensures fresh(m) && m.Valid() && m.enableCaching && m.leaked == multiset{}
    ensures m.tables.Keys == {"S"} && m.cpuTables.Keys == {"R"} && |m.cpuTables["R"]| == 1
    ensures Keyed(m.pools.gpu, m.tables["S"], keys)
  {
    hide KVCacheManager.Valid, Claims, Grown, KeepsCpu, Held, Prepared, PlannedSlots, NoDup, FreeBesides, AppendEffect,
         CopiesOut, Marked, NewlyFree, DirtyPairs, Keyed, Planned;
    var n := |keys|;
    m := Overtaking(n);
    ghost var q := m.pools;
    NoneKeyed(q.gpu);
    FirstPlan(q, n, 0, n, 1, true);
    assert q.freeGpu[..n] == q.freeGpu;
    var a := m.AllocateSlots("S", n, [], [], false);
    assert a == Allocated(q.freeGpu) && [] + q.freeGpu == q.freeGpu;
    CacheWhole(m, "S", keys);
    ghost var before := m.pools;
    var freed := m.SwapOut("R");
    KeyedStays(before, m.pools, q.freeGpu, keys);
  }

  lemma NextQueue(p: Pools, q: Pools, n: nat)
    requires n > 0 && p == FreshPools(n + 1, n + 1) && |FreeBesides(p.freeGpu, [])| >= 1
    requires Grown(p, q, [], [0], SlotClaims(p, [], 1)) && Claims(p, [], p.freeGpu, 1) == Claim(p.freeGpu[..1], 0)
    ensures |q.freeGpu| == n && NoDup(q.freeGpu)
    ensures forall i :: 0 <= i < |q.freeGpu| ==>
              MappedCpu(q, q.freeGpu[i]) == q.freeGpu[i] && !IsReferenced(q, q.freeGpu[i])
  {
    hide Claims, FreeBesides;
    FreeBesidesNone(p.freeGpu);
    assert CpusOf(p, []) == [];
    assert p.freeGpu[..1] == [0];
  }

  lemma WholeTableCached(m: KVCacheManager, r: Id, keys: seq<Key>)
    requires m.Valid() && r in m.tables && r in m.chains && m.chains[r] == keys && |m.tables[r]| == |keys|
    ensures Keyed(m.pools.gpu, m.tables[r], keys)
  {
    hide Counts, Agrees, Held, NoKeys, NotTooLong;
    assert TableAgrees(m.pools.gpu, m.tables[r], m.chains[r], Held(m.tables) + m.leaked);
  }

  lemma KeyedStays(p: Pools, q: Pools, t: seq<nat>, keys: seq<Key>)
    requires Keyed(p.gpu, t, keys) && SameKeys(p, q)
    ensures Keyed(q.gpu, t, keys)
  {
  }

  /** When R is resumed, nothing is left to allocate, or less: with one cached block the
      request for zero tokens is refused, with more the assertion fails and the references
      to the cached blocks stay behind. */
  method ResumeBehindCache(keys: seq<Key>) returns (m: KVCacheManager, a: Alloc)
    requires keys != []
    ensures fresh(m) && m.Valid() && m.cpuTables.Keys == {"R"} && m.tables.Keys == {"S"} && |m.tables["S"]| == |keys|
    ensures |keys| == 1 ==> a == Raised(ValueError) && m.leaked == multiset{}
    ensures |keys| > 1 ==> a == Raised(AssertionError) && m.leaked == multiset(m.tables["S"])
  {
    hide KVCacheManager.Valid, Claims, KeepsCpu, Held, FreeBesides;
    m := Overtaken(keys);
    a := m.SwapIn("R", m.tables["S"], keys, 1);
  }

  lemma PlanForReturn(p: Pools)
    requires p.freeGpu == [1, 0] && MappedCpu(p, 1) == 1 && !IsReferenced(p, 1)
    ensures PlannedSwapIn(p, 1, [], false) == Allocated([1])
  {
    hide Claims, FreeBesides;
    OneClaim(p, p.freeGpu);
    FreeBesidesNone(p.freeGpu);
    assert CpusOf(p, []) == [];
    assert p.freeGpu[..1] == [1];
  }

  /** Without caching a request that is swapped out and in again is given whatever was in CPU
      memory: R has written block 0, no copy out was queued, and block 1, which it gets back,
      is filled from CPU block 0.  Its data is there only by coincidence. */
  method UncachedSwapLoses<T>(ghost gpuMem: seq<T>, ghost cpuMem: seq<T>) returns (m: KVCacheManager)
    requires |gpuMem| == 2 && |cpuMem| == 2
    ensures fresh(m) && m.Valid() && !m.enableCaching && m.tables == map["R" := [1]] && m.cpuTables == map[]
    ensures m.pendingOut == [] && m.pendingIn == [(0, 1)]
    ensures var cpu := Copied(gpuMem, cpuMem, m.pendingOut);
            var gpu := Copied(cpu, gpuMem, m.pendingIn);
            gpu[m.tables["R"][0]] == gpuMem[0] <==> cpuMem[0] == gpuMem[0]
  {
    hide KVCacheManager.Valid, KeepsCpu, Held, PlannedSwapIn, Claims, FreeBesides, Restored, SwapInEffect, BackedBy;
    m := OneSwappedOut();
    IdleIsUnreferenced(m);
    PlanForReturn(m.pools);
    ghost var cpu := m.cpuTables["R"];
    assert cpu == [0];
    var a := m.SwapIn("R", [], [], 1);
    assert a == Allocated([1]);
    assert CopiesIn(cpu, a.blocks, 0, 1, 1, 1) == [(0, 1)];
    assert [] + [1] == [1];
    assert m.tables == map["R" := [1]];
    assert m.cpuTables == map[];
    assert m.pendingIn == [(0, 1)];
    CopiedOne(cpuMem, gpuMem, 0, 1);
  }

  lemma CopiedOne<T>(from: seq<T>, to: seq<T>, a: nat, d: nat)
    requires a < |from| && d < |to|
    ensures InBounds([(a, d)], |from|, |to|) && Copied(from, to, [(a, d)]) == to[d := from[a]]
  {
    var pairs := [(a, d)];
    assert pairs[..0] == [];
    assert Copied(from, to, pairs[..0]) == to;
  }

  /** A request comes back without room for its next token: its only block was full when it
      was swapped out, it gets one block back, and the token to be computed has no place. */
  method ResumedWithoutRoom(h: Hash) returns (m: KVCacheManager, a: Resumption)
    ensures fresh(m) && m.Valid() && m.tables.Keys == {"R"} && a == Resumed(1, 1)
    ensures a.numComputed + a.numNew > |m.tables["R"]| * m.blockSize
  {
    hide KVCacheManager.Valid, KeepsCpu, Held, FirstHits, KeysOf, PlannedSwapIn, FreeBesides, Claims;
    m := OneSwappedOut();
    IdleIsUnreferenced(m);
    PlanForReturn(m.pools);
    NoChain(h, Content([7, 8], [], 0), 1);
    var keys, d;
    ghost var computed;
    ghost var p := m.pools;
    OneFree(p);
    assert |m.cpuTables["R"]| == 1;
    a, keys, d, computed := ResumeSwapped(m, h, "R", [], Content([7, 8], [], 0), 1, 1, map[]);
    assert computed == [] && !a.AssertionFails?;
    assert FreeBesides(p.freeGpu, computed) == p.freeGpu && Suffices(p, CpusOf(p, computed), p.freeGpu, 1);
    AnyOutcome(a);
    assert m.tables == map["R" := m.tables["R"]];
  }

  lemma AnyOutcome(a: Resumption)
    ensures || a.Resumed? || a.NotYet? || a.AssertionFails? || a == Fails(ValueError) || a == Fails(AssertionError)
            || a == Fails(IndexError) || a == Fails(NoFreeCpuBlock)
  {
    match a {
      case Fails(e) =>
        assert e.ValueError? || e.AssertionError? || e.IndexError? || e.NoFreeCpuBlock?;
      case _ =>
    }
  }

  /** One block can be had from an idle pool. */
  lemma OneFree(p: Pools)
    requires p.freeGpu == [1, 0] && MappedCpu(p, 1) == 1 && !IsReferenced(p, 1)
    ensures FreeBesides(p.freeGpu, []) == p.freeGpu && CpusOf(p, []) == [] && Suffices(p, [], p.freeGpu, 1)
  {
    hide Claims;
    FreeBesidesNone(p.freeGpu);
    OneClaim(p, p.freeGpu);
  }
}
