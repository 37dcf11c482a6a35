/** vllm/v1/core/kv_cache_manager.py: the KV-cache manager with paired GPU and CPU block
    pools, in its default mode (`prefix_cache_fix` on).

    `Valid` is kept by every operation, on success, on refusal and when it raises, with one
    exception: a block is lost when the CPU pool runs out during an allocation.  It fixes
    every reference count: a GPU block is referenced once for each place in which a request's
    block table lists it, plus once for each reference that a failed allocation has left
    behind (`leaked`, which no code ever reads). */
module KVCacheManagers {
  import opened Sequences
  import opened Numbers
  import opened Options
  import opened BlockPools
  import opened PoolLoops
  import opened CpuBlocks
  import opened CpuDemand

  type Id = string

  /** All table entries of all requests. */
  ghost function Held(tables: map<Id, seq<nat>>): multiset<nat>
    decreases |tables|
  {
    if tables == map[] then multiset{}
    else
      var r :| r in tables;
      Held(tables - {r}) + multiset(tables[r])
  }

  lemma {:induction false} HeldRemove(tables: map<Id, seq<nat>>, r: Id)
    requires r in tables
    ensures Held(tables) == Held(tables - {r}) + multiset(tables[r])
    decreases |tables|
  {
    var r0 :| r0 in tables && Held(tables) == Held(tables - {r0}) + multiset(tables[r0]);
    if r0 != r {
      HeldRemove(tables - {r0}, r);
      HeldRemove(tables - {r}, r0);
      assert tables - {r0} - {r} == tables - {r} - {r0};
    }
  }

  lemma HeldAdd(tables: map<Id, seq<nat>>, r: Id, t: seq<nat>)
    requires r !in tables
    ensures Held(tables[r := t]) == Held(tables) + multiset(t)
  {
    HeldRemove(tables[r := t], r);
    assert tables[r := t] - {r} == tables;
  }

  lemma HeldReplace(tables: map<Id, seq<nat>>, r: Id, t: seq<nat>, more: seq<nat>)
    requires r in tables && t == tables[r]
    ensures Held(tables[r := t + more]) == Held(tables) + multiset(more)
  {
    HeldRemove(tables, r);
    HeldRemove(tables[r := t + more], r);
    assert tables[r := t + more] - {r} == tables - {r};
  }

  /** A table whose first blocks are cached under the given keys and whose other blocks
      are the request's alone and not cached. */
  ghost predicate TableAgrees(gpu: seq<Gpu>, t: seq<nat>, keys: seq<Key>, held: multiset<nat>) {
    && Below(t, |gpu|) && |keys| <= |t|
    && (forall i :: 0 <= i < |keys| ==> gpu[t[i]].key == Some(keys[i]))
    && (forall i :: |keys| <= i < |t| ==> gpu[t[i]].key == None && held[t[i]] == 1)
  }

  lemma TableStable(gpu: seq<Gpu>, t: seq<nat>, keys: seq<Key>, held: multiset<nat>, gpu': seq<Gpu>,
                    held': multiset<nat>)
    requires TableAgrees(gpu, t, keys, held) && |gpu'| == |gpu|
    requires forall i :: 0 <= i < |t| ==> gpu'[t[i]].key == gpu[t[i]].key
    requires forall i :: |keys| <= i < |t| ==> held'[t[i]] == held[t[i]]
    ensures TableAgrees(gpu', t, keys, held')
  {
  }

  ghost predicate NotTooLong(tables: map<Id, seq<nat>>, maxBlocks: nat) {
    forall r :: r in tables ==> |tables[r]| <= maxBlocks
  }

  /** Blocks that are cached under the given keys. */
  predicate Keyed(gpu: seq<Gpu>, s: seq<nat>, keys: seq<Key>) {
    Below(s, |gpu|) && |keys| == |s| && forall i :: 0 <= i < |s| ==> gpu[s[i]].key == Some(keys[i])
  }

  ghost predicate Unkeyed(gpu: seq<Gpu>, s: seq<nat>) {
    Below(s, |gpu|) && forall i :: 0 <= i < |s| ==> gpu[s[i]].key == None
  }

  /** Distinct blocks that are not cached and that nobody else holds. */
  ghost predicate Fresh(gpu: seq<Gpu>, others: multiset<nat>, s: seq<nat>) {
    NoDup(s) && Unkeyed(gpu, s) && forall i :: 0 <= i < |s| ==> others[s[i]] == 0
  }

  ghost predicate TablesAgree(gpu: seq<Gpu>, tables: map<Id, seq<nat>>, chains: map<Id, seq<Key>>,
                              held: multiset<nat>) {
    && chains.Keys == tables.Keys
    && forall r :: r in tables ==> TableAgrees(gpu, tables[r], chains[r], held)
  }

  /** New references to cached blocks disturb no table. */
  lemma TablesTouched(p: Pools, q: Pools, tables: map<Id, seq<nat>>, chains: map<Id, seq<Key>>, held: multiset<nat>,
                      blocks: seq<nat>)
    requires TablesAgree(p.gpu, tables, chains, held) && SameKeys(p, q) && Below(blocks, |p.gpu|)
    requires forall i :: 0 <= i < |blocks| ==> p.gpu[blocks[i]].key.Some?
    ensures TablesAgree(q.gpu, tables, chains, held + multiset(blocks))
  {
    forall r | r in tables
      ensures TableAgrees(q.gpu, tables[r], chains[r], held + multiset(blocks))
    {
      var t := tables[r];
      forall i | |chains[r]| <= i < |t|
        ensures (held + multiset(blocks))[t[i]] == held[t[i]]
      {
        assert t[i] !in blocks;
      }
      TableStable(p.gpu, t, chains[r], held, q.gpu, held + multiset(blocks));
    }
  }

  /** Blocks from the free queue are in no table. */
  lemma TablesTaken(p: Pools, q: Pools, tables: map<Id, seq<nat>>, chains: map<Id, seq<Key>>, held: multiset<nat>,
                    heldCpu: multiset<nat>, blocks: seq<nat>)
    requires Counts(p, held, heldCpu) && Held(tables) <= held
    requires TablesAgree(p.gpu, tables, chains, held) && FreshBlocks(p, q, blocks)
    requires forall i :: 0 <= i < |blocks| ==> blocks[i] in p.freeGpu
    ensures TablesAgree(q.gpu, tables, chains, held + multiset(blocks))
    ensures forall i :: 0 <= i < |blocks| ==> held[blocks[i]] == 0
  {
    forall i | 0 <= i < |blocks|
      ensures held[blocks[i]] == 0
    {
      assert p.gpu[blocks[i]].refCnt == 0;
    }
    forall r | r in tables
      ensures TableAgrees(q.gpu, tables[r], chains[r], held + multiset(blocks))
    {
      var t := tables[r];
      HeldRemove(tables, r);
      forall i | 0 <= i < |t|
        ensures t[i] !in blocks
      {
        assert t[i] in multiset(t);
        assert held[t[i]] >= Held(tables)[t[i]] > 0;
      }
      TableStable(p.gpu, t, chains[r], held, q.gpu, held + multiset(blocks));
    }
  }

  /** Releasing one request's table leaves the others alone. */
  lemma TablesReleased(p: Pools, q: Pools, tables: map<Id, seq<nat>>, chains: map<Id, seq<Key>>, leaked: multiset<nat>,
                       r: Id)
    requires TablesAgree(p.gpu, tables, chains, Held(tables) + leaked) && SameKeys(p, q) && r in tables
    ensures TablesAgree(q.gpu, tables - {r}, chains - {r}, Held(tables - {r}) + leaked)
  {
    var held, rest := Held(tables) + leaked, Held(tables - {r}) + leaked;
    HeldRemove(tables, r);
    forall s | s in tables - {r}
      ensures TableAgrees(q.gpu, tables[s], chains[s], rest)
    {
      var t := tables[s];
      HeldRemove(tables - {r}, s);
      forall i | |chains[s]| <= i < |t|
        ensures rest[t[i]] == held[t[i]]
      {
        assert t[i] in multiset(t);
      }
      TableStable(p.gpu, t, chains[s], held, q.gpu, rest);
    }
  }

  lemma {:induction false} NoMappedRefs(gpu: seq<Gpu>, c: nat)
    requires forall b :: 0 <= b < |gpu| ==> gpu[b].refCnt == 0
    ensures MappedRefs(gpu, c) == 0
  {
    if gpu != [] {
      NoMappedRefs(gpu[..|gpu| - 1], c);
    }
  }

  function Reverse(s: seq<nat>): seq<nat> {
    if s == [] then [] else [s[|s| - 1]] + Reverse(s[..|s| - 1])
  }

  lemma {:induction false} ReverseIndex(s: seq<nat>)
    ensures |Reverse(s)| == |s|
    ensures forall i :: 0 <= i < |s| ==> Reverse(s)[i] == s[|s| - 1 - i]
  {
    if s != [] {
      ReverseIndex(s[..|s| - 1]);
    }
  }

  lemma {:induction false} ReverseMultiset(s: seq<nat>)
    ensures multiset(Reverse(s)) == multiset(s)
  {
    if s != [] {
      ReverseMultiset(s[..|s| - 1]);
      Snoc(s, |s|);
      assert s[..|s|] == s;
    }
  }

  /** Reversing a table reverses its CPU blocks. */
  lemma ReverseFacts(t: seq<nat>, gpu: seq<Gpu>)
    requires Below(t, |gpu|)
    ensures Below(Reverse(t), |gpu|) && multiset(Reverse(t)) == multiset(t)
    ensures multiset(CpuOf(gpu, Reverse(t))) == multiset(CpuOf(gpu, t))
  {
    hide Reverse;
    ReverseIndex(t);
    ReverseMultiset(t);
    ReverseIndex(CpuOf(gpu, t));
    ReverseMultiset(CpuOf(gpu, t));
    assert CpuOf(gpu, Reverse(t)) == Reverse(CpuOf(gpu, t));
  }

  lemma SameElements(t: seq<nat>)
    ensures forall b :: b in Reverse(t) <==> b in t
  {
    ReverseMultiset(t);
    forall b: nat
      ensures b in Reverse(t) <==> b in t
    {
      assert b in Reverse(t) <==> b in multiset(Reverse(t));
    }
  }

  /** With caching the last block of a table is released first. */
  function ReleaseOrder(t: seq<nat>, enableCaching: bool): seq<nat> {
    if enableCaching then Reverse(t) else t
  }

  /** The blocks that `free` adds to the queue, in order. */
  ghost function NewlyFree(held: multiset<nat>, tables: map<Id, seq<nat>>, r: Id, enableCaching: bool): seq<nat> {
    if r in tables then
      var o := ReleaseOrder(tables[r], enableCaching);
      Freed(held, o, |o|)
    else []
  }

  lemma AllMarkedFree(q: Pools, t: seq<nat>, enableCaching: bool)
    requires MarkedFree(q, ReleaseOrder(t, enableCaching), |ReleaseOrder(t, enableCaching)|)
    ensures forall b :: b in t && b < |q.gpu| && q.gpu[b].refCnt == 0 ==> q.gpu[b].status == Free
  {
    hide Reverse;
    SameElements(t);
    var o := ReleaseOrder(t, enableCaching);
    forall b | b in t && b < |q.gpu| && q.gpu[b].refCnt == 0
      ensures q.gpu[b].status == Free
    {
      assert b in o;
      var k :| 0 <= k < |o| && o[k] == b;
    }
  }

  /** What `free` needs to know about the table it releases. */
  lemma ReleaseTable(gpu: seq<Gpu>, tables: map<Id, seq<nat>>, chains: map<Id, seq<Key>>, leaked: multiset<nat>, r: Id,
                     reversed: bool)
    requires r in tables && TablesAgree(gpu, tables, chains, Held(tables) + leaked)
    ensures var t := tables[r];
            var o := ReleaseOrder(t, reversed);
            && Below(t, |gpu|) && Below(o, |gpu|) && multiset(o) <= Held(tables) + leaked
            && Held(tables) + leaked - multiset(o) == Held(tables - {r}) + leaked
            && multiset(CpuOf(gpu, o)) == multiset(CpuOf(gpu, t))
            && forall b :: b in o <==> b in t
  {
    HeldRemove(tables, r);
    SameElements(tables[r]);
    ReverseFacts(tables[r], gpu);
  }

  lemma NothingToRelease(gpu: seq<Gpu>, tables: map<Id, seq<nat>>, chains: map<Id, seq<Key>>, held: multiset<nat>,
                         r: Id)
    requires r !in tables && TablesAgree(gpu, tables, chains, held)
    ensures tables - {r} == tables && chains - {r} == chains
  {
  }

  /** The touched and the new blocks become the request's table. */
  lemma RecordTable(gpu: seq<Gpu>, tables: map<Id, seq<nat>>, chains: map<Id, seq<Key>>, leaked: multiset<nat>, r: Id,
                    computed: seq<nat>, hits: seq<Key>, blocks: seq<nat>, left: multiset<nat>)
    requires r !in tables && TablesAgree(gpu, tables, chains, Held(tables) + leaked)
    requires leaked == left + multiset(computed) + multiset(blocks)
    requires Keyed(gpu, computed, hits)
    requires Fresh(gpu, Held(tables) + leaked - multiset(blocks), blocks)
    ensures var t := computed + blocks;
            && Held(tables[r := t]) + left == Held(tables) + leaked
            && TablesAgree(gpu, tables[r := t], chains[r := hits], Held(tables[r := t]) + left)
  {
    hide Held;
    var t, held := computed + blocks, Held(tables) + leaked;
    HeldAdd(tables, r, t);
    assert multiset(t) == multiset(computed) + multiset(blocks);
    forall i | |computed| <= i < |t|
      ensures held[t[i]] == 1
    {
      assert t[i] == blocks[i - |computed|];
      OnceInDistinct(blocks, i - |computed|);
    }
  }

  lemma RecordMore(gpu: seq<Gpu>, tables: map<Id, seq<nat>>, chains: map<Id, seq<Key>>, leaked: multiset<nat>, r: Id,
                   blocks: seq<nat>, left: multiset<nat>)
    requires r in tables && TablesAgree(gpu, tables, chains, Held(tables) + leaked)
    requires leaked == left + multiset(blocks)
    requires Fresh(gpu, Held(tables) + leaked - multiset(blocks), blocks)
    ensures var t := tables[r] + blocks;
            && Held(tables[r := t]) + left == Held(tables) + leaked
            && TablesAgree(gpu, tables[r := t], chains, Held(tables[r := t]) + left)
  {
    hide Held;
    var before, held := tables[r], Held(tables) + leaked;
    var t := before + blocks;
    HeldReplace(tables, r, before, blocks);
    forall i | |before| <= i < |t|
      ensures held[t[i]] == 1
    {
      assert t[i] == blocks[i - |before|];
      OnceInDistinct(blocks, i - |before|);
    }
  }

  lemma OnceInDistinct(s: seq<nat>, i: nat)
    requires NoDup(s) && i < |s|
    ensures multiset(s)[s[i]] == 1
  {
    var x, before, after := s[i], s[..i], s[i + 1..];
    assert s == before + [x] + after;
    assert x !in before && x !in after;
  }

  lemma TablesMarked(p: Pools, q: Pools, tables: map<Id, seq<nat>>, chains: map<Id, seq<Key>>, held: multiset<nat>)
    requires TablesAgree(p.gpu, tables, chains, held) && SameKeys(p, q)
    ensures TablesAgree(q.gpu, tables, chains, held)
  {
  }

  lemma NoKeysKept(p: Pools, q: Pools)
    requires NoKeys(p) && SameKeys(p, q)
    ensures NoKeys(q)
  {
  }

  /** Rounds up, for negative numbers too. */
  function CeilDiv(a: int, b: nat): int
    requires b > 0
  {
    -((-a) / b)
  }

  /** The required blocks and some in advance, as far as the pool and the table allow. */
  function NumNewBlocks(required: int, inAdvance: nat, numFree: nat, room: int): (n: int)
    requires required <= numFree
    ensures n <= numFree && n <= room && n <= required + inAdvance
    ensures n == required + inAdvance || n == numFree || n == room
    ensures (if required <= room then required <= n else n == room)
  {
    Min(Min(required + inAdvance, numFree), room)
  }

  /** As many blocks as wanted, or else there are no more, or no more fit the table. */
  ghost predicate AsManyAs(taken: nat, wanted: int, left: seq<nat>, length: nat, maxBlocks: nat) {
    0 < taken <= wanted && length <= maxBlocks && (taken == wanted || left == [] || length == maxBlocks)
  }

  /** The same for a table that lacks some blocks, or has enough. */
  ghost predicate AsManyMore(taken: nat, missing: int, inAdvance: nat, left: seq<nat>, length: nat, maxBlocks: nat) {
    if missing <= 0 then taken == 0 else AsManyAs(taken, missing + inAdvance, left, length, maxBlocks)
  }

  datatype Error = ValueError | AssertionError | IndexError | NoFreeCpuBlock
  datatype Alloc = Allocated(blocks: seq<nat>) | NoSpace | Raised(error: Error)

  /** What becomes of a request for `required` blocks, from the state before: refused when
      fewer are free; an assertion when the table has no room or nothing is asked for; an
      exception when the CPU blocks do not suffice, or when the blocks to be written do not
      all fit the table; otherwise the head of the queue. */
  function Planned(p: Pools, touched: seq<nat>, queue: seq<nat>, required: int, inAdvance: nat, room: int,
                   marks: bool): Alloc {
    if required > |queue| then NoSpace
    else
      var n := NumNewBlocks(required, inAdvance, |queue|, room);
      if n <= 0 then Raised(AssertionError)
      else if !Suffices(p, touched, queue, n) then Raised(NoFreeCpuBlock)
      else if marks && required > n then Raised(IndexError)
      else Allocated(queue[..n])
  }

  /** The same for `allocate_slots` as a whole: the computed blocks are touched first, which
      takes them out of the queue and claims the CPU blocks behind them. */
  function PlannedSlots(p: Pools, numTokens: int, computed: seq<nat>, inAdvance: nat, maxBlocks: nat, blockSize: nat,
                        enableCaching: bool): Alloc
    requires blockSize > 0
  {
    if numTokens == 0 then Raised(ValueError)
    else if !enableCaching && computed != [] then Raised(AssertionError)
    else
      Planned(p, CpusOf(p, computed), FreeBesides(p.freeGpu, computed), CeilDiv(numTokens, blockSize), inAdvance,
              maxBlocks - |computed|, enableCaching)
  }

  /** For `swap_in` of a table with `cpuLength` CPU blocks: nothing may be left to allocate
      or less than nothing, depending on how much of the request the cache knows. */
  function PlannedSwapIn(p: Pools, cpuLength: nat, computed: seq<nat>, enableCaching: bool): Alloc {
    var need, queue := cpuLength - |computed|, FreeBesides(p.freeGpu, computed);
    if need == 0 then Raised(ValueError)
    else if need < 0 || (!enableCaching && computed != []) then Raised(AssertionError)
    else if need > |queue| then NoSpace
    else if !Suffices(p, CpusOf(p, computed), queue, need) then Raised(NoFreeCpuBlock)
    else Allocated(queue[..need])
  }

  lemma PlannedSwapInIs(p: Pools, cpuLength: nat, computed: seq<nat>, maxBlocks: nat, blockSize: nat,
                        enableCaching: bool)
    requires blockSize > 0 && cpuLength <= maxBlocks
    ensures PlannedSlots(p, (cpuLength - |computed|) * blockSize, computed, 0, maxBlocks, blockSize, enableCaching) ==
            PlannedSwapIn(p, cpuLength, computed, enableCaching)
    ensures var a := PlannedSwapIn(p, cpuLength, computed, enableCaching);
            && (a.Allocated? ==> |a.blocks| == cpuLength - |computed| > 0) && a != Raised(IndexError)
  {
    hide CeilDiv, FreeBesides, Claims;
    CeilDivExact(cpuLength - |computed|, blockSize);
  }

  /** And for `append_slots`. */
  function PlannedMore(p: Pools, t: seq<nat>, required: int, inAdvance: nat, maxBlocks: nat): Alloc {
    if required - |t| <= 0 then Allocated([])
    else Planned(p, [], p.freeGpu, required - |t|, inAdvance, maxBlocks - |t|, false)
  }

  class KVCacheManager {
    const blockSize: nat
    const maxBlocks: nat
    const preallocateBlocks: nat
    const enableCaching: bool
    var pools: Pools
    var tables: map<Id, seq<nat>>
    var cpuTables: map<Id, seq<nat>>
    var chains: map<Id, seq<Key>>
    var pendingOut: seq<(nat, nat)>
    var pendingIn: seq<(nat, nat)>
    ghost var leaked: multiset<nat>

    ghost predicate Valid()
      reads this
    {
      && blockSize > 0
      && Counts(pools, Held(tables) + leaked, Held(cpuTables))
      && Agrees(pools) && (!enableCaching ==> NoKeys(pools))
      && TablesAgree(pools.gpu, tables, chains, Held(tables) + leaked)
      && NotTooLong(tables, maxBlocks) && NotTooLong(cpuTables, maxBlocks)
    }

    /** The first CPU blocks are mapped to the GPU blocks one to one; the source raises
        when there are fewer of them. */
    constructor (blockSize: nat, numGpu: nat, numCpu: nat, maxBlocks: nat, preallocateBlocks: nat, enableCaching: bool)
      requires blockSize > 0 && 0 < numGpu <= numCpu
      ensures Valid() && tables == map[] && cpuTables == map[] && chains == map[] && leaked == multiset{}
      ensures this.blockSize == blockSize && this.maxBlocks == maxBlocks
      ensures this.preallocateBlocks == preallocateBlocks && this.enableCaching == enableCaching
      ensures pools == FreshPools(numGpu, numCpu)
      ensures pendingOut == [] && pendingIn == []
    {
      this.blockSize, this.maxBlocks := blockSize, maxBlocks;
      this.preallocateBlocks, this.enableCaching := preallocateBlocks, enableCaching;
      pools := FreshPools(numGpu, numCpu);
      tables, cpuTables, chains, pendingOut, pendingIn, leaked := map[], map[], map[], [], [], multiset{};
      new;
      forall c: nat
        ensures MappedRefs(pools.gpu, c) == 0
      {
        NoMappedRefs(pools.gpu, c);
      }
      forall b | 0 <= b < numGpu
        ensures b in pools.freeGpu
      {
        assert pools.freeGpu[b] == b;
      }
    }

    /** `get_and_reset_pending_blocks_to_swap_in` and `..._out`: the queued copies are handed
        over to be made. */
    method TakePendingCopies() returns (ins: seq<(nat, nat)>, outs: seq<(nat, nat)>)
      requires Valid()
      modifies this`pendingIn, this`pendingOut
      ensures Valid() && ins == old(pendingIn) && outs == old(pendingOut) && pendingIn == [] && pendingOut == []
    {
      ins, outs := pendingIn, pendingOut;
      pendingIn, pendingOut := [], [];
    }

    /** `get_computed_blocks`: the longest run of the request's keys, from the first on,
        that the cache knows, with the first cached block of each. */
    method GetComputedBlocks(keys: seq<Key>) returns (blocks: seq<nat>)
      requires Valid()
      ensures |blocks| <= |keys| && Below(blocks, |pools.gpu|)
      ensures forall i :: 0 <= i < |blocks| ==> pools.gpu[blocks[i]].key == Some(keys[i])
      ensures FirstHits(pools, keys, blocks)
      ensures enableCaching && |blocks| < |keys| ==> keys[|blocks|] !in pools.cached
      ensures enableCaching && |blocks| < |keys| ==>
                forall b :: 0 <= b < |pools.gpu| ==> pools.gpu[b].key != Some(keys[|blocks|])
      ensures !enableCaching ==> blocks == []
    {
      blocks := [];
      if !enableCaching {
        return;
      }
      for i := 0 to |keys|
        invariant |blocks| == i && Below(blocks, |pools.gpu|)
        invariant forall j :: 0 <= j < i ==> pools.gpu[blocks[j]].key == Some(keys[j])
        invariant FirstHits(pools, keys, blocks)
      {
        if keys[i] in pools.cached {
          assert Listed(pools.cached, keys[i], pools.cached[keys[i]][0]);
          blocks := blocks + [pools.cached[keys[i]][0]];
        } else {
          forall b | 0 <= b < |pools.gpu|
            ensures pools.gpu[b].key != Some(keys[i])
          {
            assert !Listed(pools.cached, keys[i], b);
          }
          return;
        }
      }
    }

    /** `free`: releases the request's table, if it has one, last block first when
        caching.  With `keepCpu` the references to the CPU blocks pass to the caller. */
    method Release(r: Id, keepCpu: bool, swapped: bool)
      requires Valid()
      modifies this`pools, this`tables, this`chains
      ensures tables == old(tables) - {r} && chains == old(chains) - {r}
      ensures Counts(pools, Held(tables) + leaked,
                     if keepCpu && r in old(tables)
                     then Held(cpuTables) + multiset(CpuOf(old(pools).gpu, old(tables)[r])) else Held(cpuTables))
      ensures Agrees(pools) && (!enableCaching ==> NoKeys(pools)) && SameMapping(old(pools), pools)
      ensures TablesAgree(pools.gpu, tables, chains, Held(tables) + leaked)
      ensures pools.freeCpu == old(pools).freeCpu && SameKeys(old(pools), pools) && KeepsCpu(old(pools), pools)
      ensures forall b :: 0 <= b < |pools.gpu| && !(r in old(tables) && b in old(tables)[r]) ==>
                pools.gpu[b] == old(pools).gpu[b]
      ensures pools.freeGpu == old(pools).freeGpu + NewlyFree(old(Held(tables) + leaked), old(tables), r, enableCaching)
      // blocks that nobody holds any more are marked free
      ensures r in old(tables) ==>
                forall b :: b in old(tables)[r] && b < |pools.gpu| && pools.gpu[b].refCnt == 0 ==>
                  pools.gpu[b].status.Free?
    {
      hide Counts, Agrees, Held, TablesAgree, NoKeys, Freed, KeepsCpu, MarkedFree;
      if r !in tables {
        KeepsSelf(pools);
        NothingToRelease(pools.gpu, tables, chains, Held(tables) + leaked, r);
        return;
      }
      ReleaseTable(pools.gpu, tables, chains, leaked, r, enableCaching);
      var ordered := ReleaseOrder(tables[r], enableCaching);
      var q := ReleaseAll(pools, ordered, keepCpu, swapped, Held(tables) + leaked, Held(cpuTables));
      TablesReleased(pools, q, tables, chains, leaked, r);
      AllMarkedFree(q, tables[r], enableCaching);
      if !enableCaching {
        NoKeysKept(pools, q);
      }
      pools, tables, chains := q, tables - {r}, chains - {r};
    }

    /** `free` of a finished or preempted request: only its GPU table goes. */
    method Free(r: Id)
      requires Valid()
      modifies this`pools, this`tables, this`chains
      ensures Valid() && SameKeys(old(pools), pools) && SameMapping(old(pools), pools) && KeepsCpu(old(pools), pools)
      ensures pools.freeCpu == old(pools).freeCpu
      ensures forall b :: 0 <= b < |pools.gpu| && !(r in old(tables) && b in old(tables)[r]) ==>
                pools.gpu[b] == old(pools).gpu[b]
      ensures tables == old(tables) - {r} && chains == old(chains) - {r}
      ensures pools.freeGpu == old(pools).freeGpu + NewlyFree(old(Held(tables) + leaked), old(tables), r, enableCaching)
      // blocks that nobody holds any more are marked free
      ensures r in old(tables) ==>
                forall b :: b in old(tables)[r] && b < |pools.gpu| && pools.gpu[b].refCnt == 0 ==>
                  pools.gpu[b].status.Free?
    {
      hide KeepsCpu;
      Release(r, false, false);
    }

    /** `_touch`: the new references belong to nobody yet. */
    method TouchComputed(computed: seq<nat>, hits: seq<Key>)
      requires Valid() && Keyed(pools.gpu, computed, hits)
      modifies this`pools, this`leaked
      ensures Valid() && leaked == old(leaked) + multiset(computed)
      ensures Keyed(pools.gpu, computed, hits)
      ensures TouchedAs(old(pools), pools, computed) && KeepsCpu(old(pools), pools)
    {
      hide Counts, Agrees, Held, TablesAgree, NoKeys, KeepsCpu, MoreRefs, FreeBesides, TouchedAs;
      ghost var held := Held(tables) + leaked;
      var touched := TouchAll(pools, computed, held, Held(cpuTables));
      TablesTouched(pools, touched, tables, chains, held, computed);
      if !enableCaching {
        NoKeysKept(pools, touched);
      }
      TouchIs(pools, touched, computed, held, Held(cpuTables));
      pools := touched;
      leaked := leaked + multiset(computed);
      assert held + multiset(computed) == Held(tables) + leaked;
    }

    /** `_get_new_blocks`: the blocks belong to nobody yet.  When the CPU pool runs out, the
        block in hand is in no queue and has no reference: it is lost. */
    method TakeBlocks(n: nat, ghost computed: seq<nat>, ghost hits: seq<Key>) returns (blocks: seq<nat>, complete: bool)
      requires Valid() && n <= |pools.freeGpu|
      requires Keyed(pools.gpu, computed, hits) && multiset(computed) <= Held(tables) + leaked
      modifies this`pools, this`leaked
      ensures (Valid() <==> complete) && leaked == old(leaked) + multiset(blocks)
      ensures complete <==> Suffices(old(pools), [], old(pools).freeGpu, n)
      ensures |blocks| <= n && blocks == old(pools).freeGpu[..|blocks|] && (complete <==> |blocks| == n)
      ensures KeepsCpu(old(pools), pools) && (!complete ==> LostOne(pools))
      ensures complete ==>
                && pools.freeGpu == old(pools).freeGpu[n..] && FreshBlocks(old(pools), pools, blocks)
                && Distributed(old(pools), pools, blocks, Claims(old(pools), [], old(pools).freeGpu, n))
                && Fresh(pools.gpu, Held(tables) + leaked - multiset(blocks), blocks)
                && Keyed(pools.gpu, computed, hits)
    {
      hide Counts, Agrees, Held, TablesAgree, NoKeys, Keyed, Fresh, FreshBlocks, KeepsCpu, Claims, Distributed, LostOne;
      ghost var held := Held(tables) + leaked;
      var taken := TakeNew(pools, n, enableCaching, held, Held(cpuTables));
      blocks, complete := taken.blocks, taken.complete;
      TablesTaken(pools, taken.pools, tables, chains, held, Held(cpuTables), blocks);
      TakenAreFresh(pools, taken.pools, held, blocks, computed, hits);
      pools := taken.pools;
      leaked := leaked + multiset(blocks);
      assert held + multiset(blocks) == Held(tables) + leaked;
      assert Held(tables) + leaked - multiset(blocks) == held;
      if !complete {
        LostBlock(pools, held + multiset(blocks), Held(cpuTables));
        SameCpuKeeps(pools, LoseHead(pools));
        KeepsThrough(old(pools), pools, LoseHead(pools));
        pools := LoseHead(pools);
      }
    }

    /** Stores the touched and the new blocks as the request's table. */
    method StoreTable(r: Id, computed: seq<nat>, hits: seq<Key>, blocks: seq<nat>, ghost left: multiset<nat>)
      requires Valid() && r !in tables && Keyed(pools.gpu, computed, hits)
      requires leaked == left + multiset(computed) + multiset(blocks)
      requires Fresh(pools.gpu, Held(tables) + leaked - multiset(blocks), blocks)
      requires |computed| + |blocks| <= maxBlocks
      modifies this`tables, this`chains, this`leaked
      ensures Valid() && tables == old(tables)[r := computed + blocks] && leaked == left
      ensures chains == old(chains)[r := hits]
      ensures Unkeyed(pools.gpu, blocks)
    {
      hide Counts, Agrees, Held, TablesAgree, NoKeys, Keyed, Fresh;
      RecordTable(pools.gpu, tables, chains, leaked, r, computed, hits, blocks, left);
      FreshPrefix(pools.gpu, Held(tables) + leaked - multiset(blocks), blocks, |blocks|);
      assert blocks[..|blocks|] == blocks;
      tables := tables[r := computed + blocks];
      chains := chains[r := hits];
      leaked := left;
    }

    method MarkBlocks(blocks: seq<nat>, status: Status)
      requires Valid() && Unkeyed(pools.gpu, blocks)
      modifies this`pools
      ensures Valid() && SameKeys(old(pools), pools) && SameMapping(old(pools), pools)
      ensures |pools.gpu| == |old(pools).gpu|
      ensures pools.freeGpu == old(pools).freeGpu && pools.freeCpu == old(pools).freeCpu
      ensures pools.cpuRef == old(pools).cpuRef
      ensures forall b :: 0 <= b < |pools.gpu| ==>
                pools.gpu[b] == if b in blocks then old(pools).gpu[b].(status := status) else old(pools).gpu[b]
      ensures KeepsCpu(old(pools), pools)
    {
      hide Counts, Agrees, Held, TablesAgree, NoKeys, KeepsCpu;
      var marked := MarkAll(pools, blocks, status, Held(tables) + leaked, Held(cpuTables));
      TablesMarked(pools, marked, tables, chains, Held(tables) + leaked);
      if !enableCaching {
        NoKeysKept(pools, marked);
      }
      SameCpuKeeps(pools, marked);
      pools := marked;
    }

    /** `allocate_slots` from the check for free blocks on. */
    method AllocateTouched(r: Id, required: int, computed: seq<nat>, hits: seq<Key>, inAdvance: nat,
                           ghost left: multiset<nat>)
      returns (a: Alloc)
      requires Valid() && r !in tables && Keyed(pools.gpu, computed, hits)
      requires leaked == left + multiset(computed)
      modifies this`pools, this`tables, this`chains, this`leaked
      ensures Valid() <==> a != Raised(NoFreeCpuBlock)
      ensures a == Planned(old(pools), [], old(pools).freeGpu, required, inAdvance, maxBlocks - |computed|,
                           enableCaching)
      ensures KeepsCpu(old(pools), pools) && (a == Raised(NoFreeCpuBlock) ==> LostOne(pools))
      ensures a.Allocated? ==>
                && tables == old(tables)[r := computed + a.blocks] && leaked == left
                && chains == old(chains)[r := hits]
                && Prepared(pools.gpu, a.blocks, if enableCaching then required else 0)
                && Grown(old(pools), pools, [], a.blocks, Claims(old(pools), [], old(pools).freeGpu, |a.blocks|))
                && AsManyAs(|a.blocks|, required + inAdvance, pools.freeGpu, |computed| + |a.blocks|, maxBlocks)
      ensures a == Raised(IndexError) ==>
                && enableCaching && tables.Keys == old(tables).Keys + {r} && chains == old(chains)[r := hits]
                && leaked == left
      ensures (a.NoSpace? || a == Raised(AssertionError) ==> pools == old(pools)) && a != Raised(ValueError)
      ensures !a.Allocated? && a != Raised(IndexError) ==>
                && tables == old(tables) && chains == old(chains)
                && if a == Raised(NoFreeCpuBlock) then left + multiset(computed) <= leaked
                   else leaked == left + multiset(computed)
    {
      hide Valid, FreshBlocks, SameKeys, SameMapping, Held, Keyed, Fresh, NumNewBlocks, Prepared, NoDup, KeepsCpu,
           Claims, Distributed, Grown, Suffices, LostOne;
      if required > |pools.freeGpu| {
        KeepsSelf(pools);
        return NoSpace;
      }
      var n := NumNewBlocks(required, inAdvance, |pools.freeGpu|, maxBlocks - |computed|);
      if !(n > 0) {
        KeepsSelf(pools);
        return Raised(AssertionError);
      }
      var blocks, complete := TakeBlocks(n, computed, hits);
      if !complete {
        return Raised(NoFreeCpuBlock);
      }
      NewAreEmpty(old(pools), pools, Held(tables) + leaked - multiset(blocks), blocks);
      TakenGrow(old(pools), pools, blocks);
      StoreTable(r, computed, hits, blocks, left);
      ghost var before := pools;
      if enableCaching {
        MarkBlocks(blocks[..if required > n then n else if required < 0 then 0 else required], HalfDirty);
        KeepsThrough(old(pools), before, pools);
        if required > n {
          return Raised(IndexError);
        }
        PreparedPrefix(before.gpu, pools.gpu, blocks, required);
        GrownMarked(old(pools), before, pools, blocks, if required < 0 then 0 else required);
      }
      return Allocated(blocks);
    }

    /** `allocate_slots` for a request without a table.  The outcome is fixed by the state
        before the call.  It is refused exactly when more blocks are required than are free
        besides the computed ones, and then, as when the assertion fails, the references to
        the touched blocks stay behind. */
    method AllocateSlots(r: Id, numTokens: int, computed: seq<nat>, hits: seq<Key>,
                         noPreallocate: bool) returns (a: Alloc)
      requires Valid() && r !in tables
      requires enableCaching ==> Keyed(pools.gpu, computed, hits)
      modifies this`pools, this`tables, this`chains, this`leaked
      ensures blockSize > 0 && (Valid() <==> a != Raised(NoFreeCpuBlock)) && KeepsCpu(old(pools), pools)
      ensures a == PlannedSlots(old(pools), numTokens, computed, if noPreallocate then 0 else preallocateBlocks,
                                maxBlocks, blockSize, enableCaching)
      ensures a.NoSpace? <==>
                && numTokens != 0 && (enableCaching || computed == [])
                && CeilDiv(numTokens, blockSize) > |FreeBesides(old(pools).freeGpu, computed)|
      ensures a.Allocated? ==>
                && tables == old(tables)[r := computed + a.blocks] && leaked == old(leaked)
                && chains == old(chains)[r := if enableCaching then hits else []]
                && Prepared(pools.gpu, a.blocks, if enableCaching then CeilDiv(numTokens, blockSize) else 0)
                && |a.blocks| <= |FreeBesides(old(pools).freeGpu, computed)|
                && Grown(old(pools), pools, computed, a.blocks, SlotClaims(old(pools), computed, |a.blocks|))
                // the required blocks and some in advance, or all that are free, or all that fit the table
                && AsManyAs(|a.blocks|,
                            CeilDiv(numTokens, blockSize) + (if noPreallocate then 0 else preallocateBlocks),
                            pools.freeGpu, |tables[r]|, maxBlocks)
      ensures a == Raised(IndexError) ==>
                tables.Keys == old(tables).Keys + {r} && chains == old(chains)[r := hits] && leaked == old(leaked)
      ensures !a.Allocated? && a != Raised(IndexError) ==> tables == old(tables) && chains == old(chains)
      ensures a.NoSpace? || (a == Raised(AssertionError) && enableCaching) ==>
                leaked == old(leaked) + multiset(computed) && TouchedAs(old(pools), pools, computed)
      ensures a == Raised(ValueError) || (a == Raised(AssertionError) && !enableCaching) ==>
                leaked == old(leaked) && pools == old(pools)
      ensures a == Raised(NoFreeCpuBlock) ==> old(leaked) + multiset(computed) <= leaked && LostOne(pools)
    {
      hide Valid, CeilDiv, TouchedAs, Held, Keyed, Prepared, KeepsCpu, Grown, Claims, FreeBesides, Planned, NoDup,
           LostOne;
      BlockSizePositive();
      KeepsSelf(pools);
      if numTokens == 0 {
        return Raised(ValueError);
      }
      var required, inAdvance := CeilDiv(numTokens, blockSize), if noPreallocate then 0 else preallocateBlocks;
      ghost var room := maxBlocks - |computed|;
      PlannedNoSpace(pools, CpusOf(pools, computed), FreeBesides(pools.freeGpu, computed), required, inAdvance, room,
                     enableCaching);
      if enableCaching {
        TouchComputed(computed, hits);
      } else if computed != [] {
        return Raised(AssertionError);
      } else {
        NoneKeyed(pools.gpu);
        NothingTouched(pools);
      }
      ghost var touched := pools;
      PlannedTouched(old(pools), touched, computed, required, inAdvance, room, enableCaching);
      a := AllocateTouched(r, required, computed, if enableCaching then hits else [], inAdvance, old(leaked));
      KeepsThrough(old(pools), touched, pools);
      if a.Allocated? {
        PlannedLength(touched, [], touched.freeGpu, required, inAdvance, room, enableCaching);
        TouchedQueue(old(pools), touched, computed);
        GrownTouched(old(pools), touched, pools, computed, a.blocks);
      }
    }

    /** `append_slots` up to the caching: extends the table when it is too short. */
    method ExtendTable(r: Id, required: int) returns (a: Alloc)
      requires Valid() && r in tables
      modifies this`pools, this`tables, this`leaked
      ensures Valid() <==> a != Raised(NoFreeCpuBlock)
      ensures a == PlannedMore(old(pools), old(tables)[r], required, preallocateBlocks, maxBlocks)
      ensures KeepsCpu(old(pools), pools) && (a == Raised(NoFreeCpuBlock) ==> LostOne(pools))
      ensures a.NoSpace? || a == Raised(AssertionError) ==> pools == old(pools) && leaked == old(leaked)
      ensures a.Allocated? ==>
                && tables == old(tables)[r := old(tables)[r] + a.blocks] && leaked == old(leaked)
                && (required <= |tables[r]| || |tables[r]| == maxBlocks)
                && |a.blocks| <= |old(pools).freeGpu|
                && Grown(old(pools), pools, [], a.blocks, Claims(old(pools), [], old(pools).freeGpu, |a.blocks|))
                && FreshBlocks(old(pools), pools, a.blocks)
                && AsManyMore(|a.blocks|, required - |old(tables)[r]|, preallocateBlocks, pools.freeGpu, |tables[r]|,
                              maxBlocks)
      ensures !a.Allocated? ==> tables == old(tables) && old(leaked) <= leaked
    {
      hide Valid, FreshBlocks, Held, Fresh, Keyed, NumNewBlocks, KeepsCpu, Grown, Claims, Distributed, Suffices,
           LostOne;
      var t := tables[r];
      var numNew := required - |t|;
      KeepsSelf(pools);
      if numNew > |pools.freeGpu| {
        return NoSpace;
      }
      if numNew <= 0 {
        assert t + [] == t;
        assert tables == tables[r := t + []];
        GrownNot(pools);
        return Allocated([]);
      }
      var n := NumNewBlocks(numNew, preallocateBlocks, |pools.freeGpu|, maxBlocks - |t|);
      if !(n > 0) {
        return Raised(AssertionError);
      }
      NoneKeyed(pools.gpu);
      var blocks, complete := TakeBlocks(n, [], []);
      if !complete {
        return Raised(NoFreeCpuBlock);
      }
      TakenGrow(old(pools), pools, blocks);
      StoreMore(r, blocks, old(leaked));
      return Allocated(blocks);
    }

    method StoreMore(r: Id, blocks: seq<nat>, ghost left: multiset<nat>)
      requires Valid() && r in tables && leaked == left + multiset(blocks)
      requires Fresh(pools.gpu, Held(tables) + leaked - multiset(blocks), blocks)
      requires |tables[r]| + |blocks| <= maxBlocks
      modifies this`tables, this`leaked
      ensures Valid() && tables == old(tables)[r := old(tables)[r] + blocks] && leaked == left
    {
      hide Counts, Agrees, Held, TablesAgree, NoKeys, Fresh;
      RecordMore(pools.gpu, tables, chains, leaked, r, blocks, left);
      tables := tables[r := tables[r] + blocks];
      leaked := left;
    }

    /** `_cache_full_blocks` for the blocks of a table up to `upTo`, which are full: each
        gets its key and is queued to be copied to its CPU block. */
    method CacheFullBlocks(r: Id, keys: seq<Key>, upTo: nat)
      requires Valid() && enableCaching && r in tables && r in chains && chains[r] <= keys
      requires |chains[r]| <= upTo <= |tables[r]| && upTo <= |keys|
      modifies this`pools, this`chains, this`pendingOut
      ensures Valid() && chains == old(chains)[r := keys[..upTo]]
      ensures SameMapping(old(pools), pools) && pools.freeGpu == old(pools).freeGpu
      ensures pools.freeCpu == old(pools).freeCpu
      ensures pools.cpuRef == old(pools).cpuRef && KeepsCpu(old(pools), pools)
      ensures forall b :: 0 <= b < |pools.gpu| && b !in tables[r][|old(chains)[r]|..upTo] ==>
                pools.gpu[b] == old(pools).gpu[b]
      ensures Below(tables[r], |old(pools).gpu|)
      ensures pendingOut == old(pendingOut) + CopiesOut(old(pools).gpu, tables[r], |old(chains)[r]|, upTo)
      ensures KeepsFirst(old(pools).cached, pools.cached)
    {
      hide Counts, Agrees, Held, TablesAgree, NoKeys, CopiesOut, KeepsCpu, NotTooLong;
      ghost var first := |chains[r]|;
      assert tables[r][first..first] == [];
      TableInRange(r);
      NoCopiesOut(pools.gpu, tables[r], |chains[r]|);
      assert keys[..|chains[r]|] == chains[r];
      for i := |chains[r]| to upTo
        invariant Valid() && chains == old(chains)[r := keys[..i]]
        invariant SameMapping(old(pools), pools) && pools.freeGpu == old(pools).freeGpu
        invariant pools.freeCpu == old(pools).freeCpu
        invariant pools.cpuRef == old(pools).cpuRef && KeepsFirst(old(pools).cached, pools.cached)
        invariant forall b :: 0 <= b < |pools.gpu| && b !in tables[r][first..i] ==> pools.gpu[b] == old(pools).gpu[b]
        invariant pendingOut == old(pendingOut) + CopiesOut(old(pools).gpu, tables[r], |old(chains)[r]|, i)
      {
        NextCopyOut(old(pools).gpu, tables[r], |old(chains)[r]|, i);
        var b := tables[r][i];
        CacheOne(pools, tables, chains, leaked, Held(cpuTables), r, keys[i]);
        pools := SetKey(pools, b, keys[i]);
        chains := chains[r := chains[r] + [keys[i]]];
        assert keys[..i + 1] == keys[..i] + [keys[i]];
        assert tables[r][first..i + 1] == tables[r][first..i] + [b];
        pendingOut := pendingOut + [(b, pools.gpu[b].mappedCpu)];
      }
      SameCpuKeeps(old(pools), pools);
    }

    /** `append_slots`: room for `numTokens` more tokens, then caching of the blocks that
        the computed tokens have filled. */
    method AppendSlots(r: Id, numComputed: nat, numTokens: nat, numAllTokens: nat, keys: seq<Key>) returns (a: Alloc)
      requires Valid() && r in tables && r in chains && numComputed <= blockSize * |tables[r]|
      requires enableCaching ==> chains[r] <= keys && blockSize * |chains[r]| <= Min(numComputed, numAllTokens)
      requires enableCaching ==> Min(numComputed, numAllTokens) < blockSize * (|keys| + 1)
      modifies this`pools, this`tables, this`chains, this`pendingOut, this`leaked
      ensures blockSize > 0 && (Valid() <==> a != Raised(NoFreeCpuBlock)) && KeepsCpu(old(pools), pools)
      ensures a == Raised(NoFreeCpuBlock) ==> LostOne(pools)
      ensures a == PlannedMore(old(pools), old(tables)[r], CeilDiv(numComputed + numTokens, blockSize),
                               preallocateBlocks, maxBlocks)
      ensures a.Allocated? ==>
                && tables == old(tables)[r := old(tables)[r] + a.blocks] && leaked == old(leaked)
                && (CeilDiv(numComputed + numTokens, blockSize) <= |tables[r]| || |tables[r]| == maxBlocks)
                && AsManyMore(|a.blocks|, CeilDiv(numComputed + numTokens, blockSize) - |old(tables)[r]|,
                              preallocateBlocks, pools.freeGpu, |tables[r]|, maxBlocks)
                && AppendEffect(old(pools), pools, old(tables)[r], a.blocks,
                                if enableCaching then |old(chains)[r]| else |old(tables)[r]|)
                && |a.blocks| <= |old(pools).freeGpu| && pools.freeGpu == old(pools).freeGpu[|a.blocks|..]
                && (enableCaching ==>
                      var full := Whole(Min(numComputed, numAllTokens), blockSize);
                      && full <= |keys| && chains == old(chains)[r := keys[..full]]
                      && Marked(pools.gpu, tables[r], full, CeilDiv(numComputed + numTokens, blockSize), HalfDirty)
                      && |old(chains)[r]| <= full <= |old(tables)[r]|
                      && pendingOut == old(pendingOut) + CopiesOut(pools.gpu, tables[r], |old(chains)[r]|, full))
                && (!enableCaching ==> chains == old(chains) && pendingOut == old(pendingOut))
      ensures a.NoSpace? || a == Raised(AssertionError) ==> pools == old(pools) && leaked == old(leaked)
      ensures !a.Allocated? ==>
                tables == old(tables) && chains == old(chains) && pendingOut == old(pendingOut) && old(leaked) <= leaked
    {
      hide Valid, CeilDiv, Held, SameMapping, SameKeys, Unkeyed, Whole, CopiesOut, Marked, KeepsCpu, Grown,
           FreshBlocks, Claims, AppendEffect, PlannedMore, LostOne, AsManyMore;
      BlockSizePositive();
      var required := CeilDiv(numComputed + numTokens, blockSize);
      a := ExtendTable(r, required);
      if !a.Allocated? {
        return;
      }
      ghost var was, extended := old(tables)[r], pools;
      TableInRange(r);
      ExtendedEffect(old(pools), extended, was, a.blocks);
      GrownQueue(old(pools), extended, [], a.blocks, Claims(old(pools), [], old(pools).freeGpu, |a.blocks|));
      if !enableCaching {
        return;
      }
      var full := Whole(Min(numComputed, numAllTokens), blockSize);
      FullBlocks(Min(numComputed, numAllTokens), blockSize, |chains[r]|, |old(tables)[r]|, |keys|);
      CacheFullBlocks(r, keys, full);
      var t := tables[r];
      var end := if required > |t| then |t| else required;
      ghost var cached := pools;
      CopiesSame(extended, cached, t, |old(chains)[r]|, full);
      KeepsThrough(old(pools), extended, cached);
      UncachedPart(r);
      var stop := if full < end then end else full;
      MarkBlocks(t[full..stop], HalfDirty);
      MarkedSlice(cached.gpu, pools.gpu, t, full, stop, HalfDirty);
      MarkedToEnd(pools.gpu, t, full, end, required);
      CopiesSame(cached, pools, t, |old(chains)[r]|, full);
      KeepsThrough(old(pools), cached, pools);
      AppendedEffect(old(pools), extended, cached, pools, was, a.blocks, |old(chains)[r]|, full, stop);
    }

    lemma UncachedPart(r: Id)
      requires Valid() && r in tables
      ensures chains.Keys == tables.Keys && |chains[r]| <= |tables[r]|
      ensures forall i, j :: |chains[r]| <= i <= j <= |tables[r]| ==> Unkeyed(pools.gpu, tables[r][i..j])
    {
    }

    /** `swap_out`: the dirty blocks of the table are queued to be copied, the GPU blocks
        are released, and the CPU blocks become the request's swapped-out table. */
    method SwapOut(r: Id) returns (numFreed: int)
      requires Valid() && r in tables && r !in cpuTables
      modifies this`pools, this`tables, this`cpuTables, this`chains, this`pendingOut
      ensures Valid() && Below(old(tables)[r], |old(pools).gpu|)
      ensures tables == old(tables) - {r} && chains == old(chains) - {r}
      ensures cpuTables == old(cpuTables)[r := CpuOf(old(pools).gpu, old(tables)[r])]
      ensures pendingOut == old(pendingOut) + DirtyPairs(old(pools).gpu, old(tables)[r])
      ensures pools.freeGpu == old(pools).freeGpu + NewlyFree(old(Held(tables) + leaked), old(tables), r, enableCaching)
      ensures numFreed == |pools.freeGpu| - |old(pools).freeGpu|
      ensures SameMapping(old(pools), pools) && SameKeys(old(pools), pools) && KeepsCpu(old(pools), pools)
      ensures pools.freeCpu == old(pools).freeCpu
      ensures forall b :: 0 <= b < |pools.gpu| && b !in old(tables)[r] ==> pools.gpu[b] == old(pools).gpu[b]
    {
      hide Counts, Agrees, Held, TablesAgree, NoKeys, DirtyPairs, NewlyFree, KeepsCpu;
      TableInRange(r);
      var start := |pools.freeGpu|;
      var cpuBlocks := CpuOf(pools.gpu, tables[r]);
      pendingOut := pendingOut + DirtyPairs(pools.gpu, tables[r]);
      Release(r, true, true);
      HeldAdd(cpuTables, r, cpuBlocks);
      cpuTables := cpuTables[r := cpuBlocks];
      numFreed := |pools.freeGpu| - start;
    }

    lemma TableInRange(r: Id)
      requires Valid() && r in tables
      ensures Below(tables[r], |pools.gpu|)
    {
    }

    /** The middle of `swap_in`: drops the CPU blocks that prefix hits made useless and
        hands the others to the new GPU blocks. */
    method TakeOverCpuBlocks(r: Id, numComputedBlocks: nat, blocks: seq<nat>)
      requires Valid() && r in tables && r in cpuTables && r in chains && |chains[r]| <= numComputedBlocks
      requires numComputedBlocks + |blocks| == |cpuTables[r]| == |tables[r]| && tables[r][numComputedBlocks..] == blocks
      modifies this`pools, this`cpuTables
      ensures Valid() && cpuTables == old(cpuTables) - {r} && SameKeys(old(pools), pools)
      ensures Unkeyed(pools.gpu, blocks) && NoDup(blocks)
      ensures BackedBy(pools.gpu, blocks, old(cpuTables)[r], numComputedBlocks)
      ensures forall b :: 0 <= b < |pools.gpu| && b !in blocks ==> pools.gpu[b] == old(pools).gpu[b]
      ensures Exclusive(old(pools)) ==>
                (Exclusive(pools) <==> MoveSafe(old(pools), old(cpuTables)[r][..numComputedBlocks], blocks))
      ensures (NoneLost(old(pools)) ==> NoneLost(pools)) && |pools.cpuRef| == |old(pools).cpuRef|
      ensures pools.freeGpu == old(pools).freeGpu
    {
      hide Counts, Agrees, Held, TablesAgree, NoKeys, NotTooLong, NoDup, Unkeyed, BackedBy, Exclusive, NoneLost,
           MoveSafe;
      ghost var held, heldCpu := Held(tables) + leaked, Held(cpuTables);
      var cpuBlocks := cpuTables[r];
      var useless, kept := cpuBlocks[..numComputedBlocks], cpuBlocks[numComputedBlocks..];
      SplitCpuTable(pools, cpuTables, held, r, numComputedBlocks);
      NewBlocksAreOwn(pools.gpu, pools, tables, chains, leaked, heldCpu, r, numComputedBlocks);
      var q := MoveOver(pools, useless, blocks, kept, held, heldCpu);
      BackedByTail(q.gpu, blocks, cpuBlocks, numComputedBlocks);
      TablesMarked(pools, q, tables, chains, held);
      ShorterTables(cpuTables, r, maxBlocks);
      UnkeyedStays(pools, q, blocks);
      if !enableCaching {
        NoKeysKept(pools, q);
      }
      pools := q;
      cpuTables := cpuTables - {r};
    }

    /** `swap_in` for a request that was swapped out.  The outcome is fixed by the state
        before the call.  On success its table consists of the computed blocks and new ones,
        each backed by the CPU block that held its data, and every block with computed tokens
        is queued to be copied back.  The free CPU blocks stay really free exactly when no
        CPU block that loses its last reference is still mapped to a GPU block. */
    method SwapIn(r: Id, computed: seq<nat>, hits: seq<Key>, numComputed: nat) returns (a: Alloc)
      requires Valid() && r !in tables && r in cpuTables
      requires enableCaching ==> Keyed(pools.gpu, computed, hits)
      modifies this`pools, this`tables, this`cpuTables, this`chains, this`pendingIn, this`leaked
      ensures Valid() <==> a != Raised(NoFreeCpuBlock)
      ensures a == PlannedSwapIn(old(pools), |old(cpuTables)[r]|, computed, enableCaching)
      ensures a.Allocated? ==>
                var cpu := old(cpuTables)[r];
                && |computed| < |cpu| && |a.blocks| == |cpu| - |computed|
                && tables == old(tables)[r := computed + a.blocks] && cpuTables == old(cpuTables) - {r}
                && chains == old(chains)[r := if enableCaching then hits else []]
                && leaked == old(leaked) && BackedBy(pools.gpu, a.blocks, cpu, |computed|)
                && Restored(pools.gpu, a.blocks, |a.blocks|, |computed|, blockSize, numComputed)
                && SwapInEffect(old(pools), pools, computed, a.blocks)
                && |a.blocks| <= |FreeBesides(old(pools).freeGpu, computed)|
                && pools.freeGpu == FreeBesides(old(pools).freeGpu, computed)[|a.blocks|..]
                && pendingIn == old(pendingIn) + CopiesIn(cpu, a.blocks, |computed|, |a.blocks|, blockSize, numComputed)
      ensures a.Allocated? && Exclusive(old(pools)) ==>
                (Exclusive(pools) <==> SwapInSafe(old(pools), computed, old(cpuTables)[r][..|computed|], |a.blocks|))
      ensures NoneLost(old(pools)) ==> NoneLost(pools)
      ensures !a.Allocated? ==> KeepsCpu(old(pools), pools) && (a == Raised(NoFreeCpuBlock) ==> LostOne(pools))
      ensures !a.Allocated? ==>
                && tables == old(tables) && chains == old(chains)
                && cpuTables == old(cpuTables) && pendingIn == old(pendingIn)
      ensures a.NoSpace? || (a == Raised(AssertionError) && enableCaching) ==>
                leaked == old(leaked) + multiset(computed) && TouchedAs(old(pools), pools, computed)
      ensures a == Raised(ValueError) ==> leaked == old(leaked) && pools == old(pools)
    {
      hide Valid, Held, Keyed, SameKeys, CeilDiv, CopiesIn, Unkeyed, NoDup, BackedBy, Restored, Prepared, KeepsCpu,
           Exclusive,
           NoneLost, Grown, SwapInSafe, SwapInEffect, PlannedSwapIn, PlannedSlots, MoveSafe, Claims, FreeBesides,
           LostOne, TouchedAs;
      BlockSizePositive();
      var cpuBlocks := cpuTables[r];
      var numNew := |cpuBlocks| - |computed|;
      CeilDivExact(numNew, blockSize);
      CpuTableFits(r);
      if enableCaching {
        KeyedLength(pools.gpu, computed, hits);
      }
      PlannedSwapInIs(pools, |cpuBlocks|, computed, maxBlocks, blockSize, enableCaching);
      a := AllocateSlots(r, numNew * blockSize, computed, hits, true);
      KeepsNone(old(pools), pools);
      if !a.Allocated? {
        return;
      }
      ghost var given := pools;
      GrownQueue(old(pools), given, computed, a.blocks, SlotClaims(old(pools), computed, |a.blocks|));
      assert (computed + a.blocks)[|computed|..] == a.blocks;
      TakeOverCpuBlocks(r, |computed|, a.blocks);
      ghost var moved := pools;
      RestoreBlocks(cpuBlocks, a.blocks, |computed|, numComputed);
      SwapInFrame(old(pools), given, moved, pools, computed, a.blocks);
      SwapInSafeIff(old(pools), given, computed, cpuBlocks[..|computed|], a.blocks);
      SameCpuKeeps(moved, pools);
      SameCpuKeeps(pools, moved);
      KeepsNone(moved, pools);
      KeepsNone(pools, moved);
    }

    /** The last loop of `swap_in`: restores the status of the new blocks and queues the
        copies back. */
    method RestoreBlocks(cpu: seq<nat>, blocks: seq<nat>, first: nat, numComputed: nat)
      requires Valid() && Unkeyed(pools.gpu, blocks) && NoDup(blocks) && first + |blocks| <= |cpu|
      requires BackedBy(pools.gpu, blocks, cpu, first)
      modifies this`pools, this`pendingIn
      ensures Valid() && BackedBy(pools.gpu, blocks, cpu, first) && OnlyStatus(old(pools), pools, blocks)
      ensures Restored(pools.gpu, blocks, |blocks|, first, blockSize, numComputed)
      ensures pendingIn == old(pendingIn) + CopiesIn(cpu, blocks, first, |blocks|, blockSize, numComputed)
    {
      hide Valid, CopiesIn, Unkeyed, SameKeys;
      NoCopies(cpu, blocks, first, blockSize, numComputed);
      for i := 0 to |blocks|
        invariant Valid() && Unkeyed(pools.gpu, blocks) && BackedBy(pools.gpu, blocks, cpu, first)
        invariant OnlyStatus(old(pools), pools, blocks)
        invariant Restored(pools.gpu, blocks, i, first, blockSize, numComputed)
        invariant pendingIn == old(pendingIn) + CopiesIn(cpu, blocks, first, i, blockSize, numComputed)
      {
        NextCopy(cpu, blocks, first, i, blockSize, numComputed);
        RestoreBlock(blocks, i, first + i, numComputed);
      }
    }

    method RestoreBlock(blocks: seq<nat>, i: nat, index: nat, numComputed: nat)
      requires Valid() && Unkeyed(pools.gpu, blocks) && i < |blocks| && Below(blocks, |pools.gpu|)
      modifies this`pools, this`pendingIn
      ensures Valid() && Unkeyed(pools.gpu, blocks) && |pools.gpu| == |old(pools).gpu|
      ensures var b := blocks[i];
              pools.gpu ==
              old(pools).gpu[b := old(pools).gpu[b].(status := RestoredStatus(index, blockSize, numComputed))]
      ensures pools.freeGpu == old(pools).freeGpu && pools.freeCpu == old(pools).freeCpu
      ensures pools.cpuRef == old(pools).cpuRef
      ensures pendingIn == old(pendingIn) +
                if index * blockSize + 1 <= numComputed then [(old(pools).gpu[blocks[i]].mappedCpu, blocks[i])] else []
    {
      hide Counts, Agrees, Held, TablesAgree, NoKeys, NotTooLong, KeepsCpu;
      var b := blocks[i];
      if index * blockSize + 1 <= numComputed {
        if (index + 1) * blockSize <= numComputed {
          MarkBlocks([b], FullClean);
        } else {
          MarkBlocks([b], HalfDirty);
        }
        pendingIn := pendingIn + [(pools.gpu[b].mappedCpu, b)];
      } else {
        MarkBlocks([b], Empty);
        assert pendingIn + [] == pendingIn;
      }
    }

    lemma CpuTableFits(r: Id)
      requires Valid() && r in cpuTables
      ensures |cpuTables[r]| <= maxBlocks
    {
    }

    lemma BlockSizePositive()
      requires Valid()
      ensures blockSize > 0
    {
    }
  }

  /** What an allocation does to the pools: the computed blocks get a reference, the new
      blocks leave the queue and get the CPU blocks computed beforehand, and nothing else
      changes. */
  ghost predicate Grown(p: Pools, q: Pools, computed: seq<nat>, blocks: seq<nat>, claim: Claim) {
    && |q.gpu| == |p.gpu| && |claim.cpus| == |blocks| <= |FreeBesides(p.freeGpu, computed)| && Below(blocks, |p.gpu|)
    && blocks == FreeBesides(p.freeGpu, computed)[..|blocks|]
    && q.freeGpu == FreeBesides(p.freeGpu, computed)[|blocks|..]
    && claim.popped <= |p.freeCpu| && q.freeCpu == p.freeCpu[claim.popped..] && Below(claim.cpus, |p.cpuRef|)
    && RefsGrown(p, q, computed, claim)
    && (forall b :: 0 <= b < |p.gpu| && b !in computed && b !in blocks ==> q.gpu[b] == p.gpu[b])
    && (forall b :: 0 <= b < |p.gpu| && b !in blocks ==>
          q.gpu[b].mappedCpu == p.gpu[b].mappedCpu && q.gpu[b].key == p.gpu[b].key)
    && (forall l :: 0 <= l < |blocks| ==> q.gpu[blocks[l]].mappedCpu == claim.cpus[l] && q.gpu[blocks[l]].key == None)
  }

  ghost predicate RefsGrown(p: Pools, q: Pools, computed: seq<nat>, claim: Claim) {
    && |q.cpuRef| == |p.cpuRef|
    && forall c :: 0 <= c < |p.cpuRef| ==>
         q.cpuRef[c] == p.cpuRef[c] + multiset(CpusOf(p, computed))[c] + multiset(claim.cpus)[c]
  }

  /** The CPU blocks an allocation uses. */
  function SlotClaims(p: Pools, computed: seq<nat>, n: nat): Claim
    requires n <= |FreeBesides(p.freeGpu, computed)|
  {
    Claims(p, CpusOf(p, computed), FreeBesides(p.freeGpu, computed), n)
  }

  lemma GrownQueue(p: Pools, q: Pools, computed: seq<nat>, blocks: seq<nat>, claim: Claim)
    requires Grown(p, q, computed, blocks, claim)
    ensures |blocks| <= |FreeBesides(p.freeGpu, computed)| && q.freeGpu == FreeBesides(p.freeGpu, computed)[|blocks|..]
    ensures FreeBesides(p.freeGpu, []) == p.freeGpu && |q.gpu| == |p.gpu|
  {
    FreeBesidesNone(p.freeGpu);
  }

  lemma GrownNot(p: Pools)
    ensures Grown(p, p, [], [], Claims(p, [], p.freeGpu, 0)) && FreshBlocks(p, p, [])
  {
    FreeBesidesNone(p.freeGpu);
    assert CpusOf(p, []) == [];
  }

  lemma TakenGrow(p: Pools, q: Pools, blocks: seq<nat>)
    requires FreshBlocks(p, q, blocks) && |blocks| <= |p.freeGpu| && blocks == p.freeGpu[..|blocks|]
    requires q.freeGpu == p.freeGpu[|blocks|..] && Distributed(p, q, blocks, Claims(p, [], p.freeGpu, |blocks|))
    ensures Grown(p, q, [], blocks, Claims(p, [], p.freeGpu, |blocks|))
  {
    hide Claims;
    FreeBesidesNone(p.freeGpu);
    assert CpusOf(p, []) == [];
    var claim := Claims(p, [], p.freeGpu, |blocks|);
    forall l | 0 <= l < |blocks|
      ensures q.gpu[blocks[l]].mappedCpu == claim.cpus[l]
    {
      assert MappedCpu(q, blocks[l]) == claim.cpus[l];
    }
  }

  lemma GrownMarked(p: Pools, q: Pools, r: Pools, blocks: seq<nat>, n: nat)
    requires |blocks| <= |p.freeGpu| && Grown(p, q, [], blocks, Claims(p, [], p.freeGpu, |blocks|)) && n <= |blocks|
    requires |r.gpu| == |q.gpu| && r.freeGpu == q.freeGpu && r.freeCpu == q.freeCpu && r.cpuRef == q.cpuRef
    requires forall b :: 0 <= b < |r.gpu| ==>
               r.gpu[b] == if b in blocks[..n] then q.gpu[b].(status := HalfDirty) else q.gpu[b]
    ensures Grown(p, r, [], blocks, Claims(p, [], p.freeGpu, |blocks|))
  {
    hide Claims, FreeBesides, RefsGrown;
    RefsSame(p, q, r, Claims(p, [], p.freeGpu, |blocks|));
    SameButStatus(q, r, blocks, n);
  }

  /** Marking changes neither mapping nor keys, and only the given blocks. */
  lemma SameButStatus(q: Pools, r: Pools, blocks: seq<nat>, n: nat)
    requires n <= |blocks| && |r.gpu| == |q.gpu|
    requires forall b :: 0 <= b < |r.gpu| ==>
               r.gpu[b] == if b in blocks[..n] then q.gpu[b].(status := HalfDirty) else q.gpu[b]
    ensures forall b :: 0 <= b < |r.gpu| ==> r.gpu[b].mappedCpu == q.gpu[b].mappedCpu && r.gpu[b].key == q.gpu[b].key
    ensures forall b :: 0 <= b < |r.gpu| && b !in blocks ==> r.gpu[b] == q.gpu[b]
  {
    forall b | 0 <= b < |r.gpu| && b !in blocks
      ensures r.gpu[b] == q.gpu[b]
    {
      assert b !in blocks[..n];
    }
  }

  lemma RefsSame(p: Pools, q: Pools, r: Pools, claim: Claim)
    requires RefsGrown(p, q, [], claim) && r.cpuRef == q.cpuRef
    ensures RefsGrown(p, r, [], claim)
  {
  }

  /** The pools after the computed blocks have been touched. */
  ghost predicate TouchedAs(p: Pools, q: Pools, computed: seq<nat>) {
    && SameMapping(p, q) && SameKeys(p, q) && q.freeCpu == p.freeCpu && q.freeGpu == FreeBesides(p.freeGpu, computed)
    && MoreRefs(p.cpuRef, q.cpuRef, CpusOf(p, computed))
    && (forall c: nat :: IsReferenced(q, c) <==> IsReferenced(p, c) || c in CpusOf(p, computed))
    && forall b :: 0 <= b < |p.gpu| && b !in computed ==> q.gpu[b] == p.gpu[b]
  }

  lemma NothingTouched(p: Pools)
    ensures TouchedAs(p, p, [])
  {
    FreeBesidesNone(p.freeGpu);
    assert CpusOf(p, []) == [];
  }

  lemma TouchIs(p: Pools, q: Pools, computed: seq<nat>, held: multiset<nat>, heldCpu: multiset<nat>)
    requires Counts(p, held, heldCpu) && Below(computed, |p.gpu|) && SameMapping(p, q) && SameKeys(p, q)
    requires q.freeCpu == p.freeCpu && q.freeGpu == FreeBesides(p.freeGpu, computed)
    requires MoreRefs(p.cpuRef, q.cpuRef, CpuOf(p.gpu, computed))
    requires forall b :: 0 <= b < |p.gpu| && b !in computed ==> q.gpu[b] == p.gpu[b]
    ensures TouchedAs(p, q, computed)
  {
    hide Counts, MoreRefs, FreeBesides, NonNegative;
    CpusAre(p, computed);
    RefsNonNegative(p, held, heldCpu);
    ReferencedAfterTouch(p, q, computed);
  }

  lemma ReferencedAfterTouch(p: Pools, q: Pools, computed: seq<nat>)
    requires NonNegative(p.cpuRef) && MoreRefs(p.cpuRef, q.cpuRef, CpusOf(p, computed)) && Below(computed, |p.gpu|)
    requires forall b :: 0 <= b < |p.gpu| ==> p.gpu[b].mappedCpu < |p.cpuRef|
    ensures forall c: nat :: IsReferenced(q, c) <==> IsReferenced(p, c) || c in CpusOf(p, computed)
  {
    var cs := CpusOf(p, computed);
    forall c: nat
      ensures IsReferenced(q, c) <==> IsReferenced(p, c) || c in cs
    {
      assert c in cs <==> multiset(cs)[c] > 0;
      if c in cs {
        var i :| 0 <= i < |cs| && cs[i] == c;
      }
    }
  }

  lemma PlannedNoSpace(p: Pools, touched: seq<nat>, queue: seq<nat>, required: int, inAdvance: nat, room: int,
                       marks: bool)
    ensures Planned(p, touched, queue, required, inAdvance, room, marks).NoSpace? <==> required > |queue|
  {
  }

  lemma PlannedLength(p: Pools, touched: seq<nat>, queue: seq<nat>, required: int, inAdvance: nat, room: int,
                      marks: bool)
    requires Planned(p, touched, queue, required, inAdvance, room, marks).Allocated?
    ensures var blocks := Planned(p, touched, queue, required, inAdvance, room, marks).blocks;
            |blocks| <= |queue| && blocks == queue[..|blocks|]
  {
  }

  lemma TouchedQueue(p: Pools, q: Pools, computed: seq<nat>)
    requires TouchedAs(p, q, computed)
    ensures q.freeGpu == FreeBesides(p.freeGpu, computed)
  {
  }

  /** The plan may be made before the computed blocks are touched. */
  lemma PlannedTouched(p: Pools, q: Pools, computed: seq<nat>, required: int, inAdvance: nat, room: int, marks: bool)
    requires TouchedAs(p, q, computed)
    ensures Planned(q, [], q.freeGpu, required, inAdvance, room, marks) ==
            Planned(p, CpusOf(p, computed), FreeBesides(p.freeGpu, computed), required, inAdvance, room, marks)
  {
    hide Claims, FreeBesides;
    if required <= |q.freeGpu| {
      var n := NumNewBlocks(required, inAdvance, |q.freeGpu|, room);
      if n > 0 {
        ClaimsTouched(p, q, CpusOf(p, computed), q.freeGpu, n);
      }
    }
  }

  lemma GrownTouched(p: Pools, q: Pools, r: Pools, computed: seq<nat>, blocks: seq<nat>)
    requires TouchedAs(p, q, computed) && |blocks| <= |q.freeGpu|
    requires Grown(q, r, [], blocks, Claims(q, [], q.freeGpu, |blocks|))
    ensures Grown(p, r, computed, blocks, SlotClaims(p, computed, |blocks|))
  {
    hide Claims;
    ClaimsTouched(p, q, CpusOf(p, computed), q.freeGpu, |blocks|);
    FreeBesidesNone(q.freeGpu);
    assert CpusOf(q, []) == [];
  }

  /** What `append_slots` does to the records of the GPU blocks: only blocks of the table
      from place `first` on change; the old ones keep their CPU blocks, and the new ones had
      been free. */
  ghost predicate AppendEffect(p: Pools, q: Pools, was: seq<nat>, blocks: seq<nat>, first: nat) {
    && |q.gpu| == |p.gpu| && |q.cpuRef| == |p.cpuRef| && first <= |was| && Below(was + blocks, |p.gpu|)
    && (forall b :: 0 <= b < |p.gpu| && b !in (was + blocks)[first..] ==> q.gpu[b] == p.gpu[b])
    && (forall b :: 0 <= b < |p.gpu| && b !in blocks ==> q.gpu[b].mappedCpu == p.gpu[b].mappedCpu)
    && (forall l :: 0 <= l < |blocks| ==> blocks[l] in p.freeGpu)
  }

  lemma ExtendedEffect(p: Pools, q: Pools, was: seq<nat>, blocks: seq<nat>)
    requires FreshBlocks(p, q, blocks) && Below(was + blocks, |q.gpu|) && |blocks| <= |p.freeGpu|
    requires Grown(p, q, [], blocks, Claims(p, [], p.freeGpu, |blocks|))
    ensures AppendEffect(p, q, was, blocks, |was|)
  {
    hide Claims;
    FreeBesidesNone(p.freeGpu);
    assert (was + blocks)[|was|..] == blocks;
  }

  lemma AppendedEffect(p: Pools, extended: Pools, cached: Pools, q: Pools, was: seq<nat>, blocks: seq<nat>,
                       first: nat, full: nat, stop: nat)
    requires AppendEffect(p, extended, was, blocks, |was|) && first <= full <= |was| && full <= stop <= |was + blocks|
    requires SameMapping(extended, cached) && SameMapping(cached, q)
    requires forall b :: 0 <= b < |cached.gpu| && b !in (was + blocks)[first..full] ==> cached.gpu[b] == extended.gpu[b]
    requires forall b :: 0 <= b < |q.gpu| && b !in (was + blocks)[full..stop] ==> q.gpu[b] == cached.gpu[b]
    ensures AppendEffect(p, q, was, blocks, first)
  {
    var t := was + blocks;
    forall b | 0 <= b < |p.gpu| && b !in t[first..]
      ensures q.gpu[b] == p.gpu[b]
    {
      InTail(t, b, first, full);
      InTail(t, b, full, stop);
      InTail(t, b, |was|, |t|);
    }
  }

  lemma InTail(t: seq<nat>, b: nat, lo: nat, hi: nat)
    requires lo <= hi <= |t|
    ensures forall first :: 0 <= first <= lo && b in t[lo..hi] ==> b in t[first..]
    ensures t[lo..|t|] == t[lo..]
  {
    forall first | 0 <= first <= lo && b in t[lo..hi]
      ensures b in t[first..]
    {
      var i :| 0 <= i < hi - lo && t[lo..hi][i] == b;
      assert t[first..][lo - first + i] == b;
    }
  }

  /** The pools when the CPU pool is found empty: the block in hand has left the queue. */
  function LoseHead(p: Pools): Pools
    requires p.freeGpu != [] && p.freeGpu[0] < |p.gpu|
  {
    var b := p.freeGpu[0];
    p.(freeGpu := p.freeGpu[1..], gpu := p.gpu[b := p.gpu[b].(status := Empty)])
  }

  lemma LostBlock(p: Pools, held: multiset<nat>, heldCpu: multiset<nat>)
    requires Counts(p, held, heldCpu) && p.freeGpu != []
    ensures p.freeGpu[0] < |p.gpu|
    ensures !Counts(LoseHead(p), held, heldCpu) && LostOne(LoseHead(p))
  {
    TailFacts(p.freeGpu);
    assert LoseHead(p).gpu[p.freeGpu[0]].refCnt == 0;
  }

  /** A block without references that is not in the queue: nobody will ever get it. */
  ghost predicate LostOne(p: Pools) {
    exists b :: 0 <= b < |p.gpu| && p.gpu[b].refCnt == 0 && b !in p.freeGpu
  }

  /** The first `n` new blocks are about to be written, the others are spare. */
  ghost predicate Prepared(gpu: seq<Gpu>, blocks: seq<nat>, n: int) {
    Below(blocks, |gpu|) && forall i :: 0 <= i < |blocks| ==>
      gpu[blocks[i]].status == if i < n then HalfDirty else Empty
  }

  lemma NewAreEmpty(p: Pools, q: Pools, others: multiset<nat>, blocks: seq<nat>)
    requires FreshBlocks(p, q, blocks) && Fresh(q.gpu, others, blocks)
    ensures Prepared(q.gpu, blocks, 0) && NoDup(blocks)
  {
  }

  lemma PreparedPrefix(before: seq<Gpu>, after: seq<Gpu>, blocks: seq<nat>, n: int)
    requires Prepared(before, blocks, 0) && NoDup(blocks) && n <= |blocks| && |after| == |before|
    requires var first := blocks[..if n < 0 then 0 else n];
             forall b :: 0 <= b < |after| ==>
               after[b] == if b in first then before[b].(status := HalfDirty) else before[b]
    ensures Prepared(after, blocks, n)
  {
    var first := blocks[..if n < 0 then 0 else n];
    forall i | 0 <= i < |blocks|
      ensures blocks[i] in first <==> i < n
    {
    }
  }

  /** The blocks between two places of a table have a status. */
  ghost predicate Marked(gpu: seq<Gpu>, t: seq<nat>, lo: nat, hi: int, status: Status) {
    Below(t, |gpu|) && forall i :: lo <= i < hi && i < |t| ==> gpu[t[i]].status == status
  }

  lemma MarkedSlice(before: seq<Gpu>, after: seq<Gpu>, t: seq<nat>, lo: nat, hi: nat, status: Status)
    requires Below(t, |before|) && |after| == |before| && lo <= hi <= |t|
    requires forall b :: 0 <= b < |after| ==>
               after[b] == if b in t[lo..hi] then before[b].(status := status) else before[b]
    ensures Marked(after, t, lo, hi, status)
  {
    forall i | lo <= i < hi
      ensures t[i] in t[lo..hi]
    {
      assert t[lo..hi][i - lo] == t[i];
    }
  }

  /** The copies queued when the blocks between two places of a table are cached. */
  ghost function CopiesOut(gpu: seq<Gpu>, t: seq<nat>, lo: nat, hi: nat): seq<(nat, nat)>
    requires Below(t, |gpu|) && lo <= hi <= |t|
  {
    if lo == hi then [] else CopiesOut(gpu, t, lo, hi - 1) + [(t[hi - 1], gpu[t[hi - 1]].mappedCpu)]
  }

  lemma NextCopyOut(gpu: seq<Gpu>, t: seq<nat>, lo: nat, hi: nat)
    requires Below(t, |gpu|) && lo <= hi < |t|
    ensures CopiesOut(gpu, t, lo, hi + 1) == CopiesOut(gpu, t, lo, hi) + [(t[hi], gpu[t[hi]].mappedCpu)]
  {
  }

  lemma {:induction false} CopiesSame(p: Pools, q: Pools, t: seq<nat>, lo: nat, hi: nat)
    requires SameMapping(p, q) && Below(t, |p.gpu|) && lo <= hi <= |t|
    ensures Below(t, |q.gpu|) && CopiesOut(p.gpu, t, lo, hi) == CopiesOut(q.gpu, t, lo, hi)
  {
    if lo < hi {
      CopiesSame(p, q, t, lo, hi - 1);
    }
  }

  lemma MarkedToEnd(gpu: seq<Gpu>, t: seq<nat>, lo: nat, end: int, required: int)
    requires end == (if required > |t| then |t| else required)
    requires Marked(gpu, t, lo, if lo < end then end else lo, HalfDirty)
    ensures Marked(gpu, t, lo, required, HalfDirty)
  {
  }

  lemma NoCopiesOut(gpu: seq<Gpu>, t: seq<nat>, lo: nat)
    requires Below(t, |gpu|) && lo <= |t|
    ensures CopiesOut(gpu, t, lo, lo) == []
  {
  }

  /** The first block in the cache for each of the first keys. */
  ghost predicate FirstHits(p: Pools, keys: seq<Key>, blocks: seq<nat>) {
    && |blocks| <= |keys|
    && forall i :: 0 <= i < |blocks| ==>
         keys[i] in p.cached && p.cached[keys[i]] != [] && blocks[i] == p.cached[keys[i]][0]
  }

  lemma KeyedLength(gpu: seq<Gpu>, s: seq<nat>, keys: seq<Key>)
    requires Keyed(gpu, s, keys)
    ensures |keys| == |s|
  {
  }

  lemma NoneKeyed(gpu: seq<Gpu>)
    ensures Keyed(gpu, [], [])
  {
  }

  lemma FreshPrefix(gpu: seq<Gpu>, others: multiset<nat>, s: seq<nat>, n: nat)
    requires Fresh(gpu, others, s) && n <= |s|
    ensures Unkeyed(gpu, s[..n])
  {
  }

  lemma TakenAreFresh(p: Pools, q: Pools, held: multiset<nat>, blocks: seq<nat>, computed: seq<nat>, hits: seq<Key>)
    requires FreshBlocks(p, q, blocks) && NoDup(blocks) && Keyed(p.gpu, computed, hits) && multiset(computed) <= held
    requires forall i :: 0 <= i < |blocks| ==> held[blocks[i]] == 0
    ensures Fresh(q.gpu, held, blocks) && Keyed(q.gpu, computed, hits)
  {
    forall i | 0 <= i < |computed|
      ensures computed[i] !in blocks
    {
      assert computed[i] in multiset(computed);
    }
  }

  /** How many whole blocks `n` tokens fill. */
  function Whole(n: nat, blockSize: nat): nat
    requires blockSize > 0
  {
    n / blockSize
  }

  /** How many blocks `n` tokens fill. */
  lemma FullBlocks(n: nat, blockSize: nat, cached: nat, blocks: nat, keys: nat)
    requires blockSize > 0 && blockSize * cached <= n <= blockSize * blocks && n < blockSize * (keys + 1)
    ensures cached <= Whole(n, blockSize) <= blocks && Whole(n, blockSize) <= keys
  {
    var q := n / blockSize;
    assert n == blockSize * q + n % blockSize;
    LessBlocks(blockSize, cached, q + 1);
    LessBlocks(blockSize, q, blocks + 1);
    LessBlocks(blockSize, q, keys + 1);
  }

  lemma LessBlocks(d: nat, a: nat, b: nat)
    requires d > 0 && d * a < d * b
    ensures a < b
  {
  }

  /** Caching the first uncached block of a table. */
  lemma CacheOne(p: Pools, tables: map<Id, seq<nat>>, chains: map<Id, seq<Key>>, leaked: multiset<nat>,
                 heldCpu: multiset<nat>, r: Id, k: Key)
    requires r in tables && TablesAgree(p.gpu, tables, chains, Held(tables) + leaked) && |chains[r]| < |tables[r]|
    requires Counts(p, Held(tables) + leaked, heldCpu) && Agrees(p)
    ensures var b := tables[r][|chains[r]|];
            && b < |p.gpu| && p.gpu[b].key == None
            && Agrees(SetKey(p, b, k)) && Counts(SetKey(p, b, k), Held(tables) + leaked, heldCpu)
            && KeepsFirst(p.cached, SetKey(p, b, k).cached)
            && TablesAgree(SetKey(p, b, k).gpu, tables, chains[r := chains[r] + [k]], Held(tables) + leaked)
  {
    hide Counts, Agrees, Held, TableAgrees;
    var held, n, t := Held(tables) + leaked, |chains[r]|, tables[r];
    FirstUncached(p.gpu, t, chains[r], held);
    var b := t[n];
    SetKeyAgrees(p, b, k, held, heldCpu);
    OnlyHere(tables, r, n, leaked);
    var gpu := SetKey(p, b, k).gpu;
    forall s | s in tables && s != r
      ensures TableAgrees(gpu, tables[s], chains[s], held)
    {
      OtherTable(p.gpu, gpu, tables[s], chains[s], held, b);
    }
    OneMoreCached(p.gpu, gpu, t, chains[r], held, k);
  }

  lemma FirstUncached(gpu: seq<Gpu>, t: seq<nat>, keys: seq<Key>, held: multiset<nat>)
    requires TableAgrees(gpu, t, keys, held) && |keys| < |t|
    ensures t[|keys|] < |gpu| && gpu[t[|keys|]].key == None && held[t[|keys|]] == 1
  {
  }

  lemma OtherTable(gpu: seq<Gpu>, gpu': seq<Gpu>, t: seq<nat>, keys: seq<Key>, held: multiset<nat>, b: nat)
    requires TableAgrees(gpu, t, keys, held) && b < |gpu| == |gpu'| && gpu' == gpu[b := gpu'[b]]
    requires forall i :: 0 <= i < |t| ==> t[i] != b
    ensures TableAgrees(gpu', t, keys, held)
  {
  }

  lemma OneMoreCached(gpu: seq<Gpu>, gpu': seq<Gpu>, t: seq<nat>, keys: seq<Key>, held: multiset<nat>, k: Key)
    requires TableAgrees(gpu, t, keys, held) && |keys| < |t| && t[|keys|] < |gpu| == |gpu'|
    requires gpu' == gpu[t[|keys|] := gpu'[t[|keys|]]] && gpu'[t[|keys|]].key == Some(k)
    requires forall i :: 0 <= i < |t| && i != |keys| ==> t[i] != t[|keys|]
    ensures TableAgrees(gpu', t, keys + [k], held)
  {
  }

  /** A block held once is in one table only, at one place. */
  lemma OnlyHere(tables: map<Id, seq<nat>>, r: Id, n: nat, leaked: multiset<nat>)
    requires r in tables && n < |tables[r]| && (Held(tables) + leaked)[tables[r][n]] == 1
    ensures forall i :: 0 <= i < |tables[r]| && i != n ==> tables[r][i] != tables[r][n]
    ensures forall s, i :: s in tables && s != r && 0 <= i < |tables[s]| ==> tables[s][i] != tables[r][n]
  {
    var t, b := tables[r], tables[r][n];
    HeldRemove(tables, r);
    assert t == t[..n] + [b] + t[n + 1..];
    assert b !in t[..n] && b !in t[n + 1..] by {
      assert multiset(t) == multiset(t[..n]) + multiset{b} + multiset(t[n + 1..]);
    }
    forall i | 0 <= i < |t| && i != n
      ensures t[i] != b
    {
      assert i < n ==> t[i] in t[..n];
      assert i > n ==> t[i] in t[n + 1..];
    }
    assert b in multiset(t);
    forall s, i | s in tables && s != r && 0 <= i < |tables[s]|
      ensures tables[s][i] != b
    {
      HeldRemove(tables - {r}, s);
      assert tables[s][i] in multiset(tables[s]);
    }
  }

  /** The copies that bring the CPU blocks of a table up to date. */
  function DirtyPairs(gpu: seq<Gpu>, t: seq<nat>): seq<(nat, nat)>
    requires Below(t, |gpu|)
  {
    if t == [] then []
    else DirtyPairs(gpu, t[..|t| - 1]) +
         var b := t[|t| - 1];
         if gpu[b].status.IsDirty() then [(b, gpu[b].mappedCpu)] else []
  }

  lemma CeilDivExact(n: int, d: nat)
    requires d > 0
    ensures CeilDiv(n * d, d) == n && (n * d == 0 <==> n == 0)
  {
    assert -(n * d) == (-n) * d;
    ExactQuotient(-n, d);
  }

  lemma ExactQuotient(n: int, d: nat)
    requires d > 0
    ensures (n * d) / d == n && (n * d == 0 <==> n == 0)
  {
    var e := (n * d) / d - n;
    assert (n * d) % d == -(e * d);
    assert e >= 1 ==> e * d >= d;
    assert e <= -1 ==> e * d <= 0 - d;
    assert n >= 1 ==> n * d >= d;
    assert n <= -1 ==> n * d <= 0 - d;
  }

  /** Each block is mapped to the CPU block at its place in the swapped-out table. */
  ghost predicate BackedBy(gpu: seq<Gpu>, blocks: seq<nat>, cpu: seq<nat>, first: nat) {
    && Below(blocks, |gpu|) && first + |blocks| <= |cpu|
    && forall i :: 0 <= i < |blocks| ==> gpu[blocks[i]].mappedCpu == cpu[first + i]
  }

  /** The status of a block by the number of computed tokens in it. */
  ghost function RestoredStatus(index: nat, blockSize: nat, numComputed: nat): Status {
    if index * blockSize + 1 > numComputed then Empty
    else if (index + 1) * blockSize <= numComputed then FullClean else HalfDirty
  }

  ghost predicate Restored(gpu: seq<Gpu>, blocks: seq<nat>, n: nat, first: nat, blockSize: nat, numComputed: nat) {
    && Below(blocks, |gpu|) && n <= |blocks|
    && forall i :: 0 <= i < n ==> gpu[blocks[i]].status == RestoredStatus(first + i, blockSize, numComputed)
  }

  /** The copies from CPU to GPU for the first `n` new blocks: one for each block that
      holds a computed token. */
  ghost function CopiesIn(cpu: seq<nat>, blocks: seq<nat>, first: nat, n: nat, blockSize: nat,
                          numComputed: nat): seq<(nat, nat)>
    requires n <= |blocks| && first + |blocks| <= |cpu|
  {
    if n == 0 then []
    else CopiesIn(cpu, blocks, first, n - 1, blockSize, numComputed) +
         if (first + n - 1) * blockSize + 1 <= numComputed then [(cpu[first + n - 1], blocks[n - 1])] else []
  }

  lemma NoCopies(cpu: seq<nat>, blocks: seq<nat>, first: nat, blockSize: nat, numComputed: nat)
    requires first + |blocks| <= |cpu|
    ensures CopiesIn(cpu, blocks, first, 0, blockSize, numComputed) == []
  {
  }

  lemma NextCopy(cpu: seq<nat>, blocks: seq<nat>, first: nat, i: nat, blockSize: nat, numComputed: nat)
    requires i < |blocks| && first + |blocks| <= |cpu|
    ensures CopiesIn(cpu, blocks, first, i + 1, blockSize, numComputed) ==
            CopiesIn(cpu, blocks, first, i, blockSize, numComputed) +
            if (first + i) * blockSize + 1 <= numComputed then [(cpu[first + i], blocks[i])] else []
  {
  }

  /** A swapped-out table can be dropped in two parts. */
  lemma SplitCpuTable(p: Pools, cpuTables: map<Id, seq<nat>>, held: multiset<nat>, r: Id, n: nat)
    requires Counts(p, held, Held(cpuTables)) && r in cpuTables && n <= |cpuTables[r]|
    ensures var cs := cpuTables[r];
            && Below(cs[..n], |p.cpuRef|) && Below(cs[n..], |p.cpuRef|)
            && multiset(cs[..n]) <= Held(cpuTables)
            && multiset(cs[n..]) <= Held(cpuTables) - multiset(cs[..n])
            && Held(cpuTables) - multiset(cs[..n]) - multiset(cs[n..]) == Held(cpuTables - {r})
  {
    hide GpuCounts;
    var cs := cpuTables[r];
    HeldRemove(cpuTables, r);
    assert cs == cs[..n] + cs[n..];
    forall i | 0 <= i < |cs|
      ensures cs[i] < |p.cpuRef|
    {
      assert cs[i] in multiset(cs);
      assert cs[i] in Held(cpuTables);
    }
  }

  /** The uncached part of a table consists of distinct blocks with one reference. */
  lemma NewBlocksAreOwn(gpu: seq<Gpu>, p: Pools, tables: map<Id, seq<nat>>, chains: map<Id, seq<Key>>,
                        leaked: multiset<nat>, heldCpu: multiset<nat>, r: Id, n: nat)
    requires gpu == p.gpu && Counts(p, Held(tables) + leaked, heldCpu)
    requires TablesAgree(gpu, tables, chains, Held(tables) + leaked) && r in tables && |chains[r]| <= n <= |tables[r]|
    ensures Own(gpu, tables[r][n..]) && NoDup(tables[r][n..]) && Unkeyed(gpu, tables[r][n..])
  {
    hide CpuCounts, Held;
    var t := tables[r];
    assert TableAgrees(gpu, t, chains[r], Held(tables) + leaked);
    forall i, j | n <= i < j < |t|
      ensures t[i] != t[j]
    {
      OnlyHere(tables, r, i, leaked);
    }
  }

  lemma BackedByTail(gpu: seq<Gpu>, blocks: seq<nat>, cpu: seq<nat>, first: nat)
    requires first + |blocks| == |cpu| && BackedBy(gpu, blocks, cpu[first..], 0)
    ensures BackedBy(gpu, blocks, cpu, first)
  {
  }

  ghost predicate MappedOutside(gpu: seq<Gpu>, blocks: seq<nat>, c: nat) {
    exists x :: Maps(gpu, x, c) && x !in blocks
  }

  /** No CPU block that becomes free in the first two loops of `swap_in` is mapped to a GPU
      block: neither one dropped from the table nor one given up by a new block. */
  ghost predicate MoveSafe(p: Pools, useless: seq<nat>, blocks: seq<nat>) {
    forall c :: 0 <= c < |p.cpuRef| ==>
      var owns := CpusOf(p, blocks);
      && (c in useless && p.cpuRef[c] == multiset(useless)[c] ==> !MappedOutside(p.gpu, [], c))
      && (c in owns && p.cpuRef[c] == multiset(useless)[c] + multiset(owns)[c] ==>
                !MappedOutside(p.gpu, blocks, c))
  }

  /** The same before the allocation: what will be referenced and mapped is known. */
  ghost predicate SwapInSafe(p: Pools, computed: seq<nat>, useless: seq<nat>, n: nat)
    requires n <= |FreeBesides(p.freeGpu, computed)|
  {
    forall c :: 0 <= c < |p.cpuRef| ==>
      var claims, blocks := SlotClaims(p, computed, n).cpus, FreeBesides(p.freeGpu, computed)[..n];
      var refs := p.cpuRef[c] + multiset(CpusOf(p, computed))[c];
      && (c in useless && refs + multiset(claims)[c] == multiset(useless)[c] ==>
            c !in claims && !MappedOutside(p.gpu, blocks, c))
      && (c in claims && refs == multiset(useless)[c] ==> !MappedOutside(p.gpu, blocks, c))
  }

  lemma SwapInSafeIff(p: Pools, q: Pools, computed: seq<nat>, useless: seq<nat>, blocks: seq<nat>)
    requires |blocks| <= |FreeBesides(p.freeGpu, computed)|
    requires Grown(p, q, computed, blocks, SlotClaims(p, computed, |blocks|))
    ensures MoveSafe(q, useless, blocks) <==> SwapInSafe(p, computed, useless, |blocks|)
  {
    hide Claims, FreeBesides, MappedOutside;
    var claims := SlotClaims(p, computed, |blocks|).cpus;
    assert CpusOf(q, blocks) == claims;
    forall c | 0 <= c < |p.cpuRef|
      ensures MappedOutside(q.gpu, blocks, c) <==> MappedOutside(p.gpu, blocks, c)
      ensures MappedOutside(q.gpu, [], c) <==> c in claims || MappedOutside(p.gpu, blocks, c)
    {
      GrownMaps(p, q, computed, blocks, c);
    }
  }

  lemma GrownMaps(p: Pools, q: Pools, computed: seq<nat>, blocks: seq<nat>, c: nat)
    requires |blocks| <= |FreeBesides(p.freeGpu, computed)|
    requires Grown(p, q, computed, blocks, SlotClaims(p, computed, |blocks|))
    ensures MappedOutside(q.gpu, blocks, c) <==> MappedOutside(p.gpu, blocks, c)
    ensures MappedOutside(q.gpu, [], c) <==>
            c in SlotClaims(p, computed, |blocks|).cpus || MappedOutside(p.gpu, blocks, c)
  {
    hide Claims, FreeBesides, RefsGrown;
    var claims := SlotClaims(p, computed, |blocks|).cpus;
    forall x: nat | x < |p.gpu| && x !in blocks
      ensures Maps(q.gpu, x, c) <==> Maps(p.gpu, x, c)
    {
    }
    if c in claims {
      var l :| 0 <= l < |claims| && claims[l] == c;
      assert Maps(q.gpu, blocks[l], c);
    }
    if x: nat :| Maps(q.gpu, x, c) {
      assert x in blocks || Maps(p.gpu, x, c);
      if x in blocks {
        var l :| 0 <= l < |blocks| && blocks[l] == x;
        assert claims[l] == c;
      }
    }
    if x: nat :| Maps(p.gpu, x, c) && x !in blocks {
      assert Maps(q.gpu, x, c);
    }
  }

  /** What `swap_in` does to the records of the GPU blocks. */
  ghost predicate SwapInEffect(p: Pools, q: Pools, computed: seq<nat>, blocks: seq<nat>) {
    && |q.gpu| == |p.gpu| && |q.cpuRef| == |p.cpuRef| && Below(blocks, |p.gpu|)
    && (forall b :: 0 <= b < |p.gpu| && b !in computed && b !in blocks ==> q.gpu[b] == p.gpu[b])
    && (forall b :: 0 <= b < |p.gpu| && b !in blocks ==>
          q.gpu[b].mappedCpu == p.gpu[b].mappedCpu && q.gpu[b].key == p.gpu[b].key)
    && (forall l :: 0 <= l < |blocks| ==>
          q.gpu[blocks[l]].key == None && blocks[l] in p.freeGpu && blocks[l] !in computed)
  }

  /** Only the status of the given blocks has changed. */
  ghost predicate OnlyStatus(p: Pools, q: Pools, blocks: seq<nat>) {
    && SameMapping(p, q) && q.cpuRef == p.cpuRef && q.freeCpu == p.freeCpu && q.freeGpu == p.freeGpu
    && forall b :: 0 <= b < |p.gpu| ==> q.gpu[b].key == p.gpu[b].key && (b !in blocks ==> q.gpu[b] == p.gpu[b])
  }

  lemma SwapInFrame(p: Pools, given: Pools, moved: Pools, q: Pools, computed: seq<nat>, blocks: seq<nat>)
    requires |blocks| <= |FreeBesides(p.freeGpu, computed)|
    requires Grown(p, given, computed, blocks, SlotClaims(p, computed, |blocks|))
    requires SameKeys(given, moved) && |moved.cpuRef| == |given.cpuRef| && OnlyStatus(moved, q, blocks)
    requires forall b :: 0 <= b < |moved.gpu| && b !in blocks ==> moved.gpu[b] == given.gpu[b]
    ensures SwapInEffect(p, q, computed, blocks)
  {
    hide Claims, FreeBesides;
    FreeBesidesIn(p.freeGpu, computed);
    var queue := FreeBesides(p.freeGpu, computed);
    forall l | 0 <= l < |blocks|
      ensures blocks[l] in p.freeGpu && blocks[l] !in computed
    {
      assert blocks[l] == queue[l] && queue[l] in queue;
    }
  }

  lemma KeepsNone(p: Pools, q: Pools)
    requires KeepsCpu(p, q)
    ensures (NoneLost(p) ==> NoneLost(q)) && (Exclusive(p) ==> Exclusive(q))
  {
  }

  /** The first two loops of `swap_in` on the pools. */
  method MoveOver(p: Pools, useless: seq<nat>, blocks: seq<nat>, kept: seq<nat>, ghost held: multiset<nat>,
                  ghost heldCpu: multiset<nat>) returns (q: Pools)
    requires Counts(p, held, heldCpu) && Agrees(p) && |blocks| == |kept| && Own(p.gpu, blocks)
    requires Below(useless, |p.cpuRef|) && Below(kept, |p.cpuRef|)
    requires multiset(useless) <= heldCpu && multiset(kept) <= heldCpu - multiset(useless)
    ensures Counts(q, held, heldCpu - multiset(useless) - multiset(kept)) && Agrees(q) && SameKeys(p, q)
    ensures BackedBy(q.gpu, blocks, kept, 0)
    ensures forall b :: 0 <= b < |p.gpu| && b !in blocks ==> q.gpu[b] == p.gpu[b]
    ensures Exclusive(p) ==> (Exclusive(q) <==> MoveSafe(p, useless, blocks))
    ensures (NoneLost(p) ==> NoneLost(q)) && |q.cpuRef| == |p.cpuRef|
    ensures q.freeGpu == p.freeGpu
  {
    hide Counts, Agrees, NoDup, GivenUp, NoneLost, Exclusive, MoveSafe;
    var d := DropAll(p, useless, held, heldCpu);
    q := RelocateAll(d, blocks, kept, held, heldCpu - multiset(useless));
    if Exclusive(p) {
      MoveSafeIff(p, d, q, useless, blocks, kept, held, heldCpu - multiset(useless) - multiset(kept));
    }
  }

  lemma MoveSafeIff(p: Pools, d: Pools, q: Pools, useless: seq<nat>, blocks: seq<nat>, kept: seq<nat>,
                    held: multiset<nat>, heldCpu: multiset<nat>)
    requires Exclusive(p) && Counts(q, held, heldCpu) && d.gpu == p.gpu && |q.gpu| == |p.gpu| && |blocks| == |kept|
    requires Own(p.gpu, blocks)
    requires GivenUp(p, d, useless) && GivenUp(d, q, CpuOf(d.gpu, blocks))
    requires forall i :: 0 <= i < |blocks| ==> q.gpu[blocks[i]] == p.gpu[blocks[i]].(mappedCpu := kept[i])
    requires forall b :: 0 <= b < |p.gpu| && b !in blocks ==> q.gpu[b] == p.gpu[b]
    ensures Exclusive(q) <==> MoveSafe(p, useless, blocks)
  {
    hide Counts, NoDup, MappedOutside;
    var owns: seq<nat> := CpusOf(p, blocks);
    CpusAre(p, blocks);
    CleanBoth(p, d, q, useless, owns);
    forall c | 0 <= c < |p.cpuRef|
      ensures MappedOutside(q.gpu, [], c) && q.cpuRef[c] == 0 <==> MappedOutside(p.gpu, blocks, c) && q.cpuRef[c] == 0
      ensures MappedOutside(p.gpu, [], c) <==> c in owns || MappedOutside(p.gpu, blocks, c)
    {
      MovedMaps(p, q, blocks, kept, c, held, heldCpu);
    }
    ExclusiveMeans(q);
    ExclusiveMeans(p);
    forall c: nat | c < |p.cpuRef|
      ensures (c in q.freeCpu ==> !MappedOutside(q.gpu, [], c)) <==>
              && (c in useless && p.cpuRef[c] == multiset(useless)[c] ==> !MappedOutside(p.gpu, [], c))
              && (c in owns && p.cpuRef[c] == multiset(useless)[c] + multiset(owns)[c] ==>
                !MappedOutside(p.gpu, blocks, c))
    {
      assert c in owns <==> multiset(owns)[c] > 0;
      assert c in useless <==> multiset(useless)[c] > 0;
    }
  }

  lemma CleanBoth(p: Pools, d: Pools, q: Pools, useless: seq<nat>, owns: seq<nat>)
    requires Exclusive(p) && GivenUp(p, d, useless) && GivenUp(d, q, owns)
    ensures CleanQueue(q) && |q.cpuRef| == |p.cpuRef|
    ensures forall c :: 0 <= c < |p.cpuRef| ==> q.cpuRef[c] == p.cpuRef[c] - multiset(useless)[c] - multiset(owns)[c]
    ensures forall c :: 0 <= c < |p.cpuRef| ==>
              (c in q.freeCpu <==>
                 || c in p.freeCpu
                 || (c in useless && p.cpuRef[c] == multiset(useless)[c])
                 || (c in owns && q.cpuRef[c] == 0))
  {
  }

  lemma ExclusiveMeans(p: Pools)
    ensures Exclusive(p) <==> CleanQueue(p) && forall c :: 0 <= c < |p.cpuRef| && c in p.freeCpu ==>
              !MappedOutside(p.gpu, [], c)
  {
    if CleanQueue(p) && forall c :: 0 <= c < |p.cpuRef| && c in p.freeCpu ==> !MappedOutside(p.gpu, [], c) {
      forall c, b | c in p.freeCpu
        ensures !Maps(p.gpu, b, c)
      {
        assert !MappedOutside(p.gpu, [], c);
      }
    }
  }

  lemma MovedMaps(p: Pools, q: Pools, blocks: seq<nat>, kept: seq<nat>, c: nat, held: multiset<nat>,
                  heldCpu: multiset<nat>)
    requires Counts(q, held, heldCpu) && |q.gpu| == |p.gpu| && |blocks| == |kept| && Own(p.gpu, blocks)
    requires c < |q.cpuRef|
    requires forall i :: 0 <= i < |blocks| ==> q.gpu[blocks[i]] == p.gpu[blocks[i]].(mappedCpu := kept[i])
    requires forall b :: 0 <= b < |p.gpu| && b !in blocks ==> q.gpu[b] == p.gpu[b]
    ensures q.cpuRef[c] == 0 ==> (MappedOutside(q.gpu, [], c) <==> MappedOutside(p.gpu, blocks, c))
    ensures MappedOutside(p.gpu, [], c) <==> c in CpusOf(p, blocks) || MappedOutside(p.gpu, blocks, c)
  {
    hide Counts;
    var owns := CpusOf(p, blocks);
    if q.cpuRef[c] == 0 {
      CountedOnce(q, held, heldCpu, c);
      if x: nat :| Maps(q.gpu, x, c) {
        assert forall i :: 0 <= i < |blocks| ==> q.gpu[blocks[i]].refCnt == 1;
        assert x !in blocks;
        assert Maps(p.gpu, x, c);
      }
    }
    if x: nat :| Maps(p.gpu, x, c) && x !in blocks {
      assert Maps(q.gpu, x, c);
    }
    if c in owns {
      var i :| 0 <= i < |owns| && owns[i] == c;
      assert Maps(p.gpu, blocks[i], c);
    }
    if x: nat :| Maps(p.gpu, x, c) && x in blocks {
      var i :| 0 <= i < |blocks| && blocks[i] == x;
      assert owns[i] == c;
    }
  }

  /** Distinct blocks with one reference each. */
  ghost predicate Own(gpu: seq<Gpu>, blocks: seq<nat>) {
    NoDup(blocks) && Below(blocks, |gpu|) && forall i :: 0 <= i < |blocks| ==> gpu[blocks[i]].refCnt == 1
  }

  lemma UnkeyedStays(p: Pools, q: Pools, blocks: seq<nat>)
    requires Unkeyed(p.gpu, blocks) && SameKeys(p, q)
    ensures Unkeyed(q.gpu, blocks)
  {
  }

  lemma ShorterTables(tables: map<Id, seq<nat>>, r: Id, maxBlocks: nat)
    requires NotTooLong(tables, maxBlocks)
    ensures NotTooLong(tables - {r}, maxBlocks)
  {
  }
}
