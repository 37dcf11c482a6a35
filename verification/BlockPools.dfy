/** The paired GPU and CPU block pools of vllm/v1/core/kv_cache_manager.py and the steps
    the manager takes on single blocks.  A block is named by its id; the metadata object
    of the source is the record stored at that position.

    `Counts` is the bookkeeping law: a block is referenced as often as it is held, the
    free queue lists exactly the blocks nobody holds, and a CPU block is referenced once
    for every reference to a GPU block it backs plus once for every swapped-out table
    that lists it. */
module BlockPools {
  import opened Sequences
  import opened Options

  datatype Status = Free | FullClean | FullDirty | FullSwapped | HalfClean | HalfDirty | HalfSwapped | Empty {
    predicate IsDirty() {
      FullDirty? || HalfDirty?
    }

    predicate IsUsed() {
      !Free? && !Empty?
    }
  }

  /** What identifies a full block for prefix caching. */
  datatype Key = Key(hashValue: int, tokenIds: seq<int>, extraKeys: Option<seq<(string, nat)>>)

  /** A GPU block: reference count, permanently mapped CPU block, status and cache key. */
  datatype Gpu = Gpu(refCnt: int, mappedCpu: nat, status: Status, key: Option<Key>)

  datatype Pools = Pools(gpu: seq<Gpu>, cpuRef: seq<int>, freeGpu: seq<nat>, freeCpu: seq<nat>,
                         cached: map<Key, seq<nat>>)

  /** The pools of a new manager: GPU block `i` is mapped to CPU block `i`. */
  function FreshPools(numGpu: nat, numCpu: nat): Pools
    requires numGpu <= numCpu
  {
    Pools(seq(numGpu, i requires 0 <= i < numGpu => Gpu(0, i, Free, None)), seq(numCpu, _ => 0),
          seq(numGpu, i requires 0 <= i => i), seq(numCpu - numGpu, i requires 0 <= i => numGpu + i), map[])
  }

  // ----- counting

  /** The references that live GPU blocks pass on to the CPU block `c`. */
  ghost function MappedRefs(gpu: seq<Gpu>, c: nat): int {
    if gpu == [] then 0
    else MappedRefs(gpu[..|gpu| - 1], c) +
         Share(gpu[|gpu| - 1], c)
  }

  ghost function Share(g: Gpu, c: nat): int {
    if g.mappedCpu == c then g.refCnt else 0
  }

  predicate Below(s: seq<nat>, n: nat) {
    forall i :: 0 <= i < |s| ==> s[i] < n
  }

  ghost predicate InRange(p: Pools) {
    && (forall b :: 0 <= b < |p.gpu| ==> p.gpu[b].mappedCpu < |p.cpuRef|)
    && Below(p.freeGpu, |p.gpu|) && Below(p.freeCpu, |p.cpuRef|)
  }

  /** A GPU block is referenced as often as it is held, and free when it is not. */
  ghost predicate GpuCounts(gpu: seq<Gpu>, free: seq<nat>, held: multiset<nat>) {
    && (forall b :: b in held ==> b < |gpu|)
    && (forall b :: 0 <= b < |gpu| ==> gpu[b].refCnt == held[b])
    && NoDup(free)
    && (forall b :: 0 <= b < |gpu| ==> (b in free <==> gpu[b].refCnt == 0))
  }

  ghost predicate CpuCounts(gpu: seq<Gpu>, cpuRef: seq<int>, heldCpu: multiset<nat>) {
    && (forall c :: c in heldCpu ==> c < |cpuRef|)
    && (forall c :: 0 <= c < |cpuRef| ==> cpuRef[c] == MappedRefs(gpu, c) + heldCpu[c])
  }

  ghost predicate Counts(p: Pools, held: multiset<nat>, heldCpu: multiset<nat>) {
    InRange(p) && GpuCounts(p.gpu, p.freeGpu, held) && CpuCounts(p.gpu, p.cpuRef, heldCpu)
  }

  ghost predicate Listed(cached: map<Key, seq<nat>>, k: Key, b: nat) {
    k in cached && b in cached[k]
  }

  /** Every key is listed with exactly the blocks that carry it. */
  ghost predicate CacheAgrees(p: Pools) {
    && (forall k :: k in p.cached ==> p.cached[k] != [] && NoDup(p.cached[k]))
    && (forall k: Key, b: nat :: Listed(p.cached, k, b) <==> b < |p.gpu| && p.gpu[b].key == Some(k))
  }

  /** A live block that is cached is full and clean, and only cached blocks are shared. */
  ghost predicate StatusAgrees(p: Pools) {
    forall b :: 0 <= b < |p.gpu| ==>
      && (p.gpu[b].key.Some? && p.gpu[b].refCnt > 0 ==> p.gpu[b].status.FullClean?)
      && (p.gpu[b].refCnt > 1 ==> p.gpu[b].key.Some?)
  }

  lemma {:induction false} MappedRefsUpdate(gpu: seq<Gpu>, b: nat, g: Gpu, c: nat)
    requires b < |gpu|
    ensures MappedRefs(gpu[b := g], c) == MappedRefs(gpu, c) - Share(gpu[b], c) + Share(g, c)
  {
    var n := |gpu| - 1;
    if b == n {
      assert gpu[b := g][..n] == gpu[..n];
    } else {
      MappedRefsUpdate(gpu[..n], b, g, c);
      assert gpu[b := g][..n] == gpu[..n][b := g];
    }
  }

  /** Replacing one block's record shifts references between two CPU blocks. */
  lemma CpuCountsUpdate(gpu: seq<Gpu>, cpuRef: seq<int>, heldCpu: multiset<nat>, b: nat, g: Gpu,
                        cpuRef': seq<int>, heldCpu': multiset<nat>)
    requires CpuCounts(gpu, cpuRef, heldCpu) && b < |gpu| && |cpuRef'| == |cpuRef|
    requires forall c :: c in heldCpu' ==> c < |cpuRef|
    requires forall c :: 0 <= c < |cpuRef| ==>
               cpuRef'[c] - cpuRef[c] == Share(g, c) - Share(gpu[b], c) + heldCpu'[c] - heldCpu[c]
    ensures CpuCounts(gpu[b := g], cpuRef', heldCpu')
  {
    forall c | 0 <= c < |cpuRef|
      ensures cpuRef'[c] == MappedRefs(gpu[b := g], c) + heldCpu'[c]
    {
      MappedRefsUpdate(gpu, b, g, c);
    }
  }

  // ----- steps on one block

  function SeqRemove(s: seq<nat>, x: nat): (r: seq<nat>) {
    if s == [] then [] else if s[0] == x then s[1..] else [s[0]] + SeqRemove(s[1..], x)
  }

  lemma {:induction false} SeqRemoveFacts(s: seq<nat>, x: nat)
    requires NoDup(s)
    ensures NoDup(SeqRemove(s, x))
    ensures forall y :: y in SeqRemove(s, x) <==> y in s && y != x
    ensures forall n: nat :: Below(s, n) ==> Below(SeqRemove(s, x), n)
  {
    if s != [] {
      var t := s[1..];
      assert s == [s[0]] + t;
      SeqRemoveFacts(t, x);
      assert forall y :: y in s <==> y == s[0] || y in t;
      assert s[0] !in t;
      forall n: nat | Below(s, n)
        ensures Below(SeqRemove(s, x), n)
      {
        assert Below(t, n);
      }
    }
  }

  lemma TailFacts(s: seq<nat>)
    requires NoDup(s) && s != []
    ensures NoDup(s[1..]) && s[0] in s
    ensures forall y :: y in s[1..] <==> y in s && y != s[0]
  {
    assert s == [s[0]] + s[1..];
    assert s[0] !in s[1..];
  }

  /** `_touch` on one block. */
  function TouchOne(p: Pools, b: nat): Pools
    requires b < |p.gpu| && p.gpu[b].mappedCpu < |p.cpuRef|
  {
    var g := p.gpu[b];
    var free, status := if g.refCnt == 0 then SeqRemove(p.freeGpu, b) else p.freeGpu,
                        if g.refCnt == 0 then FullClean else g.status;
    p.(freeGpu := free,
       gpu := p.gpu[b := g.(refCnt := g.refCnt + 1, status := status)],
       cpuRef := p.cpuRef[g.mappedCpu := p.cpuRef[g.mappedCpu] + 1])
  }

  lemma TouchCounts(p: Pools, b: nat, held: multiset<nat>, heldCpu: multiset<nat>)
    requires Counts(p, held, heldCpu) && b < |p.gpu|
    ensures Counts(TouchOne(p, b), held + multiset{b}, heldCpu)
  {
    hide CpuCounts;
    var q := TouchOne(p, b);
    SeqRemoveFacts(p.freeGpu, b);
    TouchGpu(p.gpu, p.freeGpu, held, b, q.gpu, q.freeGpu);
    CpuCountsRange(p, heldCpu);
    CpuCountsUpdate(p.gpu, p.cpuRef, heldCpu, b, q.gpu[b], q.cpuRef, heldCpu);
  }

  lemma TouchGpu(gpu: seq<Gpu>, free: seq<nat>, held: multiset<nat>, b: nat, gpu': seq<Gpu>, free': seq<nat>)
    requires GpuCounts(gpu, free, held) && b < |gpu| == |gpu'| && gpu' == gpu[b := gpu'[b]]
    requires gpu'[b].refCnt == gpu[b].refCnt + 1 && NoDup(free')
    requires forall y :: y in free' <==> y in free && y != b
    ensures GpuCounts(gpu', free', held + multiset{b})
  {
  }

  /** `_evict_cached_block`: drops the key of a block and its cache entry. */
  function Evict(p: Pools, b: nat): Pools
    requires b < |p.gpu|
  {
    if p.gpu[b].key.Some? && p.gpu[b].key.value in p.cached then
      var k := p.gpu[b].key.value;
      var rest := SeqRemove(p.cached[k], b);
      p.(gpu := p.gpu[b := p.gpu[b].(key := None)],
         cached := if rest == [] then p.cached - {k} else p.cached[k := rest])
    else p
  }

  /** One round of `_get_new_blocks`: takes the head of the free queue; a CPU block that
      is still referenced is replaced by a free one, and nothing is left of the cache
      entry.  `None` when there is no free CPU block. */
  function TakeOne(p: Pools, enableCaching: bool): Option<Pools>
    requires p.freeGpu != [] && p.freeGpu[0] < |p.gpu| && p.gpu[p.freeGpu[0]].mappedCpu < |p.cpuRef|
    requires p.freeCpu != [] ==> p.freeCpu[0] < |p.cpuRef|
  {
    var b := p.freeGpu[0];
    var shared := p.cpuRef[p.gpu[b].mappedCpu] > 0;
    if shared && p.freeCpu == [] then None
    else
      var cpu := if shared then p.freeCpu[0] else p.gpu[b].mappedCpu;
      var e := if enableCaching then Evict(p, b) else p;
      Some(e.(freeGpu := p.freeGpu[1..], freeCpu := if shared then p.freeCpu[1..] else p.freeCpu,
              gpu := e.gpu[b := e.gpu[b].(mappedCpu := cpu, status := Empty, refCnt := e.gpu[b].refCnt + 1)],
              cpuRef := p.cpuRef[cpu := p.cpuRef[cpu] + 1]))
  }

  lemma TakeCounts(p: Pools, enableCaching: bool, held: multiset<nat>, heldCpu: multiset<nat>)
    requires Counts(p, held, heldCpu) && p.freeGpu != [] && TakeOne(p, enableCaching).Some?
    ensures Counts(TakeOne(p, enableCaching).value, held + multiset{p.freeGpu[0]}, heldCpu)
    ensures TakeOne(p, enableCaching).value.gpu[p.freeGpu[0]].refCnt == 1
  {
    hide CpuCounts, Evict;
    var b := p.freeGpu[0];
    var q := TakeOne(p, enableCaching).value;
    EvictFrame(p, b);
    TailFacts(p.freeGpu);
    TouchGpu(p.gpu, p.freeGpu, held, b, q.gpu, q.freeGpu);
    assert p.gpu[b].refCnt == 0;
    CpuCountsRange(p, heldCpu);
    CpuCountsUpdate(p.gpu, p.cpuRef, heldCpu, b, q.gpu[b], q.cpuRef, heldCpu);
  }

  lemma EvictFrame(p: Pools, b: nat)
    requires b < |p.gpu|
    ensures var q := Evict(p, b);
            && |q.gpu| == |p.gpu| && q.gpu == p.gpu[b := p.gpu[b].(key := q.gpu[b].key)]
            && q == p.(gpu := q.gpu, cached := q.cached)
  {
  }

  /** One round of `free`: drops a reference, with that of the CPU block unless it is
      kept for a swapped-out table, and queues the block when it was the last one.
      `None` when a shared block cannot be marked clean. */
  function ReleaseOne(p: Pools, b: nat, keepCpu: bool, swapped: bool): Option<Pools>
    requires b < |p.gpu| && p.gpu[b].mappedCpu < |p.cpuRef|
  {
    var g := p.gpu[b].(refCnt := p.gpu[b].refCnt - 1);
    var cpuRef := if keepCpu then p.cpuRef else p.cpuRef[g.mappedCpu := p.cpuRef[g.mappedCpu] - 1];
    if g.refCnt == 0 then
      Some(p.(gpu := p.gpu[b := g.(status := Free)], cpuRef := cpuRef, freeGpu := p.freeGpu + [b]))
    else if swapped && !g.status.IsUsed() then None
    else
      var status := if !swapped then g.status
                    else if g.status.FullClean? || g.status.FullDirty? || g.status.FullSwapped? then FullClean
                         else HalfClean;
      Some(p.(gpu := p.gpu[b := g.(status := status)], cpuRef := cpuRef))
  }

  lemma ReleaseCounts(p: Pools, b: nat, keepCpu: bool, swapped: bool, held: multiset<nat>, heldCpu: multiset<nat>)
    requires Counts(p, held, heldCpu) && b in held && ReleaseOne(p, b, keepCpu, swapped).Some?
    ensures Counts(ReleaseOne(p, b, keepCpu, swapped).value, held - multiset{b},
                   if keepCpu then heldCpu + multiset{p.gpu[b].mappedCpu} else heldCpu)
  {
    hide CpuCounts;
    var q := ReleaseOne(p, b, keepCpu, swapped).value;
    var hc := if keepCpu then heldCpu + multiset{p.gpu[b].mappedCpu} else heldCpu;
    CpuCountsRange(p, heldCpu);
    CpuCountsUpdate(p.gpu, p.cpuRef, heldCpu, b, q.gpu[b], q.cpuRef, hc);
    ReleaseGpu(p.gpu, p.freeGpu, held, b, q.gpu, q.freeGpu);
  }

  lemma CpuCountsRange(p: Pools, heldCpu: multiset<nat>)
    requires CpuCounts(p.gpu, p.cpuRef, heldCpu)
    ensures forall c :: c in heldCpu ==> c < |p.cpuRef|
  {
  }

  lemma ReleaseGpu(gpu: seq<Gpu>, free: seq<nat>, held: multiset<nat>, b: nat, gpu': seq<Gpu>, free': seq<nat>)
    requires GpuCounts(gpu, free, held) && b in held && |gpu'| == |gpu| && b < |gpu| && gpu' == gpu[b := gpu'[b]]
    requires gpu'[b].refCnt == gpu[b].refCnt - 1
    requires free' == if gpu'[b].refCnt == 0 then free + [b] else free
    ensures GpuCounts(gpu', free', held - multiset{b})
  {
  }

  /** First loop of `swap_in`: a CPU block of the table that is no longer needed. */
  function DropCpu(p: Pools, c: nat): Pools
    requires c < |p.cpuRef|
  {
    p.(cpuRef := p.cpuRef[c := p.cpuRef[c] - 1],
       freeCpu := if p.cpuRef[c] - 1 == 0 then p.freeCpu + [c] else p.freeCpu)
  }

  lemma DropCounts(p: Pools, c: nat, held: multiset<nat>, heldCpu: multiset<nat>)
    requires Counts(p, held, heldCpu) && c in heldCpu
    ensures Counts(DropCpu(p, c), held, heldCpu - multiset{c})
  {
  }

  /** Second loop of `swap_in`: the new GPU block gives up its own CPU block and takes
      over the one that holds the swapped-out data. */
  function Relocate(p: Pools, b: nat, c: nat): Pools
    requires b < |p.gpu| && p.gpu[b].mappedCpu < |p.cpuRef|
  {
    var q := DropCpu(p, p.gpu[b].mappedCpu);
    q.(gpu := q.gpu[b := q.gpu[b].(mappedCpu := c)])
  }

  lemma RelocateCounts(p: Pools, b: nat, c: nat, held: multiset<nat>, heldCpu: multiset<nat>)
    requires Counts(p, held, heldCpu) && c in heldCpu && b < |p.gpu| && p.gpu[b].refCnt == 1
    ensures Counts(Relocate(p, b, c), held, heldCpu - multiset{c})
  {
    hide CpuCounts;
    CpuCountsRange(p, heldCpu);
    var q := Relocate(p, b, c);
    CpuCountsUpdate(p.gpu, p.cpuRef, heldCpu, b, q.gpu[b], q.cpuRef, heldCpu - multiset{c});
  }

  // ----- keys and status

  ghost predicate Agrees(p: Pools) {
    CacheAgrees(p) && StatusAgrees(p)
  }

  /** Only reference counts, status and queue of the block have changed. */
  ghost predicate SameKeys(p: Pools, q: Pools) {
    && q.cached == p.cached && |q.gpu| == |p.gpu|
    && forall b :: 0 <= b < |p.gpu| ==> q.gpu[b].key == p.gpu[b].key
  }

  ghost predicate SameMapping(p: Pools, q: Pools) {
    && |q.gpu| == |p.gpu| && |q.cpuRef| == |p.cpuRef|
    && forall b :: 0 <= b < |p.gpu| ==> q.gpu[b].mappedCpu == p.gpu[b].mappedCpu
  }

  lemma SameKeysAgree(p: Pools, q: Pools)
    requires CacheAgrees(p) && SameKeys(p, q)
    ensures CacheAgrees(q)
  {
  }

  lemma TouchAgrees(p: Pools, b: nat, held: multiset<nat>, heldCpu: multiset<nat>)
    requires Counts(p, held, heldCpu) && b < |p.gpu| && Agrees(p) && p.gpu[b].key.Some?
    ensures var q := TouchOne(p, b);
            Agrees(q) && SameKeys(p, q) && SameMapping(p, q) && q.freeCpu == p.freeCpu
    ensures forall y :: y in TouchOne(p, b).freeGpu <==> y in p.freeGpu && y != b
  {
    hide CacheAgrees, CpuCounts;
    var q := TouchOne(p, b);
    SeqRemoveFacts(p.freeGpu, b);
    SameKeysAgree(p, q);
  }

  lemma ReleaseAgrees(p: Pools, b: nat, keepCpu: bool, swapped: bool, held: multiset<nat>, heldCpu: multiset<nat>)
    requires Counts(p, held, heldCpu) && b in held && Agrees(p)
    ensures var q := ReleaseOne(p, b, keepCpu, swapped);
            && q.Some? && Agrees(q.value) && SameKeys(p, q.value) && SameMapping(p, q.value)
            && q.value.freeCpu == p.freeCpu
            && q.value.freeGpu == (if held[b] == 1 then p.freeGpu + [b] else p.freeGpu)
            && q.value.gpu[b].status == if held[b] == 1 then Free else FullClean
  {
    hide CacheAgrees, CpuCounts;
    var q := ReleaseOne(p, b, keepCpu, swapped);
    assert p.gpu[b].refCnt > 1 ==> p.gpu[b].status.FullClean?;
    SameKeysAgree(p, q.value);
  }

  lemma EvictAgrees(p: Pools, b: nat)
    requires CacheAgrees(p) && b < |p.gpu|
    ensures CacheAgrees(Evict(p, b)) && Evict(p, b).gpu[b].key == None
  {
    if p.gpu[b].key.Some? {
      var k := p.gpu[b].key.value;
      assert Listed(p.cached, k, b);
      SeqRemoveFacts(p.cached[k], b);
      var q := Evict(p, b);
      forall x: Key, y: nat
        ensures Listed(q.cached, x, y) <==> y < |q.gpu| && q.gpu[y].key == Some(x)
      {
        assert Listed(p.cached, x, y) <==> y < |p.gpu| && p.gpu[y].key == Some(x);
      }
    }
  }

  lemma TakeAgrees(p: Pools, held: multiset<nat>, heldCpu: multiset<nat>)
    requires Counts(p, held, heldCpu) && p.freeGpu != [] && TakeOne(p, true).Some? && Agrees(p)
    ensures var q, b := TakeOne(p, true).value, p.freeGpu[0];
            && Agrees(q) && q.gpu[b].key == None && q.gpu[b].status == Empty && q.freeGpu == p.freeGpu[1..]
            && |q.cpuRef| == |p.cpuRef|
            && q.gpu == p.gpu[b := q.gpu[b]]
  {
    hide CpuCounts, Evict, CacheAgrees;
    var q, b := TakeOne(p, true).value, p.freeGpu[0];
    assert b in p.freeGpu;
    EvictFrame(p, b);
    EvictAgrees(p, b);
    SameKeysAgree(Evict(p, b), q);
  }

  /** Without prefix caching there are no keys at all. */
  ghost predicate NoKeys(p: Pools) {
    p.cached == map[] && forall b :: 0 <= b < |p.gpu| ==> p.gpu[b].key == None
  }

  lemma TakeWithoutKeys(p: Pools, held: multiset<nat>, heldCpu: multiset<nat>)
    requires Counts(p, held, heldCpu) && p.freeGpu != [] && TakeOne(p, false).Some? && Agrees(p) && NoKeys(p)
    ensures var q, b := TakeOne(p, false).value, p.freeGpu[0];
            && Agrees(q) && NoKeys(q) && q.gpu[b].status == Empty && q.freeGpu == p.freeGpu[1..]
            && |q.cpuRef| == |p.cpuRef|
            && q.gpu == p.gpu[b := q.gpu[b]]
  {
    hide CpuCounts;
    assert p.freeGpu[0] in p.freeGpu;
  }

  /** Caching one block that has no key yet: the key is set and the block is listed. */
  function SetKey(p: Pools, b: nat, k: Key): Pools
    requires b < |p.gpu|
  {
    p.(gpu := p.gpu[b := p.gpu[b].(key := Some(k), status := FullClean)],
       cached := p.cached[k := (if k in p.cached then p.cached[k] else []) + [b]])
  }

  ghost predicate KeepsFirst(before: map<Key, seq<nat>>, after: map<Key, seq<nat>>) {
    forall k :: k in before ==> k in after && before[k] <= after[k]
  }

  lemma SetKeyAgrees(p: Pools, b: nat, k: Key, held: multiset<nat>, heldCpu: multiset<nat>)
    requires Counts(p, held, heldCpu) && Agrees(p) && b < |p.gpu| && p.gpu[b].key == None
    ensures Agrees(SetKey(p, b, k)) && Counts(SetKey(p, b, k), held, heldCpu)
    // the block that is found for a key stays the one that was cached first
    ensures KeepsFirst(p.cached, SetKey(p, b, k).cached)
  {
    SetKeyCache(p, b, k);
    hide CacheAgrees, CpuCounts;
    var q := SetKey(p, b, k);
    CpuCountsRange(p, heldCpu);
    CpuCountsUpdate(p.gpu, p.cpuRef, heldCpu, b, q.gpu[b], p.cpuRef, heldCpu);
  }

  lemma SetKeyCache(p: Pools, b: nat, k: Key)
    requires CacheAgrees(p) && b < |p.gpu| && p.gpu[b].key == None
    ensures CacheAgrees(SetKey(p, b, k))
  {
    var q := SetKey(p, b, k);
    assert !Listed(p.cached, k, b);
    forall x: Key, y: nat
      ensures Listed(q.cached, x, y) <==> y < |q.gpu| && q.gpu[y].key == Some(x)
    {
      assert Listed(p.cached, x, y) <==> y < |p.gpu| && p.gpu[y].key == Some(x);
    }
  }

  /** Changing the status of a block that is not cached. */
  function SetStatus(p: Pools, b: nat, status: Status): Pools
    requires b < |p.gpu|
  {
    p.(gpu := p.gpu[b := p.gpu[b].(status := status)])
  }

  lemma SetStatusAgrees(p: Pools, b: nat, status: Status, held: multiset<nat>, heldCpu: multiset<nat>)
    requires Counts(p, held, heldCpu) && Agrees(p) && b < |p.gpu| && p.gpu[b].key == None
    ensures var q := SetStatus(p, b, status);
            Agrees(q) && Counts(q, held, heldCpu) && SameKeys(p, q) && SameMapping(p, q)
  {
    hide CacheAgrees, CpuCounts;
    var q := SetStatus(p, b, status);
    CpuCountsRange(p, heldCpu);
    CpuCountsUpdate(p.gpu, p.cpuRef, heldCpu, b, q.gpu[b], p.cpuRef, heldCpu);
    SameKeysAgree(p, q);
  }
}
