/** The data in the blocks.  `Intact` says that every request finds what it has computed: in
    its GPU blocks while it runs, in its CPU blocks while it is swapped out; that every
    cached block holds the data its key stands for, and a copy of it behind it; and that
    every block of a running request that holds data and is not marked dirty has a copy
    behind it.  The lemmas say what each operation of the manager and each batch of copies
    does to it. */
module KVData {
  import opened Sequences
  import opened Options
  import opened BlockPools
  import opened CpuBlocks
  import opened CpuDemand
  import opened PoolLoops
  import opened KVCacheManagers
  import opened SwapCopies

  /** Tables, swapped-out tables and keys, as the manager has them. */
  datatype View = View(pools: Pools, tables: map<Id, seq<nat>>, cpuTables: map<Id, seq<nat>>, chains: map<Id, seq<Key>>)

  ghost predicate TablesHold<T>(tables: map<Id, seq<nat>>, chains: map<Id, seq<Key>>, gpuMem: seq<T>,
                                data: map<Id, seq<T>>) {
    forall r :: r in tables ==>
      r in chains && r in data && |chains[r]| <= |data[r]| && Holds(tables[r], gpuMem, data[r])
  }

  /** The blocks hold the data, one after the other. */
  ghost predicate Holds<T>(t: seq<nat>, mem: seq<T>, data: seq<T>) {
    |data| <= |t| && forall i :: 0 <= i < |data| ==> t[i] < |mem| && mem[t[i]] == data[i]
  }

  ghost predicate SwappedHold<T>(cpuTables: map<Id, seq<nat>>, cpuMem: seq<T>, data: map<Id, seq<T>>) {
    forall r :: r in cpuTables ==> r in data && Holds(cpuTables[r], cpuMem, data[r])
  }

  ghost predicate CachedHold<T>(gpu: seq<Gpu>, gpuMem: seq<T>, cpuMem: seq<T>, content: Key -> T) {
    forall b :: 0 <= b < |gpu| && gpu[b].key.Some? ==> CachedAt(gpu, gpuMem, cpuMem, content, b)
  }

  /** The block holds the data of its key, and a copy of it is behind it. */
  ghost predicate CachedAt<T>(gpu: seq<Gpu>, gpuMem: seq<T>, cpuMem: seq<T>, content: Key -> T, b: nat) {
    CopyBehind(gpu, gpuMem, cpuMem, b) && gpu[b].key.Some? && gpuMem[b] == content(gpu[b].key.value)
  }

  ghost predicate CleanHold<T>(gpu: seq<Gpu>, tables: map<Id, seq<nat>>, gpuMem: seq<T>, cpuMem: seq<T>,
                               data: map<Id, seq<T>>) {
    forall r :: r in tables && r in data ==> CleanIn(gpu, tables[r], gpuMem, cpuMem, |data[r]|)
  }

  ghost predicate CleanIn<T>(gpu: seq<Gpu>, t: seq<nat>, gpuMem: seq<T>, cpuMem: seq<T>, n: nat) {
    && n <= |t| && Below(t, |gpu|)
    && forall i :: 0 <= i < n && !gpu[t[i]].status.IsDirty() ==> CopyBehind(gpu, gpuMem, cpuMem, t[i])
  }

  ghost predicate Intact<T>(v: View, gpuMem: seq<T>, cpuMem: seq<T>, data: map<Id, seq<T>>, content: Key -> T) {
    && |gpuMem| == |v.pools.gpu| && |cpuMem| == |v.pools.cpuRef|
    && TablesHold(v.tables, v.chains, gpuMem, data) && SwappedHold(v.cpuTables, cpuMem, data)
    && CachedHold(v.pools.gpu, gpuMem, cpuMem, content) && CleanHold(v.pools.gpu, v.tables, gpuMem, cpuMem, data)
  }

  /** The counts and tables behind a view. */
  ghost predicate Consistent(v: View, leaked: multiset<nat>) {
    && Counts(v.pools, Held(v.tables) + leaked, Held(v.cpuTables))
    && TablesAgree(v.pools.gpu, v.tables, v.chains, Held(v.tables) + leaked)
  }

  /** The data that belongs to keys. */
  function ContentOf<T>(keys: seq<Key>, content: Key -> T): seq<T> {
    seq(|keys|, i requires 0 <= i < |keys| => content(keys[i]))
  }

  // ----- facts about tables

  lemma EntryFacts(v: View, leaked: multiset<nat>, r: Id, i: nat)
    requires Consistent(v, leaked) && r in v.tables && i < |v.tables[r]|
    ensures r in v.chains && v.tables[r][i] < |v.pools.gpu| && v.pools.gpu[v.tables[r][i]].refCnt > 0
    ensures v.tables[r][i] !in v.pools.freeGpu
    ensures if i < |v.chains[r]| then v.pools.gpu[v.tables[r][i]].key == Some(v.chains[r][i])
            else v.pools.gpu[v.tables[r][i]].key == None
  {
    hide Held, CpuCounts;
    var b, held := v.tables[r][i], Held(v.tables) + leaked;
    assert TableAgrees(v.pools.gpu, v.tables[r], v.chains[r], held);
    HeldRemove(v.tables, r);
    assert b in multiset(v.tables[r]);
  }

  /** A block that is not cached is in one place of one table. */
  lemma PrivateEntry(v: View, leaked: multiset<nat>, r: Id, i: nat, s: Id, j: nat)
    requires Consistent(v, leaked) && r in v.tables && i < |v.tables[r]| && s in v.tables && j < |v.tables[s]|
    requires v.tables[r][i] == v.tables[s][j] && r in v.chains && i >= |v.chains[r]|
    ensures r == s && i == j
  {
    hide Held, Counts;
    assert TableAgrees(v.pools.gpu, v.tables[r], v.chains[r], Held(v.tables) + leaked);
    OnlyHere(v.tables, r, i, leaked);
  }

  // ----- release

  /** `free`: the others keep their data. */
  lemma ReleaseKeepsData<T>(v: View, leaked: multiset<nat>, q: Pools, r: Id, gpuMem: seq<T>, cpuMem: seq<T>,
                            data: map<Id, seq<T>>, content: Key -> T)
    requires Consistent(v, leaked) && Intact(v, gpuMem, cpuMem, data, content) && r in v.tables
    requires SameKeys(v.pools, q) && SameMapping(v.pools, q)
    requires forall b :: 0 <= b < |q.gpu| && b !in v.tables[r] ==> q.gpu[b] == v.pools.gpu[b]
    ensures Intact(View(q, v.tables - {r}, v.cpuTables, v.chains - {r}), gpuMem, cpuMem, data, content)
  {
    hide Consistent;
    forall s | s in v.tables - {r} && s in data
      ensures CleanIn(q.gpu, v.tables[s], gpuMem, cpuMem, |data[s]|)
    {
      var t := v.tables[s];
      assert CleanIn(v.pools.gpu, t, gpuMem, cpuMem, |data[s]|);
      forall i | 0 <= i < |data[s]| && !q.gpu[t[i]].status.IsDirty()
        ensures CopyBehind(q.gpu, gpuMem, cpuMem, t[i])
      {
        EntryFacts(v, leaked, s, i);
        if i >= |v.chains[s]| && t[i] in v.tables[r] {
          var j :| 0 <= j < |v.tables[r]| && v.tables[r][j] == t[i];
          PrivateEntry(v, leaked, s, i, r, j);
        }
      }
    }
  }

  // ----- allocation

  /** `allocate_slots`: the new table holds the data of the computed blocks. */
  lemma AllocateKeepsData<T>(v: View, leaked: multiset<nat>, q: Pools, r: Id, computed: seq<nat>, hits: seq<Key>,
                             blocks: seq<nat>,
                             claim: Claim, gpuMem: seq<T>, cpuMem: seq<T>, data: map<Id, seq<T>>, content: Key -> T)
    requires Consistent(v, leaked) && Intact(v, gpuMem, cpuMem, data, content) && r !in v.tables && r !in v.cpuTables
    requires Keyed(v.pools.gpu, computed, hits) && Grown(v.pools, q, computed, blocks, claim)
    ensures Intact(View(q, v.tables[r := computed + blocks], v.cpuTables, v.chains[r := hits]), gpuMem, cpuMem,
                   data[r := ContentOf(hits, content)], content)
  {
    hide Consistent, RefsGrown, FreeBesides;
    var w := View(q, v.tables[r := computed + blocks], v.cpuTables, v.chains[r := hits]);
    var data' := data[r := ContentOf(hits, content)];
    NewBlocksWereFree(v.pools, q, computed, blocks, claim);
    assert Holds(computed + blocks, gpuMem, data'[r]);
    forall s | s in w.tables && s in data'
      ensures CleanIn(q.gpu, w.tables[s], gpuMem, cpuMem, |data'[s]|)
    {
      var t := w.tables[s];
      forall i | 0 <= i < |data'[s]|
        ensures !q.gpu[t[i]].status.IsDirty() ==> CopyBehind(q.gpu, gpuMem, cpuMem, t[i])
      {
        if s == r {
          assert t[i] == computed[i];
          assert computed[i] !in blocks;
        } else {
          EntryFacts(v, leaked, s, i);
          assert CleanIn(v.pools.gpu, t, gpuMem, cpuMem, |data[s]|);
          assert t[i] !in blocks;
        }
      }
      assert Below(t, |q.gpu|) by {
        if s != r {
          assert CleanIn(v.pools.gpu, t, gpuMem, cpuMem, |data[s]|);
        }
      }
    }
  }

  lemma NewBlocksWereFree(p: Pools, q: Pools, computed: seq<nat>, blocks: seq<nat>, claim: Claim)
    requires Grown(p, q, computed, blocks, claim)
    ensures forall l :: 0 <= l < |blocks| ==> blocks[l] in p.freeGpu && blocks[l] !in computed
    ensures |q.cpuRef| == |p.cpuRef|
  {
    hide FreeBesides;
    FreeBesidesIn(p.freeGpu, computed);
    var queue := FreeBesides(p.freeGpu, computed);
    forall l | 0 <= l < |blocks|
      ensures blocks[l] in p.freeGpu && blocks[l] !in computed
    {
      assert blocks[l] == queue[l] && queue[l] in queue;
    }
  }

  // ----- copies out

  /** What is behind a block in use stays behind it. */
  lemma BehindStays<T>(p: Pools, held: multiset<nat>, heldCpu: multiset<nat>, gpuMem: seq<T>, cpuMem: seq<T>,
                       pairs: Pairs, b: nat)
    requires Counts(p, held, heldCpu) && Harmless(p, gpuMem, cpuMem, pairs) && CopyBehind(p.gpu, gpuMem, cpuMem, b)
    requires p.gpu[b].refCnt > 0 || p.gpu[b].key.Some?
    ensures InBounds(pairs, |gpuMem|, |cpuMem|) && CopyBehind(p.gpu, gpuMem, Copied(gpuMem, cpuMem, pairs), b)
  {
    hide Counts, Copied;
    var c := p.gpu[b].mappedCpu;
    if k :| 0 <= k < |pairs| && pairs[k].1 == c && Alone(p, pairs[k].0) {
      AloneMeans(p, held, heldCpu, pairs[k].0);
      assert pairs[k].0 == b;
      CopyOutAt(p, held, heldCpu, gpuMem, cpuMem, pairs, k);
    } else {
      CopyOutKeeps(p, gpuMem, cpuMem, pairs, c);
    }
  }

  /** Harmless copies leave everything intact. */
  lemma CopyOutKeepsData<T>(v: View, leaked: multiset<nat>, pairs: Pairs, gpuMem: seq<T>, cpuMem: seq<T>,
                            data: map<Id, seq<T>>, content: Key -> T)
    requires Consistent(v, leaked) && Intact(v, gpuMem, cpuMem, data, content)
    requires Harmless(v.pools, gpuMem, cpuMem, pairs)
    ensures InBounds(pairs, |gpuMem|, |cpuMem|) && Intact(v, gpuMem, Copied(gpuMem, cpuMem, pairs), data, content)
  {
    hide Copied, Harmless, CopyBehind, Counts, TablesAgree, Held;
    HarmlessBounds(v.pools, gpuMem, cpuMem, pairs);
    var after, held, heldCpu := Copied(gpuMem, cpuMem, pairs), Held(v.tables) + leaked, Held(v.cpuTables);
    forall b | 0 <= b < |v.pools.gpu| && v.pools.gpu[b].key.Some?
      ensures CopyBehind(v.pools.gpu, gpuMem, after, b)
    {
      BehindStays(v.pools, held, heldCpu, gpuMem, cpuMem, pairs, b);
    }
    forall r | r in v.tables && r in data
      ensures CleanIn(v.pools.gpu, v.tables[r], gpuMem, after, |data[r]|)
    {
      var t := v.tables[r];
      assert CleanIn(v.pools.gpu, t, gpuMem, cpuMem, |data[r]|);
      forall i | 0 <= i < |data[r]| && !v.pools.gpu[t[i]].status.IsDirty()
        ensures CopyBehind(v.pools.gpu, gpuMem, after, t[i])
      {
        EntryFacts(v, leaked, r, i);
        BehindStays(v.pools, held, heldCpu, gpuMem, cpuMem, pairs, t[i]);
      }
    }
    forall r | r in v.cpuTables
      ensures r in data && Holds(v.cpuTables[r], after, data[r])
    {
      SwappedStays(v, leaked, pairs, gpuMem, cpuMem, r, data[r]);
    }
  }

  lemma HarmlessBounds<T>(p: Pools, gpuMem: seq<T>, cpuMem: seq<T>, pairs: Pairs)
    requires Harmless(p, gpuMem, cpuMem, pairs)
    ensures InBounds(pairs, |gpuMem|, |cpuMem|)
  {
  }

  lemma SwappedStays<T>(v: View, leaked: multiset<nat>, pairs: Pairs, gpuMem: seq<T>, cpuMem: seq<T>, r: Id, d: seq<T>)
    requires Consistent(v, leaked) && Harmless(v.pools, gpuMem, cpuMem, pairs) && InBounds(pairs, |gpuMem|, |cpuMem|)
    requires r in v.cpuTables && Holds(v.cpuTables[r], cpuMem, d)
    ensures Holds(v.cpuTables[r], Copied(gpuMem, cpuMem, pairs), d)
  {
    hide Copied, Counts, TablesAgree, Held;
    var cs := v.cpuTables[r];
    HeldRemove(v.cpuTables, r);
    forall i | 0 <= i < |d|
      ensures Copied(gpuMem, cpuMem, pairs)[cs[i]] == d[i]
    {
      assert cs[i] in multiset(cs);
      forall k | 0 <= k < |pairs| && pairs[k].1 == cs[i]
        ensures !Alone(v.pools, pairs[k].0)
      {
        if Alone(v.pools, pairs[k].0) {
          AloneMeans(v.pools, Held(v.tables) + leaked, Held(v.cpuTables), pairs[k].0);
        }
      }
      CopyOutKeeps(v.pools, gpuMem, cpuMem, pairs, cs[i]);
    }
  }

  /** Every live block that is marked dirty has its CPU block to itself. */
  predicate Separate(p: Pools) {
    forall b :: 0 <= b < |p.gpu| && p.gpu[b].refCnt > 0 && p.gpu[b].status.IsDirty() ==> Alone(p, b)
  }

  // ----- swapping out

  lemma DirtyIsHarmless<T>(v: View, leaked: multiset<nat>, r: Id, gpuMem: seq<T>, cpuMem: seq<T>)
    requires Consistent(v, leaked) && Separate(v.pools) && r in v.tables && Below(v.tables[r], |v.pools.gpu|)
    requires |gpuMem| == |v.pools.gpu| && |cpuMem| == |v.pools.cpuRef|
    ensures Harmless(v.pools, gpuMem, cpuMem, DirtyPairs(v.pools.gpu, v.tables[r]))
  {
    hide Consistent, DirtyPairs, Alone;
    var p, t := v.pools, v.tables[r];
    var pairs := DirtyPairs(p.gpu, t);
    DirtyPairsAre(p.gpu, t);
    forall k | 0 <= k < |pairs|
      ensures pairs[k].0 < |p.gpu| && pairs[k].1 < |p.cpuRef| && p.gpu[pairs[k].0].refCnt > 0
      ensures pairs[k].1 == p.gpu[pairs[k].0].mappedCpu && Alone(p, pairs[k].0)
    {
      assert pairs[k] in pairs;
      var i :| 0 <= i < |t| && t[i] == pairs[k].0;
      EntryFacts(v, leaked, r, i);
      AloneInRange(p, pairs[k].0);
    }
  }

  lemma AloneInRange(p: Pools, b: nat)
    requires Alone(p, b)
    ensures b < |p.gpu| && p.gpu[b].mappedCpu < |p.cpuRef|
  {
  }

  /** `swap_out`, with its copies: the CPU blocks hold what the request has computed. */
  lemma SwapOutKeepsData<T>(v: View, leaked: multiset<nat>, q: Pools, r: Id, gpuMem: seq<T>, cpuMem: seq<T>,
                            data: map<Id, seq<T>>, content: Key -> T)
    requires Consistent(v, leaked) && Intact(v, gpuMem, cpuMem, data, content) && Separate(v.pools)
    requires r in v.tables && r !in v.cpuTables && Below(v.tables[r], |v.pools.gpu|)
    requires SameKeys(v.pools, q) && SameMapping(v.pools, q)
    requires forall b :: 0 <= b < |q.gpu| && b !in v.tables[r] ==> q.gpu[b] == v.pools.gpu[b]
    ensures var pairs := DirtyPairs(v.pools.gpu, v.tables[r]);
            && InBounds(pairs, |gpuMem|, |cpuMem|)
            && Intact(View(q, v.tables - {r}, v.cpuTables[r := CpuOf(v.pools.gpu, v.tables[r])], v.chains - {r}),
                      gpuMem, Copied(gpuMem, cpuMem, pairs), data, content)
  {
    hide Copied, Consistent, DirtyPairs, Separate, Harmless, CachedHold, CleanHold;
    var t := v.tables[r];
    var pairs := DirtyPairs(v.pools.gpu, t);
    DirtyIsHarmless(v, leaked, r, gpuMem, cpuMem);
    CopyOutKeepsData(v, leaked, pairs, gpuMem, cpuMem, data, content);
    var after := Copied(gpuMem, cpuMem, pairs);
    SavedBehind(v, leaked, r, gpuMem, cpuMem, data, content);
    ReleaseKeepsData(v, leaked, q, r, gpuMem, after, data, content);
  }

  lemma SavedBehind<T>(v: View, leaked: multiset<nat>, r: Id, gpuMem: seq<T>, cpuMem: seq<T>, data: map<Id, seq<T>>,
                       content: Key -> T)
    requires Consistent(v, leaked) && Intact(v, gpuMem, cpuMem, data, content) && r in v.tables
    requires Below(v.tables[r], |v.pools.gpu|)
    requires var pairs := DirtyPairs(v.pools.gpu, v.tables[r]);
             && Harmless(v.pools, gpuMem, cpuMem, pairs) && InBounds(pairs, |gpuMem|, |cpuMem|)
             && Intact(v, gpuMem, Copied(gpuMem, cpuMem, pairs), data, content)
    ensures r in data
    ensures Holds(CpuOf(v.pools.gpu, v.tables[r]), Copied(gpuMem, cpuMem, DirtyPairs(v.pools.gpu, v.tables[r])),
                  data[r])
  {
    hide Copied, DirtyPairs, CachedHold, SwappedHold;
    var p, t := v.pools, v.tables[r];
    var pairs := DirtyPairs(p.gpu, t);
    var after := Copied(gpuMem, cpuMem, pairs);
    DirtyPairsAre(p.gpu, t);
    assert CleanIn(p.gpu, t, gpuMem, after, |data[r]|);
    forall i | 0 <= i < |data[r]|
      ensures p.gpu[t[i]].mappedCpu < |after| && after[p.gpu[t[i]].mappedCpu] == data[r][i]
    {
      if p.gpu[t[i]].status.IsDirty() {
        assert (t[i], p.gpu[t[i]].mappedCpu) in pairs;
        var k :| 0 <= k < |pairs| && pairs[k] == (t[i], p.gpu[t[i]].mappedCpu);
        CopyOutAt(p, Held(v.tables) + leaked, Held(v.cpuTables), gpuMem, cpuMem, pairs, k);
      }
    }
  }

  // ----- appending

  lemma CachingIsHarmless<T>(v: View, leaked: multiset<nat>, q: Pools, r: Id, blocks: seq<nat>, full: nat,
                             gpuMem: seq<T>, cpuMem: seq<T>, data: map<Id, seq<T>>, content: Key -> T)
    requires Consistent(v, leaked) && Intact(v, gpuMem, cpuMem, data, content) && Separate(v.pools) && r in v.tables
    requires r in v.chains
    requires r in data && |v.chains[r]| <= full <= |data[r]|
    requires AppendEffect(v.pools, q, v.tables[r], blocks, |v.chains[r]|)
    requires Below(v.tables[r] + blocks, |q.gpu|)
    ensures full <= |v.tables[r] + blocks|
    ensures Harmless(v.pools, gpuMem, cpuMem, CopiesOut(q.gpu, v.tables[r] + blocks, |v.chains[r]|, full))
  {
    hide Counts, TablesAgree, CopiesOut, Alone, Held;
    var p, was, n := v.pools, v.tables[r], |v.chains[r]|;
    assert Holds(was, gpuMem, data[r]);
    var t := was + blocks;
    var pairs := CopiesOut(q.gpu, t, n, full);
    CopiesOutAre(q.gpu, t, n, full);
    forall k | 0 <= k < |pairs|
      ensures pairs[k].0 < |p.gpu| && pairs[k].1 < |p.cpuRef| && p.gpu[pairs[k].0].refCnt > 0
      ensures pairs[k].1 == p.gpu[pairs[k].0].mappedCpu
      ensures Alone(p, pairs[k].0) || cpuMem[pairs[k].1] == gpuMem[pairs[k].0]
    {
      assert pairs[k] in pairs;
      var i :| 0 <= i < full - n && t[n..full][i] == pairs[k].0;
      assert pairs[k].0 == was[n + i];
      EntryFacts(v, leaked, r, n + i);
      NotAmongNew(p, was, blocks, n + i);
      MappedInRange(p, Held(v.tables) + leaked, Held(v.cpuTables), was[n + i]);
      assert CleanIn(p.gpu, was, gpuMem, cpuMem, |data[r]|);
    }
  }

  lemma NotAmongNew(p: Pools, was: seq<nat>, blocks: seq<nat>, i: nat)
    requires i < |was| && was[i] !in p.freeGpu && forall l :: 0 <= l < |blocks| ==> blocks[l] in p.freeGpu
    ensures was[i] !in blocks
  {
  }

  /** `append_slots`, with its copies: the cached blocks hold the data of their keys. */
  lemma AppendKeepsData<T>(v: View, leaked: multiset<nat>, w: View, r: Id, blocks: seq<nat>, keys: seq<Key>, full: nat,
                           required: int, gpuMem: seq<T>, cpuMem: seq<T>, data: map<Id, seq<T>>, content: Key -> T)
    requires Consistent(v, leaked) && Intact(v, gpuMem, cpuMem, data, content) && Separate(v.pools) && r in v.tables
    requires r in v.chains
    requires r in data && |v.chains[r]| <= full <= |data[r]| <= required && full <= |keys|
    requires |w.pools.cpuRef| == |v.pools.cpuRef|
    requires w == View(w.pools, v.tables[r := v.tables[r] + blocks], v.cpuTables, v.chains[r := keys[..full]])
    requires Consistent(w, leaked) && AppendEffect(v.pools, w.pools, v.tables[r], blocks, |v.chains[r]|)
    requires Marked(w.pools.gpu, w.tables[r], full, required, HalfDirty)
    requires forall i :: |v.chains[r]| <= i < full ==> data[r][i] == content(keys[i])
    ensures full <= |w.tables[r]| && Below(w.tables[r], |w.pools.gpu|)
    ensures var pairs := CopiesOut(w.pools.gpu, w.tables[r], |v.chains[r]|, full);
            InBounds(pairs, |gpuMem|, |cpuMem|) && Intact(w, gpuMem, Copied(gpuMem, cpuMem, pairs), data, content)
  {
    hide Copied, CopiesOut, Separate, Harmless, Consistent, CachedHold, CleanHold, TablesHold, SwappedHold;
    var q, n, t := w.pools, |v.chains[r]|, w.tables[r];
    CachingIsHarmless(v, leaked, q, r, blocks, full, gpuMem, cpuMem, data, content);
    var pairs := CopiesOut(q.gpu, t, n, full);
    CopyOutKeepsData(v, leaked, pairs, gpuMem, cpuMem, data, content);
    var after := Copied(gpuMem, cpuMem, pairs);
    AppendedCached(v, leaked, w, r, blocks, keys, full, gpuMem, cpuMem, data, content, after);
    AppendedTables(v, r, blocks, keys[..full], gpuMem, data);
    AppendedAllClean(v, leaked, w, r, blocks, full, required, gpuMem, after, data, content);
  }

  lemma AppendedTables<T>(v: View, r: Id, blocks: seq<nat>, keys: seq<Key>, gpuMem: seq<T>, data: map<Id, seq<T>>)
    requires TablesHold(v.tables, v.chains, gpuMem, data) && r in v.tables && r in data && |keys| <= |data[r]|
    ensures TablesHold(v.tables[r := v.tables[r] + blocks], v.chains[r := keys], gpuMem, data)
  {
    assert Holds(v.tables[r], gpuMem, data[r]);
    assert Holds(v.tables[r] + blocks, gpuMem, data[r]);
  }

  ghost predicate Appending<T>(v: View, leaked: multiset<nat>, q: Pools, r: Id, blocks: seq<nat>, full: nat,
                               gpuMem: seq<T>, cpuMem: seq<T>, data: map<Id, seq<T>>, content: Key -> T) {
    && Consistent(v, leaked) && Intact(v, gpuMem, cpuMem, data, content) && r in v.tables && r in v.chains && r in data
    && |v.chains[r]| <= full <= |data[r]| && AppendEffect(v.pools, q, v.tables[r], blocks, |v.chains[r]|)
    && Below(v.tables[r] + blocks, |q.gpu|) && full <= |v.tables[r] + blocks|
    && var pairs := CopiesOut(q.gpu, v.tables[r] + blocks, |v.chains[r]|, full);
    && Harmless(v.pools, gpuMem, cpuMem, pairs) && InBounds(pairs, |gpuMem|, |cpuMem|)
    && CachedHold(v.pools.gpu, gpuMem, Copied(gpuMem, cpuMem, pairs), content)
  }

  lemma AppendedCached<T>(v: View, leaked: multiset<nat>, w: View, r: Id, blocks: seq<nat>, keys: seq<Key>, full: nat,
                          gpuMem: seq<T>, cpuMem: seq<T>, data: map<Id, seq<T>>, content: Key -> T, after: seq<T>)
    requires Appending(v, leaked, w.pools, r, blocks, full, gpuMem, cpuMem, data, content)
    requires after == Copied(gpuMem, cpuMem, CopiesOut(w.pools.gpu, v.tables[r] + blocks, |v.chains[r]|, full))
    requires Consistent(w, leaked) && r in w.tables && w.tables[r] == v.tables[r] + blocks
    requires r in w.chains && full <= |keys| && w.chains[r] == keys[..full]
    requires forall i :: |v.chains[r]| <= i < full ==> data[r][i] == content(keys[i])
    ensures CachedHold(w.pools.gpu, gpuMem, after, content)
  {
    hide Appending, Copied, CopiesOut, Consistent, CachedAt;
    forall b | 0 <= b < |w.pools.gpu| && w.pools.gpu[b].key.Some?
      ensures CachedAt(w.pools.gpu, gpuMem, after, content, b)
    {
      AppendedCachedAt(v, leaked, w, r, blocks, keys, full, gpuMem, cpuMem, data, content, after, b);
    }
  }

  lemma AppendedCachedAt<T>(v: View, leaked: multiset<nat>, w: View, r: Id, blocks: seq<nat>, keys: seq<Key>, full: nat,
                            gpuMem: seq<T>, cpuMem: seq<T>, data: map<Id, seq<T>>, content: Key -> T,
                            after: seq<T>, b: nat)
    requires Appending(v, leaked, w.pools, r, blocks, full, gpuMem, cpuMem, data, content)
    requires after == Copied(gpuMem, cpuMem, CopiesOut(w.pools.gpu, v.tables[r] + blocks, |v.chains[r]|, full))
    requires Consistent(w, leaked) && r in w.tables && w.tables[r] == v.tables[r] + blocks
    requires r in w.chains && full <= |keys| && w.chains[r] == keys[..full]
    requires forall i :: |v.chains[r]| <= i < full ==> data[r][i] == content(keys[i])
    requires b < |w.pools.gpu| && w.pools.gpu[b].key.Some?
    ensures CachedAt(w.pools.gpu, gpuMem, after, content, b)
  {
    hide Copied, CopiesOut, Harmless, Consistent, CachedHold, Intact, AppendEffect, CopyBehind, InBounds;
    var q, n, t := w.pools, |v.chains[r]|, w.tables[r];
    if b !in t[n..] {
      CachedElsewhere(v.pools, q, v.tables[r], blocks, n, gpuMem, after, content, b);
    } else {
      var j :| 0 <= j < |t| - n && t[n..][j] == b;
      assert t[n + j] == b;
      EntryFacts(w, leaked, r, n + j);
      NewlyCached(v, leaked, q, r, blocks, full, n + j, gpuMem, cpuMem, data, content);
    }
  }

  lemma CachedElsewhere<T>(p: Pools, q: Pools, was: seq<nat>, blocks: seq<nat>, n: nat, gpuMem: seq<T>, after: seq<T>,
                           content: Key -> T, b: nat)
    requires AppendEffect(p, q, was, blocks, n) && CachedHold(p.gpu, gpuMem, after, content)
    requires b < |q.gpu| && b !in (was + blocks)[n..] && q.gpu[b].key.Some?
    ensures CachedAt(q.gpu, gpuMem, after, content, b)
  {
  }

  lemma AppendedAllClean<T>(v: View, leaked: multiset<nat>, w: View, r: Id, blocks: seq<nat>, full: nat, required: int,
                            gpuMem: seq<T>, after: seq<T>, data: map<Id, seq<T>>, content: Key -> T)
    requires Consistent(v, leaked) && Intact(v, gpuMem, after, data, content) && r in v.tables && r in v.chains
    requires r in data
    requires w.tables == v.tables[r := v.tables[r] + blocks] && |v.chains[r]| <= full <= |data[r]| <= required
    requires Consistent(w, leaked) && AppendEffect(v.pools, w.pools, v.tables[r], blocks, |v.chains[r]|)
    requires r in w.chains && |w.chains[r]| == full && Marked(w.pools.gpu, w.tables[r], full, required, HalfDirty)
    requires CachedHold(w.pools.gpu, gpuMem, after, content)
    ensures CleanHold(w.pools.gpu, w.tables, gpuMem, after, data)
  {
    hide Consistent, Intact, AppendEffect, Marked, CleanIn, CopyBehind;
    forall s | s in w.tables && s in data
      ensures CleanIn(w.pools.gpu, w.tables[s], gpuMem, after, |data[s]|)
    {
      AppendedClean(v, leaked, w, r, blocks, full, required, gpuMem, after, data, content, s);
    }
  }

  lemma NewlyCached<T>(v: View, leaked: multiset<nat>, q: Pools, r: Id, blocks: seq<nat>, full: nat, j: nat,
                       gpuMem: seq<T>, cpuMem: seq<T>, data: map<Id, seq<T>>, content: Key -> T)
    requires Consistent(v, leaked) && Intact(v, gpuMem, cpuMem, data, content) && r in v.tables && r in v.chains
    requires r in data && |v.chains[r]| <= j < full <= |data[r]|
    requires AppendEffect(v.pools, q, v.tables[r], blocks, |v.chains[r]|)
    requires Below(v.tables[r] + blocks, |q.gpu|) && full <= |v.tables[r] + blocks|
    requires var pairs := CopiesOut(q.gpu, v.tables[r] + blocks, |v.chains[r]|, full);
             Harmless(v.pools, gpuMem, cpuMem, pairs) && InBounds(pairs, |gpuMem|, |cpuMem|)
    ensures var pairs, b := CopiesOut(q.gpu, v.tables[r] + blocks, |v.chains[r]|, full), (v.tables[r] + blocks)[j];
            CopyBehind(q.gpu, gpuMem, Copied(gpuMem, cpuMem, pairs), b) && b < |gpuMem| && gpuMem[b] == data[r][j]
  {
    hide Copied, CopiesOut, CachedHold, CleanHold, SwappedHold, Counts, TablesAgree, Held;
    var p, n, t := v.pools, |v.chains[r]|, v.tables[r] + blocks;
    var pairs, b := CopiesOut(q.gpu, t, n, full), t[j];
    assert Holds(v.tables[r], gpuMem, data[r]);
    CopiesOutAre(q.gpu, t, n, full);
    assert t[n..full][j - n] == b;
    assert (b, q.gpu[b].mappedCpu) in pairs;
    var k :| 0 <= k < |pairs| && pairs[k] == (b, q.gpu[b].mappedCpu);
    CopyOutAt(p, Held(v.tables) + leaked, Held(v.cpuTables), gpuMem, cpuMem, pairs, k);
    EntryFacts(v, leaked, r, j);
    NotAmongNew(p, v.tables[r], blocks, j);
  }

  lemma AppendedClean<T>(v: View, leaked: multiset<nat>, w: View, r: Id, blocks: seq<nat>, full: nat, required: int,
                         gpuMem: seq<T>, after: seq<T>, data: map<Id, seq<T>>, content: Key -> T, s: Id)
    requires Consistent(v, leaked) && Intact(v, gpuMem, after, data, content) && r in v.tables && r in v.chains
    requires r in data
    requires w.tables == v.tables[r := v.tables[r] + blocks] && |v.chains[r]| <= full <= |data[r]| <= required
    requires Consistent(w, leaked) && AppendEffect(v.pools, w.pools, v.tables[r], blocks, |v.chains[r]|)
    requires r in w.chains && |w.chains[r]| == full && Marked(w.pools.gpu, w.tables[r], full, required, HalfDirty)
    requires forall b :: 0 <= b < |w.pools.gpu| && w.pools.gpu[b].key.Some? ==>
               CopyBehind(w.pools.gpu, gpuMem, after, b)
    requires s in w.tables && s in data
    ensures CleanIn(w.pools.gpu, w.tables[s], gpuMem, after, |data[s]|)
  {
    hide Consistent, CachedHold, SwappedHold;
    var p, q, n, t := v.pools, w.pools, |v.chains[r]|, w.tables[r];
    assert CleanIn(p.gpu, v.tables[s], gpuMem, after, |data[s]|) && Holds(v.tables[s], gpuMem, data[s]);
    assert Below(w.tables[s], |q.gpu|);
    forall i | 0 <= i < |data[s]| && !q.gpu[w.tables[s][i]].status.IsDirty()
      ensures CopyBehind(q.gpu, gpuMem, after, w.tables[s][i])
    {
      var b := w.tables[s][i];
      assert b == v.tables[s][i];
      EntryFacts(v, leaked, s, i);
      EntryFacts(w, leaked, s, i);
      if b in t[n..] && q.gpu[b].key == None {
        var j :| 0 <= j < |t| - n && t[n..][j] == b;
        assert b == t[n + j];
        EntryFacts(w, leaked, r, n + j);
        PrivateEntry(w, leaked, r, n + j, s, i);
      }
    }
  }

  // ----- swapping in

  /** What a request holds after its return: what it had computed, or what the cache knows if
      that is more. */
  function Returned<T>(hits: seq<Key>, had: seq<T>, content: Key -> T): seq<T> {
    if |hits| >= |had| then ContentOf(hits, content) else had
  }

  /** `swap_in`, with its copies: the request finds what it had computed. */
  lemma SwapInKeepsData<T>(v: View, leaked: multiset<nat>, q: Pools, r: Id, computed: seq<nat>, hits: seq<Key>,
                           blocks: seq<nat>,
                           blockSize: nat, numComputed: nat, gpuMem: seq<T>, cpuMem: seq<T>, data: map<Id, seq<T>>,
                           content: Key -> T)
    requires Consistent(v, leaked) && Intact(v, gpuMem, cpuMem, data, content) && r !in v.tables && r in v.cpuTables
    requires Keyed(v.pools.gpu, computed, hits) && SwapInEffect(v.pools, q, computed, blocks) && NoDup(blocks)
    requires |q.cpuRef| == |v.pools.cpuRef| && |computed| + |blocks| == |v.cpuTables[r]|
    requires |computed| <= |v.cpuTables[r]|
    requires BackedBy(q.gpu, blocks, v.cpuTables[r], |computed|) && Below(v.cpuTables[r], |cpuMem|)
    requires forall j :: 0 <= j < |v.cpuTables[r]| ==> (HasTokens(j, blockSize, numComputed) <==> j < |data[r]|)
    requires forall i :: 0 <= i < |hits| && i < |data[r]| ==> data[r][i] == content(hits[i])
    ensures var copies := CopiesIn(v.cpuTables[r], blocks, |computed|, |blocks|, blockSize, numComputed);
            && InBounds(copies, |cpuMem|, |gpuMem|)
            && Intact(View(q, v.tables[r := computed + blocks], v.cpuTables - {r}, v.chains[r := hits]),
                      Copied(cpuMem, gpuMem, copies), cpuMem, data[r := Returned(hits, data[r], content)], content)
  {
    hide Copied, CopiesIn, Consistent, CachedHold, CleanHold, TablesHold, SwappedHold, HasTokens, BackedBy,
         SwapInEffect, Keyed, CopiedBack, Returned;
    var cpu := v.cpuTables[r];
    SwappedHas(v.cpuTables, cpuMem, data, r);
    SwappedData(v.cpuTables, cpuMem, data, r, Returned(hits, data[r], content));
    EffectInRange(v.pools, q, computed, blocks);
    CopiesInBounds(cpu, blocks, |computed|, blockSize, numComputed, |cpuMem|, |gpuMem|);
    var after := Copied(cpuMem, gpuMem, CopiesIn(cpu, blocks, |computed|, |blocks|, blockSize, numComputed));
    CopiesBack(cpu, blocks, |computed|, blockSize, numComputed, gpuMem, cpuMem, data[r]);
    ReturnedTables(v, leaked, q, r, computed, hits, blocks, gpuMem, cpuMem, after, data, content);
    ReturnedCached(v.pools, q, computed, blocks, gpuMem, after, cpuMem, content, cpu, data[r]);
    ReturnedClean(v, leaked, q, r, computed, hits, blocks, gpuMem, cpuMem, after, data, content);
  }

  /** The new blocks hold the data from the CPU blocks, and nothing else has changed. */
  ghost predicate CopiedBack<T>(cpu: seq<nat>, blocks: seq<nat>, first: nat, gpuMem: seq<T>, cpuMem: seq<T>,
                                after: seq<T>, d: seq<T>) {
    && |after| == |gpuMem| && |d| <= first + |blocks| == |cpu| && Below(cpu, |cpuMem|) && Below(blocks, |after|)
    && (forall b :: 0 <= b < |gpuMem| && b !in blocks ==> after[b] == gpuMem[b])
    && forall i :: 0 <= i < |blocks| ==> BackAt(cpu, blocks, first, cpuMem, after, d, i)
  }

  ghost predicate BackAt<T>(cpu: seq<nat>, blocks: seq<nat>, first: nat, cpuMem: seq<T>, after: seq<T>, d: seq<T>,
                            i: nat) {
    i < |blocks| && first + i < |d| ==>
      && blocks[i] < |after| && first + i < |cpu| && cpu[first + i] < |cpuMem|
      && after[blocks[i]] == d[first + i] == cpuMem[cpu[first + i]]
  }

  lemma CopiesBack<T>(cpu: seq<nat>, blocks: seq<nat>, first: nat, blockSize: nat, numComputed: nat, gpuMem: seq<T>,
                      cpuMem: seq<T>, d: seq<T>)
    requires first + |blocks| == |cpu| && NoDup(blocks) && Below(cpu, |cpuMem|) && Below(blocks, |gpuMem|)
    requires Holds(cpu, cpuMem, d)
    requires InBounds(CopiesIn(cpu, blocks, first, |blocks|, blockSize, numComputed), |cpuMem|, |gpuMem|)
    requires forall j :: 0 <= j < |cpu| ==> (HasTokens(j, blockSize, numComputed) <==> j < |d|)
    ensures CopiedBack(cpu, blocks, first, gpuMem, cpuMem,
                       Copied(cpuMem, gpuMem, CopiesIn(cpu, blocks, first, |blocks|, blockSize, numComputed)), d)
  {
    hide Copied, CopiesIn, HasTokens, NoDup;
    var after := Copied(cpuMem, gpuMem, CopiesIn(cpu, blocks, first, |blocks|, blockSize, numComputed));
    forall b | 0 <= b < |gpuMem| && b !in blocks
      ensures after[b] == gpuMem[b]
    {
      CopyInKeeps(cpu, blocks, first, blockSize, numComputed, cpuMem, gpuMem, b);
    }
    forall i | 0 <= i < |blocks|
      ensures BackAt(cpu, blocks, first, cpuMem, after, d, i)
    {
      if first + i < |d| {
        CopyBackAt(cpu, blocks, first, blockSize, numComputed, gpuMem, cpuMem, d, i);
      }
    }
  }

  lemma CopyBackAt<T>(cpu: seq<nat>, blocks: seq<nat>, first: nat, blockSize: nat, numComputed: nat, gpuMem: seq<T>,
                      cpuMem: seq<T>, d: seq<T>, i: nat)
    requires first + |blocks| == |cpu| && NoDup(blocks) && Below(cpu, |cpuMem|) && Below(blocks, |gpuMem|)
    requires Holds(cpu, cpuMem, d)
    requires InBounds(CopiesIn(cpu, blocks, first, |blocks|, blockSize, numComputed), |cpuMem|, |gpuMem|)
    requires i < |blocks| && first + i < |d| && HasTokens(first + i, blockSize, numComputed)
    ensures Copied(cpuMem, gpuMem, CopiesIn(cpu, blocks, first, |blocks|, blockSize, numComputed))[blocks[i]] ==
            d[first + i] == cpuMem[cpu[first + i]]
  {
    hide Copied, CopiesIn, HasTokens, InBounds;
    CopyInAt(cpu, blocks, first, blockSize, numComputed, cpuMem, gpuMem, i);
  }

  lemma SwappedData<T>(cpuTables: map<Id, seq<nat>>, cpuMem: seq<T>, data: map<Id, seq<T>>, r: Id, d: seq<T>)
    requires SwappedHold(cpuTables, cpuMem, data) && r in cpuTables
    ensures SwappedHold(cpuTables - {r}, cpuMem, data[r := d])
  {
  }

  lemma SwappedHas<T>(cpuTables: map<Id, seq<nat>>, cpuMem: seq<T>, data: map<Id, seq<T>>, r: Id)
    requires SwappedHold(cpuTables, cpuMem, data) && r in cpuTables
    ensures r in data && Holds(cpuTables[r], cpuMem, data[r])
  {
  }

  lemma EffectInRange(p: Pools, q: Pools, computed: seq<nat>, blocks: seq<nat>)
    requires SwapInEffect(p, q, computed, blocks)
    ensures Below(blocks, |p.gpu|) && |q.gpu| == |p.gpu|
  {
  }

  lemma ReturnedTables<T>(v: View, leaked: multiset<nat>, q: Pools, r: Id, computed: seq<nat>, hits: seq<Key>,
                          blocks: seq<nat>,
                          gpuMem: seq<T>, cpuMem: seq<T>, after: seq<T>, data: map<Id, seq<T>>, content: Key -> T)
    requires Consistent(v, leaked) && Intact(v, gpuMem, cpuMem, data, content) && r !in v.tables && r in data
    requires Keyed(v.pools.gpu, computed, hits) && SwapInEffect(v.pools, q, computed, blocks) && |after| == |gpuMem|
    requires r in v.cpuTables && CopiedBack(v.cpuTables[r], blocks, |computed|, gpuMem, cpuMem, after, data[r])
    requires forall i :: 0 <= i < |hits| && i < |data[r]| ==> data[r][i] == content(hits[i])
    ensures TablesHold(v.tables[r := computed + blocks], v.chains[r := hits], after,
                       data[r := Returned(hits, data[r], content)])
  {
    hide Consistent, CleanHold, SwappedHold;
    var t, d := computed + blocks, Returned(hits, data[r], content);
    forall i | 0 <= i < |d|
      ensures t[i] < |after| && after[t[i]] == d[i]
    {
      if i < |computed| {
        assert t[i] == computed[i];
        assert computed[i] !in blocks;
        assert CachedAt(v.pools.gpu, gpuMem, cpuMem, content, computed[i]);
      } else {
        assert t[i] == blocks[i - |computed|];
        assert BackAt(v.cpuTables[r], blocks, |computed|, cpuMem, after, data[r], i - |computed|);
      }
    }
    forall s | s in v.tables
      ensures Holds(v.tables[s], after, data[s])
    {
      var u := v.tables[s];
      assert Holds(u, gpuMem, data[s]);
      forall i | 0 <= i < |data[s]|
        ensures after[u[i]] == data[s][i]
      {
        EntryFacts(v, leaked, s, i);
        assert u[i] !in blocks;
      }
    }
  }

  lemma ReturnedCached<T>(p: Pools, q: Pools, computed: seq<nat>, blocks: seq<nat>, gpuMem: seq<T>, after: seq<T>,
                          cpuMem: seq<T>, content: Key -> T, cpu: seq<nat>, d: seq<T>)
    requires CachedHold(p.gpu, gpuMem, cpuMem, content) && SwapInEffect(p, q, computed, blocks)
    requires |gpuMem| == |p.gpu| && CopiedBack(cpu, blocks, |computed|, gpuMem, cpuMem, after, d)
    ensures CachedHold(q.gpu, after, cpuMem, content)
  {
    forall b | 0 <= b < |q.gpu| && q.gpu[b].key.Some?
      ensures CachedAt(q.gpu, after, cpuMem, content, b)
    {
      assert b !in blocks;
      assert CachedAt(p.gpu, gpuMem, cpuMem, content, b);
    }
  }

  lemma ReturnedClean<T>(v: View, leaked: multiset<nat>, q: Pools, r: Id, computed: seq<nat>, hits: seq<Key>,
                         blocks: seq<nat>,
                         gpuMem: seq<T>, cpuMem: seq<T>, after: seq<T>, data: map<Id, seq<T>>, content: Key -> T)
    requires Consistent(v, leaked) && Intact(v, gpuMem, cpuMem, data, content) && r !in v.tables && r in v.cpuTables
    requires r in data
    requires Keyed(v.pools.gpu, computed, hits) && SwapInEffect(v.pools, q, computed, blocks) && |after| == |gpuMem|
    requires BackedBy(q.gpu, blocks, v.cpuTables[r], |computed|)
    requires CopiedBack(v.cpuTables[r], blocks, |computed|, gpuMem, cpuMem, after, data[r])
    ensures CleanHold(q.gpu, v.tables[r := computed + blocks], after, cpuMem,
                      data[r := Returned(hits, data[r], content)])
  {
    hide Consistent, TablesHold, SwappedHold;
    var t, d := computed + blocks, Returned(hits, data[r], content);
    forall i | 0 <= i < |d|
      ensures CopyBehind(q.gpu, after, cpuMem, t[i])
    {
      if i < |computed| {
        assert t[i] == computed[i];
        assert computed[i] !in blocks;
        assert CachedAt(v.pools.gpu, gpuMem, cpuMem, content, computed[i]);
      } else {
        assert t[i] == blocks[i - |computed|];
        assert BackAt(v.cpuTables[r], blocks, |computed|, cpuMem, after, data[r], i - |computed|);
      }
    }
    forall s | s in v.tables && s in data
      ensures CleanIn(q.gpu, v.tables[s], after, cpuMem, |data[s]|)
    {
      var u := v.tables[s];
      assert CleanIn(v.pools.gpu, u, gpuMem, cpuMem, |data[s]|);
      forall i | 0 <= i < |data[s]| && !q.gpu[u[i]].status.IsDirty()
        ensures CopyBehind(q.gpu, after, cpuMem, u[i])
      {
        EntryFacts(v, leaked, s, i);
        assert u[i] !in blocks;
        if u[i] in computed {
          assert CachedAt(v.pools.gpu, gpuMem, cpuMem, content, u[i]);
        }
      }
    }
  }

  // ----- computing

  ghost function WritePairs(t: seq<nat>, lo: nat, n: nat): Pairs
    requires lo + n <= |t|
  {
    seq(n, k requires 0 <= k < n => (k, t[lo + k]))
  }

  /** The memory after the model has written blocks of a table, from place `lo` on. */
  ghost function Written<T>(gpuMem: seq<T>, t: seq<nat>, lo: nat, values: seq<T>): seq<T>
    requires lo + |values| <= |t| && Below(t, |gpuMem|)
  {
    Copied(values, gpuMem, WritePairs(t, lo, |values|))
  }

  lemma WrittenAt<T>(gpuMem: seq<T>, t: seq<nat>, lo: nat, values: seq<T>, k: nat)
    requires lo + |values| <= |t| && Below(t, |gpuMem|) && k < |values|
    requires forall j :: lo <= j < lo + |values| && j != lo + k ==> t[j] != t[lo + k]
    ensures Written(gpuMem, t, lo, values)[t[lo + k]] == values[k]
  {
    hide Copied;
    var pairs := WritePairs(t, lo, |values|);
    assert pairs[k].1 == t[lo + k];
    assert Writes(pairs, t[lo + k]);
    CopiedValue(values, gpuMem, pairs, t[lo + k], values[k]);
  }

  lemma WrittenElsewhere<T>(gpuMem: seq<T>, t: seq<nat>, lo: nat, values: seq<T>, b: nat)
    requires lo + |values| <= |t| && Below(t, |gpuMem|) && b < |gpuMem|
    requires forall j :: lo <= j < lo + |values| ==> t[j] != b
    ensures Written(gpuMem, t, lo, values)[b] == gpuMem[b]
  {
    hide Copied;
    var pairs := WritePairs(t, lo, |values|);
    forall k | 0 <= k < |pairs|
      ensures pairs[k].1 != b
    {
      assert pairs[k].1 == t[lo + k];
    }
    CopiedValue(values, gpuMem, pairs, b, gpuMem[b]);
  }

  /** A block that is about to be written is marked dirty, or happens to have its new data
      behind it already. */
  ghost predicate Ready<T>(gpu: seq<Gpu>, cpuMem: seq<T>, t: seq<nat>, lo: nat, values: seq<T>, i: nat) {
    && lo <= i < |t| && i - lo < |values| && t[i] < |gpu| && gpu[t[i]].mappedCpu < |cpuMem|
    && (gpu[t[i]].status.IsDirty() || cpuMem[gpu[t[i]].mappedCpu] == values[i - lo])
  }

  /** The model writes the blocks of a request from its first block that is not full on.
      Everything stays intact exactly when every block that is written is marked dirty, save
      for a coincidence. */
  lemma ComputeKeepsDataIff<T>(v: View, leaked: multiset<nat>, r: Id, lo: nat, values: seq<T>, gpuMem: seq<T>,
                               cpuMem: seq<T>, data: map<Id, seq<T>>, content: Key -> T)
    requires Consistent(v, leaked) && Intact(v, gpuMem, cpuMem, data, content)
    requires r in v.tables && r in v.chains && r !in v.cpuTables && r in data && Below(v.tables[r], |gpuMem|)
    requires |v.chains[r]| <= lo <= |data[r]| <= lo + |values| <= |v.tables[r]|
    ensures Intact(v, Written(gpuMem, v.tables[r], lo, values), cpuMem, data[r := data[r][..lo] + values], content) <==>
            forall i :: lo <= i < lo + |values| ==> Ready(v.pools.gpu, cpuMem, v.tables[r], lo, values, i)
  {
    hide Consistent, CachedHold, CleanHold, TablesHold, SwappedHold, Written, Ready;
    var t := v.tables[r];
    var after := Written(gpuMem, t, lo, values);
    var data' := data[r := data[r][..lo] + values];
    WritesApart(v, leaked, r, lo, values, gpuMem);
    ComputedTables(v, leaked, r, lo, values, gpuMem, cpuMem, data, content);
    ComputedCached(v, leaked, r, lo, values, gpuMem, cpuMem, data, content);
    ComputedClean(v, leaked, r, lo, values, gpuMem, cpuMem, data, content);
    SwappedElsewhere(v.cpuTables, cpuMem, data, r, data'[r]);
  }

  /** Only blocks of the request's own are written. */
  ghost predicate WroteOnly<T>(v: View, r: Id, lo: nat, values: seq<T>, gpuMem: seq<T>, after: seq<T>)
    requires r in v.tables && lo + |values| <= |v.tables[r]| && Below(v.tables[r], |gpuMem|)
  {
    var t := v.tables[r];
    && |after| == |gpuMem|
    && (forall k :: 0 <= k < |values| ==> after[t[lo + k]] == values[k])
    && (forall b :: 0 <= b < |gpuMem| && b !in t[lo..lo + |values|] ==> after[b] == gpuMem[b])
  }

  lemma WritesApart<T>(v: View, leaked: multiset<nat>, r: Id, lo: nat, values: seq<T>, gpuMem: seq<T>)
    requires Consistent(v, leaked) && r in v.tables && r in v.chains && Below(v.tables[r], |gpuMem|)
    requires |v.chains[r]| <= lo && lo + |values| <= |v.tables[r]|
    ensures WroteOnly(v, r, lo, values, gpuMem, Written(gpuMem, v.tables[r], lo, values))
  {
    hide Consistent, Written;
    var t := v.tables[r];
    WrittenLength(gpuMem, t, lo, values);
    forall k | 0 <= k < |values|
      ensures Written(gpuMem, t, lo, values)[t[lo + k]] == values[k]
    {
      forall j | lo <= j < lo + |values| && j != lo + k
        ensures t[j] != t[lo + k]
      {
        if t[j] == t[lo + k] {
          PrivateEntry(v, leaked, r, j, r, lo + k);
        }
      }
      WrittenAt(gpuMem, t, lo, values, k);
    }
    forall b | 0 <= b < |gpuMem| && b !in t[lo..lo + |values|]
      ensures Written(gpuMem, t, lo, values)[b] == gpuMem[b]
    {
      forall j | lo <= j < lo + |values|
        ensures t[j] != b
      {
        assert t[lo..lo + |values|][j - lo] == t[j];
      }
      WrittenElsewhere(gpuMem, t, lo, values, b);
    }
  }

  lemma WrittenLength<T>(gpuMem: seq<T>, t: seq<nat>, lo: nat, values: seq<T>)
    requires lo + |values| <= |t| && Below(t, |gpuMem|)
    ensures |Written(gpuMem, t, lo, values)| == |gpuMem|
  {
  }

  /** Another entry of a table is not written. */
  lemma NotWritten<T>(v: View, leaked: multiset<nat>, r: Id, lo: nat, values: seq<T>, gpuMem: seq<T>, after: seq<T>,
                      s: Id, i: nat)
    requires Consistent(v, leaked) && r in v.tables && r in v.chains && Below(v.tables[r], |gpuMem|)
    requires |v.chains[r]| <= lo && lo + |values| <= |v.tables[r]| && WroteOnly(v, r, lo, values, gpuMem, after)
    requires s in v.tables && i < |v.tables[s]| && v.tables[s][i] < |gpuMem| && !(s == r && lo <= i < lo + |values|)
    ensures after[v.tables[s][i]] == gpuMem[v.tables[s][i]]
  {
    hide Consistent;
    var t, b := v.tables[r], v.tables[s][i];
    if b in t[lo..lo + |values|] {
      var j :| 0 <= j < |values| && t[lo..lo + |values|][j] == b;
      assert t[lo + j] == b;
      PrivateEntry(v, leaked, r, lo + j, s, i);
    }
  }

  lemma ComputedTables<T>(v: View, leaked: multiset<nat>, r: Id, lo: nat, values: seq<T>, gpuMem: seq<T>,
                          cpuMem: seq<T>, data: map<Id, seq<T>>, content: Key -> T)
    requires Consistent(v, leaked) && Intact(v, gpuMem, cpuMem, data, content)
    requires r in v.tables && r in v.chains && r in data && Below(v.tables[r], |gpuMem|)
    requires |v.chains[r]| <= lo <= |data[r]| <= lo + |values| <= |v.tables[r]|
    requires WroteOnly(v, r, lo, values, gpuMem, Written(gpuMem, v.tables[r], lo, values))
    ensures TablesHold(v.tables, v.chains, Written(gpuMem, v.tables[r], lo, values), data[r := data[r][..lo] + values])
  {
    hide Consistent, CachedHold, CleanHold, SwappedHold, Written, WroteOnly;
    var after, data' := Written(gpuMem, v.tables[r], lo, values), data[r := data[r][..lo] + values];
    WroteLength(v, r, lo, values, gpuMem, after);
    forall s | s in v.tables
      ensures Holds(v.tables[s], after, data'[s])
    {
      assert Holds(v.tables[s], gpuMem, data[s]);
      forall i | 0 <= i < |data'[s]|
        ensures v.tables[s][i] < |after| && after[v.tables[s][i]] == data'[s][i]
      {
        if s == r && i >= lo {
          WroteAt(v, r, lo, values, gpuMem, after, i - lo);
        } else {
          NotWritten(v, leaked, r, lo, values, gpuMem, after, s, i);
        }
      }
    }
  }

  lemma WroteLength<T>(v: View, r: Id, lo: nat, values: seq<T>, gpuMem: seq<T>, after: seq<T>)
    requires r in v.tables && lo + |values| <= |v.tables[r]| && Below(v.tables[r], |gpuMem|)
    requires WroteOnly(v, r, lo, values, gpuMem, after)
    ensures |after| == |gpuMem|
  {
  }

  lemma WroteAt<T>(v: View, r: Id, lo: nat, values: seq<T>, gpuMem: seq<T>, after: seq<T>, k: nat)
    requires r in v.tables && lo + |values| <= |v.tables[r]| && Below(v.tables[r], |gpuMem|) && k < |values|
    requires WroteOnly(v, r, lo, values, gpuMem, after)
    ensures v.tables[r][lo + k] < |after| && after[v.tables[r][lo + k]] == values[k]
  {
  }

  lemma ComputedCached<T>(v: View, leaked: multiset<nat>, r: Id, lo: nat, values: seq<T>, gpuMem: seq<T>,
                          cpuMem: seq<T>, data: map<Id, seq<T>>, content: Key -> T)
    requires Consistent(v, leaked) && Intact(v, gpuMem, cpuMem, data, content)
    requires r in v.tables && r in v.chains && Below(v.tables[r], |gpuMem|)
    requires |v.chains[r]| <= lo && lo + |values| <= |v.tables[r]|
    requires WroteOnly(v, r, lo, values, gpuMem, Written(gpuMem, v.tables[r], lo, values))
    ensures CachedHold(v.pools.gpu, Written(gpuMem, v.tables[r], lo, values), cpuMem, content)
  {
    hide Consistent, CleanHold, TablesHold, SwappedHold, Written;
    var t, after := v.tables[r], Written(gpuMem, v.tables[r], lo, values);
    forall b | 0 <= b < |v.pools.gpu| && v.pools.gpu[b].key.Some?
      ensures CachedAt(v.pools.gpu, after, cpuMem, content, b)
    {
      assert CachedAt(v.pools.gpu, gpuMem, cpuMem, content, b);
      if b in t[lo..lo + |values|] {
        var j :| 0 <= j < |values| && t[lo..lo + |values|][j] == b;
        assert t[lo + j] == b;
        EntryFacts(v, leaked, r, lo + j);
      }
    }
  }

  lemma ComputedClean<T>(v: View, leaked: multiset<nat>, r: Id, lo: nat, values: seq<T>, gpuMem: seq<T>, cpuMem: seq<T>,
                         data: map<Id, seq<T>>, content: Key -> T)
    requires Consistent(v, leaked) && Intact(v, gpuMem, cpuMem, data, content)
    requires r in v.tables && r in v.chains && r in data && Below(v.tables[r], |gpuMem|)
    requires |v.chains[r]| <= lo <= |data[r]| <= lo + |values| <= |v.tables[r]|
    requires WroteOnly(v, r, lo, values, gpuMem, Written(gpuMem, v.tables[r], lo, values))
    ensures CleanHold(v.pools.gpu, v.tables, Written(gpuMem, v.tables[r], lo, values), cpuMem,
                      data[r := data[r][..lo] + values]) <==>
            forall i :: lo <= i < lo + |values| ==> Ready(v.pools.gpu, cpuMem, v.tables[r], lo, values, i)
  {
    hide Consistent, CachedHold, TablesHold, SwappedHold, Written, WroteOnly;
    var t, after, data' := v.tables[r], Written(gpuMem, v.tables[r], lo, values), data[r := data[r][..lo] + values];
    WroteLength(v, r, lo, values, gpuMem, after);
    assert CleanIn(v.pools.gpu, t, gpuMem, cpuMem, |data[r]|);
    forall s | s in v.tables && s in data && s != r
      ensures CleanIn(v.pools.gpu, v.tables[s], after, cpuMem, |data[s]|)
    {
      assert CleanIn(v.pools.gpu, v.tables[s], gpuMem, cpuMem, |data[s]|);
      forall i | 0 <= i < |data[s]|
        ensures after[v.tables[s][i]] == gpuMem[v.tables[s][i]]
      {
        NotWritten(v, leaked, r, lo, values, gpuMem, after, s, i);
      }
    }
    forall i | 0 <= i < lo
      ensures after[t[i]] == gpuMem[t[i]]
    {
      NotWritten(v, leaked, r, lo, values, gpuMem, after, r, i);
    }
    forall i | lo <= i < lo + |values|
      ensures Ready(v.pools.gpu, cpuMem, t, lo, values, i) <==> CleanEntry(v.pools.gpu, t, after, cpuMem, i)
    {
      WroteAt(v, r, lo, values, gpuMem, after, i - lo);
      EntryMapped(v, leaked, r, i, cpuMem);
    }
    CleanSplit(v.pools.gpu, t, after, cpuMem, lo, |values|);
  }

  lemma EntryMapped<T>(v: View, leaked: multiset<nat>, r: Id, i: nat, cpuMem: seq<T>)
    requires Consistent(v, leaked) && r in v.tables && i < |v.tables[r]| && |cpuMem| == |v.pools.cpuRef|
    ensures v.tables[r][i] < |v.pools.gpu| && v.pools.gpu[v.tables[r][i]].mappedCpu < |cpuMem|
  {
    hide Counts, TablesAgree, Held;
    EntryFacts(v, leaked, r, i);
    MappedInRange(v.pools, Held(v.tables) + leaked, Held(v.cpuTables), v.tables[r][i]);
  }

  lemma CleanSplit<T>(gpu: seq<Gpu>, t: seq<nat>, mem: seq<T>, cpuMem: seq<T>, lo: nat, n: nat)
    requires lo + n <= |t| && Below(t, |gpu|)
    requires forall i :: 0 <= i < lo && !gpu[t[i]].status.IsDirty() ==> CopyBehind(gpu, mem, cpuMem, t[i])
    ensures CleanIn(gpu, t, mem, cpuMem, lo + n) <==>
            forall i :: lo <= i < lo + n ==> CleanEntry(gpu, t, mem, cpuMem, i)
  {
    if forall i :: lo <= i < lo + n ==> CleanEntry(gpu, t, mem, cpuMem, i) {
      forall i | 0 <= i < lo + n && !gpu[t[i]].status.IsDirty()
        ensures CopyBehind(gpu, mem, cpuMem, t[i])
      {
        assert i >= lo ==> CleanEntry(gpu, t, mem, cpuMem, i);
      }
    }
  }

  ghost predicate CleanEntry<T>(gpu: seq<Gpu>, t: seq<nat>, mem: seq<T>, cpuMem: seq<T>, i: nat) {
    i < |t| && t[i] < |gpu| && (!gpu[t[i]].status.IsDirty() ==> CopyBehind(gpu, mem, cpuMem, t[i]))
  }

  lemma SwappedElsewhere<T>(cpuTables: map<Id, seq<nat>>, cpuMem: seq<T>, data: map<Id, seq<T>>, r: Id, d: seq<T>)
    requires SwappedHold(cpuTables, cpuMem, data) && r !in cpuTables
    ensures SwappedHold(cpuTables, cpuMem, data[r := d])
  {
  }

  // ----- touching

  /** Touched blocks are cached, so nothing is at stake. */
  lemma TouchKeepsData<T>(v: View, leaked: multiset<nat>, q: Pools, computed: seq<nat>, hits: seq<Key>, gpuMem: seq<T>,
                          cpuMem: seq<T>, data: map<Id, seq<T>>, content: Key -> T)
    requires Consistent(v, leaked) && Intact(v, gpuMem, cpuMem, data, content)
    requires Keyed(v.pools.gpu, computed, hits) && TouchedAs(v.pools, q, computed)
    ensures Intact(v.(pools := q), gpuMem, cpuMem, data, content)
  {
    hide Consistent, TablesHold, SwappedHold, FreeBesides;
    var p := v.pools;
    forall b | 0 <= b < |q.gpu| && q.gpu[b].key.Some?
      ensures CachedAt(q.gpu, gpuMem, cpuMem, content, b)
    {
      assert CachedAt(p.gpu, gpuMem, cpuMem, content, b);
    }
    forall s | s in v.tables && s in data
      ensures CleanIn(q.gpu, v.tables[s], gpuMem, cpuMem, |data[s]|)
    {
      assert CleanIn(p.gpu, v.tables[s], gpuMem, cpuMem, |data[s]|);
    }
  }

  // ----- separate backing

  /** Some other cached block is mapped to the CPU block, although nobody refers to it. */
  ghost predicate CachedTwin(p: Pools, blocks: seq<nat>, c: nat) {
    exists x :: 0 <= x < |p.gpu| && x !in blocks && p.gpu[x].key.Some? && p.gpu[x].mappedCpu == c
  }

  /** With free CPU blocks that are really free, an allocation uses distinct CPU blocks that
      nobody refers to. */
  lemma {:induction false} ClaimsAreOwn(p: Pools, computed: seq<nat>, queue: seq<nat>, n: nat)
    requires Exclusive(p) && n <= |queue| && Below(queue, |p.gpu|) && Below(computed, |p.gpu|)
    requires Suffices(p, CpusOf(p, computed), queue, n)
    ensures var claim := Claims(p, CpusOf(p, computed), queue, n);
            && NoDup(claim.cpus)
            && forall l :: 0 <= l < n ==> OwnClaim(p, computed, queue, claim, l)
  {
    if n > 0 {
      var touched := CpusOf(p, computed);
      var before, claim := Claims(p, touched, queue, n - 1), Claims(p, touched, queue, n);
      ClaimsAreOwn(p, computed, queue, n - 1);
      var c := claim.cpus[n - 1];
      assert claim.cpus == before.cpus + [c];
      forall l | 0 <= l < n - 1
        ensures OwnClaim(p, computed, queue, claim, l) && claim.cpus[l] != c
      {
        assert OwnClaim(p, computed, queue, before, l);
        assert before.cpus[l] in before.cpus;
        assert Maps(p.gpu, queue[n - 1], MappedCpu(p, queue[n - 1]));
        assert Maps(p.gpu, queue[l], MappedCpu(p, queue[l]));
      }
      if Needs(p, touched, before.cpus, queue[n - 1]) {
        assert c in p.freeCpu;
        forall i | 0 <= i < |computed|
          ensures touched[i] != c
        {
          assert Maps(p.gpu, computed[i], touched[i]);
        }
      }
    }
  }

  /** A claimed CPU block: the block's own, or one from the queue of free ones. */
  ghost predicate OwnClaim(p: Pools, computed: seq<nat>, queue: seq<nat>, claim: Claim, l: nat) {
    && l < |claim.cpus| && l < |queue|
    && !IsReferenced(p, claim.cpus[l]) && claim.cpus[l] !in CpusOf(p, computed)
    && (claim.cpus[l] == MappedCpu(p, queue[l]) ||
        exists i :: 0 <= i < claim.popped && i < |p.freeCpu| && p.freeCpu[i] == claim.cpus[l])
  }

  /** After an allocation the blocks about to be written have their CPU blocks to themselves
      exactly when no cached block is mapped to one of those. */
  lemma SeparateGrownIff(p: Pools, q: Pools, computed: seq<nat>, hits: seq<Key>, blocks: seq<nat>, n: int,
                         held: multiset<nat>, heldCpu: multiset<nat>)
    requires Counts(p, held, heldCpu) && Exclusive(p) && Separate(p) && Agrees(p) && Agrees(q)
    requires Keyed(p.gpu, computed, hits)
    requires |blocks| <= |FreeBesides(p.freeGpu, computed)|
    requires Suffices(p, CpusOf(p, computed), FreeBesides(p.freeGpu, computed), |blocks|)
    requires Grown(p, q, computed, blocks, SlotClaims(p, computed, |blocks|)) && Prepared(q.gpu, blocks, n)
    requires NoDup(blocks)
    requires forall l :: 0 <= l < |blocks| ==> q.gpu[blocks[l]].refCnt > 0
    ensures Separate(q) <==>
            forall l :: 0 <= l < |blocks| && l < n ==> !CachedTwin(p, blocks, SlotClaims(p, computed, |blocks|).cpus[l])
  {
    hide Claims, FreeBesides, Counts, Exclusive, CacheAgrees, CachedTwin, RefsGrown;
    var claim := SlotClaims(p, computed, |blocks|);
    QueueInRange(p, computed, held, heldCpu);
    ClaimsAreOwn(p, computed, FreeBesides(p.freeGpu, computed), |blocks|);
    forall l | 0 <= l < |blocks|
      ensures Alone(q, blocks[l]) <==> !CachedTwin(p, blocks, claim.cpus[l])
    {
      NewIsAloneIff(p, q, computed, blocks, l, held, heldCpu);
    }
    forall b | 0 <= b < |q.gpu| && b !in blocks && q.gpu[b].refCnt > 0 && q.gpu[b].status.IsDirty()
      ensures Alone(q, b)
    {
      OldStaysAlone(p, q, computed, hits, blocks, b, held, heldCpu);
    }
  }

  lemma QueueInRange(p: Pools, computed: seq<nat>, held: multiset<nat>, heldCpu: multiset<nat>)
    requires Counts(p, held, heldCpu)
    ensures Below(FreeBesides(p.freeGpu, computed), |p.gpu|) && NonNegative(p.cpuRef)
  {
    hide CpuCounts, GpuCounts;
    RefsNonNegative(p, held, heldCpu);
    FreeBesidesIn(p.freeGpu, computed);
    var queue := FreeBesides(p.freeGpu, computed);
    forall i | 0 <= i < |queue|
      ensures queue[i] < |p.gpu|
    {
      assert queue[i] in queue;
    }
  }

  lemma NewIsAloneIff(p: Pools, q: Pools, computed: seq<nat>, blocks: seq<nat>, l: nat, held: multiset<nat>,
                      heldCpu: multiset<nat>)
    requires Counts(p, held, heldCpu) && NonNegative(p.cpuRef) && |blocks| <= |FreeBesides(p.freeGpu, computed)|
    requires l < |blocks|
    requires Grown(p, q, computed, blocks, SlotClaims(p, computed, |blocks|)) && NoDup(blocks)
    requires var claim := SlotClaims(p, computed, |blocks|);
             NoDup(claim.cpus) && OwnClaim(p, computed, FreeBesides(p.freeGpu, computed), claim, l)
    ensures Alone(q, blocks[l]) <==> !CachedTwin(p, blocks, SlotClaims(p, computed, |blocks|).cpus[l])
  {
    hide Claims, FreeBesides, Counts;
    var claim, b := SlotClaims(p, computed, |blocks|), blocks[l];
    var c := claim.cpus[l];
    OnceInDistinct(claim.cpus, l);
    assert multiset(CpusOf(p, computed))[c] == 0;
    assert q.cpuRef[c] == 1;
    forall x | 0 <= x < |q.gpu|
      ensures q.gpu[x].key.Some? <==> x !in blocks && p.gpu[x].key.Some?
    {
    }
    if CachedTwin(p, blocks, c) {
      var x :| 0 <= x < |p.gpu| && x !in blocks && p.gpu[x].key.Some? && p.gpu[x].mappedCpu == c;
      assert q.gpu[x].key.Some? && q.gpu[x].mappedCpu == c && x != b;
    }
  }

  lemma OldStaysAlone(p: Pools, q: Pools, computed: seq<nat>, hits: seq<Key>, blocks: seq<nat>, b: nat,
                      held: multiset<nat>, heldCpu: multiset<nat>)
    requires Counts(p, held, heldCpu) && Separate(p) && StatusAgrees(p) && StatusAgrees(q)
    requires Keyed(p.gpu, computed, hits)
    requires |blocks| <= |FreeBesides(p.freeGpu, computed)|
    requires Grown(p, q, computed, blocks, SlotClaims(p, computed, |blocks|))
    requires var claim := SlotClaims(p, computed, |blocks|);
             forall l :: 0 <= l < |blocks| ==> OwnClaim(p, computed, FreeBesides(p.freeGpu, computed), claim, l)
    requires b < |q.gpu| && b !in blocks && q.gpu[b].refCnt > 0 && q.gpu[b].status.IsDirty()
    ensures Alone(q, b)
  {
    hide Claims, FreeBesides, Counts;
    var claim, c := SlotClaims(p, computed, |blocks|), p.gpu[b].mappedCpu;
    assert b !in computed;
    assert q.gpu[b] == p.gpu[b] && Alone(p, b);
    var touched := CpusOf(p, computed);
    forall i | 0 <= i < |computed|
      ensures touched[i] != c
    {
      assert p.gpu[computed[i]].key.Some? && computed[i] != b;
    }
    assert multiset(touched)[c] == 0;
    forall l | 0 <= l < |claim.cpus|
      ensures claim.cpus[l] != c
    {
      assert OwnClaim(p, computed, FreeBesides(p.freeGpu, computed), claim, l);
    }
    assert multiset(claim.cpus)[c] == 0;
    assert q.cpuRef[c] == 1;
  }
}
