/** Which operations keep the CPU blocks behind dirty blocks separate.  Releasing a table
    does; swapping in and appending do exactly when the blocks they leave dirty get a CPU
    block to themselves, which is known beforehand; for allocation see
    `KVData.SeparateGrownIff`. */
module Separation {
  import opened Sequences
  import opened BlockPools
  import opened CpuBlocks
  import opened PoolLoops
  import opened KVCacheManagers
  import opened SwapCopies
  import opened KVData

  /** The counts behind a view, and what the keys say about the status. */
  ghost predicate Sound(v: View, leaked: multiset<nat>) {
    Consistent(v, leaked) && StatusAgrees(v.pools)
  }

  /** If nobody else is live on a CPU block, the references to it are those of its one block. */
  lemma {:induction false} OnlyShare(gpu: seq<Gpu>, b: nat, c: nat)
    requires b < |gpu| && gpu[b].mappedCpu == c
    requires forall x :: 0 <= x < |gpu| && x != b && gpu[x].mappedCpu == c ==> gpu[x].refCnt == 0
    ensures MappedRefs(gpu, c) == gpu[b].refCnt
  {
    var n := |gpu| - 1;
    if b == n {
      NoShare(gpu[..n], c);
    } else {
      OnlyShare(gpu[..n], b, c);
    }
  }

  lemma {:induction false} NoShare(gpu: seq<Gpu>, c: nat)
    requires forall x :: 0 <= x < |gpu| && gpu[x].mappedCpu == c ==> gpu[x].refCnt == 0
    ensures MappedRefs(gpu, c) == 0
  {
    if gpu != [] {
      NoShare(gpu[..|gpu| - 1], c);
    }
  }

  /** Nobody but `b` uses the CPU block behind it. */
  ghost predicate NobodyElse(p: Pools, b: nat, heldCpu: multiset<nat>) {
    && b < |p.gpu| && p.gpu[b].mappedCpu !in heldCpu
    && forall x :: 0 <= x < |p.gpu| && x != b && p.gpu[x].mappedCpu == p.gpu[b].mappedCpu ==>
         p.gpu[x].refCnt == 0 && p.gpu[x].key.None?
  }

  /** A live block that is not cached is alone exactly when nobody else uses its CPU block. */
  lemma AloneIff(v: View, leaked: multiset<nat>, b: nat)
    requires Sound(v, leaked) && b < |v.pools.gpu| && v.pools.gpu[b].refCnt > 0 && v.pools.gpu[b].key.None?
    ensures Alone(v.pools, b) <==> NobodyElse(v.pools, b, Held(v.cpuTables))
  {
    hide Held, TablesAgree;
    var p, c := v.pools, v.pools.gpu[b].mappedCpu;
    assert p.gpu[b].refCnt == 1;
    if Alone(p, b) {
      AloneMeans(p, Held(v.tables) + leaked, Held(v.cpuTables), b);
    }
    if NobodyElse(p, b, Held(v.cpuTables)) {
      OnlyShare(p.gpu, b, c);
    }
  }

  lemma DirtyIsUncached(v: View, leaked: multiset<nat>, b: nat)
    requires Sound(v, leaked) && b < |v.pools.gpu| && v.pools.gpu[b].refCnt > 0 && v.pools.gpu[b].status.IsDirty()
    ensures v.pools.gpu[b].key.None?
  {
    hide Consistent;
  }

  // ----- releasing

  lemma ReleaseKeepsSeparate(v: View, leaked: multiset<nat>, w: View, r: Id)
    requires Sound(v, leaked) && Sound(w, leaked) && Separate(v.pools) && r in v.tables
    requires Below(v.tables[r], |v.pools.gpu|) && w.tables == v.tables - {r}
    requires w.cpuTables == v.cpuTables ||
             (r !in v.cpuTables && w.cpuTables == v.cpuTables[r := CpuOf(v.pools.gpu, v.tables[r])])
    requires SameKeys(v.pools, w.pools) && SameMapping(v.pools, w.pools)
    requires forall b :: 0 <= b < |w.pools.gpu| && b !in v.tables[r] ==> w.pools.gpu[b] == v.pools.gpu[b]
    ensures Separate(w.pools)
  {
    hide Sound, Alone, Below;
    forall b | 0 <= b < |w.pools.gpu| && w.pools.gpu[b].refCnt > 0 && w.pools.gpu[b].status.IsDirty()
      ensures Alone(w.pools, b)
    {
      DirtyStays(v, leaked, w, r, b);
      DirtyIsUncached(v, leaked, b);
      DirtyIsUncached(w, leaked, b);
      AloneIff(v, leaked, b);
      OthersStayAway(v, leaked, w, r, b);
      AloneIff(w, leaked, b);
    }
  }

  lemma RefsShrink(v: View, leaked: multiset<nat>, w: View, r: Id, b: nat)
    requires Sound(v, leaked) && Sound(w, leaked) && r in v.tables && w.tables == v.tables - {r}
    requires b < |v.pools.gpu| == |w.pools.gpu|
    ensures w.pools.gpu[b].refCnt == v.pools.gpu[b].refCnt - multiset(v.tables[r])[b]
  {
    hide Held, TablesAgree, CpuCounts, StatusAgrees;
    HeldRemove(v.tables, r);
  }

  /** A block that is still live and dirty was not in the table. */
  lemma DirtyStays(v: View, leaked: multiset<nat>, w: View, r: Id, b: nat)
    requires Sound(v, leaked) && Sound(w, leaked) && r in v.tables && w.tables == v.tables - {r}
    requires SameKeys(v.pools, w.pools) && b < |w.pools.gpu|
    requires forall x :: 0 <= x < |w.pools.gpu| && x !in v.tables[r] ==> w.pools.gpu[x] == v.pools.gpu[x]
    requires w.pools.gpu[b].refCnt > 0 && w.pools.gpu[b].status.IsDirty()
    ensures b !in v.tables[r] && w.pools.gpu[b] == v.pools.gpu[b]
  {
    hide Consistent;
    RefsShrink(v, leaked, w, r, b);
    LiveInTable(v, leaked, r, b);
  }

  lemma OthersStayAway(v: View, leaked: multiset<nat>, w: View, r: Id, b: nat)
    requires Sound(v, leaked) && Sound(w, leaked) && r in v.tables && w.tables == v.tables - {r}
    requires Below(v.tables[r], |v.pools.gpu|) && b !in v.tables[r]
    requires w.cpuTables == v.cpuTables ||
             (r !in v.cpuTables && w.cpuTables == v.cpuTables[r := CpuOf(v.pools.gpu, v.tables[r])])
    requires SameKeys(v.pools, w.pools) && SameMapping(v.pools, w.pools)
    requires NobodyElse(v.pools, b, Held(v.cpuTables))
    ensures NobodyElse(w.pools, b, Held(w.cpuTables))
  {
    hide Held, Consistent, StatusAgrees;
    var p, q, c := v.pools, w.pools, v.pools.gpu[b].mappedCpu;
    forall x | 0 <= x < |q.gpu| && x != b && q.gpu[x].mappedCpu == c
      ensures q.gpu[x].refCnt == 0
    {
      RefsShrink(v, leaked, w, r, x);
      LiveInTable(v, leaked, r, x);
    }
    if w.cpuTables != v.cpuTables {
      HeldAdd(v.cpuTables, r, CpuOf(p.gpu, v.tables[r]));
      forall i | 0 <= i < |v.tables[r]|
        ensures CpuOf(p.gpu, v.tables[r])[i] != c
      {
        LiveInTable(v, leaked, r, v.tables[r][i]);
      }
      assert c !in multiset(CpuOf(p.gpu, v.tables[r]));
    }
  }

  lemma LiveInTable(v: View, leaked: multiset<nat>, r: Id, b: nat)
    requires Sound(v, leaked) && r in v.tables
    ensures b in v.tables[r] ==> b < |v.pools.gpu| && v.pools.gpu[b].refCnt > 0
    ensures multiset(v.tables[r])[b] > 0 <==> b in v.tables[r]
  {
    hide Consistent;
    if b in v.tables[r] {
      var i :| 0 <= i < |v.tables[r]| && v.tables[r][i] == b;
      EntryFacts(v, leaked, r, i);
    }
  }

  // ----- swapping in

  /** The CPU block will be referenced once after the useless references are dropped, and no
      block that stays cached is mapped to it. */
  ghost predicate Unshared(p: Pools, useless: seq<nat>, blocks: seq<nat>, c: nat) {
    && c < |p.cpuRef| && p.cpuRef[c] == 1 + multiset(useless)[c]
    && forall x :: 0 <= x < |p.gpu| && x !in blocks && p.gpu[x].key.Some? ==> p.gpu[x].mappedCpu != c
  }

  /** A request comes back with new blocks in front of its CPU blocks. */
  ghost predicate Back(v: View, leaked: multiset<nat>, w: View, r: Id, computed: seq<nat>, hits: seq<Key>,
                       blocks: seq<nat>) {
    && Sound(v, leaked) && Sound(w, leaked) && r !in v.tables && r in v.cpuTables
    && Keyed(v.pools.gpu, computed, hits) && SwapInEffect(v.pools, w.pools, computed, blocks) && NoDup(blocks)
    && |computed| + |blocks| == |v.cpuTables[r]| && BackedBy(w.pools.gpu, blocks, v.cpuTables[r], |computed|)
    && w.tables == v.tables[r := computed + blocks] && w.cpuTables == v.cpuTables - {r}
  }

  lemma BackHeld(v: View, leaked: multiset<nat>, w: View, r: Id, computed: seq<nat>, hits: seq<Key>, blocks: seq<nat>)
    requires Back(v, leaked, w, r, computed, hits, blocks)
    ensures Held(v.cpuTables) == Held(w.cpuTables) + multiset(v.cpuTables[r])
    ensures multiset(v.cpuTables[r]) == multiset(v.cpuTables[r][..|computed|]) + multiset(v.cpuTables[r][|computed|..])
    ensures forall i :: 0 <= i < |v.cpuTables[r]| ==> v.cpuTables[r][i] in Held(v.cpuTables)
  {
    hide Held, Sound, Keyed, SwapInEffect, NoDup, BackedBy;
    var cpu := v.cpuTables[r];
    HeldRemove(v.cpuTables, r);
    assert cpu == cpu[..|computed|] + cpu[|computed|..];
    forall i | 0 <= i < |cpu|
      ensures cpu[i] in Held(v.cpuTables)
    {
      assert cpu[i] in multiset(cpu);
    }
  }

  lemma OldStaysAway(v: View, leaked: multiset<nat>, w: View, r: Id, computed: seq<nat>, hits: seq<Key>,
                     blocks: seq<nat>, b: nat)
    requires Back(v, leaked, w, r, computed, hits, blocks) && b < |v.pools.gpu| && b !in blocks
    requires NobodyElse(v.pools, b, Held(v.cpuTables))
    ensures NobodyElse(w.pools, b, Held(w.cpuTables))
  {
    hide Held, Sound, NoDup;
    BackHeld(v, leaked, w, r, computed, hits, blocks);
    var p, q, c := v.pools, w.pools, v.pools.gpu[b].mappedCpu;
    forall k | 0 <= k < |blocks|
      ensures q.gpu[blocks[k]].mappedCpu != c
    {
      assert v.cpuTables[r][|computed| + k] in Held(v.cpuTables);
    }
    forall x | 0 <= x < |q.gpu| && x != b && q.gpu[x].mappedCpu == c
      ensures q.gpu[x].refCnt == 0 && q.gpu[x].key.None?
    {
      assert x !in blocks;
      assert x !in computed;
    }
  }

  /** In a sequence `x` at place `l` occurs once exactly when it is at no other place. */
  lemma OnceIff(s: seq<nat>, l: nat)
    requires l < |s|
    ensures multiset(s)[s[l]] == 1 <==> forall k :: 0 <= k < |s| && k != l ==> s[k] != s[l]
  {
    var x := s[l];
    assert s == s[..l] + [x] + s[l + 1..];
    assert multiset(s) == multiset(s[..l]) + multiset{x} + multiset(s[l + 1..]);
    if multiset(s)[x] == 1 {
      forall k | 0 <= k < |s| && k != l
        ensures s[k] != x
      {
        if k < l {
          assert s[..l][k] in multiset(s[..l]);
        } else {
          assert s[l + 1..][k - l - 1] in multiset(s[l + 1..]);
        }
      }
    } else {
      assert x in multiset(s[..l]) || x in multiset(s[l + 1..]);
      if x in s[..l] {
        var k :| 0 <= k < l && s[..l][k] == x;
        assert s[k] == x;
      } else {
        var k :| 0 <= k < |s| - l - 1 && s[l + 1..][k] == x;
        assert s[l + 1 + k] == x;
      }
    }
  }

  /** One reference besides the useless ones: that of the table itself, at one place. */
  lemma OneReferenceIff(v: View, leaked: multiset<nat>, w: View, r: Id, computed: seq<nat>, hits: seq<Key>,
                        blocks: seq<nat>, l: nat)
    requires Back(v, leaked, w, r, computed, hits, blocks) && l < |blocks| && |computed| + |blocks| == |v.cpuTables[r]|
    requires v.cpuTables[r][|computed| + l] < |v.pools.cpuRef|
    ensures var c, tail := v.cpuTables[r][|computed| + l], v.cpuTables[r][|computed|..];
            v.pools.cpuRef[c] == 1 + multiset(v.cpuTables[r][..|computed|])[c] <==>
            && MappedRefs(v.pools.gpu, c) == 0 && c !in Held(w.cpuTables)
            && forall k :: 0 <= k < |tail| && k != l ==> tail[k] != c
  {
    hide Sound, Held, Keyed, SwapInEffect, NoDup, BackedBy, MappedRefs;
    BackHeld(v, leaked, w, r, computed, hits, blocks);
    var cpu, n := v.cpuTables[r], |computed|;
    var c, tail := cpu[n + l], cpu[n..];
    assert tail[l] == c;
    assert c in multiset(tail);
    RefsAreCounted(v, leaked, c);
    OnceIff(tail, l);
  }

  /** If the CPU block was unshared, nobody else uses it afterwards. */
  lemma UnsharedIsAway(v: View, leaked: multiset<nat>, w: View, r: Id, computed: seq<nat>, hits: seq<Key>,
                       blocks: seq<nat>, l: nat)
    requires Back(v, leaked, w, r, computed, hits, blocks) && l < |blocks|
    requires Unshared(v.pools, v.cpuTables[r][..|computed|], blocks, v.cpuTables[r][|computed| + l])
    ensures NobodyElse(w.pools, blocks[l], Held(w.cpuTables))
  {
    hide Held, Sound, NoDup, MappedRefs;
    OneReferenceIff(v, leaked, w, r, computed, hits, blocks, l);
    var p, q, cpu, n := v.pools, w.pools, v.cpuTables[r], |computed|;
    var b, c := blocks[l], cpu[n + l];
    RefsAreCounted(v, leaked, c);
    assert q.gpu[b].mappedCpu == c;
    forall k | 0 <= k < |blocks| && k != l
      ensures q.gpu[blocks[k]].mappedCpu != c
    {
      assert q.gpu[blocks[k]].mappedCpu == cpu[n + k] == cpu[n..][k];
    }
    forall x | 0 <= x < |q.gpu| && x != b && q.gpu[x].mappedCpu == c
      ensures q.gpu[x].refCnt == 0 && q.gpu[x].key.None?
    {
      assert x !in blocks;
      assert x !in computed;
      MappedRefsAtLeast(p.gpu, x);
    }
  }

  lemma RefsAreCounted(v: View, leaked: multiset<nat>, c: nat)
    requires Sound(v, leaked) && c < |v.pools.cpuRef|
    ensures v.pools.cpuRef[c] == MappedRefs(v.pools.gpu, c) + Held(v.cpuTables)[c] && MappedRefs(v.pools.gpu, c) >= 0
    ensures forall x :: 0 <= x < |v.pools.gpu| ==> v.pools.gpu[x].refCnt >= 0
  {
    hide Held, TablesAgree, StatusAgrees;
    MappedRefsNonNegative(v.pools.gpu, c);
  }

  lemma AwayWasUnshared(v: View, leaked: multiset<nat>, w: View, r: Id, computed: seq<nat>, hits: seq<Key>,
                        blocks: seq<nat>, l: nat)
    requires Back(v, leaked, w, r, computed, hits, blocks) && l < |blocks|
    requires NobodyElse(w.pools, blocks[l], Held(w.cpuTables)) && v.cpuTables[r][|computed| + l] < |v.pools.cpuRef|
    requires forall k :: 0 <= k < |blocks| ==> w.pools.gpu[blocks[k]].refCnt > 0
    ensures Unshared(v.pools, v.cpuTables[r][..|computed|], blocks, v.cpuTables[r][|computed| + l])
  {
    hide Held, Sound, MappedRefs;
    var p, q, cpu, n := v.pools, w.pools, v.cpuTables[r], |computed|;
    var b, c := blocks[l], cpu[n + l];
    assert q.gpu[b].mappedCpu == c;
    forall k | 0 <= k < |blocks| && k != l
      ensures cpu[n..][k] != c
    {
      assert q.gpu[blocks[k]].mappedCpu == cpu[n + k] == cpu[n..][k];
    }
    forall x | 0 <= x < |p.gpu| && p.gpu[x].mappedCpu == c
      ensures p.gpu[x].refCnt == 0 && (x !in blocks ==> p.gpu[x].key.None?)
    {
      if x in blocks {
        FreeIsDead(v, leaked, x);
      } else {
        assert q.gpu[x].mappedCpu == c && q.gpu[x].key == p.gpu[x].key && x !in computed;
      }
    }
    NoShare(p.gpu, c);
    OneReferenceIff(v, leaked, w, r, computed, hits, blocks, l);
  }

  lemma FreeIsDead(v: View, leaked: multiset<nat>, x: nat)
    requires Sound(v, leaked) && x in v.pools.freeGpu
    ensures x < |v.pools.gpu| && v.pools.gpu[x].refCnt == 0
  {
    hide Held, TablesAgree, CpuCounts;
    var i :| 0 <= i < |v.pools.freeGpu| && v.pools.freeGpu[i] == x;
  }

  /** The new block at place `l`, if it will be dirty, finds its CPU block unshared. */
  ghost predicate FindsUnshared(p: Pools, cpu: seq<nat>, first: nat, blocks: seq<nat>, blockSize: nat, numComputed: nat,
                                l: nat)
    requires l < |blocks| && first + |blocks| == |cpu|
  {
    RestoredStatus(first + l, blockSize, numComputed).IsDirty() ==> Unshared(p, cpu[..first], blocks, cpu[first + l])
  }

  /** `swap_in` keeps the CPU blocks separate exactly when the block it leaves dirty, which is
      the one that is begun and not full, finds its CPU block unshared. */
  lemma SwapInSeparateIff(v: View, leaked: multiset<nat>, w: View, r: Id, computed: seq<nat>, hits: seq<Key>,
                          blocks: seq<nat>, blockSize: nat, numComputed: nat)
    requires Back(v, leaked, w, r, computed, hits, blocks) && |computed| + |blocks| == |v.cpuTables[r]|
    requires Separate(v.pools) && Restored(w.pools.gpu, blocks, |blocks|, |computed|, blockSize, numComputed)
    ensures Separate(w.pools) <==>
            forall l :: 0 <= l < |blocks| ==>
              FindsUnshared(v.pools, v.cpuTables[r], |computed|, blocks, blockSize, numComputed, l)
  {
    hide Sound, Unshared, Alone, Back, NobodyElse, Held, RestoredStatus;
    BackFacts(v, leaked, w, r, computed, hits, blocks);
    forall l | 0 <= l < |blocks|
      ensures (w.pools.gpu[blocks[l]].status.IsDirty() ==> Alone(w.pools, blocks[l])) <==>
              FindsUnshared(v.pools, v.cpuTables[r], |computed|, blocks, blockSize, numComputed, l)
    {
      AloneIff(w, leaked, blocks[l]);
      if NobodyElse(w.pools, blocks[l], Held(w.cpuTables)) {
        AwayWasUnshared(v, leaked, w, r, computed, hits, blocks, l);
      }
      if Unshared(v.pools, v.cpuTables[r][..|computed|], blocks, v.cpuTables[r][|computed| + l]) {
        UnsharedIsAway(v, leaked, w, r, computed, hits, blocks, l);
      }
    }
    forall b | 0 <= b < |w.pools.gpu| && b !in blocks && w.pools.gpu[b].refCnt > 0 && w.pools.gpu[b].status.IsDirty()
      ensures Alone(w.pools, b)
    {
      OldDirty(v, leaked, w, r, computed, hits, blocks, b);
    }
  }

  lemma BackFacts(v: View, leaked: multiset<nat>, w: View, r: Id, computed: seq<nat>, hits: seq<Key>, blocks: seq<nat>)
    requires Back(v, leaked, w, r, computed, hits, blocks)
    ensures Sound(w, leaked) && r in v.cpuTables && |computed| + |blocks| == |v.cpuTables[r]|
    ensures Below(blocks, |w.pools.gpu|)
    ensures forall l :: 0 <= l < |blocks| ==>
              w.pools.gpu[blocks[l]].refCnt > 0 && w.pools.gpu[blocks[l]].key.None?
    ensures Below(v.cpuTables[r], |v.pools.cpuRef|)
  {
    hide Held, StatusAgrees, TablesAgree, NoDup, Keyed;
    BackHeld(v, leaked, w, r, computed, hits, blocks);
    forall l | 0 <= l < |blocks|
      ensures w.pools.gpu[blocks[l]].refCnt > 0
    {
      assert w.tables[r][|computed| + l] == blocks[l];
      LiveInTable(w, leaked, r, blocks[l]);
    }
  }

  lemma OldDirty(v: View, leaked: multiset<nat>, w: View, r: Id, computed: seq<nat>, hits: seq<Key>, blocks: seq<nat>,
                 b: nat)
    requires Back(v, leaked, w, r, computed, hits, blocks) && Separate(v.pools) && b < |w.pools.gpu| && b !in blocks
    requires w.pools.gpu[b].refCnt > 0 && w.pools.gpu[b].status.IsDirty()
    ensures Alone(w.pools, b)
  {
    hide Sound, Alone, NobodyElse, Held, NoDup, BackedBy;
    DirtyIsUncached(w, leaked, b);
    assert b !in computed;
    AloneIff(v, leaked, b);
    OldStaysAway(v, leaked, w, r, computed, hits, blocks, b);
    AloneIff(w, leaked, b);
  }

  // ----- appending without taking a block

  /** `append_slots` on a table that is long enough keeps the CPU blocks separate exactly when
      the blocks of the table that are dirty afterwards were alone. */
  lemma AppendSeparateIff(v: View, leaked: multiset<nat>, w: View, r: Id, first: nat)
    requires Sound(v, leaked) && Sound(w, leaked) && Separate(v.pools) && r in v.tables
    requires AppendEffect(v.pools, w.pools, v.tables[r], [], first) && w.tables == v.tables
    requires w.cpuTables == v.cpuTables
    requires forall i :: first <= i < |v.tables[r]| ==> v.pools.gpu[v.tables[r][i]].key.None?
    ensures Separate(w.pools) <==>
            forall i :: first <= i < |v.tables[r]| && w.pools.gpu[v.tables[r][i]].status.IsDirty() ==>
              Alone(v.pools, v.tables[r][i])
  {
    hide Sound, Alone;
    var p, q, t := v.pools, w.pools, v.tables[r];
    assert t + [] == t;
    forall b | 0 <= b < |q.gpu| && q.gpu[b].refCnt > 0 && q.gpu[b].status.IsDirty()
      ensures Alone(q, b) <==> Alone(p, b)
      ensures b !in t[first..] ==> Alone(q, b)
    {
      DirtyIsUncached(w, leaked, b);
      SameAlone(v, leaked, w, r, first, b);
    }
    forall i | first <= i < |t|
      ensures q.gpu[t[i]].refCnt > 0 && t[i] in t[first..]
    {
      assert t[first..][i - first] == t[i];
      LiveInTable(w, leaked, r, t[i]);
    }
  }

  lemma SameRefs(v: View, leaked: multiset<nat>, w: View)
    requires Sound(v, leaked) && Sound(w, leaked) && w.tables == v.tables && |w.pools.gpu| == |v.pools.gpu|
    ensures forall x :: 0 <= x < |v.pools.gpu| ==> w.pools.gpu[x].refCnt == v.pools.gpu[x].refCnt
  {
    hide Held, TablesAgree, CpuCounts;
  }

  lemma SameAlone(v: View, leaked: multiset<nat>, w: View, r: Id, first: nat, b: nat)
    requires Sound(v, leaked) && Sound(w, leaked) && r in v.tables && b < |w.pools.gpu|
    requires AppendEffect(v.pools, w.pools, v.tables[r], [], first) && w.tables == v.tables
    requires w.cpuTables == v.cpuTables
    requires forall i :: first <= i < |v.tables[r]| ==> v.pools.gpu[v.tables[r][i]].key.None?
    requires w.pools.gpu[b].refCnt > 0 && w.pools.gpu[b].key.None?
    ensures Alone(w.pools, b) <==> Alone(v.pools, b)
    ensures b !in v.tables[r][first..] ==> w.pools.gpu[b] == v.pools.gpu[b]
  {
    hide Held, Sound, Alone;
    var p, q, t := v.pools, w.pools, v.tables[r];
    assert t + [] == t;
    SameRefs(v, leaked, w);
    forall x | 0 <= x < |p.gpu| && p.gpu[x].refCnt == 0
      ensures q.gpu[x] == p.gpu[x]
    {
      if x in t[first..] {
        LiveInTable(v, leaked, r, x);
      }
    }
    if b in t[first..] {
      var i :| 0 <= i < |t| - first && t[first..][i] == b;
      assert t[first + i] == b;
    }
    AloneIff(v, leaked, b);
    AloneIff(w, leaked, b);
  }
}
