/** Which batches of copies the manager queues can be made in any order: those queued while
    no request is swapped out or freed.  `Calm` says why.  The blocks that are copied stay in
    the tables, so that none of them is handed to a request that is swapped in, and no
    swapped-out table lists the CPU blocks they are copied to. */
module CalmBatches {
  import opened Sequences
  import opened BlockPools
  import opened CpuDemand
  import opened KVCacheManagers
  import opened SwapCopies
  import opened KVData
  import opened CopyStreams

  ghost predicate InSomeTable(tables: map<Id, seq<nat>>, b: nat) {
    exists r :: r in tables && b in tables[r]
  }

  /** A queued copy out of a block in some table to the CPU block behind it, which no
      swapped-out table lists. */
  ghost predicate OutSettled(v: View, p: (nat, nat)) {
    && InSomeTable(v.tables, p.0) && p.0 < |v.pools.gpu| && v.pools.gpu[p.0].mappedCpu == p.1
    && forall r :: r in v.cpuTables ==> p.1 !in v.cpuTables[r]
  }

  ghost predicate OutsSettled(v: View, outs: Pairs) {
    forall k :: 0 <= k < |outs| ==> OutSettled(v, outs[k])
  }

  ghost predicate InsSettled(tables: map<Id, seq<nat>>, ins: Pairs) {
    forall k :: 0 <= k < |ins| ==> InSomeTable(tables, ins[k].1)
  }

  ghost predicate Calm(v: View, outs: Pairs, ins: Pairs) {
    && OutsSettled(v, outs) && InsSettled(v.tables, ins)
    && SingleSource(outs) && SingleSource(ins) && Disjoint(outs, ins)
  }

  lemma CalmIsOrderless(v: View, outs: Pairs, ins: Pairs)
    requires Calm(v, outs, ins)
    ensures Orderless(outs, ins)
  {
    hide Apart, SingleSource, Disjoint, OutsSettled, InsSettled;
    DisjointIff(outs, ins);
  }

  lemma NothingQueuedIsCalm(v: View)
    ensures Calm(v, [], [])
  {
  }

  /** What stays settled: tables may be added, swapped-out ones removed, and free blocks
      remapped. */
  ghost predicate KeepsSettled(v: View, w: View) {
    && |w.pools.gpu| == |v.pools.gpu|
    && (forall r :: r in v.tables ==> r in w.tables && v.tables[r] <= w.tables[r])
    && (forall r :: r in w.cpuTables ==> r in v.cpuTables && w.cpuTables[r] == v.cpuTables[r])
    && (forall b :: 0 <= b < |v.pools.gpu| && b !in v.pools.freeGpu ==>
          w.pools.gpu[b].mappedCpu == v.pools.gpu[b].mappedCpu)
  }

  lemma StillInTable(v: View, w: View, b: nat)
    requires KeepsSettled(v, w) && InSomeTable(v.tables, b)
    ensures InSomeTable(w.tables, b)
  {
    var r :| r in v.tables && b in v.tables[r];
    assert b in w.tables[r];
  }

  lemma NotFree(v: View, leaked: multiset<nat>, b: nat)
    requires Consistent(v, leaked) && InSomeTable(v.tables, b)
    ensures b < |v.pools.gpu| && b !in v.pools.freeGpu && v.pools.gpu[b].refCnt > 0
  {
    hide Consistent;
    var r :| r in v.tables && b in v.tables[r];
    var i :| 0 <= i < |v.tables[r]| && v.tables[r][i] == b;
    EntryFacts(v, leaked, r, i);
  }

  lemma StaysSettled(v: View, leaked: multiset<nat>, w: View, outs: Pairs, ins: Pairs)
    requires Consistent(v, leaked) && KeepsSettled(v, w) && OutsSettled(v, outs) && InsSettled(v.tables, ins)
    ensures OutsSettled(w, outs) && InsSettled(w.tables, ins)
  {
    hide Consistent, InSomeTable;
    forall k | 0 <= k < |outs|
      ensures OutSettled(w, outs[k])
    {
      assert OutSettled(v, outs[k]);
      NotFree(v, leaked, outs[k].0);
      StillInTable(v, w, outs[k].0);
    }
    forall k | 0 <= k < |ins|
      ensures InSomeTable(w.tables, ins[k].1)
    {
      StillInTable(v, w, ins[k].1);
    }
  }

  lemma StaysCalm(v: View, leaked: multiset<nat>, w: View, outs: Pairs, ins: Pairs)
    requires Consistent(v, leaked) && KeepsSettled(v, w) && Calm(v, outs, ins)
    ensures Calm(w, outs, ins)
  {
    hide Consistent, KeepsSettled, OutsSettled, InsSettled, SingleSource, Disjoint;
    StaysSettled(v, leaked, w, outs, ins);
  }

  // ----- allocation

  lemma AllocateIsCalm(v: View, leaked: multiset<nat>, q: Pools, r: Id, computed: seq<nat>, blocks: seq<nat>,
                       claim: Claim, chains: map<Id, seq<Key>>)
    requires Consistent(v, leaked) && r !in v.tables && Grown(v.pools, q, computed, blocks, claim)
    ensures KeepsSettled(v, View(q, v.tables[r := computed + blocks], v.cpuTables, chains))
  {
    hide Consistent, RefsGrown, FreeBesides;
    FreeBesidesIn(v.pools.freeGpu, computed);
    forall b | 0 <= b < |v.pools.gpu| && b !in v.pools.freeGpu
      ensures q.gpu[b].mappedCpu == v.pools.gpu[b].mappedCpu
    {
      assert b !in blocks;
    }
  }

  lemma TouchIsCalm(v: View, q: Pools, computed: seq<nat>)
    requires TouchedAs(v.pools, q, computed)
    ensures KeepsSettled(v, v.(pools := q))
  {
    hide FreeBesides;
  }

  // ----- the next step of a running request

  /** The blocks that will be cached have their CPU blocks to themselves. */
  ghost predicate CachesOwn(v: View, r: Id, full: nat)
    requires r in v.tables && r in v.chains
  {
    forall i :: |v.chains[r]| <= i < full && i < |v.tables[r]| ==> Alone(v.pools, v.tables[r][i])
  }

  lemma AppendKeepsSettled(v: View, leaked: multiset<nat>, w: View, r: Id, blocks: seq<nat>, first: nat)
    requires Consistent(v, leaked) && r in v.tables && AppendEffect(v.pools, w.pools, v.tables[r], blocks, first)
    requires w.tables == v.tables[r := v.tables[r] + blocks] && w.cpuTables == v.cpuTables
    ensures KeepsSettled(v, w)
  {
    hide Consistent;
    forall b | 0 <= b < |v.pools.gpu| && b !in v.pools.freeGpu
      ensures w.pools.gpu[b].mappedCpu == v.pools.gpu[b].mappedCpu
    {
      assert b !in blocks;
    }
  }

  /** A block that was alone is the only one copied to its CPU block. */
  lemma OwnCopy(v: View, leaked: multiset<nat>, outs: Pairs, b: nat)
    requires Consistent(v, leaked) && InSomeTable(v.tables, b) && Alone(v.pools, b) && OutsSettled(v, outs)
    ensures forall k :: 0 <= k < |outs| && outs[k].1 == v.pools.gpu[b].mappedCpu ==> outs[k].0 == b
    ensures forall r :: r in v.cpuTables ==> v.pools.gpu[b].mappedCpu !in v.cpuTables[r]
  {
    hide Counts, TablesAgree, Held, InSomeTable;
    NotFree(v, leaked, b);
    AloneMeans(v.pools, Held(v.tables) + leaked, Held(v.cpuTables), b);
    forall k | 0 <= k < |outs| && outs[k].1 == v.pools.gpu[b].mappedCpu
      ensures outs[k].0 == b
    {
      assert OutSettled(v, outs[k]);
      NotFree(v, leaked, outs[k].0);
    }
    forall r | r in v.cpuTables
      ensures v.pools.gpu[b].mappedCpu !in v.cpuTables[r]
    {
      HeldRemove(v.cpuTables, r);
      assert v.pools.gpu[b].mappedCpu !in multiset(v.cpuTables[r]);
    }
  }

  /** One of the new copies, in the state before. */
  lemma NewOut(v: View, leaked: multiset<nat>, w: View, r: Id, blocks: seq<nat>, full: nat, p: (nat, nat))
    requires Consistent(v, leaked) && r in v.tables && r in v.chains && |v.chains[r]| <= full <= |v.tables[r]|
    requires w.tables == v.tables[r := v.tables[r] + blocks] && w.cpuTables == v.cpuTables
    requires AppendEffect(v.pools, w.pools, v.tables[r], blocks, |v.chains[r]|) && Below(w.tables[r], |w.pools.gpu|)
    requires CachesOwn(v, r, full) && p in CopiesOut(w.pools.gpu, w.tables[r], |v.chains[r]|, full)
    ensures p.0 in v.tables[r] && InSomeTable(v.tables, p.0) && Alone(v.pools, p.0)
    ensures v.pools.gpu[p.0].mappedCpu == p.1
  {
    hide Consistent, CopiesOut, Alone, InSomeTable;
    CopiesOutAre(w.pools.gpu, w.tables[r], |v.chains[r]|, full);
    var t, n := w.tables[r], |v.chains[r]|;
    var i :| 0 <= i < full - n && t[n..full][i] == p.0;
    assert v.tables[r][n + i] == p.0;
    EntryFacts(v, leaked, r, n + i);
    InTable(v.tables, r, p.0);
    AppendKeepsSettled(v, leaked, w, r, blocks, n);
  }

  lemma InTable(tables: map<Id, seq<nat>>, r: Id, b: nat)
    requires r in tables && b in tables[r]
    ensures InSomeTable(tables, b)
  {
  }

  lemma AppendIsCalm(v: View, leaked: multiset<nat>, w: View, r: Id, blocks: seq<nat>, full: nat, outs: Pairs)
    requires Consistent(v, leaked) && r in v.tables && r in v.chains && |v.chains[r]| <= full <= |v.tables[r]|
    requires w.tables == v.tables[r := v.tables[r] + blocks] && w.cpuTables == v.cpuTables
    requires AppendEffect(v.pools, w.pools, v.tables[r], blocks, |v.chains[r]|) && Below(w.tables[r], |w.pools.gpu|)
    requires CachesOwn(v, r, full) && Calm(v, outs, [])
    ensures Calm(w, outs + CopiesOut(w.pools.gpu, w.tables[r], |v.chains[r]|, full), [])
  {
    hide Consistent, CopiesOut, Alone, InSomeTable, AppendEffect, CachesOwn, OutSettled;
    var pairs := CopiesOut(w.pools.gpu, w.tables[r], |v.chains[r]|, full);
    AppendKeepsSettled(v, leaked, w, r, blocks, |v.chains[r]|);
    StaysSettled(v, leaked, w, outs, []);
    forall k | 0 <= k < |pairs|
      ensures OutSettled(v, pairs[k]) && OutSettled(w, pairs[k])
    {
      assert pairs[k] in pairs;
      NewOut(v, leaked, w, r, blocks, full, pairs[k]);
      OwnCopy(v, leaked, outs, pairs[k].0);
      SettledIs(v, pairs[k]);
      SettledAt(v, leaked, w, pairs[k]);
    }
    forall i, j | 0 <= i < |outs + pairs| && 0 <= j < |pairs| && (outs + pairs)[i].1 == pairs[j].1
      ensures (outs + pairs)[i].0 == pairs[j].0
    {
      assert pairs[j] in pairs;
      NewOut(v, leaked, w, r, blocks, full, pairs[j]);
      AllSettled(v, outs, pairs);
      OwnCopy(v, leaked, outs + pairs, pairs[j].0);
    }
    SingleMore(outs, pairs);
  }

  lemma SettledIs(v: View, p: (nat, nat))
    requires InSomeTable(v.tables, p.0) && p.0 < |v.pools.gpu| && v.pools.gpu[p.0].mappedCpu == p.1
    requires forall r :: r in v.cpuTables ==> p.1 !in v.cpuTables[r]
    ensures OutSettled(v, p)
  {
  }

  lemma SettledAt(v: View, leaked: multiset<nat>, w: View, p: (nat, nat))
    requires Consistent(v, leaked) && KeepsSettled(v, w) && OutSettled(v, p)
    ensures OutSettled(w, p)
  {
    hide Consistent, KeepsSettled, OutSettled;
    StaysSettled(v, leaked, w, [p], []);
    assert OutSettled(w, [p][0]);
  }

  lemma AllSettled(v: View, outs: Pairs, pairs: Pairs)
    requires OutsSettled(v, outs) && forall k :: 0 <= k < |pairs| ==> OutSettled(v, pairs[k])
    ensures OutsSettled(v, outs + pairs)
  {
    hide OutSettled;
  }

  lemma SingleMore(a: Pairs, b: Pairs)
    requires SingleSource(a)
    requires forall i, j :: 0 <= i < |a + b| && 0 <= j < |b| && (a + b)[i].1 == b[j].1 ==> (a + b)[i].0 == b[j].0
    ensures SingleSource(a + b)
  {
    var all := a + b;
    forall i, j | 0 <= i < |all| && 0 <= j < |all| && all[i].1 == all[j].1
      ensures all[i].0 == all[j].0
    {
      if j >= |a| {
        assert all[j] == b[j - |a|];
      } else if i >= |a| {
        assert all[i] == b[i - |a|];
      }
    }
  }

  // ----- swapping in

  lemma DisjointMore(outs: Pairs, ins: Pairs, more: Pairs)
    ensures Disjoint(outs, ins + more) <==> Disjoint(outs, ins) && Disjoint(outs, more)
  {
    var all := ins + more;
    if Disjoint(outs, all) {
      forall i, j | 0 <= i < |outs| && 0 <= j < |ins|
        ensures outs[i].0 != ins[j].1 && outs[i].1 != ins[j].0
      {
        assert all[j] == ins[j];
      }
      forall i, j | 0 <= i < |outs| && 0 <= j < |more|
        ensures outs[i].0 != more[j].1 && outs[i].1 != more[j].0
      {
        assert all[|ins| + j] == more[j];
      }
    }
  }

  /** A queued copy out gets in the way of the copy into new block `i`: it reads that block,
      or writes the CPU block the data comes from. */
  ghost predicate ClashesWith(outs: Pairs, cpu: seq<nat>, blocks: seq<nat>, first: nat, blockSize: nat,
                              numComputed: nat,
                              i: nat)
    requires i < |blocks| && first + |blocks| == |cpu|
  {
    HasTokens(first + i, blockSize, numComputed) &&
    exists k :: 0 <= k < |outs| && (outs[k].0 == blocks[i] || outs[k].1 == cpu[first + i])
  }

  /** Before the request is swapped in it is known whether its copies will be in the way. */
  lemma SwapInDisjointIff(outs: Pairs, cpu: seq<nat>, blocks: seq<nat>, first: nat, blockSize: nat, numComputed: nat)
    requires first + |blocks| == |cpu|
    ensures Disjoint(outs, CopiesIn(cpu, blocks, first, |blocks|, blockSize, numComputed)) <==>
            forall i :: 0 <= i < |blocks| ==> !ClashesWith(outs, cpu, blocks, first, blockSize, numComputed, i)
  {
    hide CopiesIn, HasTokens;
    var copies := CopiesIn(cpu, blocks, first, |blocks|, blockSize, numComputed);
    CopiesInAre(cpu, blocks, first, |blocks|, blockSize, numComputed);
    if Disjoint(outs, copies) {
      forall i | 0 <= i < |blocks|
        ensures !ClashesWith(outs, cpu, blocks, first, blockSize, numComputed, i)
      {
        if HasTokens(first + i, blockSize, numComputed) {
          assert (cpu[first + i], blocks[i]) in copies;
        }
      }
    }
    if forall i :: 0 <= i < |blocks| ==> !ClashesWith(outs, cpu, blocks, first, blockSize, numComputed, i) {
      forall k, j | 0 <= k < |outs| && 0 <= j < |copies|
        ensures outs[k].0 != copies[j].1 && outs[k].1 != copies[j].0
      {
        assert copies[j] in copies;
        var i :| 0 <= i < |blocks| && HasTokens(first + i, blockSize, numComputed)
                 && copies[j] == (cpu[first + i], blocks[i]);
        assert !ClashesWith(outs, cpu, blocks, first, blockSize, numComputed, i);
      }
    }
  }

  lemma SwapInKeepsSettled(v: View, w: View, r: Id, computed: seq<nat>, blocks: seq<nat>)
    requires r !in v.tables && SwapInEffect(v.pools, w.pools, computed, blocks)
    requires w.tables == v.tables[r := computed + blocks] && w.cpuTables == v.cpuTables - {r}
    ensures KeepsSettled(v, w)
  {
    forall b | 0 <= b < |v.pools.gpu| && b !in v.pools.freeGpu
      ensures w.pools.gpu[b].mappedCpu == v.pools.gpu[b].mappedCpu
    {
      assert b !in blocks;
    }
  }

  lemma SettledDoesNotClash(v: View, leaked: multiset<nat>, r: Id, blocks: seq<nat>, first: nat, blockSize: nat,
                            numComputed: nat, outs: Pairs, i: nat)
    requires Consistent(v, leaked) && r in v.cpuTables && first + |blocks| == |v.cpuTables[r]| && OutsSettled(v, outs)
    requires i < |blocks| && blocks[i] in v.pools.freeGpu
    ensures !ClashesWith(outs, v.cpuTables[r], blocks, first, blockSize, numComputed, i)
  {
    hide Consistent, InSomeTable, HasTokens;
    forall k | 0 <= k < |outs|
      ensures outs[k].0 != blocks[i] && outs[k].1 != v.cpuTables[r][first + i]
    {
      assert OutSettled(v, outs[k]);
      NotFree(v, leaked, outs[k].0);
    }
  }

  /** What is copied in goes to new blocks, one copy each. */
  lemma NewInsAreSingle(v: View, leaked: multiset<nat>, r: Id, blocks: seq<nat>, first: nat, blockSize: nat,
                        numComputed: nat, ins: Pairs)
    requires Consistent(v, leaked) && r in v.cpuTables && first + |blocks| == |v.cpuTables[r]|
    requires InsSettled(v.tables, ins) && SingleSource(ins) && NoDup(blocks)
    requires forall l :: 0 <= l < |blocks| ==> blocks[l] in v.pools.freeGpu
    ensures SingleSource(ins + CopiesIn(v.cpuTables[r], blocks, first, |blocks|, blockSize, numComputed))
  {
    hide Consistent, InSomeTable, HasTokens, CopiesIn;
    var copies := CopiesIn(v.cpuTables[r], blocks, first, |blocks|, blockSize, numComputed);
    CopiesInAre(v.cpuTables[r], blocks, first, |blocks|, blockSize, numComputed);
    var all := ins + copies;
    forall i, j | 0 <= i < |all| && 0 <= j < |copies| && all[i].1 == copies[j].1
      ensures all[i].0 == copies[j].0
    {
      assert copies[j] in copies;
      if i < |ins| {
        assert InSomeTable(v.tables, ins[i].1);
        NotFree(v, leaked, ins[i].1);
      } else {
        assert all[i] == copies[i - |ins|] && copies[i - |ins|] in copies;
      }
    }
    SingleMore(ins, copies);
  }

  lemma SwapInIsCalm(v: View, leaked: multiset<nat>, w: View, r: Id, computed: seq<nat>, blocks: seq<nat>,
                     blockSize: nat,
                     numComputed: nat, outs: Pairs, ins: Pairs)
    requires Consistent(v, leaked) && r !in v.tables && r in v.cpuTables && NoDup(blocks)
    requires |computed| + |blocks| == |v.cpuTables[r]| && SwapInEffect(v.pools, w.pools, computed, blocks)
    requires w.tables == v.tables[r := computed + blocks] && w.cpuTables == v.cpuTables - {r} && Calm(v, outs, ins)
    ensures Calm(w, outs, ins + CopiesIn(v.cpuTables[r], blocks, |computed|, |blocks|, blockSize, numComputed))
  {
    hide Consistent, InSomeTable, CopiesIn, OutSettled, SingleSource, Disjoint, ClashesWith, NoDup;
    var copies := CopiesIn(v.cpuTables[r], blocks, |computed|, |blocks|, blockSize, numComputed);
    SwapInKeepsSettled(v, w, r, computed, blocks);
    StaysSettled(v, leaked, w, outs, ins);
    NewInsAreSingle(v, leaked, r, blocks, |computed|, blockSize, numComputed, ins);
    forall i | 0 <= i < |blocks|
      ensures !ClashesWith(outs, v.cpuTables[r], blocks, |computed|, blockSize, numComputed, i)
    {
      SettledDoesNotClash(v, leaked, r, blocks, |computed|, blockSize, numComputed, outs, i);
    }
    SwapInDisjointIff(outs, v.cpuTables[r], blocks, |computed|, blockSize, numComputed);
    DisjointMore(outs, ins, copies);
    NewInsAreSettled(w, r, v.cpuTables[r], computed, blocks, blockSize, numComputed, ins);
  }

  lemma NewInsAreSettled(w: View, r: Id, cpu: seq<nat>, computed: seq<nat>, blocks: seq<nat>, blockSize: nat,
                         numComputed: nat, ins: Pairs)
    requires r in w.tables && w.tables[r] == computed + blocks && |computed| + |blocks| == |cpu|
    requires InsSettled(w.tables, ins)
    ensures InsSettled(w.tables, ins + CopiesIn(cpu, blocks, |computed|, |blocks|, blockSize, numComputed))
  {
    hide CopiesIn, InSomeTable, HasTokens;
    var copies := CopiesIn(cpu, blocks, |computed|, |blocks|, blockSize, numComputed);
    CopiesInAre(cpu, blocks, |computed|, |blocks|, blockSize, numComputed);
    forall j | 0 <= j < |copies|
      ensures InSomeTable(w.tables, copies[j].1)
    {
      assert copies[j] in copies;
      assert copies[j].1 in computed + blocks;
      InTable(w.tables, r, copies[j].1);
    }
  }
}
