/** What the queued copies between GPU and CPU blocks do to the data.  Copies out are made
    first, then copies in, each list in order, as in `swap_naive` of
    vllm/v1/swapper/native/swapper.cpp. */
module SwapCopies {
  import opened Sequences
  import opened BlockPools
  import opened CpuBlocks
  import opened KVCacheManagers

  type Pairs = seq<(nat, nat)>

  ghost predicate InBounds(pairs: Pairs, from: nat, to: nat) {
    forall k :: 0 <= k < |pairs| ==> pairs[k].0 < from && pairs[k].1 < to
  }

  /** The memory after the copies, which are made in order. */
  ghost function Copied<T>(from: seq<T>, to: seq<T>, pairs: Pairs): (r: seq<T>)
    requires InBounds(pairs, |from|, |to|)
    ensures |r| == |to|
  {
    if pairs == [] then to
    else
      var n := |pairs| - 1;
      Copied(from, to, pairs[..n])[pairs[n].1 := from[pairs[n].0]]
  }

  predicate Writes(pairs: Pairs, d: nat) {
    exists k :: 0 <= k < |pairs| && pairs[k].1 == d
  }

  /** A place that all its copies agree on holds that value in the end. */
  lemma {:induction false} CopiedValue<T>(from: seq<T>, to: seq<T>, pairs: Pairs, d: nat, v: T)
    requires InBounds(pairs, |from|, |to|) && d < |to|
    requires forall k :: 0 <= k < |pairs| && pairs[k].1 == d ==> from[pairs[k].0] == v
    ensures Copied(from, to, pairs)[d] == if Writes(pairs, d) then v else to[d]
  {
    if pairs != [] {
      var n := |pairs| - 1;
      var before := pairs[..n];
      CopiedValue(from, to, before, d, v);
      if pairs[n].1 == d {
        assert Writes(pairs, d);
      } else {
        if Writes(pairs, d) {
          var k :| 0 <= k < |pairs| && pairs[k].1 == d;
          assert before[k].1 == d;
        }
        if Writes(before, d) {
          var k :| 0 <= k < |before| && before[k].1 == d;
          assert pairs[k].1 == d;
        }
      }
    }
  }

  /** Copies may be made in two goes. */
  lemma {:induction false} CopiedInTwo<T>(from: seq<T>, to: seq<T>, a: Pairs, b: Pairs)
    requires InBounds(a, |from|, |to|) && InBounds(b, |from|, |to|)
    ensures InBounds(a + b, |from|, |to|) && Copied(from, to, a + b) == Copied(from, Copied(from, to, a), b)
    decreases |b|
  {
    if b == [] {
      assert a + b == a;
    } else {
      var n := |b| - 1;
      CopiedInTwo(from, to, a, b[..n]);
      assert (a + b)[..|a + b| - 1] == a + b[..n];
    }
  }

  // ----- which copies are queued

  /** The copies out of `swap_out`: one for each dirty block of the table. */
  lemma {:induction false} DirtyPairsAre(gpu: seq<Gpu>, t: seq<nat>)
    requires Below(t, |gpu|)
    ensures forall p :: p in DirtyPairs(gpu, t) <==>
              p.0 in t && (gpu[p.0].status.FullDirty? || gpu[p.0].status.HalfDirty?) && p.1 == gpu[p.0].mappedCpu
  {
    if t != [] {
      var n := |t| - 1;
      DirtyPairsAre(gpu, t[..n]);
      assert t == t[..n] + [t[n]];
    }
  }

  lemma NothingQueuedIff(gpu: seq<Gpu>, t: seq<nat>)
    requires Below(t, |gpu|)
    ensures DirtyPairs(gpu, t) == [] <==> forall b :: b in t ==> !gpu[b].status.IsDirty()
  {
    hide DirtyPairs;
    DirtyPairsAre(gpu, t);
    if DirtyPairs(gpu, t) == [] {
      forall b | b in t
        ensures !gpu[b].status.IsDirty()
      {
        assert (b, gpu[b].mappedCpu) !in DirtyPairs(gpu, t);
      }
    } else {
      assert DirtyPairs(gpu, t)[0] in DirtyPairs(gpu, t);
    }
  }

  /** The copies out of `append_slots`: one for each block that is cached. */
  lemma {:induction false} CopiesOutAre(gpu: seq<Gpu>, t: seq<nat>, lo: nat, hi: nat)
    requires Below(t, |gpu|) && lo <= hi <= |t|
    ensures forall p :: p in CopiesOut(gpu, t, lo, hi) <==> p.0 in t[lo..hi] && p.1 == gpu[p.0].mappedCpu
  {
    if lo < hi {
      CopiesOutAre(gpu, t, lo, hi - 1);
      assert t[lo..hi] == t[lo..hi - 1] + [t[hi - 1]];
    }
  }

  predicate HasTokens(index: nat, blockSize: nat, numComputed: nat) {
    index * blockSize + 1 <= numComputed
  }

  /** The copies in: one for each new block with a computed token. */
  lemma {:induction false} CopiesInAre(cpu: seq<nat>, blocks: seq<nat>, first: nat, n: nat, blockSize: nat,
                                       numComputed: nat)
    requires n <= |blocks| && first + |blocks| <= |cpu|
    ensures forall p :: p in CopiesIn(cpu, blocks, first, n, blockSize, numComputed) <==>
              exists i ::
                0 <= i < n && HasTokens(first + i, blockSize, numComputed) && p == (cpu[first + i], blocks[i])
  {
    if n > 0 {
      CopiesInAre(cpu, blocks, first, n - 1, blockSize, numComputed);
      NextCopy(cpu, blocks, first, n - 1, blockSize, numComputed);
      var all, before := CopiesIn(cpu, blocks, first, n, blockSize, numComputed),
                         CopiesIn(cpu, blocks, first, n - 1, blockSize, numComputed);
      var last := (cpu[first + n - 1], blocks[n - 1]);
      assert HasTokens(first + (n - 1), blockSize, numComputed) <==> (first + n - 1) * blockSize + 1 <= numComputed;
      forall p
        ensures p in all <==>
                exists i ::
                0 <= i < n && HasTokens(first + i, blockSize, numComputed) && p == (cpu[first + i], blocks[i])
      {
        assert p in all <==> p in before || (HasTokens(first + (n - 1), blockSize, numComputed) && p == last);
      }
    }
  }

  // ----- copies out

  /** Nobody else refers to the CPU block behind `b`, and no cached block is mapped to it. */
  predicate Alone(p: Pools, b: nat) {
    && b < |p.gpu| && p.gpu[b].mappedCpu < |p.cpuRef| && p.cpuRef[p.gpu[b].mappedCpu] == 1
    && forall x :: 0 <= x < |p.gpu| && x != b && p.gpu[x].key.Some? ==> p.gpu[x].mappedCpu != p.gpu[b].mappedCpu
  }

  lemma {:induction false} TwoMapped(gpu: seq<Gpu>, a: nat, b: nat)
    requires a < b < |gpu| && gpu[a].mappedCpu == gpu[b].mappedCpu && forall x :: 0 <= x < |gpu| ==> gpu[x].refCnt >= 0
    ensures MappedRefs(gpu, gpu[a].mappedCpu) >= gpu[a].refCnt + gpu[b].refCnt
  {
    var n := |gpu| - 1;
    if b < n {
      TwoMapped(gpu[..n], a, b);
    } else {
      MappedRefsAtLeast(gpu[..n], a);
    }
  }

  /** A live block that is alone is the only live user of its CPU block, and no swapped-out
      table lists it. */
  lemma AloneMeans(p: Pools, held: multiset<nat>, heldCpu: multiset<nat>, b: nat)
    requires Counts(p, held, heldCpu) && Alone(p, b) && p.gpu[b].refCnt > 0
    ensures p.gpu[b].mappedCpu !in heldCpu
    ensures forall x :: 0 <= x < |p.gpu| && p.gpu[x].refCnt > 0 && p.gpu[x].mappedCpu == p.gpu[b].mappedCpu ==> x == b
  {
    MappedRefsAtLeast(p.gpu, b);
    forall x | 0 <= x < |p.gpu| && x != b && p.gpu[x].refCnt > 0
      ensures p.gpu[x].mappedCpu != p.gpu[b].mappedCpu
    {
      if p.gpu[x].mappedCpu == p.gpu[b].mappedCpu {
        TwoMapped(p.gpu, if x < b then x else b, if x < b then b else x);
      }
    }
  }

  /** Copies from live blocks to the CPU blocks behind them. */
  ghost predicate OutPairs(p: Pools, pairs: Pairs) {
    forall k :: 0 <= k < |pairs| ==>
      && pairs[k].0 < |p.gpu| && pairs[k].1 < |p.cpuRef| && p.gpu[pairs[k].0].refCnt > 0
      && pairs[k].1 == p.gpu[pairs[k].0].mappedCpu
  }

  /** Each copy changes nothing, or what only its own block relies on. */
  ghost predicate Harmless<T>(p: Pools, gpuMem: seq<T>, cpuMem: seq<T>, pairs: Pairs) {
    && |gpuMem| == |p.gpu| && |cpuMem| == |p.cpuRef| && OutPairs(p, pairs)
    && forall k :: 0 <= k < |pairs| ==> Alone(p, pairs[k].0) || cpuMem[pairs[k].1] == gpuMem[pairs[k].0]
  }

  /** After harmless copies every copied block has its data behind it. */
  lemma CopyOutAt<T>(p: Pools, held: multiset<nat>, heldCpu: multiset<nat>, gpuMem: seq<T>, cpuMem: seq<T>,
                     pairs: Pairs, k: nat)
    requires Counts(p, held, heldCpu) && Harmless(p, gpuMem, cpuMem, pairs) && k < |pairs|
    ensures InBounds(pairs, |gpuMem|, |cpuMem|) && Copied(gpuMem, cpuMem, pairs)[pairs[k].1] == gpuMem[pairs[k].0]
  {
    hide Counts;
    var b, c := pairs[k].0, pairs[k].1;
    forall l | 0 <= l < |pairs| && pairs[l].1 == c
      ensures gpuMem[pairs[l].0] == gpuMem[b]
    {
      if Alone(p, b) {
        AloneMeans(p, held, heldCpu, b);
      } else if Alone(p, pairs[l].0) {
        AloneMeans(p, held, heldCpu, pairs[l].0);
      }
    }
    CopiedValue(gpuMem, cpuMem, pairs, c, gpuMem[b]);
  }

  /** A CPU block that is behind no copied block alone keeps its data. */
  lemma CopyOutKeeps<T>(p: Pools, gpuMem: seq<T>, cpuMem: seq<T>, pairs: Pairs, c: nat)
    requires Harmless(p, gpuMem, cpuMem, pairs) && c < |cpuMem|
    requires forall k :: 0 <= k < |pairs| && pairs[k].1 == c ==> !Alone(p, pairs[k].0)
    ensures InBounds(pairs, |gpuMem|, |cpuMem|) && Copied(gpuMem, cpuMem, pairs)[c] == cpuMem[c]
  {
    CopiedValue(gpuMem, cpuMem, pairs, c, cpuMem[c]);
  }

  /** The CPU block behind a block holds its data. */
  ghost predicate CopyBehind<T>(gpu: seq<Gpu>, gpuMem: seq<T>, cpuMem: seq<T>, b: nat) {
    b < |gpu| && b < |gpuMem| && gpu[b].mappedCpu < |cpuMem| && cpuMem[gpu[b].mappedCpu] == gpuMem[b]
  }

  /** Two dirty blocks of a table have the same CPU block behind them, and different data. */
  ghost predicate Clash<T>(gpu: seq<Gpu>, t: seq<nat>, gpuMem: seq<T>, a: nat, b: nat) {
    && a in t && b in t && a < |gpu| && b < |gpu| && a < |gpuMem| && b < |gpuMem|
    && gpu[a].status.IsDirty() && gpu[b].status.IsDirty() && gpu[a].mappedCpu == gpu[b].mappedCpu
    && gpuMem[a] != gpuMem[b]
  }

  lemma SavedWithoutClash<T>(gpu: seq<Gpu>, t: seq<nat>, gpuMem: seq<T>, cpuMem: seq<T>, b: nat)
    requires Below(t, |gpu|) && |gpuMem| == |gpu| && InBounds(DirtyPairs(gpu, t), |gpuMem|, |cpuMem|)
    requires b in t && gpu[b].status.IsDirty() && gpu[b].mappedCpu < |cpuMem|
    requires forall a :: 0 <= a < |gpu| ==> !Clash(gpu, t, gpuMem, a, b)
    ensures CopyBehind(gpu, gpuMem, Copied(gpuMem, cpuMem, DirtyPairs(gpu, t)), b)
  {
    hide Copied, DirtyPairs;
    var pairs, c := DirtyPairs(gpu, t), gpu[b].mappedCpu;
    DirtyPairsAre(gpu, t);
    forall k | 0 <= k < |pairs| && pairs[k].1 == c
      ensures gpuMem[pairs[k].0] == gpuMem[b]
    {
      assert pairs[k] in pairs;
      assert !Clash(gpu, t, gpuMem, pairs[k].0, b);
    }
    assert (b, c) in pairs;
    var k :| 0 <= k < |pairs| && pairs[k] == (b, c);
    assert Writes(pairs, c);
    CopiedValue(gpuMem, cpuMem, pairs, c, gpuMem[b]);
  }

  lemma DirtyPairsInBounds(gpu: seq<Gpu>, t: seq<nat>, numCpu: nat)
    requires Below(t, |gpu|) && forall b :: 0 <= b < |gpu| ==> gpu[b].mappedCpu < numCpu
    ensures InBounds(DirtyPairs(gpu, t), |gpu|, numCpu)
  {
    hide DirtyPairs;
    var pairs := DirtyPairs(gpu, t);
    DirtyPairsAre(gpu, t);
    forall k | 0 <= k < |pairs|
      ensures pairs[k].0 < |gpu| && pairs[k].1 < numCpu
    {
      assert pairs[k] in pairs;
    }
  }

  /** The copies out of `swap_out` save all dirty blocks of the table exactly when no two of
      them clash. */
  lemma SwapOutSavesIff<T>(gpu: seq<Gpu>, t: seq<nat>, gpuMem: seq<T>, cpuMem: seq<T>)
    requires Below(t, |gpu|) && |gpuMem| == |gpu| && forall b :: 0 <= b < |gpu| ==> gpu[b].mappedCpu < |cpuMem|
    ensures InBounds(DirtyPairs(gpu, t), |gpuMem|, |cpuMem|)
    ensures (forall b :: b in t && gpu[b].status.IsDirty() ==>
               CopyBehind(gpu, gpuMem, Copied(gpuMem, cpuMem, DirtyPairs(gpu, t)), b)) <==>
            forall a, b :: a in t && b in t ==> !Clash(gpu, t, gpuMem, a, b)
  {
    hide Copied, DirtyPairs;
    DirtyPairsInBounds(gpu, t, |cpuMem|);
    var after := Copied(gpuMem, cpuMem, DirtyPairs(gpu, t));
    if forall a, b :: a in t && b in t ==> !Clash(gpu, t, gpuMem, a, b) {
      forall b | b in t && gpu[b].status.IsDirty()
        ensures CopyBehind(gpu, gpuMem, after, b)
      {
        SavedWithoutClash(gpu, t, gpuMem, cpuMem, b);
      }
    } else {
      var a, b :| a in t && b in t && Clash(gpu, t, gpuMem, a, b);
      assert !(CopyBehind(gpu, gpuMem, after, a) && CopyBehind(gpu, gpuMem, after, b));
    }
  }

  // ----- copies in

  lemma CopiesInBounds(cpu: seq<nat>, blocks: seq<nat>, first: nat, blockSize: nat, numComputed: nat, numCpu: nat,
                       numGpu: nat)
    requires first + |blocks| == |cpu| && Below(cpu, numCpu) && Below(blocks, numGpu)
    ensures InBounds(CopiesIn(cpu, blocks, first, |blocks|, blockSize, numComputed), numCpu, numGpu)
  {
    hide CopiesIn;
    var copies := CopiesIn(cpu, blocks, first, |blocks|, blockSize, numComputed);
    CopiesInAre(cpu, blocks, first, |blocks|, blockSize, numComputed);
    forall k | 0 <= k < |copies|
      ensures copies[k].0 < numCpu && copies[k].1 < numGpu
    {
      assert copies[k] in copies;
    }
  }

  lemma CopyInAt<T>(cpu: seq<nat>, blocks: seq<nat>, first: nat, blockSize: nat, numComputed: nat, from: seq<T>,
                    to: seq<T>, i: nat)
    requires first + |blocks| == |cpu| && NoDup(blocks) && i < |blocks| && HasTokens(first + i, blockSize, numComputed)
    requires Below(cpu, |from|) && Below(blocks, |to|)
    requires InBounds(CopiesIn(cpu, blocks, first, |blocks|, blockSize, numComputed), |from|, |to|)
    ensures Copied(from, to,
                   CopiesIn(cpu, blocks, first, |blocks|, blockSize, numComputed))[blocks[i]] == from[cpu[first + i]]
  {
    hide CopiesIn, Copied, HasTokens;
    var copies := CopiesIn(cpu, blocks, first, |blocks|, blockSize, numComputed);
    CopiesInAre(cpu, blocks, first, |blocks|, blockSize, numComputed);
    var a, d := cpu[first + i], blocks[i];
    forall k | 0 <= k < |copies| && copies[k].1 == d
      ensures from[copies[k].0] == from[a]
    {
      assert copies[k] in copies;
    }
    assert (a, d) in copies;
    var k :| 0 <= k < |copies| && copies[k] == (a, d);
    assert Writes(copies, d);
    CopiedValue(from, to, copies, d, from[a]);
  }

  lemma CopyInKeeps<T>(cpu: seq<nat>, blocks: seq<nat>, first: nat, blockSize: nat, numComputed: nat, from: seq<T>,
                       to: seq<T>, b: nat)
    requires first + |blocks| == |cpu| && b < |to| && b !in blocks
    requires InBounds(CopiesIn(cpu, blocks, first, |blocks|, blockSize, numComputed), |from|, |to|)
    ensures Copied(from, to, CopiesIn(cpu, blocks, first, |blocks|, blockSize, numComputed))[b] == to[b]
  {
    hide CopiesIn, Copied, HasTokens;
    var copies := CopiesIn(cpu, blocks, first, |blocks|, blockSize, numComputed);
    CopiesInAre(cpu, blocks, first, |blocks|, blockSize, numComputed);
    forall k | 0 <= k < |copies|
      ensures copies[k].1 != b
    {
      assert copies[k] in copies;
    }
    CopiedValue(from, to, copies, b, to[b]);
  }
}
