/** The loops of vllm/v1/core/kv_cache_manager.py over lists of blocks, each proved
    against the bookkeeping law of `BlockPools`. */
module PoolLoops {
  import opened Sequences
  import opened Options
  import opened BlockPools
  import opened CpuBlocks
  import opened CpuDemand

  // ----- multisets of held blocks along a loop

  ghost function Plus(m: multiset<nat>, s: seq<nat>, i: nat): multiset<nat>
    requires i <= |s|
  {
    if i == 0 then m else Plus(m, s, i - 1) + multiset{s[i - 1]}
  }

  ghost function Minus(m: multiset<nat>, s: seq<nat>, i: nat): multiset<nat>
    requires i <= |s|
  {
    if i == 0 then m else Minus(m, s, i - 1) - multiset{s[i - 1]}
  }

  lemma {:induction false} PlusIs(m: multiset<nat>, s: seq<nat>, i: nat)
    requires i <= |s|
    ensures Plus(m, s, i) == m + multiset(s[..i])
  {
    if i > 0 {
      PlusIs(m, s, i - 1);
      Snoc(s, i);
    }
  }

  lemma PlusAll(m: multiset<nat>, s: seq<nat>)
    ensures Plus(m, s, |s|) == m + multiset(s) && Plus(m, s, 0) == m
  {
    PlusIs(m, s, |s|);
    assert s[..|s|] == s;
  }

  lemma {:induction false} MinusIs(m: multiset<nat>, s: seq<nat>, i: nat)
    requires i <= |s|
    ensures Minus(m, s, i) == m - multiset(s[..i])
  {
    if i > 0 {
      MinusIs(m, s, i - 1);
      Snoc(s, i);
      MinusTwice(m, multiset(s[..i - 1]), s[i - 1]);
    }
  }

  lemma Snoc(s: seq<nat>, i: nat)
    requires 0 < i <= |s|
    ensures multiset(s[..i]) == multiset(s[..i - 1]) + multiset{s[i - 1]}
  {
    assert s[..i] == s[..i - 1] + [s[i - 1]];
  }

  lemma MinusTwice(m: multiset<nat>, a: multiset<nat>, x: nat)
    ensures m - a - multiset{x} == m - (a + multiset{x})
  {
  }

  lemma MinusAll(m: multiset<nat>, s: seq<nat>)
    ensures Minus(m, s, |s|) == m - multiset(s) && Minus(m, s, 0) == m
  {
    MinusIs(m, s, |s|);
    assert s[..|s|] == s;
  }

  lemma StillHeld(m: multiset<nat>, s: seq<nat>, i: nat)
    requires multiset(s) <= m && i < |s|
    ensures s[i] in Minus(m, s, i)
    ensures Minus(m, s, i + 1) == Minus(m, s, i) - multiset{s[i]}
  {
    MinusIs(m, s, i);
    var x, before, after := s[i], s[..i], s[i + 1..];
    assert s == before + [x] + after;
    assert multiset(s) == multiset(before) + multiset{x} + multiset(after);
    assert multiset(s)[x] > multiset(before)[x];
  }

  lemma OneMore(m: multiset<nat>, s: seq<nat>, i: nat)
    requires i < |s|
    ensures Plus(m, s, i + 1) == Plus(m, s, i) + multiset{s[i]}
  {
  }

  // ----- the loops

  /** Every CPU block has as many more references as the list says. */
  ghost predicate MoreRefs(before: seq<int>, after: seq<int>, cs: seq<nat>) {
    |after| == |before| && forall c :: 0 <= c < |before| ==> after[c] == before[c] + multiset(cs)[c]
  }

  lemma MoreRefsNext(before: seq<int>, cs: seq<nat>, i: nat, middle: seq<int>)
    requires i < |cs| && cs[i] < |middle| && MoreRefs(before, middle, cs[..i])
    ensures MoreRefs(before, middle[cs[i] := middle[cs[i]] + 1], cs[..i + 1])
  {
    Snoc(cs, i + 1);
    assert cs[..i + 1] == cs[..i] + [cs[i]];
  }

  /** `_touch`. */
  method TouchAll(p: Pools, blocks: seq<nat>, ghost held: multiset<nat>,
                  ghost heldCpu: multiset<nat>) returns (q: Pools)
    requires Counts(p, held, heldCpu) && Agrees(p) && Below(blocks, |p.gpu|)
    requires forall i :: 0 <= i < |blocks| ==> p.gpu[blocks[i]].key.Some?
    ensures Counts(q, held + multiset(blocks), heldCpu) && Agrees(q)
    ensures SameKeys(p, q) && SameMapping(p, q) && q.freeCpu == p.freeCpu
    ensures q.freeGpu == FreeBesides(p.freeGpu, blocks)
    ensures MoreRefs(p.cpuRef, q.cpuRef, CpuOf(p.gpu, blocks)) && KeepsCpu(p, q)
    ensures forall b :: 0 <= b < |p.gpu| && b !in blocks ==> q.gpu[b] == p.gpu[b]
  {
    hide TouchInv, TouchOne, Counts, Agrees, FreeBesides, KeepsCpu;
    q := p;
    TouchStart(p, blocks, held, heldCpu);
    for i := 0 to |blocks|
      invariant TouchInv(p, q, blocks, i, held, heldCpu)
    {
      TouchStep(p, q, blocks, i, held, heldCpu);
      q := TouchOne(q, blocks[i]);
    }
    TouchEnd(p, q, blocks, held, heldCpu);
  }

  /** The state after the first `i` touches. */
  ghost predicate TouchInv(p: Pools, q: Pools, blocks: seq<nat>, i: nat, held: multiset<nat>, heldCpu: multiset<nat>)
    requires i <= |blocks| && Below(blocks, |p.gpu|)
  {
    && Counts(q, Plus(held, blocks, i), heldCpu) && Agrees(q)
    && SameKeys(p, q) && SameMapping(p, q) && q.freeCpu == p.freeCpu
    && q.freeGpu == FreeBesides(p.freeGpu, blocks[..i])
    && MoreRefs(p.cpuRef, q.cpuRef, CpuOf(p.gpu, blocks)[..i]) && KeepsCpu(p, q)
    && forall b :: 0 <= b < |p.gpu| && b !in blocks[..i] ==> q.gpu[b] == p.gpu[b]
  }

  lemma TouchStart(p: Pools, blocks: seq<nat>, held: multiset<nat>, heldCpu: multiset<nat>)
    requires Counts(p, held, heldCpu) && Agrees(p) && Below(blocks, |p.gpu|)
    ensures TouchInv(p, p, blocks, 0, held, heldCpu)
  {
    hide Counts, Agrees, KeepsCpu;
    KeepsSelf(p);
    FreeBesidesNone(p.freeGpu);
    assert blocks[..0] == [];
    assert CpuOf(p.gpu, blocks)[..0] == [];
  }

  lemma TouchStep(p: Pools, q: Pools, blocks: seq<nat>, i: nat, held: multiset<nat>, heldCpu: multiset<nat>)
    requires i < |blocks| && Below(blocks, |p.gpu|) && p.gpu[blocks[i]].key.Some? && Counts(p, held, heldCpu)
    requires TouchInv(p, q, blocks, i, held, heldCpu)
    ensures blocks[i] < |q.gpu| && q.gpu[blocks[i]].mappedCpu < |q.cpuRef|
    ensures TouchInv(p, TouchOne(q, blocks[i]), blocks, i + 1, held, heldCpu)
  {
    hide Counts, Agrees, Plus, InRange, KeepsCpu, FreeBesides, TouchOne;
    var h, b := Plus(held, blocks, i), blocks[i];
    MappedInRange(q, h, heldCpu, b);
    TouchCounts(q, b, h, heldCpu);
    TouchAgrees(q, b, h, heldCpu);
    TouchKeepsCpu(q, b);
    KeepsThrough(p, q, TouchOne(q, b));
    OneMore(held, blocks, i);
    QueueDistinct(p, held, heldCpu);
    FreeBesidesMore(p.freeGpu, blocks[..i], b);
    TouchFrame(q, b, h, heldCpu);
    MoreRefsNext(p.cpuRef, CpuOf(p.gpu, blocks), i, q.cpuRef);
    assert blocks[..i + 1] == blocks[..i] + [b];
  }

  lemma QueueDistinct(p: Pools, held: multiset<nat>, heldCpu: multiset<nat>)
    requires Counts(p, held, heldCpu)
    ensures NoDup(p.freeGpu)
  {
  }

  lemma TouchFrame(p: Pools, b: nat, held: multiset<nat>, heldCpu: multiset<nat>)
    requires Counts(p, held, heldCpu) && b < |p.gpu| && p.gpu[b].mappedCpu < |p.cpuRef|
    ensures var q, c := TouchOne(p, b), p.gpu[b].mappedCpu;
            && q.freeGpu == SeqRemove(p.freeGpu, b) && q.cpuRef == p.cpuRef[c := p.cpuRef[c] + 1]
            && |q.gpu| == |p.gpu| && q.gpu == p.gpu[b := q.gpu[b]]
  {
    hide CpuCounts;
    if p.gpu[b].refCnt != 0 {
      NotThere(p.freeGpu, b);
    }
  }

  lemma TouchEnd(p: Pools, q: Pools, blocks: seq<nat>, held: multiset<nat>, heldCpu: multiset<nat>)
    requires Below(blocks, |p.gpu|) && TouchInv(p, q, blocks, |blocks|, held, heldCpu)
    ensures Counts(q, held + multiset(blocks), heldCpu) && Agrees(q)
    ensures SameKeys(p, q) && SameMapping(p, q) && q.freeCpu == p.freeCpu
    ensures q.freeGpu == FreeBesides(p.freeGpu, blocks)
    ensures MoreRefs(p.cpuRef, q.cpuRef, CpuOf(p.gpu, blocks)) && KeepsCpu(p, q)
    ensures forall b :: 0 <= b < |p.gpu| && b !in blocks ==> q.gpu[b] == p.gpu[b]
  {
    hide Counts, Agrees, Plus, FreeBesides, KeepsCpu;
    PlusAll(held, blocks);
    var cs := CpuOf(p.gpu, blocks);
    assert blocks[..|blocks|] == blocks && cs[..|blocks|] == cs;
  }

  /** `_get_new_blocks`: the blocks that were taken, and whether the CPU pool sufficed. */
  datatype Taken = Taken(pools: Pools, blocks: seq<nat>, complete: bool)

  ghost predicate FreshBlocks(p: Pools, q: Pools, blocks: seq<nat>) {
    && |q.gpu| == |p.gpu| && |q.cpuRef| == |p.cpuRef|
    && (forall b :: 0 <= b < |p.gpu| && b !in blocks ==> q.gpu[b] == p.gpu[b])
    && (forall i :: 0 <= i < |blocks| ==>
          blocks[i] < |p.gpu| && q.gpu[blocks[i]] == Gpu(1, q.gpu[blocks[i]].mappedCpu, Empty, None))
  }

  /** The CPU blocks are distributed as computed beforehand. */
  ghost predicate Distributed(p: Pools, q: Pools, queue: seq<nat>, claim: Claim)
    requires |claim.cpus| <= |queue|
  {
    && claim.popped <= |p.freeCpu| && q.freeCpu == p.freeCpu[claim.popped..]
    && MoreRefs(p.cpuRef, q.cpuRef, claim.cpus)
    && Below(claim.cpus, |p.cpuRef|)
    && forall l :: 0 <= l < |claim.cpus| ==> MappedCpu(q, queue[l]) == claim.cpus[l]
  }

  /** `_get_new_blocks`.  The head of the queue is handed out, and it succeeds exactly when
      there are free CPU blocks for all blocks whose own CPU block is in use. */
  method TakeNew(p: Pools, n: nat, enableCaching: bool, ghost held: multiset<nat>, ghost heldCpu: multiset<nat>)
    returns (r: Taken)
    requires Counts(p, held, heldCpu) && Agrees(p) && n <= |p.freeGpu| && (!enableCaching ==> NoKeys(p))
    ensures r.complete <==> Suffices(p, [], p.freeGpu, n)
    ensures r.complete <==> |r.blocks| == n
    ensures |r.blocks| <= n && r.blocks == p.freeGpu[..|r.blocks|] && r.pools.freeGpu == p.freeGpu[|r.blocks|..]
    ensures NoDup(r.blocks)
    ensures Counts(r.pools, held + multiset(r.blocks), heldCpu) && Agrees(r.pools)
    ensures FreshBlocks(p, r.pools, r.blocks) && (!enableCaching ==> NoKeys(r.pools))
    ensures Distributed(p, r.pools, r.blocks, Claims(p, [], p.freeGpu, |r.blocks|)) && KeepsCpu(p, r.pools)
  {
    hide TakeInv, TakeOne, Counts, Agrees, FreshBlocks, Distributed, KeepsCpu, NoDup, Claims, NoKeys;
    var q, i := p, 0;
    TakeStart(p, enableCaching, held, heldCpu);
    while i < n
      invariant 0 <= i <= n && TakeInv(p, q, i, enableCaching, held, heldCpu)
    {
      TakeReady(p, q, i, enableCaching, held, heldCpu);
      var t := TakeOne(q, enableCaching);
      if t.None? {
        TakeRefused(p, q, i, n, enableCaching, held, heldCpu);
        TakeEnd(p, q, i, enableCaching, held, heldCpu);
        return Taken(q, p.freeGpu[..i], false);
      }
      TakeStep(p, q, i, enableCaching, held, heldCpu);
      q := t.value;
      i := i + 1;
    }
    TakeEnd(p, q, n, enableCaching, held, heldCpu);
    r := Taken(q, p.freeGpu[..n], true);
  }

  /** The state after `i` blocks have been taken. */
  ghost predicate TakeInv(p: Pools, q: Pools, i: nat, enableCaching: bool, held: multiset<nat>,
                          heldCpu: multiset<nat>) {
    && i <= |p.freeGpu| && q.freeGpu == p.freeGpu[i..]
    && Counts(q, Plus(held, p.freeGpu, i), heldCpu) && Agrees(q)
    && FreshBlocks(p, q, p.freeGpu[..i]) && (!enableCaching ==> NoKeys(q))
    && Distributed(p, q, p.freeGpu, Claims(p, [], p.freeGpu, i)) && KeepsCpu(p, q)
    && InRange(p) && NoDup(p.freeGpu) && NonNegative(p.cpuRef)
  }

  ghost predicate NonNegative(s: seq<int>) {
    forall c :: 0 <= c < |s| ==> s[c] >= 0
  }

  lemma RefsNonNegative(p: Pools, held: multiset<nat>, heldCpu: multiset<nat>)
    requires Counts(p, held, heldCpu)
    ensures NonNegative(p.cpuRef) && InRange(p) && NoDup(p.freeGpu)
  {
    forall c | 0 <= c < |p.cpuRef|
      ensures p.cpuRef[c] >= 0
    {
      NotNegative(p, held, heldCpu, c);
    }
  }

  lemma TakeStart(p: Pools, enableCaching: bool, held: multiset<nat>, heldCpu: multiset<nat>)
    requires Counts(p, held, heldCpu) && Agrees(p) && (!enableCaching ==> NoKeys(p))
    ensures TakeInv(p, p, 0, enableCaching, held, heldCpu)
  {
    hide Counts, Agrees, KeepsCpu, NoKeys, InRange, NoDup, NonNegative;
    RefsNonNegative(p, held, heldCpu);
    KeepsSelf(p);
    assert p.freeGpu[..0] == [] && p.freeGpu[0..] == p.freeGpu && p.freeCpu[0..] == p.freeCpu;
  }

  lemma TakeReady(p: Pools, q: Pools, i: nat, enableCaching: bool, held: multiset<nat>, heldCpu: multiset<nat>)
    requires TakeInv(p, q, i, enableCaching, held, heldCpu) && i < |p.freeGpu|
    ensures q.freeGpu != [] && q.freeGpu[0] == p.freeGpu[i] < |q.gpu| && q.gpu[q.freeGpu[0]].mappedCpu < |q.cpuRef|
    ensures q.freeCpu != [] ==> q.freeCpu[0] < |q.cpuRef|
  {
    hide Counts, Agrees, KeepsCpu, NoKeys, FreshBlocks, Distributed;
    TakeInRange(q, Plus(held, p.freeGpu, i), heldCpu);
  }

  /** Whether the next block needs another CPU block. */
  lemma TakeNeeds(p: Pools, q: Pools, i: nat, enableCaching: bool, held: multiset<nat>, heldCpu: multiset<nat>)
    requires TakeInv(p, q, i, enableCaching, held, heldCpu) && i < |p.freeGpu|
    ensures var b, claim := p.freeGpu[i], Claims(p, [], p.freeGpu, i);
            && b < |q.gpu| == |p.gpu| && q.gpu[b] == p.gpu[b] && q.gpu[b].mappedCpu < |q.cpuRef|
            && (q.cpuRef[q.gpu[b].mappedCpu] > 0 <==> Needs(p, [], claim.cpus, b))
            && (q.freeCpu == [] <==> claim.popped == |p.freeCpu|)
            && claim.popped <= |p.freeCpu| && (q.freeCpu != [] ==> q.freeCpu[0] == p.freeCpu[claim.popped])
  {
    hide Counts, Agrees, KeepsCpu, NoKeys, Claims;
    TakeReady(p, q, i, enableCaching, held, heldCpu);
    assert p.freeGpu[i] !in p.freeGpu[..i];
    var b, claim := p.freeGpu[i], Claims(p, [], p.freeGpu, i);
    var c := p.gpu[b].mappedCpu;
    assert q.cpuRef[c] == p.cpuRef[c] + multiset(claim.cpus)[c];
    assert c in claim.cpus <==> multiset(claim.cpus)[c] > 0;
  }

  lemma TakeRefused(p: Pools, q: Pools, i: nat, n: nat, enableCaching: bool, held: multiset<nat>,
                    heldCpu: multiset<nat>)
    requires TakeInv(p, q, i, enableCaching, held, heldCpu) && i < n <= |p.freeGpu|
    requires q.freeGpu != [] && q.freeGpu[0] < |q.gpu| && q.gpu[q.freeGpu[0]].mappedCpu < |q.cpuRef|
    requires (q.freeCpu != [] ==> q.freeCpu[0] < |q.cpuRef|) && TakeOne(q, enableCaching).None?
    ensures !Suffices(p, [], p.freeGpu, n)
  {
    hide TakeInv, Claims;
    TakeReady(p, q, i, enableCaching, held, heldCpu);
    TakeNeeds(p, q, i, enableCaching, held, heldCpu);
    NextClaim(p, i);
    ClaimsPrefix(p, [], p.freeGpu, i + 1, n);
  }

  lemma NextClaim(p: Pools, i: nat)
    requires i < |p.freeGpu|
    ensures var before, after, b := Claims(p, [], p.freeGpu, i), Claims(p, [], p.freeGpu, i + 1), p.freeGpu[i];
            if !Needs(p, [], before.cpus, b) then after == Claim(before.cpus + [MappedCpu(p, b)], before.popped)
            else
              && after.popped == before.popped + 1
              && (before.popped < |p.freeCpu| ==> after.cpus == before.cpus + [p.freeCpu[before.popped]])
  {
  }

  lemma TakeStep(p: Pools, q: Pools, i: nat, enableCaching: bool, held: multiset<nat>, heldCpu: multiset<nat>)
    requires TakeInv(p, q, i, enableCaching, held, heldCpu) && i < |p.freeGpu|
    requires q.freeGpu != [] && q.freeGpu[0] < |q.gpu| && q.gpu[q.freeGpu[0]].mappedCpu < |q.cpuRef|
    requires (q.freeCpu != [] ==> q.freeCpu[0] < |q.cpuRef|) && TakeOne(q, enableCaching).Some?
    ensures TakeInv(p, TakeOne(q, enableCaching).value, i + 1, enableCaching, held, heldCpu)
  {
    hide Counts, Agrees, KeepsCpu, Claims, Plus, InRange, TakeOne, Distributed, NonNegative;
    var h, r := Plus(held, p.freeGpu, i), TakeOne(q, enableCaching).value;
    TakeReady(p, q, i, enableCaching, held, heldCpu);
    TakeCounts(q, enableCaching, h, heldCpu);
    if enableCaching {
      TakeAgrees(q, h, heldCpu);
    } else {
      TakeWithoutKeys(q, h, heldCpu);
    }
    TakeKeepsCpu(q, enableCaching, h, heldCpu);
    KeepsThrough(p, q, r);
    OneMore(held, p.freeGpu, i);
    TakeDistributes(p, q, i, enableCaching, held, heldCpu);
    assert p.freeGpu[i] !in p.freeGpu[..i];
    assert p.freeGpu[..i + 1] == p.freeGpu[..i] + [p.freeGpu[i]];
  }

  lemma TakeDistributes(p: Pools, q: Pools, i: nat, enableCaching: bool, held: multiset<nat>, heldCpu: multiset<nat>)
    requires TakeInv(p, q, i, enableCaching, held, heldCpu) && i < |p.freeGpu|
    requires q.freeGpu != [] && q.freeGpu[0] < |q.gpu| && q.gpu[q.freeGpu[0]].mappedCpu < |q.cpuRef|
    requires (q.freeCpu != [] ==> q.freeCpu[0] < |q.cpuRef|) && TakeOne(q, enableCaching).Some?
    ensures Distributed(p, TakeOne(q, enableCaching).value, p.freeGpu, Claims(p, [], p.freeGpu, i + 1))
  {
    hide Counts, Agrees, KeepsCpu, Claims, FreshBlocks, NoKeys, TakeInv, TakeOne, MoreRefs, Needs;
    TakeReady(p, q, i, enableCaching, held, heldCpu);
    TakeNeeds(p, q, i, enableCaching, held, heldCpu);
    NextClaim(p, i);
    TakeKnows(p, q, i, enableCaching, held, heldCpu);
    TakeFrame(q, enableCaching);
    var r, b := TakeOne(q, enableCaching).value, p.freeGpu[i];
    var before, after := Claims(p, [], p.freeGpu, i), Claims(p, [], p.freeGpu, i + 1);
    var c := r.gpu[b].mappedCpu;
    assert after.cpus == before.cpus + [c];
    assert after.cpus[..i] == before.cpus && after.cpus[..i + 1] == after.cpus;
    MoreRefsNext(p.cpuRef, after.cpus, i, q.cpuRef);
  }

  lemma TakeFrame(p: Pools, enableCaching: bool)
    requires p.freeGpu != [] && p.freeGpu[0] < |p.gpu| && p.gpu[p.freeGpu[0]].mappedCpu < |p.cpuRef|
    requires (p.freeCpu != [] ==> p.freeCpu[0] < |p.cpuRef|) && TakeOne(p, enableCaching).Some?
    ensures var q, b := TakeOne(p, enableCaching).value, p.freeGpu[0];
            var shared := p.cpuRef[p.gpu[b].mappedCpu] > 0;
            && (shared ==> p.freeCpu != [])
            && var c := if shared then p.freeCpu[0] else p.gpu[b].mappedCpu;
            && q.freeCpu == (if shared then p.freeCpu[1..] else p.freeCpu)
            && q.cpuRef == p.cpuRef[c := p.cpuRef[c] + 1]
            && |q.gpu| == |p.gpu| && q.gpu[b].mappedCpu == c && q.gpu == p.gpu[b := q.gpu[b]]
  {
    hide Evict;
    EvictFrame(p, p.freeGpu[0]);
  }

  lemma TakeKnows(p: Pools, q: Pools, i: nat, enableCaching: bool, held: multiset<nat>, heldCpu: multiset<nat>)
    requires TakeInv(p, q, i, enableCaching, held, heldCpu) && i < |p.freeGpu|
    ensures Distributed(p, q, p.freeGpu, Claims(p, [], p.freeGpu, i)) && |q.cpuRef| == |p.cpuRef|
    ensures forall l :: 0 <= l < i ==> p.freeGpu[l] != p.freeGpu[i]
  {
    hide Counts, Agrees, KeepsCpu, Claims, Distributed, NoKeys;
  }

  lemma TakeEnd(p: Pools, q: Pools, i: nat, enableCaching: bool, held: multiset<nat>, heldCpu: multiset<nat>)
    requires TakeInv(p, q, i, enableCaching, held, heldCpu)
    ensures i <= |p.freeGpu| && NoDup(p.freeGpu[..i]) && q.freeGpu == p.freeGpu[i..]
    ensures Counts(q, held + multiset(p.freeGpu[..i]), heldCpu) && Agrees(q)
    ensures FreshBlocks(p, q, p.freeGpu[..i]) && (!enableCaching ==> NoKeys(q))
    ensures Distributed(p, q, p.freeGpu[..i], Claims(p, [], p.freeGpu, i)) && KeepsCpu(p, q)
    ensures Suffices(p, [], p.freeGpu, i)
  {
    hide Counts, Agrees, KeepsCpu, Claims, FreshBlocks, NoKeys, Plus;
    PlusPrefix(held, p.freeGpu, i);
  }

  lemma PlusPrefix(m: multiset<nat>, s: seq<nat>, i: nat)
    requires i <= |s|
    ensures Plus(m, s, i) == m + multiset(s[..i]) && Plus(m, s, 0) == m
  {
    PlusIs(m, s, i);
  }

  lemma TakeInRange(p: Pools, held: multiset<nat>, heldCpu: multiset<nat>)
    requires Counts(p, held, heldCpu) && p.freeGpu != []
    ensures p.freeGpu[0] < |p.gpu| && p.gpu[p.freeGpu[0]].mappedCpu < |p.cpuRef|
    ensures p.freeCpu != [] ==> p.freeCpu[0] < |p.cpuRef|
  {
  }

  /** The CPU blocks behind a table. */
  function CpuOf(gpu: seq<Gpu>, blocks: seq<nat>): seq<nat>
    requires Below(blocks, |gpu|)
  {
    seq(|blocks|, i requires 0 <= i < |blocks| => gpu[blocks[i]].mappedCpu)
  }

  lemma CpusAre(p: Pools, blocks: seq<nat>)
    requires Below(blocks, |p.gpu|)
    ensures CpusOf(p, blocks) == CpuOf(p.gpu, blocks)
  {
  }

  /** The blocks that become free when `blocks` are released in this order: each at its
      last reference. */
  ghost function Freed(held: multiset<nat>, blocks: seq<nat>, i: nat): seq<nat>
    requires i <= |blocks|
  {
    if i == 0 then []
    else Freed(held, blocks, i - 1) + if Minus(held, blocks, i - 1)[blocks[i - 1]] == 1 then [blocks[i - 1]] else []
  }

  lemma FreedStep(held: multiset<nat>, blocks: seq<nat>, i: nat)
    requires i < |blocks|
    ensures Freed(held, blocks, i + 1) ==
            Freed(held, blocks, i) + if Minus(held, blocks, i)[blocks[i]] == 1 then [blocks[i]] else []
  {
  }

  lemma NoneFreed(held: multiset<nat>, blocks: seq<nat>)
    ensures Freed(held, blocks, 0) == []
  {
  }

  /** The i-th of distinct blocks is freed exactly when nobody else holds it. */
  lemma FreedNext(held: multiset<nat>, blocks: seq<nat>, i: nat)
    requires i < |blocks| && NoDup(blocks)
    ensures Freed(held, blocks, i + 1) == Freed(held, blocks, i) + if held[blocks[i]] == 1 then [blocks[i]] else []
    ensures blocks[..i + 1] == blocks[..i] + [blocks[i]] && blocks[i] !in blocks[..i]
  {
    hide Freed, Minus;
    FreedStep(held, blocks, i);
    MinusIs(held, blocks, i);
    assert blocks[i] !in blocks[..i];
    assert blocks[i] !in multiset(blocks[..i]);
  }

  /** Of distinct blocks exactly those nobody else holds become free. */
  lemma {:induction false} FreedAre(held: multiset<nat>, blocks: seq<nat>, i: nat)
    requires i <= |blocks| && NoDup(blocks)
    ensures forall b :: b in Freed(held, blocks, i) <==> b in blocks[..i] && held[b] == 1
  {
    hide Freed;
    if i > 0 {
      FreedAre(held, blocks, i - 1);
      FreedNext(held, blocks, i - 1);
    } else {
      NoneFreed(held, blocks);
    }
  }

  /** They are queued in the order of their release. */
  lemma {:induction false} FreedInOrder(held: multiset<nat>, blocks: seq<nat>, i: nat, x: nat, y: nat)
    requires x < y < i <= |blocks| && NoDup(blocks) && held[blocks[x]] == 1 && held[blocks[y]] == 1
    ensures Before(Freed(held, blocks, i), blocks[x], blocks[y])
  {
    hide Freed, Before;
    var before, b := Freed(held, blocks, i - 1), blocks[i - 1];
    FreedNext(held, blocks, i - 1);
    if y == i - 1 {
      FreedAre(held, blocks, i - 1);
      assert blocks[..i - 1][x] == blocks[x];
      AtTheEnd(before, blocks[x], b);
    } else {
      FreedInOrder(held, blocks, i - 1, x, y);
      BeforeGrows(before, blocks[x], blocks[y], if held[b] == 1 then [b] else []);
    }
  }

  /** `a` stands before `b`. */
  ghost predicate Before(s: seq<nat>, a: nat, b: nat) {
    exists i, j :: 0 <= i < j < |s| && s[i] == a && s[j] == b
  }

  lemma AtTheEnd(s: seq<nat>, a: nat, b: nat)
    requires a in s
    ensures Before(s + [b], a, b)
  {
    var i :| 0 <= i < |s| && s[i] == a;
    assert (s + [b])[i] == a && (s + [b])[|s|] == b;
  }

  lemma BeforeGrows(s: seq<nat>, a: nat, b: nat, more: seq<nat>)
    requires Before(s, a, b)
    ensures Before(s + more, a, b)
  {
    var i, j :| 0 <= i < j < |s| && s[i] == a && s[j] == b;
    assert (s + more)[i] == a && (s + more)[j] == b;
  }

  /** The loop of `free`, over the blocks in the order in which they are released. */
  method ReleaseAll(p: Pools, blocks: seq<nat>, keepCpu: bool, swapped: bool,
                    ghost held: multiset<nat>, ghost heldCpu: multiset<nat>) returns (q: Pools)
    requires Counts(p, held, heldCpu) && Agrees(p) && multiset(blocks) <= held && Below(blocks, |p.gpu|)
    ensures Counts(q, held - multiset(blocks),
                   if keepCpu then heldCpu + multiset(CpuOf(p.gpu, blocks)) else heldCpu)
    ensures Agrees(q) && SameKeys(p, q) && SameMapping(p, q) && q.freeCpu == p.freeCpu
    ensures q.freeGpu == p.freeGpu + Freed(held, blocks, |blocks|) && KeepsCpu(p, q)
    ensures forall b :: 0 <= b < |p.gpu| && b !in blocks ==> q.gpu[b] == p.gpu[b]
    ensures MarkedFree(q, blocks, |blocks|)
  {
    hide ReleaseInv, ReleaseOne, KeepsCpu, MarkedFree;
    q := p;
    ReleaseStart(p, blocks, keepCpu, held, heldCpu);
    for i := 0 to |blocks|
      invariant ReleaseInv(p, q, blocks, i, keepCpu, held, heldCpu)
    {
      ReleaseStep(p, q, blocks, i, keepCpu, swapped, held, heldCpu);
      q := ReleaseOne(q, blocks[i], keepCpu, swapped).value;
    }
    ReleaseEnd(p, q, blocks, keepCpu, held, heldCpu);
  }

  /** The state after the first `i` releases. */
  ghost predicate ReleaseInv(p: Pools, q: Pools, blocks: seq<nat>, i: nat, keepCpu: bool,
                             held: multiset<nat>, heldCpu: multiset<nat>)
    requires i <= |blocks| && Below(blocks, |p.gpu|)
  {
    && Counts(q, Minus(held, blocks, i), if keepCpu then Plus(heldCpu, CpuOf(p.gpu, blocks), i) else heldCpu)
    && Agrees(q) && SameKeys(p, q) && SameMapping(p, q) && q.freeCpu == p.freeCpu
    && q.freeGpu == p.freeGpu + Freed(held, blocks, i) && KeepsCpu(p, q)
    && (forall b :: 0 <= b < |p.gpu| && b !in blocks ==> q.gpu[b] == p.gpu[b]) && MarkedFree(q, blocks, i)
  }

  /** Of the first `n` blocks those that nobody holds are marked free. */
  ghost predicate MarkedFree(q: Pools, blocks: seq<nat>, n: nat) {
    forall k :: 0 <= k < n && k < |blocks| ==>
      blocks[k] < |q.gpu| && (q.gpu[blocks[k]].refCnt == 0 ==> q.gpu[blocks[k]].status == Free)
  }

  lemma ReleaseStart(p: Pools, blocks: seq<nat>, keepCpu: bool, held: multiset<nat>, heldCpu: multiset<nat>)
    requires Counts(p, held, heldCpu) && Agrees(p) && Below(blocks, |p.gpu|)
    ensures ReleaseInv(p, p, blocks, 0, keepCpu, held, heldCpu)
  {
    hide Counts, Agrees, KeepsCpu;
    KeepsSelf(p);
  }

  lemma ReleaseStep(p: Pools, q: Pools, blocks: seq<nat>, i: nat, keepCpu: bool, swapped: bool,
                    held: multiset<nat>, heldCpu: multiset<nat>)
    requires i < |blocks| && Below(blocks, |p.gpu|) && multiset(blocks) <= held
    requires ReleaseInv(p, q, blocks, i, keepCpu, held, heldCpu)
    ensures blocks[i] < |q.gpu| && q.gpu[blocks[i]].mappedCpu < |q.cpuRef|
    ensures ReleaseOne(q, blocks[i], keepCpu, swapped).Some?
    ensures ReleaseInv(p, ReleaseOne(q, blocks[i], keepCpu, swapped).value, blocks, i + 1, keepCpu, held, heldCpu)
  {
    hide Counts, Agrees, InRange, Plus, Minus, Freed, ReleaseOne, KeepsCpu, MarkedFree;
    var cs := CpuOf(p.gpu, blocks);
    var h, hc := Minus(held, blocks, i), if keepCpu then Plus(heldCpu, cs, i) else heldCpu;
    StillHeld(held, blocks, i);
    FreedStep(held, blocks, i);
    OneMore(heldCpu, cs, i);
    MappedInRange(q, h, hc, blocks[i]);
    ReleaseAgrees(q, blocks[i], keepCpu, swapped, h, hc);
    ReleaseCounts(q, blocks[i], keepCpu, swapped, h, hc);
    ReleaseFrame(q, blocks[i], keepCpu, swapped);
    ReleaseKeepsCpu(q, blocks[i], keepCpu, swapped);
    KeepsThrough(p, q, ReleaseOne(q, blocks[i], keepCpu, swapped).value);
    assert q.gpu[blocks[i]].mappedCpu == cs[i];
    OneMarkedFree(q, ReleaseOne(q, blocks[i], keepCpu, swapped).value, blocks, i, h, hc, keepCpu, swapped);
  }

  lemma OneMarkedFree(p: Pools, q: Pools, blocks: seq<nat>, i: nat, held: multiset<nat>, heldCpu: multiset<nat>,
                      keepCpu: bool, swapped: bool)
    requires i < |blocks| && MarkedFree(p, blocks, i) && Counts(p, held, heldCpu) && blocks[i] in held
    requires ReleaseOne(p, blocks[i], keepCpu, swapped) == Some(q)
    ensures MarkedFree(q, blocks, i + 1)
  {
    hide CpuCounts;
  }

  lemma ReleaseFrame(p: Pools, b: nat, keepCpu: bool, swapped: bool)
    requires b < |p.gpu| && p.gpu[b].mappedCpu < |p.cpuRef| && ReleaseOne(p, b, keepCpu, swapped).Some?
    ensures var q := ReleaseOne(p, b, keepCpu, swapped).value;
            |q.gpu| == |p.gpu| && q.gpu == p.gpu[b := q.gpu[b]]
  {
  }

  lemma ReleaseEnd(p: Pools, q: Pools, blocks: seq<nat>, keepCpu: bool, held: multiset<nat>, heldCpu: multiset<nat>)
    requires Below(blocks, |p.gpu|) && ReleaseInv(p, q, blocks, |blocks|, keepCpu, held, heldCpu)
    ensures Counts(q, held - multiset(blocks), if keepCpu then heldCpu + multiset(CpuOf(p.gpu, blocks)) else heldCpu)
    ensures Agrees(q) && SameKeys(p, q) && SameMapping(p, q) && q.freeCpu == p.freeCpu
    ensures q.freeGpu == p.freeGpu + Freed(held, blocks, |blocks|) && KeepsCpu(p, q)
    ensures forall b :: 0 <= b < |p.gpu| && b !in blocks ==> q.gpu[b] == p.gpu[b]
    ensures MarkedFree(q, blocks, |blocks|)
  {
    hide Counts, Agrees, Minus, Plus, Freed, KeepsCpu, MarkedFree;
    MinusAll(held, blocks);
    PlusAll(heldCpu, CpuOf(p.gpu, blocks));
  }

  lemma MappedInRange(p: Pools, held: multiset<nat>, heldCpu: multiset<nat>, b: nat)
    requires Counts(p, held, heldCpu) && b < |p.gpu|
    ensures p.gpu[b].mappedCpu < |p.cpuRef|
  {
  }

  // ----- giving up references to CPU blocks

  /** The queue lists distinct blocks without references. */
  ghost predicate CleanQueue(p: Pools) {
    NoDup(p.freeCpu) && forall c :: c in p.freeCpu ==> c < |p.cpuRef| && p.cpuRef[c] == 0
  }

  /** The references in the list are gone, and the blocks that lost their last one are
      queued. */
  ghost predicate GivenUp(p: Pools, q: Pools, gone: seq<nat>) {
    && |q.cpuRef| == |p.cpuRef|
    && (forall c :: 0 <= c < |p.cpuRef| ==> q.cpuRef[c] == p.cpuRef[c] - multiset(gone)[c])
    && (CleanQueue(p) ==>
          && CleanQueue(q)
          && forall c :: 0 <= c < |p.cpuRef| ==>
               (c in q.freeCpu <==> c in p.freeCpu || (c in gone && q.cpuRef[c] == 0)))
  }

  lemma NothingGivenUp(p: Pools)
    ensures GivenUp(p, p, [])
  {
  }

  lemma GiveUpOne(p: Pools, q: Pools, gone: seq<nat>, c: nat)
    requires GivenUp(p, q, gone) && c < |q.cpuRef| && q.cpuRef[c] > 0
    ensures GivenUp(p, DropCpu(q, c), gone + [c])
  {
    var r := DropCpu(q, c);
    assert multiset(gone + [c]) == multiset(gone) + multiset{c};
    if CleanQueue(p) {
      assert c !in q.freeCpu && c !in p.freeCpu;
      forall d | 0 <= d < |p.cpuRef|
        ensures d in r.freeCpu <==> d in p.freeCpu || (d in gone + [c] && r.cpuRef[d] == 0)
      {
        assert d in gone + [c] <==> d in gone || d == c;
        assert d in r.freeCpu <==> d in q.freeCpu || (d == c && r.cpuRef[c] == 0);
      }
    }
  }

  /** First loop of `swap_in`. */
  method DropAll(p: Pools, cs: seq<nat>, ghost held: multiset<nat>, ghost heldCpu: multiset<nat>) returns (q: Pools)
    requires Counts(p, held, heldCpu) && Agrees(p) && multiset(cs) <= heldCpu && Below(cs, |p.cpuRef|)
    ensures Counts(q, held, heldCpu - multiset(cs)) && Agrees(q)
    ensures q.gpu == p.gpu && q.cached == p.cached && q.freeGpu == p.freeGpu
    ensures GivenUp(p, q, cs) && |q.cpuRef| == |p.cpuRef| && (NoneLost(p) ==> NoneLost(q))
  {
    hide DropInv, DropCpu, Counts, Agrees, GivenUp, NoneLost;
    q := p;
    DropStart(p, cs, held, heldCpu);
    for i := 0 to |cs|
      invariant DropInv(p, q, cs, i, held, heldCpu)
    {
      DropStep(p, q, cs, i, held, heldCpu);
      q := DropCpu(q, cs[i]);
    }
    DropEnd(p, q, cs, held, heldCpu);
  }

  /** The state after the first `i` references have been dropped. */
  ghost predicate DropInv(p: Pools, q: Pools, cs: seq<nat>, i: nat, held: multiset<nat>, heldCpu: multiset<nat>)
    requires i <= |cs|
  {
    && Counts(q, held, Minus(heldCpu, cs, i))
    && q.gpu == p.gpu && q.cached == p.cached && q.freeGpu == p.freeGpu
    && GivenUp(p, q, cs[..i]) && (NoneLost(p) ==> NoneLost(q))
  }

  lemma DropStart(p: Pools, cs: seq<nat>, held: multiset<nat>, heldCpu: multiset<nat>)
    requires Counts(p, held, heldCpu)
    ensures DropInv(p, p, cs, 0, held, heldCpu)
  {
    hide Counts, GivenUp, NoneLost;
    NothingGivenUp(p);
    assert cs[..0] == [];
  }

  lemma DropStep(p: Pools, q: Pools, cs: seq<nat>, i: nat, held: multiset<nat>, heldCpu: multiset<nat>)
    requires i < |cs| && multiset(cs) <= heldCpu && DropInv(p, q, cs, i, held, heldCpu)
    ensures cs[i] < |q.cpuRef| && DropInv(p, DropCpu(q, cs[i]), cs, i + 1, held, heldCpu)
  {
    hide Counts, Minus, GivenUp, NoneLost, DropCpu;
    var c, hc := cs[i], Minus(heldCpu, cs, i);
    StillHeld(heldCpu, cs, i);
    HeldIsReferenced(q, held, hc, c);
    DropCounts(q, c, held, hc);
    DropFrame(q, c);
    GiveUpOne(p, q, cs[..i], c);
    assert cs[..i + 1] == cs[..i] + [c];
    if NoneLost(p) {
      DropLosesNone(q, c, held, hc);
    }
  }

  lemma DropFrame(p: Pools, c: nat)
    requires c < |p.cpuRef|
    ensures var q := DropCpu(p, c);
            q.gpu == p.gpu && q.cached == p.cached && q.freeGpu == p.freeGpu
  {
  }

  lemma DropEnd(p: Pools, q: Pools, cs: seq<nat>, held: multiset<nat>, heldCpu: multiset<nat>)
    requires Agrees(p) && DropInv(p, q, cs, |cs|, held, heldCpu)
    ensures Counts(q, held, heldCpu - multiset(cs)) && Agrees(q)
    ensures q.gpu == p.gpu && q.cached == p.cached && q.freeGpu == p.freeGpu
    ensures GivenUp(p, q, cs) && |q.cpuRef| == |p.cpuRef| && (NoneLost(p) ==> NoneLost(q))
  {
    hide Counts, Minus, NoneLost;
    MinusAll(heldCpu, cs);
    assert cs[..|cs|] == cs;
  }

  /** The GPU records after the first `i` blocks have taken over their CPU blocks. */
  ghost function Relocated(gpu: seq<Gpu>, blocks: seq<nat>, cs: seq<nat>, i: nat): (r: seq<Gpu>)
    requires i <= |blocks| == |cs| && Below(blocks, |gpu|)
    ensures |r| == |gpu|
  {
    if i == 0 then gpu
    else
      var g := Relocated(gpu, blocks, cs, i - 1);
      g[blocks[i - 1] := g[blocks[i - 1]].(mappedCpu := cs[i - 1])]
  }

  lemma {:induction false} RelocatedFacts(gpu: seq<Gpu>, blocks: seq<nat>, cs: seq<nat>, i: nat)
    requires i <= |blocks| == |cs| && Below(blocks, |gpu|) && NoDup(blocks)
    ensures forall j :: 0 <= j < |blocks| ==>
              Relocated(gpu, blocks, cs, i)[blocks[j]] ==
              if j < i then gpu[blocks[j]].(mappedCpu := cs[j]) else gpu[blocks[j]]
    ensures forall b :: 0 <= b < |gpu| && b !in blocks ==> Relocated(gpu, blocks, cs, i)[b] == gpu[b]
  {
    if i > 0 {
      RelocatedFacts(gpu, blocks, cs, i - 1);
    }
  }

  /** Second loop of `swap_in`. */
  method RelocateAll(p: Pools, blocks: seq<nat>, cs: seq<nat>, ghost held: multiset<nat>, ghost heldCpu: multiset<nat>)
    returns (q: Pools)
    requires Counts(p, held, heldCpu) && Agrees(p) && |blocks| == |cs| && NoDup(blocks)
    requires multiset(cs) <= heldCpu && Below(cs, |p.cpuRef|) && Below(blocks, |p.gpu|)
    requires forall i :: 0 <= i < |blocks| ==> p.gpu[blocks[i]].refCnt == 1
    ensures Counts(q, held, heldCpu - multiset(cs)) && Agrees(q)
    ensures SameKeys(p, q) && q.freeGpu == p.freeGpu && |q.cpuRef| == |p.cpuRef|
    ensures forall i :: 0 <= i < |blocks| ==> q.gpu[blocks[i]] == p.gpu[blocks[i]].(mappedCpu := cs[i])
    ensures forall b :: 0 <= b < |p.gpu| && b !in blocks ==> q.gpu[b] == p.gpu[b]
    ensures GivenUp(p, q, CpuOf(p.gpu, blocks)) && (NoneLost(p) ==> NoneLost(q))
  {
    hide RelocateInv, Relocate, Counts, Agrees, Relocated, GivenUp, NoneLost;
    q := p;
    RelocateStart(p, blocks, cs, held, heldCpu);
    for i := 0 to |cs|
      invariant RelocateInv(p, q, blocks, cs, i, held, heldCpu)
    {
      RelocateStep(p, q, blocks, cs, i, held, heldCpu);
      q := Relocate(q, blocks[i], cs[i]);
    }
    RelocateEnd(p, q, blocks, cs, held, heldCpu);
  }

  /** The state after the first `i` blocks have been remapped. */
  ghost predicate RelocateInv(p: Pools, q: Pools, blocks: seq<nat>, cs: seq<nat>, i: nat,
                              held: multiset<nat>, heldCpu: multiset<nat>)
    requires i <= |blocks| == |cs| && Below(blocks, |p.gpu|)
  {
    && Counts(q, held, Minus(heldCpu, cs, i))
    && q.cached == p.cached && q.freeGpu == p.freeGpu && |q.cpuRef| == |p.cpuRef|
    && q.gpu == Relocated(p.gpu, blocks, cs, i)
    && GivenUp(p, q, CpuOf(p.gpu, blocks)[..i]) && (NoneLost(p) ==> NoneLost(q))
  }

  lemma RelocateStart(p: Pools, blocks: seq<nat>, cs: seq<nat>, held: multiset<nat>, heldCpu: multiset<nat>)
    requires Counts(p, held, heldCpu) && |blocks| == |cs| && Below(blocks, |p.gpu|)
    ensures RelocateInv(p, p, blocks, cs, 0, held, heldCpu)
  {
    hide Counts, GivenUp, NoneLost;
    NothingGivenUp(p);
    assert CpuOf(p.gpu, blocks)[..0] == [];
  }

  lemma RelocateStep(p: Pools, q: Pools, blocks: seq<nat>, cs: seq<nat>, i: nat, held: multiset<nat>,
                     heldCpu: multiset<nat>)
    requires i < |blocks| == |cs| && Below(blocks, |p.gpu|) && NoDup(blocks)
    requires multiset(cs) <= heldCpu && p.gpu[blocks[i]].refCnt == 1
    requires RelocateInv(p, q, blocks, cs, i, held, heldCpu)
    ensures blocks[i] < |q.gpu| && q.gpu[blocks[i]].mappedCpu < |q.cpuRef|
    ensures RelocateInv(p, Relocate(q, blocks[i], cs[i]), blocks, cs, i + 1, held, heldCpu)
  {
    hide Counts, Relocated, InRange, Minus, Relocate, NoDup, GivenUp, NoneLost, DropCpu;
    StillHeld(heldCpu, cs, i);
    MappedInRange(q, held, Minus(heldCpu, cs, i), blocks[i]);
    NotYetRelocated(p.gpu, blocks, cs, i);
    RelocateCounts(q, blocks[i], cs[i], held, Minus(heldCpu, cs, i));
    RelocateFrame(q, blocks[i], cs[i]);
    RelocatedStep(p.gpu, blocks, cs, i);
    RelocateGivesUp(p, q, blocks, cs, i, held, heldCpu);
    if NoneLost(p) {
      RelocateLosesNone(q, blocks[i], cs[i], held, Minus(heldCpu, cs, i));
    }
  }

  lemma RelocateGivesUp(p: Pools, q: Pools, blocks: seq<nat>, cs: seq<nat>, i: nat, held: multiset<nat>,
                        heldCpu: multiset<nat>)
    requires i < |blocks| == |cs| && Below(blocks, |p.gpu|) && Counts(q, held, Minus(heldCpu, cs, i))
    requires blocks[i] < |q.gpu| && q.gpu[blocks[i]] == p.gpu[blocks[i]] && q.gpu[blocks[i]].refCnt == 1
    requires q.gpu[blocks[i]].mappedCpu < |q.cpuRef| && GivenUp(p, q, CpuOf(p.gpu, blocks)[..i])
    ensures GivenUp(p, Relocate(q, blocks[i], cs[i]), CpuOf(p.gpu, blocks)[..i + 1])
  {
    hide Counts, Minus, GivenUp, DropCpu;
    var owns, b := CpuOf(p.gpu, blocks), blocks[i];
    LiveIsReferenced(q, held, Minus(heldCpu, cs, i), b);
    GiveUpOne(p, q, owns[..i], q.gpu[b].mappedCpu);
    assert owns[..i + 1] == owns[..i] + [owns[i]];
    SameQueues(p, DropCpu(q, q.gpu[b].mappedCpu), Relocate(q, b, cs[i]), owns[..i + 1]);
  }

  lemma SameQueues(p: Pools, q: Pools, r: Pools, gone: seq<nat>)
    requires GivenUp(p, q, gone) && r.cpuRef == q.cpuRef && r.freeCpu == q.freeCpu
    ensures GivenUp(p, r, gone)
  {
  }

  lemma RelocateEnd(p: Pools, q: Pools, blocks: seq<nat>, cs: seq<nat>, held: multiset<nat>, heldCpu: multiset<nat>)
    requires |blocks| == |cs| && Below(blocks, |p.gpu|) && NoDup(blocks) && Agrees(p)
    requires RelocateInv(p, q, blocks, cs, |cs|, held, heldCpu)
    ensures Counts(q, held, heldCpu - multiset(cs)) && Agrees(q)
    ensures SameKeys(p, q) && q.freeGpu == p.freeGpu && |q.cpuRef| == |p.cpuRef|
    ensures forall i :: 0 <= i < |blocks| ==> q.gpu[blocks[i]] == p.gpu[blocks[i]].(mappedCpu := cs[i])
    ensures forall b :: 0 <= b < |p.gpu| && b !in blocks ==> q.gpu[b] == p.gpu[b]
    ensures GivenUp(p, q, CpuOf(p.gpu, blocks)) && (NoneLost(p) ==> NoneLost(q))
  {
    hide Counts, Agrees, Relocated, Minus, NoDup, GivenUp, NoneLost;
    assert CpuOf(p.gpu, blocks)[..|cs|] == CpuOf(p.gpu, blocks);
    MinusAll(heldCpu, cs);
    RelocatedFacts(p.gpu, blocks, cs, |cs|);
    SameButMapping(p, q, blocks);
  }

  lemma RelocateFrame(p: Pools, b: nat, c: nat)
    requires b < |p.gpu| && p.gpu[b].mappedCpu < |p.cpuRef|
    ensures var q := Relocate(p, b, c);
            && q.gpu == p.gpu[b := p.gpu[b].(mappedCpu := c)] && |q.cpuRef| == |p.cpuRef|
            && q.cached == p.cached && q.freeGpu == p.freeGpu
  {
  }

  lemma NotYetRelocated(gpu: seq<Gpu>, blocks: seq<nat>, cs: seq<nat>, i: nat)
    requires i < |blocks| == |cs| && Below(blocks, |gpu|) && NoDup(blocks)
    ensures Relocated(gpu, blocks, cs, i)[blocks[i]] == gpu[blocks[i]]
  {
    RelocatedFacts(gpu, blocks, cs, i);
  }

  lemma RelocatedStep(gpu: seq<Gpu>, blocks: seq<nat>, cs: seq<nat>, i: nat)
    requires i < |blocks| == |cs| && Below(blocks, |gpu|)
    ensures var g := Relocated(gpu, blocks, cs, i);
            Relocated(gpu, blocks, cs, i + 1) == g[blocks[i] := g[blocks[i]].(mappedCpu := cs[i])]
  {
  }

  lemma SameButMapping(p: Pools, q: Pools, blocks: seq<nat>)
    requires Agrees(p) && |q.gpu| == |p.gpu| && q.cached == p.cached && Below(blocks, |p.gpu|)
    requires forall i :: 0 <= i < |blocks| ==>
               q.gpu[blocks[i]] == p.gpu[blocks[i]].(mappedCpu := q.gpu[blocks[i]].mappedCpu)
    requires forall b :: 0 <= b < |p.gpu| && b !in blocks ==> q.gpu[b] == p.gpu[b]
    ensures Agrees(q) && SameKeys(p, q)
  {
    forall b | 0 <= b < |p.gpu|
      ensures q.gpu[b].key == p.gpu[b].key && q.gpu[b].refCnt == p.gpu[b].refCnt && q.gpu[b].status == p.gpu[b].status
    {
      if b in blocks {
        var i :| 0 <= i < |blocks| && blocks[i] == b;
      }
    }
    SameKeysAgree(p, q);
  }

  /** Marks blocks that are not cached. */
  method MarkAll(p: Pools, blocks: seq<nat>, status: Status, ghost held: multiset<nat>, ghost heldCpu: multiset<nat>)
    returns (q: Pools)
    requires Counts(p, held, heldCpu) && Agrees(p) && Below(blocks, |p.gpu|)
    requires forall i :: 0 <= i < |blocks| ==> p.gpu[blocks[i]].key == None
    ensures Counts(q, held, heldCpu) && Agrees(q) && SameKeys(p, q) && SameMapping(p, q)
    ensures q.freeGpu == p.freeGpu && q.freeCpu == p.freeCpu && q.cpuRef == p.cpuRef
    ensures forall b :: 0 <= b < |p.gpu| ==>
              q.gpu[b] == if b in blocks then p.gpu[b].(status := status) else p.gpu[b]
  {
    hide Counts, Agrees;
    q := p;
    for i := 0 to |blocks|
      invariant Counts(q, held, heldCpu) && Agrees(q) && SameKeys(p, q) && SameMapping(p, q)
      invariant q.freeGpu == p.freeGpu && q.freeCpu == p.freeCpu && q.cpuRef == p.cpuRef
      invariant forall b :: 0 <= b < |p.gpu| ==>
                  q.gpu[b] == if b in blocks[..i] then p.gpu[b].(status := status) else p.gpu[b]
    {
      SetStatusAgrees(q, blocks[i], status, held, heldCpu);
      q := SetStatus(q, blocks[i], status);
      assert blocks[..i + 1] == blocks[..i] + [blocks[i]];
    }
    assert blocks[..|blocks|] == blocks;
  }
}
