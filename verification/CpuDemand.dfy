/** Which CPU blocks an allocation uses, computed before it takes place: the copy-on-write
    rule of `_get_new_blocks` in vllm/v1/core/kv_cache_manager.py. */
module CpuDemand {
  import opened Sequences
  import opened BlockPools

  /** The CPU blocks given to the first blocks of a queue, in order, and how many of them
      have to come from the free queue. */
  datatype Claim = Claim(cpus: seq<nat>, popped: nat)

  function MappedCpu(p: Pools, b: nat): nat {
    if b < |p.gpu| then p.gpu[b].mappedCpu else 0
  }

  function CpusOf(p: Pools, blocks: seq<nat>): seq<nat> {
    seq(|blocks|, i requires 0 <= i < |blocks| => MappedCpu(p, blocks[i]))
  }

  predicate IsReferenced(p: Pools, c: nat) {
    c < |p.cpuRef| && p.cpuRef[c] > 0
  }

  /** A block needs another CPU block when its own is referenced already, or is about to
      be: by a block touched before or by an earlier block of the queue. */
  predicate Needs(p: Pools, touched: seq<nat>, earlier: seq<nat>, b: nat) {
    var c := MappedCpu(p, b);
    IsReferenced(p, c) || c in touched || c in earlier
  }

  function Claims(p: Pools, touched: seq<nat>, queue: seq<nat>, n: nat): (r: Claim)
    requires n <= |queue|
    ensures |r.cpus| == n && r.popped <= n
  {
    if n == 0 then Claim([], 0)
    else
      var before, b := Claims(p, touched, queue, n - 1), queue[n - 1];
      if !Needs(p, touched, before.cpus, b) then Claim(before.cpus + [MappedCpu(p, b)], before.popped)
      else if before.popped < |p.freeCpu| then Claim(before.cpus + [p.freeCpu[before.popped]], before.popped + 1)
      else Claim(before.cpus + [MappedCpu(p, b)], before.popped + 1)
  }

  /** The free CPU blocks suffice for the first `n` blocks of the queue. */
  predicate Suffices(p: Pools, touched: seq<nat>, queue: seq<nat>, n: nat)
    requires n <= |queue|
  {
    Claims(p, touched, queue, n).popped <= |p.freeCpu|
  }

  lemma {:induction false} ClaimsPrefix(p: Pools, touched: seq<nat>, queue: seq<nat>, m: nat, n: nat)
    requires m <= n <= |queue|
    ensures Claims(p, touched, queue, m).cpus == Claims(p, touched, queue, n).cpus[..m]
    ensures Claims(p, touched, queue, m).popped <= Claims(p, touched, queue, n).popped
  {
    if m < n {
      ClaimsPrefix(p, touched, queue, m, n - 1);
    } else {
      var cpus := Claims(p, touched, queue, n).cpus;
      assert cpus[..n] == cpus;
    }
  }

  /** Touching blocks first is the same as counting their CPU blocks as referenced. */
  lemma {:induction false} ClaimsTouched(p: Pools, q: Pools, touched: seq<nat>, queue: seq<nat>, n: nat)
    requires n <= |queue| && SameMapping(p, q) && q.freeCpu == p.freeCpu
    requires forall c: nat :: IsReferenced(q, c) <==> IsReferenced(p, c) || c in touched
    ensures Claims(q, [], queue, n) == Claims(p, touched, queue, n)
  {
    if n > 0 {
      ClaimsTouched(p, q, touched, queue, n - 1);
      assert MappedCpu(q, queue[n - 1]) == MappedCpu(p, queue[n - 1]);
    }
  }

  /** Only the part of the queue that is used matters. */
  lemma {:induction false} ClaimsOfPrefix(p: Pools, touched: seq<nat>, queue: seq<nat>, longer: seq<nat>, n: nat)
    requires n <= |queue| && queue <= longer
    ensures Claims(p, touched, queue, n) == Claims(p, touched, longer, n)
  {
    if n > 0 {
      ClaimsOfPrefix(p, touched, queue, longer, n - 1);
    }
  }

  /** The free blocks that are not among the given ones. */
  function FreeBesides(free: seq<nat>, blocks: seq<nat>): seq<nat> {
    if free == [] then []
    else (if free[0] in blocks then [] else [free[0]]) + FreeBesides(free[1..], blocks)
  }

  lemma {:induction false} FreeBesidesNone(free: seq<nat>)
    ensures FreeBesides(free, []) == free
  {
    if free != [] {
      FreeBesidesNone(free[1..]);
    }
  }

  lemma {:induction false} FreeBesidesMore(free: seq<nat>, blocks: seq<nat>, b: nat)
    requires NoDup(free)
    ensures FreeBesides(free, blocks + [b]) == SeqRemove(FreeBesides(free, blocks), b)
  {
    if free != [] {
      var x, rest := free[0], free[1..];
      FreeBesidesMore(rest, blocks, b);
      FreeBesidesIn(rest, blocks);
      assert x in blocks + [b] <==> x in blocks || x == b;
      assert free == [x] + rest;
      assert x !in rest;
      if x !in blocks {
        var s := FreeBesides(free, blocks);
        assert s[0] == x && s[1..] == FreeBesides(rest, blocks);
        if x == b {
          NotThere(FreeBesides(rest, blocks), b);
        }
      } else {
        assert FreeBesides(free, blocks) == FreeBesides(rest, blocks);
        assert FreeBesides(free, blocks + [b]) == FreeBesides(rest, blocks + [b]);
      }
    }
  }

  lemma {:induction false} FreeBesidesIn(free: seq<nat>, blocks: seq<nat>)
    ensures forall x :: x in FreeBesides(free, blocks) <==> x in free && x !in blocks
  {
    if free != [] {
      FreeBesidesIn(free[1..], blocks);
      assert free == [free[0]] + free[1..];
    }
  }

  lemma {:induction false} NotThere(s: seq<nat>, x: nat)
    requires x !in s
    ensures SeqRemove(s, x) == s
  {
    if s != [] {
      assert s[0] in s;
      assert forall y :: y in s[1..] ==> y in s;
      NotThere(s[1..], x);
    }
  }
}
