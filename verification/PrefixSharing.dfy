/** What the bookkeeping of the KV-cache manager means for the requests: which blocks they
    share, and when the pools are idle. */
module PrefixSharing {
  import opened Sequences
  import opened BlockPools
  import opened PoolLoops
  import opened KVCacheManagers
  import opened BlockHashes
  import CpuBlocks

  /** Two places in the block tables hold the same block only if both are cached, under
      the same key. */
  lemma SharedOnlyWhenCached(m: KVCacheManager, r: Id, i: nat, s: Id, j: nat)
    requires m.Valid() && r in m.tables && s in m.tables && (r != s || i != j)
    requires i < |m.tables[r]| && j < |m.tables[s]| && m.tables[r][i] == m.tables[s][j]
    ensures r in m.chains && s in m.chains && i < |m.chains[r]| && j < |m.chains[s]|
    ensures m.chains[r][i] == m.chains[s][j]
  {
    hide Counts, Agrees, Held, NoKeys, NotTooLong;
    var held := Held(m.tables) + m.leaked;
    assert TableAgrees(m.pools.gpu, m.tables[r], m.chains[r], held);
    assert TableAgrees(m.pools.gpu, m.tables[s], m.chains[s], held);
    if i >= |m.chains[r]| {
      OnlyHere(m.tables, r, i, m.leaked);
    }
  }

  /** Every request's cached blocks carry the keys of its own tokens. */
  ghost predicate Follow(h: Hash, tables: map<Id, seq<nat>>, chains: map<Id, seq<Key>>, contents: map<Id, Content>,
                         blockSize: nat) {
    forall r :: r in tables ==> r in chains && r in contents && IsChain(h, chains[r], contents[r], blockSize)
  }

  ghost predicate KeysFollowTokens(m: KVCacheManager, h: Hash, contents: map<Id, Content>)
    reads m
  {
    Follow(h, m.tables, m.chains, contents, m.blockSize)
  }

  /** Two requests agree on all tokens up to the end of block `i` and on its extra keys. */
  ghost predicate SamePrefix(a: Content, b: Content, i: nat, blockSize: nat) {
    var n := (i + 1) * blockSize;
    && 0 <= n <= |a.tokens| && n <= |b.tokens| && a.tokens[..n] == b.tokens[..n]
    && ExtraAt(a, blockSize, i) == ExtraAt(b, blockSize, i)
  }

  /** Soundness of prefix caching.  A block is shared only between requests that agree on
      all tokens up to the end of the block and on its extra keys, and it stands at the
      same place in their tables. */
  lemma SharedMeansSamePrefix(m: KVCacheManager, h: Hash, contents: map<Id, Content>, r: Id, i: nat, s: Id, j: nat)
    requires m.Valid() && CollisionFree(h) && KeysFollowTokens(m, h, contents)
    requires r in m.tables && s in m.tables && (r != s || i != j)
    requires i < |m.tables[r]| && j < |m.tables[s]| && m.tables[r][i] == m.tables[s][j]
    ensures i == j && r != s && r in contents && s in contents
    ensures SamePrefix(contents[r], contents[s], i, m.blockSize)
  {
    hide Counts, Agrees, Held, NoKeys, NotTooLong, TablesAgree, ExtraAt;
    SharedOnlyWhenCached(m, r, i, s, j);
    var a, b := contents[r], contents[s];
    var e, f := ExtraAt(a, m.blockSize, i), ExtraAt(b, m.blockSize, j);
    assert KeyAt(h, m.chains[r][i], a.tokens, e, i, m.blockSize);
    assert KeyAt(h, m.chains[s][j], b.tokens, f, j, m.blockSize);
    ChainKeysEqualIff(h, m.chains[r][i], a.tokens, e, i, m.chains[s][j], b.tokens, f, j, m.blockSize);
  }

  /** No request lists a block twice. */
  lemma TablesAreDistinct(m: KVCacheManager, h: Hash, contents: map<Id, Content>, r: Id)
    requires m.Valid() && CollisionFree(h) && KeysFollowTokens(m, h, contents) && r in m.tables
    ensures NoDup(m.tables[r])
  {
    hide KVCacheManager.Valid, CollisionFree, KeysFollowTokens;
    var t := m.tables[r];
    forall i, j | 0 <= i < j < |t|
      ensures t[i] != t[j]
    {
      if t[i] == t[j] {
        SharedMeansSamePrefix(m, h, contents, r, i, r, j);
      }
    }
  }

  /** A request that is given blocks by lookup shares the cached text of others: the
      blocks found for a chain of keys are cached under the keys of that very text. */
  lemma LookupFollowsTokens(m: KVCacheManager, h: Hash, c: Content, keys: seq<Key>, blocks: seq<nat>,
                            contents: map<Id, Content>, s: Id, i: nat, j: nat)
    requires m.Valid() && CollisionFree(h) && KeysFollowTokens(m, h, contents)
    requires IsChain(h, keys, c, m.blockSize) && |blocks| <= |keys|
    requires Keyed(m.pools.gpu, blocks, keys[..|blocks|]) && i < |blocks|
    requires s in m.tables && s in m.chains && j < |m.chains[s]| && j < |m.tables[s]| && m.tables[s][j] == blocks[i]
    ensures i == j && s in contents && SamePrefix(c, contents[s], i, m.blockSize)
  {
    hide Counts, Agrees, Held, NoKeys, NotTooLong;
    assert TableAgrees(m.pools.gpu, m.tables[s], m.chains[s], Held(m.tables) + m.leaked);
    assert m.chains[s][j] == keys[i];
    var b := contents[s];
    var e, f := ExtraAt(c, m.blockSize, i), ExtraAt(b, m.blockSize, j);
    assert KeyAt(h, keys[i], c.tokens, e, i, m.blockSize);
    assert KeyAt(h, m.chains[s][j], b.tokens, f, j, m.blockSize);
    ChainKeysEqualIff(h, keys[i], c.tokens, e, i, m.chains[s][j], b.tokens, f, j, m.blockSize);
  }

  /** The eviction order.  When a request without repeated blocks is freed, of two blocks
      that nobody else holds the one further back in its table is queued, and so evicted,
      first. */
  lemma TailIsEvictedFirst(held: multiset<nat>, tables: map<Id, seq<nat>>, r: Id, i: nat, j: nat)
    requires r in tables && NoDup(tables[r]) && i < j < |tables[r]|
    requires held[tables[r][i]] == 1 && held[tables[r][j]] == 1
    ensures Before(NewlyFree(held, tables, r, true), tables[r][j], tables[r][i])
  {
    var t, o := tables[r], Reverse(tables[r]);
    ReverseIndex(t);
    FreedInOrder(held, o, |o|, |t| - 1 - j, |t| - 1 - i);
  }

  /** Without caching the blocks are queued in the order of the table. */
  lemma HeadIsQueuedFirst(held: multiset<nat>, tables: map<Id, seq<nat>>, r: Id, i: nat, j: nat)
    requires r in tables && NoDup(tables[r]) && i < j < |tables[r]|
    requires held[tables[r][i]] == 1 && held[tables[r][j]] == 1
    ensures Before(NewlyFree(held, tables, r, false), tables[r][i], tables[r][j])
  {
    FreedInOrder(held, tables[r], |tables[r]|, i, j);
  }

  // ----- idle pools

  /** The blocks somebody holds. */
  ghost function Live(n: nat, held: multiset<nat>): set<nat> {
    set b | 0 <= b < n && held[b] > 0
  }

  /** Every GPU block is either free or held: the queue has one entry for each block that
      no table lists and no failed allocation has left behind. */
  lemma FreeAndLive(m: KVCacheManager)
    requires m.Valid()
    ensures |m.pools.freeGpu| + |Live(|m.pools.gpu|, Held(m.tables) + m.leaked)| == |m.pools.gpu|
  {
    hide Held, Agrees, TablesAgree, NoKeys, NotTooLong, CpuCounts;
    var p, held := m.pools, Held(m.tables) + m.leaked;
    FreeAndLiveIn(p.gpu, p.freeGpu, held);
  }

  lemma FreeAndLiveIn(gpu: seq<Gpu>, free: seq<nat>, held: multiset<nat>)
    requires GpuCounts(gpu, free, held) && Below(free, |gpu|)
    ensures |free| + |Live(|gpu|, held)| == |gpu|
  {
    var queued := Elements(free);
    var live := Live(|gpu|, held);
    DistinctCount(free);
    RangeCount(|gpu|);
    assert queued !! live;
    assert queued + live == Range(|gpu|);
  }

  lemma {:induction false} DistinctCount(s: seq<nat>)
    requires NoDup(s)
    ensures |Elements(s)| == |s|
  {
    if s != [] {
      var t, x := s[..|s| - 1], s[|s| - 1];
      DistinctCount(t);
      assert s == t + [x];
      assert Elements(s) == Elements(t) + {x};
      assert x !in Elements(t);
    }
  }

  ghost function Range(n: nat): (r: set<nat>)
    ensures forall b: nat :: b in r <==> b < n
  {
    if n == 0 then {} else Range(n - 1) + {n - 1}
  }

  lemma {:induction false} RangeCount(n: nat)
    ensures |Range(n)| == n
  {
    if n > 0 {
      RangeCount(n - 1);
    }
  }

  /** The whole GPU pool is free exactly when no table lists a block and no failed
      allocation has left a reference behind: such a reference is never given back. */
  lemma AllFreeIff(m: KVCacheManager)
    requires m.Valid()
    ensures |m.pools.freeGpu| == |m.pools.gpu| <==>
            (forall r :: r in m.tables ==> m.tables[r] == []) && m.leaked == multiset{}
  {
    hide Agrees, NoKeys, NotTooLong, CpuCounts, Held, TableAgrees;
    var held := Held(m.tables) + m.leaked;
    FreeAndLive(m);
    HeldNothing(m.tables);
    var live := Live(|m.pools.gpu|, held);
    if live == {} {
      forall b: nat
        ensures held[b] == 0
      {
        assert b !in live;
      }
      assert held == multiset{};
      assert Held(m.tables) == multiset{} && m.leaked == multiset{};
    } else {
      var b :| b in live;
      assert b in held;
    }
  }

  lemma {:induction false} HeldNothing(tables: map<Id, seq<nat>>)
    ensures Held(tables) == multiset{} <==> forall r :: r in tables ==> tables[r] == []
    decreases |tables|
  {
    forall r | r in tables
      ensures Held(tables) == multiset{} ==> tables[r] == []
    {
      HeldRemove(tables, r);
      if tables[r] != [] {
        assert tables[r][0] in multiset(tables[r]);
      }
    }
    if tables != map[] {
      var r :| r in tables;
      HeldRemove(tables, r);
      HeldNothing(tables - {r});
    }
  }

  /** No CPU block is referenced exactly when no GPU block is held and no request is
      swapped out; in particular a swapped-out table that is never swapped in again keeps
      its CPU blocks for good. */
  lemma CpuIdleIff(m: KVCacheManager)
    requires m.Valid()
    ensures (forall c :: 0 <= c < |m.pools.cpuRef| ==> m.pools.cpuRef[c] == 0) <==>
            |m.pools.freeGpu| == |m.pools.gpu| && forall r :: r in m.cpuTables ==> m.cpuTables[r] == []
  {
    hide Agrees, NoKeys, NotTooLong, Held, TablesAgree;
    var p, held, heldCpu := m.pools, Held(m.tables) + m.leaked, Held(m.cpuTables);
    HeldNothing(m.cpuTables);
    FreeAndLive(m);
    CpuIdleIn(p, held, heldCpu);
  }

  lemma CpuIdleIn(p: Pools, held: multiset<nat>, heldCpu: multiset<nat>)
    requires Counts(p, held, heldCpu)
    ensures (forall c :: 0 <= c < |p.cpuRef| ==> p.cpuRef[c] == 0) <==>
            Live(|p.gpu|, held) == {} && heldCpu == multiset{}
  {
    var live := Live(|p.gpu|, held);
    if live == {} && heldCpu == multiset{} {
      forall c | 0 <= c < |p.cpuRef|
        ensures p.cpuRef[c] == 0
      {
        forall b | 0 <= b < |p.gpu|
          ensures p.gpu[b].refCnt == 0
        {
          assert b !in live;
        }
        NoMappedRefs(p.gpu, c);
      }
    } else if live != {} {
      var b :| b in live;
      CpuBlocks.MappedRefsAtLeast(p.gpu, b);
      assert p.cpuRef[p.gpu[b].mappedCpu] > 0;
    } else {
      var c :| c in heldCpu;
      forall b | 0 <= b < |p.gpu|
        ensures p.gpu[b].refCnt == 0
      {
        assert b !in live;
      }
      NoMappedRefs(p.gpu, c);
      assert p.cpuRef[c] > 0;
    }
  }
}
