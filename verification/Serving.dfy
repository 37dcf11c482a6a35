/** How vllm/v1/core/scheduler.py drives the KV-cache manager for one request: admission of
    a waiting request, a further step of a running one, and the return of a swapped-out
    one.  The outcome of each is fixed by the state before it, and each keeps the keys of the
    cached blocks tied to the tokens of their requests. */
module Serving {
  import opened Options
  import opened BlockPools
  import opened CpuDemand
  import opened CpuBlocks
  import opened KVCacheManagers
  import opened BlockHashes
  import opened PrefixSharing

  lemma FollowsWith(h: Hash, tables: map<Id, seq<nat>>, chains: map<Id, seq<Key>>, contents: map<Id, Content>,
                    blockSize: nat, tables': map<Id, seq<nat>>, chains': map<Id, seq<Key>>, r: Id, c: Content)
    requires Follow(h, tables, chains, contents, blockSize) && tables'.Keys <= tables.Keys + {r}
    requires r in chains' && chains' == chains[r := chains'[r]] && IsChain(h, chains'[r], c, blockSize)
    ensures Follow(h, tables', chains', contents[r := c], blockSize)
  {
    hide IsChain;
  }

  lemma ChainPrefix(h: Hash, keys: seq<Key>, n: nat, c: Content, blockSize: nat)
    requires IsChain(h, keys, c, blockSize) && n <= |keys|
    ensures IsChain(h, keys[..n], c, blockSize) && n * blockSize <= |c.tokens|
  {
    hide ExtraAt, KeyAt;
    Fits(n, |keys|, blockSize);
  }

  lemma NoChain(h: Hash, c: Content, blockSize: nat)
    requires blockSize > 0
    ensures IsChain(h, [], c, blockSize)
  {
  }

  lemma ChainFits(h: Hash, keys: seq<Key>, c: Content, blockSize: nat)
    requires IsChain(h, keys, c, blockSize)
    ensures |keys| * blockSize <= |c.tokens|
  {
  }

  // ----- arithmetic of blocks

  lemma CeilDivBounds(a: int, d: nat)
    requires d > 0
    ensures (CeilDiv(a, d) - 1) * d < a <= CeilDiv(a, d) * d
  {
    var q := (-a) / d;
    assert -a == q * d + (-a) % d;
    assert (-q) * d == -(q * d) && (-q - 1) * d == -(q * d) - d;
  }

  lemma Cancel(a: int, b: int, d: nat)
    requires d > 0 && a * d < b * d
    ensures a < b
  {
  }

  lemma CeilDivAtMost(a: int, d: nat, k: int)
    requires d > 0 && a <= k * d
    ensures CeilDiv(a, d) <= k
  {
    CeilDivBounds(a, d);
    Cancel(CeilDiv(a, d) - 1, k, d);
  }

  lemma CeilDivCovers(a: int, d: nat, n: int)
    requires d > 0 && CeilDiv(a, d) <= n
    ensures a <= n * d
  {
    CeilDivBounds(a, d);
    assert (n - CeilDiv(a, d)) * d >= 0;
  }

  lemma LessByOne(a: nat, d: nat)
    requires a > 0
    ensures (a - 1) * d + d == a * d
  {
  }

  /** The cached prefix and the new tokens fit into one block table. */
  lemma RoomFor(k: nat, numNew: nat, maxBlocks: nat, blockSize: nat)
    requires blockSize > 0 && numNew > 0 && k * blockSize + numNew <= maxBlocks * blockSize
    ensures k < maxBlocks && 0 < CeilDiv(numNew, blockSize) <= maxBlocks - k
  {
    assert numNew <= (maxBlocks - k) * blockSize;
    CeilDivAtMost(numNew, blockSize, maxBlocks - k);
    CeilDivBounds(numNew, blockSize);
    Cancel(0, CeilDiv(numNew, blockSize), blockSize);
    Cancel(k, maxBlocks, blockSize);
  }

  lemma Slots(k: nat, n: nat, numNew: nat, blockSize: nat)
    requires blockSize > 0 && CeilDiv(numNew, blockSize) <= n
    ensures k * blockSize + numNew <= (k + n) * blockSize
  {
    CeilDivCovers(numNew, blockSize, n);
  }

  lemma WholePart(n: nat, d: nat, cached: nat)
    requires d > 0 && cached * d <= n
    ensures (n / d) * d <= n < (n / d + 1) * d && cached <= n / d
  {
    var q := n / d;
    assert n == q * d + n % d;
    assert (q + 1) * d == q * d + d;
    Cancel(cached, q + 1, d);
  }

  lemma CoversFull(n: nat, full: nat, k: nat, d: nat)
    requires full <= k && n < (full + 1) * d
    ensures n < d * (k + 1)
  {
    Fits(full + 1, k + 1, d);
  }

  // ----- looking up the cache

  ghost predicate IsCached(gpu: seq<Gpu>, k: Key) {
    exists b :: 0 <= b < |gpu| && gpu[b].key == Some(k)
  }

  /** The cache knows every token of the request. */
  ghost predicate WhollyCached(gpu: seq<Gpu>, keys: seq<Key>, numTokens: nat, blockSize: nat) {
    |keys| * blockSize == numTokens && forall i :: 0 <= i < |keys| ==> IsCached(gpu, keys[i])
  }

  /** The longest run of keys that the cache knows, from the first on. */
  ghost predicate CachedRun(gpu: seq<Gpu>, keys: seq<Key>, n: nat) {
    && n <= |keys| && (forall i :: 0 <= i < n ==> IsCached(gpu, keys[i]))
    && (n < |keys| ==> !IsCached(gpu, keys[n]))
  }

  /** The cached prefix of a request, as `get_computed_blocks` finds it: the first block of
      each key, up to the first key that no block carries. */
  ghost predicate WholePrefix(p: Pools, enableCaching: bool, keys: seq<Key>, computed: seq<nat>) {
    if enableCaching then FirstHits(p, keys, computed) && CachedRun(p.gpu, keys, |computed|) else computed == []
  }

  /** What is used of it for a waiting request: the last block is computed again if the cache
      knows every token. */
  ghost predicate UsedPrefix(p: Pools, enableCaching: bool, keys: seq<Key>, computed: seq<nat>, numTokens: nat,
                             blockSize: nat) {
    if enableCaching && WhollyCached(p.gpu, keys, numTokens, blockSize)
    then FirstHits(p, keys, computed) && |computed| == |keys| - 1
    else WholePrefix(p, enableCaching, keys, computed)
  }

  /** The keys of a request: with caching hashed from scratch once, then kept and extended. */
  ghost predicate KeysOf(h: Hash, enableCaching: bool, known: seq<Key>, c: Content, keys: seq<Key>, d: Content,
                         blockSize: nat) {
    && IsChain(h, keys, d, blockSize) && d.split <= |keys|
    && if known == [] && enableCaching then d == c.(split := |keys|) && |c.tokens| < (|keys| + 1) * blockSize
       else keys == known && d == c
  }

  lemma KeysAre(h: Hash, enableCaching: bool, known: seq<Key>, c: Content, keys: seq<Key>, d: Content, blockSize: nat)
    requires KeysOf(h, enableCaching, known, c, keys, d, blockSize)
    ensures IsChain(h, keys, d, blockSize) && d.split <= |keys| && d.tokens == c.tokens && d.images == c.images
  {
  }

  lemma ChainOf(h: Hash, tables: map<Id, seq<nat>>, chains: map<Id, seq<Key>>, contents: map<Id, Content>,
                blockSize: nat, r: Id)
    requires Follow(h, tables, chains, contents, blockSize) && r in tables
    ensures r in chains && r in contents && IsChain(h, chains[r], contents[r], blockSize)
  {
  }

  /** The keys of the request and the cached blocks for the first of them. */
  method CachedPrefix(m: KVCacheManager, h: Hash, known: seq<Key>, c: Content)
    returns (keys: seq<Key>, d: Content, computed: seq<nat>)
    requires m.Valid() && IsChain(h, known, c, m.blockSize) && c.split <= |known|
    ensures KeysOf(h, m.enableCaching, known, c, keys, d, m.blockSize)
    ensures |computed| <= |keys| && |computed| * m.blockSize <= |c.tokens|
    ensures WholePrefix(m.pools, m.enableCaching, keys, computed)
    ensures m.enableCaching ==> Keyed(m.pools.gpu, computed, keys[..|computed|])
  {
    hide KVCacheManager.Valid, IsChain, FirstHits;
    m.BlockSizePositive();
    keys, d := known, c;
    if !m.enableCaching {
      return keys, d, [];
    }
    if keys == [] {
      keys := HashBlocks(h, c.tokens, c.images, m.blockSize);
      d := c.(split := |keys|);
    }
    computed := m.GetComputedBlocks(keys);
    ChainPrefix(h, keys, |computed|, d, m.blockSize);
  }

  /** What the scheduler looks up for a waiting request: its keys, its cached prefix and
      the tokens still to compute, at least one and at most the budget.  A request that is
      cached completely computes its last block again. */
  method LookUp(m: KVCacheManager, h: Hash, known: seq<Key>, c: Content, budget: nat)
    returns (keys: seq<Key>, d: Content, computed: seq<nat>, numNew: nat)
    requires m.Valid() && IsChain(h, known, c, m.blockSize) && c.split <= |known| && c.tokens != [] && budget > 0
    ensures KeysOf(h, m.enableCaching, known, c, keys, d, m.blockSize) && |computed| <= |keys|
    ensures UsedPrefix(m.pools, m.enableCaching, keys, computed, |c.tokens|, m.blockSize)
    ensures m.enableCaching ==> Keyed(m.pools.gpu, computed, keys[..|computed|])
    ensures !m.enableCaching ==> computed == []
    ensures var left := |c.tokens| - |computed| * m.blockSize;
            0 < numNew == if left < budget then left else budget
  {
    hide KVCacheManager.Valid, IsChain, IsCached;
    m.BlockSizePositive();
    keys, d, computed := CachedPrefix(m, h, known, c);
    ChainFits(h, keys, d, m.blockSize);
    var n := |c.tokens| - |computed| * m.blockSize;
    if m.enableCaching {
      CachedToTheEnd(m.pools.gpu, keys, |computed|, |c.tokens|, m.blockSize);
    }
    if n == 0 {
      assert computed != [];
      LessByOne(|computed|, m.blockSize);
      WholeKeys(|keys|, |computed|, |c.tokens|, m.blockSize);
      n := m.blockSize;
      computed := computed[..|computed| - 1];
    }
    numNew := if n < budget then n else budget;
  }

  lemma WholeKeys(keys: nat, computed: nat, numTokens: nat, blockSize: nat)
    requires blockSize > 0 && computed <= keys && keys * blockSize <= numTokens == computed * blockSize
    ensures keys == computed
  {
    assert (keys - computed) * blockSize <= 0;
  }

  lemma CachedToTheEnd(gpu: seq<Gpu>, keys: seq<Key>, n: nat, numTokens: nat, blockSize: nat)
    requires blockSize > 0 && |keys| * blockSize <= numTokens && CachedRun(gpu, keys, n)
    ensures n * blockSize == numTokens <==> WhollyCached(gpu, keys, numTokens, blockSize)
  {
    hide IsCached;
    if n < |keys| {
      Fits(n + 1, |keys|, blockSize);
      assert (n + 1) * blockSize == n * blockSize + blockSize;
    }
  }

  // ----- admission

  datatype Admission = Admitted(numComputed: nat, numNew: nat) | Refused | Failed(error: Error)

  function AdmissionOf(a: Alloc, numComputed: nat, numNew: nat): Admission {
    match a
    case Allocated(_) => Admitted(numComputed, numNew)
    case NoSpace => Refused
    case Raised(e) => Failed(e)
  }

  /** Admitted when there are blocks, refused when there are none, and else the exception. */
  ghost predicate Answers(plan: Alloc, numComputed: int, numNew: int, a: Admission) {
    && (plan.Allocated? <==> a.Admitted?) && (plan.NoSpace? <==> a.Refused?)
    && (a.Admitted? ==> a.numComputed == numComputed && a.numNew == numNew)
    && (a.Failed? ==> plan == Raised(a.error))
  }

  lemma AnswersPlan(plan: Alloc, numComputed: nat, numNew: nat)
    ensures Answers(plan, numComputed, numNew, AdmissionOf(plan, numComputed, numNew))
  {
  }

  /** `schedule_single_waiting_request` for a waiting or preempted request.  The outcome is
      the plan for its new tokens behind its cached prefix; a request that fits the model is
      admitted with room for both, or refused for lack of GPU blocks, or the CPU blocks run
      out. */
  method AdmitWaiting(m: KVCacheManager, h: Hash, r: Id, known: seq<Key>, c: Content, budget: nat,
                      ghost contents: map<Id, Content>)
    returns (a: Admission, keys: seq<Key>, d: Content, ghost computed: seq<nat>)
    requires m.Valid() && r !in m.tables && KeysFollowTokens(m, h, contents)
    requires IsChain(h, known, c, m.blockSize) && c.split <= |known| && c.tokens != [] && budget > 0
    modifies m`pools, m`tables, m`chains, m`leaked
    ensures (m.Valid() <==> a != Failed(NoFreeCpuBlock)) && KeysFollowTokens(m, h, contents[r := d])
    ensures KeysOf(h, m.enableCaching, known, c, keys, d, m.blockSize) && m.blockSize > 0
    ensures UsedPrefix(old(m.pools), m.enableCaching, keys, computed, |c.tokens|, m.blockSize)
    ensures var k, left := |computed|, |c.tokens| - |computed| * m.blockSize;
            var numNew := if left < budget then left else budget;
            && 0 < numNew
            && Answers(PlannedSlots(old(m.pools), numNew, computed, m.preallocateBlocks, m.maxBlocks, m.blockSize,
                                    m.enableCaching), k * m.blockSize, numNew, a)
    ensures a.Admitted? ==>
              && r in m.tables && m.tables == old(m.tables)[r := m.tables[r]] && m.leaked == old(m.leaked)
              && a.numComputed + a.numNew <= |c.tokens|
              && r in m.chains && m.chains == old(m.chains)[r := m.chains[r]]
              && m.chains[r] <= keys && |m.chains[r]| * m.blockSize == a.numComputed
    ensures a.Admitted? && |c.tokens| <= m.maxBlocks * m.blockSize ==>
              a.numComputed + a.numNew <= |m.tables[r]| * m.blockSize
    ensures |c.tokens| <= m.maxBlocks * m.blockSize && a.Failed? ==> a.error == NoFreeCpuBlock
    ensures !a.Admitted? && a != Failed(IndexError) ==> m.tables == old(m.tables) && m.chains == old(m.chains)
    ensures a.Refused? ==> m.leaked == old(m.leaked) + multiset(computed)
  {
    hide KVCacheManager.Valid, IsChain, CeilDiv, Keyed, Grown, KeepsCpu, Prepared, FirstHits, Planned, Claims,
         FreeBesides, UsedPrefix, Follow, KeysOf, PlannedSlots, TouchedAs, LostOne, SlotClaims,
         Answers, AsManyAs;
    m.BlockSizePositive();
    var blocks, numNew;
    keys, d, blocks, numNew := LookUp(m, h, known, c, budget);
    computed := blocks;
    ghost var k := |blocks|;
    KeysAre(h, m.enableCaching, known, c, keys, d, m.blockSize);
    ChainPrefix(h, keys, k, d, m.blockSize);
    NoChain(h, d, m.blockSize);
    NewContent(h, m.tables, m.chains, contents, m.blockSize, r, d);
    var got := m.AllocateSlots(r, numNew, blocks, keys[..|blocks|], false);
    a := AdmissionOf(got, |blocks| * m.blockSize, numNew);
    AnswersPlan(got, |blocks| * m.blockSize, numNew);
    if got.Allocated? || got == Raised(IndexError) {
      FollowsWith(h, old(m.tables), old(m.chains), contents, m.blockSize, m.tables, m.chains, r, d);
    }
    if |c.tokens| <= m.maxBlocks * m.blockSize {
      RoomFor(k, numNew, m.maxBlocks, m.blockSize);
      PlannedFits(old(m.pools), numNew, blocks, m.preallocateBlocks, m.maxBlocks, m.blockSize, m.enableCaching);
      if got.Allocated? {
        Slots(k, |got.blocks|, numNew, m.blockSize);
      }
    }
  }

  /** A request within the table limit gets what it asks for, or there is a lack of blocks. */
  lemma PlannedFits(p: Pools, numTokens: nat, computed: seq<nat>, inAdvance: nat, maxBlocks: nat, blockSize: nat,
                    enableCaching: bool)
    requires blockSize > 0 && numTokens > 0 && (!enableCaching ==> computed == [])
    requires 0 < CeilDiv(numTokens, blockSize) <= maxBlocks - |computed|
    ensures var a := PlannedSlots(p, numTokens, computed, inAdvance, maxBlocks, blockSize, enableCaching);
            && (a.Allocated? ==> CeilDiv(numTokens, blockSize) <= |a.blocks|)
            && (a.Raised? ==> a.error == NoFreeCpuBlock)
  {
    hide CeilDiv, FreeBesides, Claims, Suffices;
  }

  // ----- a further step

  function Max(a: nat, b: nat): nat {
    if a < b then b else a
  }

  /** `schedule_single_running_request` up to the call that extends the table.  The blocks
      that the computed tokens have filled are cached under keys chained to the key of the
      last block cached before, and there is room for the tokens to be computed. */
  method AdvanceRunning(m: KVCacheManager, h: Hash, r: Id, known: seq<Key>, c: Content, numComputed: nat,
                        numTokens: nat, ghost contents: map<Id, Content>) returns (a: Alloc, keys: seq<Key>)
    requires m.Valid() && r in m.tables && r in m.chains && KeysFollowTokens(m, h, contents) && contents[r] == c
    requires IsChain(h, known, c, m.blockSize) && c.split <= |known| && m.chains[r] <= known
    requires |m.chains[r]| * m.blockSize <= numComputed <= |m.tables[r]| * m.blockSize && numComputed <= |c.tokens|
    modifies m`pools, m`tables, m`chains, m`pendingOut, m`leaked
    ensures m.blockSize > 0 && (m.Valid() <==> a != Raised(NoFreeCpuBlock)) && KeysFollowTokens(m, h, contents)
    ensures a == PlannedMore(old(m.pools), old(m.tables)[r], CeilDiv(numComputed + numTokens, m.blockSize),
                             m.preallocateBlocks, m.maxBlocks)
    ensures IsChain(h, keys, c, m.blockSize) && known <= keys
    ensures |keys| == if a.Allocated? && m.enableCaching then Max(|known|, Whole(numComputed, m.blockSize)) else |known|
    ensures a.Allocated? ==>
              && m.tables == old(m.tables)[r := old(m.tables)[r] + a.blocks] && m.leaked == old(m.leaked)
              && r in m.chains && m.chains == old(m.chains)[r := m.chains[r]] && m.chains[r] <= keys
              && |m.chains[r]| * m.blockSize <= numComputed
              && (m.enableCaching ==> numComputed < (|m.chains[r]| + 1) * m.blockSize)
              && (numComputed + numTokens <= |m.tables[r]| * m.blockSize || |m.tables[r]| == m.maxBlocks)
    ensures !a.Allocated? ==> m.tables == old(m.tables) && m.chains == old(m.chains)
    ensures a.NoSpace? || a == Raised(AssertionError) ==> m.pools == old(m.pools) && m.leaked == old(m.leaked)
  {
    hide KVCacheManager.Valid, IsChain, CeilDiv, KeepsCpu, AppendEffect, Marked, CopiesOut, PlannedMore, Follow,
         AsManyMore;
    ChainOf(h, m.tables, m.chains, contents, m.blockSize, r);
    m.BlockSizePositive();
    var full := Whole(numComputed, m.blockSize);
    WholePart(numComputed, m.blockSize, |m.chains[r]|);
    var first := |m.chains[r]|;
    Fits(first, |known|, m.blockSize);
    var extended := ExtendKeys(h, known, first, if first == 0 then None else Some(m.chains[r][first - 1]), c, full,
                               m.blockSize);
    CoversFull(numComputed, full, |extended|, m.blockSize);
    a := m.AppendSlots(r, numComputed, numTokens, |c.tokens|, extended);
    keys := if a.Allocated? && m.enableCaching then extended else known;
    if a.Allocated? {
      if m.enableCaching {
        ChainPrefix(h, keys, full, c, m.blockSize);
      }
      assert m.chains == old(m.chains)[r := m.chains[r]];
      FollowsWith(h, old(m.tables), old(m.chains), contents, m.blockSize, m.tables, m.chains, r, c);
      assert contents[r := c] == contents;
      if CeilDiv(numComputed + numTokens, m.blockSize) <= |m.tables[r]| {
        CeilDivCovers(numComputed + numTokens, m.blockSize, |m.tables[r]|);
      }
    }
  }

  // ----- the return of a swapped-out request

  datatype Resumption = Resumed(numComputed: nat, numNew: nat) | NotYet | AssertionFails | Fails(error: Error)

  /** `schedule_single_waiting_request` for a swapped-out request with tokens still to
      compute.  With `k` blocks cached and `n` blocks swapped out, from the state before:
      its assertion that there are new tokens fails exactly when the cache knows all of them
      (the fallback that recomputes the last block comes too late); otherwise there is a
      `ValueError` exactly when k equals n, an assertion of the manager exactly when k
      exceeds n, a refusal exactly when n - k exceeds the free blocks besides the cached
      ones, and the CPU blocks run out exactly when they do not suffice.  A request that
      resumes has the n blocks it had; whether the new tokens fit them is not checked. */
  method ResumeSwapped(m: KVCacheManager, h: Hash, r: Id, known: seq<Key>, c: Content, numComputed: nat, budget: nat,
                       ghost contents: map<Id, Content>)
    returns (a: Resumption, keys: seq<Key>, d: Content, ghost computed: seq<nat>)
    requires m.Valid() && r !in m.tables && r in m.cpuTables && KeysFollowTokens(m, h, contents)
    requires IsChain(h, known, c, m.blockSize) && c.split <= |known|
    requires numComputed < |c.tokens| && numComputed <= |m.cpuTables[r]| * m.blockSize && budget > 0
    modifies m`pools, m`tables, m`cpuTables, m`chains, m`pendingIn, m`leaked
    ensures (m.Valid() <==> a != Fails(NoFreeCpuBlock)) && KeysFollowTokens(m, h, contents[r := d])
    ensures KeysOf(h, m.enableCaching, known, c, keys, d, m.blockSize) && m.blockSize > 0
    ensures WholePrefix(old(m.pools), m.enableCaching, keys, computed)
    ensures a.AssertionFails? <==> m.enableCaching && WhollyCached(old(m.pools).gpu, keys, |c.tokens|, m.blockSize)
    ensures var k, n, queue := |computed|, |old(m.cpuTables)[r]|, FreeBesides(old(m.pools).freeGpu, computed);
            !a.AssertionFails? ==>
              && (a == Fails(ValueError) <==> k == n)
              && (a == Fails(AssertionError) <==> k > n)
              && (a.NotYet? <==> k < n && n - k > |queue|)
              && (a == Fails(NoFreeCpuBlock) <==>
                    k < n && n - k <= |queue| && !Suffices(old(m.pools), CpusOf(old(m.pools), computed), queue, n - k))
              && a != Fails(IndexError)
    ensures a.Resumed? ==>
              && r in m.tables && m.tables == old(m.tables)[r := m.tables[r]] && m.cpuTables == old(m.cpuTables) - {r}
              && |m.tables[r]| == |old(m.cpuTables)[r]| && m.leaked == old(m.leaked)
              && a.numComputed ==
                 (if numComputed < |computed| * m.blockSize then |computed| * m.blockSize else numComputed)
              && a.numComputed <= |m.tables[r]| * m.blockSize
              && 0 < a.numNew <= budget && a.numComputed + a.numNew <= |c.tokens|
              && (a.numNew == budget || a.numComputed + a.numNew == |c.tokens|)
              && r in m.chains && m.chains == old(m.chains)[r := m.chains[r]]
              && m.chains[r] <= keys && |m.chains[r]| * m.blockSize <= a.numComputed
    ensures !a.Resumed? ==> m.tables == old(m.tables) && m.chains == old(m.chains) && m.cpuTables == old(m.cpuTables)
    ensures a.NotYet? || a == Fails(AssertionError) ==> m.leaked == old(m.leaked) + multiset(computed)
  {
    hide KVCacheManager.Valid, IsChain, Keyed, BackedBy, Restored, CopiesIn, WhollyCached, IsCached, KeepsCpu,
         Exclusive, NoneLost, SwapInSafe, SwapInEffect, FirstHits, Claims, FreeBesides, Suffices, Follow, KeysOf;
    var blocks;
    keys, d, blocks := CachedPrefix(m, h, known, c);
    computed := blocks;
    m.BlockSizePositive();
    var cachedTokens := |blocks| * m.blockSize;
    KeysAre(h, m.enableCaching, known, c, keys, d, m.blockSize);
    ChainFits(h, keys, d, m.blockSize);
    if m.enableCaching {
      CachedToTheEnd(m.pools.gpu, keys, |blocks|, |c.tokens|, m.blockSize);
    }
    ChainPrefix(h, keys, |blocks|, d, m.blockSize);
    NoChain(h, d, m.blockSize);
    NewContent(h, m.tables, m.chains, contents, m.blockSize, r, d);
    var n := if numComputed < cachedTokens then cachedTokens else numComputed;
    if |c.tokens| - n <= 0 {
      a := AssertionFails;
      return;
    }
    var numNew := if |c.tokens| - n < budget then |c.tokens| - n else budget;
    var got := m.SwapIn(r, blocks, keys[..|blocks|], numComputed);
    match got {
      case Allocated(new_) =>
        FollowsWith(h, old(m.tables), old(m.chains), contents, m.blockSize, m.tables, m.chains, r, d);
        Fits(|blocks|, |m.tables[r]|, m.blockSize);
        a := Resumed(n, numNew);
      case NoSpace =>
        a := NotYet;
      case Raised(e) =>
        a := Fails(e);
    }
  }

  lemma NewContent(h: Hash, tables: map<Id, seq<nat>>, chains: map<Id, seq<Key>>, contents: map<Id, Content>,
                   blockSize: nat, r: Id, d: Content)
    requires Follow(h, tables, chains, contents, blockSize) && r !in tables
    ensures Follow(h, tables, chains, contents[r := d], blockSize)
  {
    hide IsChain;
  }
}
