/** Whole runs of the serving loop around the KV-cache manager: requests arrive, are
    admitted, advance, get new tokens, are preempted, swapped out, resumed and finished, in
    any order and number.  `Sound` holds after every command, so that no block is ever
    shared between requests with different text, unless the run has ended in one of the
    exceptions that `Serving` describes. */
module Servers {
  import opened Options
  import opened BlockPools
  import opened CpuDemand
  import opened CpuBlocks
  import opened KVCacheManagers
  import opened BlockHashes
  import opened PrefixSharing
  import opened Serving
  import opened ExtraKeys

  datatype Phase = Waiting | Running | SwappedOut

  datatype Req = Req(content: Content, keys: seq<Key>, numComputed: nat, phase: Phase)

  /** How a run can end: an exception of the manager, the assertion that there are tokens
      left, or tokens that have no place in the block table. */
  datatype Crash = Exception(error: KVCacheManagers.Error) | NoTokensLeft | NoRoom

  datatype Command =
    | Arrive(r: Id, tokens: seq<int>, images: seq<Image>)
    | Admit(r: Id, budget: nat)
    | Advance(r: Id, budget: nat)
    | Token(r: Id, token: int)
    | SwapOut(r: Id)
    | Preempt(r: Id)
    | Resume(r: Id, budget: nat)
    | Finish(r: Id)

  /** What a request's record says about its tables. */
  ghost predicate ReqOk(h: Hash, tables: map<Id, seq<nat>>, chains: map<Id, seq<Key>>, cpuTables: map<Id, seq<nat>>,
                        blockSize: nat, r: Id, q: Req) {
    && IsChain(h, q.keys, q.content, blockSize) && q.content.split <= |q.keys| && q.content.tokens != []
    && q.numComputed <= |q.content.tokens|
    && match q.phase
       case Waiting => r !in tables && r !in cpuTables
       case Running =>
         && r in tables && r in chains && r !in cpuTables && chains[r] <= q.keys
         && |chains[r]| * blockSize <= q.numComputed <= |tables[r]| * blockSize
       case SwappedOut =>
         && r !in tables && r in cpuTables && q.numComputed <= |cpuTables[r]| * blockSize
         && q.numComputed < |q.content.tokens|
  }

  ghost predicate AllOk(h: Hash, tables: map<Id, seq<nat>>, chains: map<Id, seq<Key>>, cpuTables: map<Id, seq<nat>>,
                        blockSize: nat, requests: map<Id, Req>) {
    && (forall r :: r in requests ==> ReqOk(h, tables, chains, cpuTables, blockSize, r, requests[r]))
    && (forall r :: r in tables ==> r in requests && requests[r].phase.Running?)
  }

  ghost function Contents(requests: map<Id, Req>): map<Id, Content> {
    map r | r in requests :: requests[r].content
  }

  /** Two maps differ at most in one place. */
  ghost predicate SameBut<T>(a: map<Id, T>, b: map<Id, T>, r: Id) {
    forall s :: s != r ==> (s in a <==> s in b) && (s in a ==> a[s] == b[s])
  }

  lemma Differ<T>(a: map<Id, T>, b: map<Id, T>, r: Id)
    requires b == a || (r in b && b == a[r := b[r]]) || b == a - {r}
    ensures SameBut(a, b, r)
  {
  }

  /** A command concerns one request. */
  lemma UpdateOne(h: Hash, tables: map<Id, seq<nat>>, chains: map<Id, seq<Key>>, cpuTables: map<Id, seq<nat>>,
                  blockSize: nat, requests: map<Id, Req>, tables': map<Id, seq<nat>>, chains': map<Id, seq<Key>>,
                  cpuTables': map<Id, seq<nat>>, r: Id, q: Req)
    requires AllOk(h, tables, chains, cpuTables, blockSize, requests)
    requires SameBut(tables, tables', r) && SameBut(chains, chains', r) && SameBut(cpuTables, cpuTables', r)
    requires ReqOk(h, tables', chains', cpuTables', blockSize, r, q) && (r in tables' ==> q.phase.Running?)
    ensures AllOk(h, tables', chains', cpuTables', blockSize, requests[r := q])
    ensures Contents(requests[r := q]) == Contents(requests)[r := q.content]
  {
    hide ReqOk;
    var all := requests[r := q];
    forall s | s in all
      ensures ReqOk(h, tables', chains', cpuTables', blockSize, s, all[s])
    {
      if s != r {
        SameReq(h, tables, chains, cpuTables, blockSize, tables', chains', cpuTables', s, requests[s]);
      }
    }
  }

  lemma SameReq(h: Hash, tables: map<Id, seq<nat>>, chains: map<Id, seq<Key>>, cpuTables: map<Id, seq<nat>>,
                blockSize: nat,
                tables': map<Id, seq<nat>>, chains': map<Id, seq<Key>>, cpuTables': map<Id, seq<nat>>, s: Id, q: Req)
    requires ReqOk(h, tables, chains, cpuTables, blockSize, s, q)
    requires (s in tables <==> s in tables') && (s in tables ==> tables'[s] == tables[s])
    requires (s in chains <==> s in chains') && (s in chains ==> chains'[s] == chains[s])
    requires (s in cpuTables <==> s in cpuTables') && (s in cpuTables ==> cpuTables'[s] == cpuTables[s])
    ensures ReqOk(h, tables', chains', cpuTables', blockSize, s, q)
  {
    hide IsChain;
  }

  lemma RemoveOne(h: Hash, tables: map<Id, seq<nat>>, chains: map<Id, seq<Key>>, cpuTables: map<Id, seq<nat>>,
                  blockSize: nat, requests: map<Id, Req>, r: Id)
    requires AllOk(h, tables, chains, cpuTables, blockSize, requests)
    requires Follow(h, tables, chains, Contents(requests), blockSize)
    ensures AllOk(h, tables - {r}, chains - {r}, cpuTables, blockSize, requests - {r})
    ensures Follow(h, tables - {r}, chains - {r}, Contents(requests - {r}), blockSize)
  {
    hide IsChain, ReqOk;
    var all := requests - {r};
    forall s | s in all
      ensures ReqOk(h, tables - {r}, chains - {r}, cpuTables, blockSize, s, all[s])
    {
      SameReq(h, tables, chains, cpuTables, blockSize, tables - {r}, chains - {r}, cpuTables, s, requests[s]);
    }
  }

  /** Only the record of one request has changed. */
  ghost predicate Changed(before: map<Id, Req>, after: map<Id, Req>, r: Id) {
    r in before && r in after && after == before[r := after[r]]
  }

  lemma FollowsWithout(h: Hash, tables: map<Id, seq<nat>>, chains: map<Id, seq<Key>>, contents: map<Id, Content>,
                       blockSize: nat, r: Id)
    requires Follow(h, tables, chains, contents, blockSize)
    ensures Follow(h, tables - {r}, chains - {r}, contents, blockSize)
  {
    hide IsChain;
  }

  /** The requests, who has blocks, and the manager's tables and pools. */
  datatype Snapshot = Snapshot(requests: map<Id, Req>, running: set<Id>, swapped: set<Id>, tables: map<Id, seq<nat>>,
                               cpuTables: map<Id, seq<nat>>, pools: Pools)

  /** A request has been given tokens from a place on: as many as the budget allows, or all
      that are left. */
  ghost predicate Progressed(q: Req, q': Req, from: nat, budget: nat) {
    && q'.phase.Running? && q'.content.tokens == q.content.tokens && q'.content.images == q.content.images
    && from < |q.content.tokens|
    && q'.numComputed == from + if |q.content.tokens| - from < budget then |q.content.tokens| - from else budget
  }

  /** From its cached prefix on. */
  ghost predicate Started(blockSize: nat, enableCaching: bool, p: Pools, q: Req, q': Req, budget: nat) {
    exists computed ::
      && UsedPrefix(p, enableCaching, q'.keys, computed, |q.content.tokens|, blockSize)
      && Progressed(q, q', |computed| * blockSize, budget)
  }

  /** From where it was, or from its cached prefix on if that is longer. */
  ghost predicate Restarted(blockSize: nat, enableCaching: bool, p: Pools, q: Req, q': Req, budget: nat) {
    exists computed ::
      && WholePrefix(p, enableCaching, q'.keys, computed)
      && var cached := |computed| * blockSize;
         Progressed(q, q', if q.numComputed < cached then cached else q.numComputed, budget)
  }

  /** A request stays as it is, except that its keys may have been computed. */
  ghost predicate Stayed(q: Req, q': Req) {
    && q'.phase == q.phase && q'.numComputed == q.numComputed
    && q'.content.tokens == q.content.tokens && q'.content.images == q.content.images
  }

  /** The tokens a budget allows to compute, of so many. */
  function Portion(left: int, budget: nat): (n: int)
    ensures n <= left && n <= budget && (n == left || n == budget)
  {
    if left < budget then left else budget
  }

  /** More blocks are needed than are free, besides those of the request's cached prefix. */
  ghost predicate Short(blockSize: nat, enableCaching: bool, s: Snapshot, c: Command, q': Req) {
    blockSize > 0 && c.r in s.requests &&
    var q, free := s.requests[c.r], s.pools.freeGpu;
    match c
    case Admit(r, budget) =>
      exists computed ::
        && UsedPrefix(s.pools, enableCaching, q'.keys, computed, |q.content.tokens|, blockSize)
        && CeilDiv(Portion(|q.content.tokens| - |computed| * blockSize, budget), blockSize) >
           |FreeBesides(free, computed)|
    case Advance(r, budget) =>
      && r in s.tables
      && CeilDiv(q.numComputed + Portion(|q.content.tokens| - q.numComputed, budget), blockSize) >
         |s.tables[r]| + |free|
    case Resume(r, budget) =>
      && r in s.cpuTables
      && exists computed ::
           && WholePrefix(s.pools, enableCaching, q'.keys, computed)
           && |s.cpuTables[r]| - |computed| > |FreeBesides(free, computed)|
    case _ => false
  }

  ghost predicate Applies(s: Snapshot, c: Command) {
    match c
    case Arrive(r, tokens, _) => r !in s.requests && r !in s.swapped && tokens != []
    case Admit(r, budget) => r in s.requests && s.requests[r].phase.Waiting? && budget > 0
    case Advance(r, budget) =>
      && r in s.requests && s.requests[r].phase.Running? && budget > 0
      && s.requests[r].numComputed < |s.requests[r].content.tokens|
    case Token(r, _) =>
      r in s.requests && s.requests[r].phase.Running? && s.requests[r].numComputed == |s.requests[r].content.tokens|
    case SwapOut(r) =>
      r in s.requests && s.requests[r].phase.Running? && s.requests[r].numComputed < |s.requests[r].content.tokens|
    case Preempt(r) => r in s.requests && s.requests[r].phase.Running?
    case Resume(r, budget) => r in s.requests && s.requests[r].phase.SwappedOut? && budget > 0
    case Finish(r) => r in s.requests
  }

  /** What a command does when it applies and does not crash. */
  ghost predicate Effect(blockSize: nat, enableCaching: bool, s: Snapshot, c: Command, s': Snapshot) {
    Applies(s, c) &&
    match c
    case Arrive(r, tokens, images) =>
      s' == s.(requests := s.requests[r := Req(Content(tokens, images, 0), [], 0, Waiting)])
    case Admit(r, budget) =>
      && Changed(s.requests, s'.requests, r) && s'.swapped == s.swapped
      && if s'.requests[r].phase.Running?
         then
           && s'.running == s.running + {r}
           && Started(blockSize, enableCaching, s.pools, s.requests[r], s'.requests[r], budget)
         else
           && s'.running == s.running && Stayed(s.requests[r], s'.requests[r])
           && Short(blockSize, enableCaching, s, c, s'.requests[r])
    case Advance(r, budget) =>
      && Changed(s.requests, s'.requests, r) && s'.running == s.running && s'.swapped == s.swapped
      && (|| Progressed(s.requests[r], s'.requests[r], s.requests[r].numComputed, budget)
          || (s'.requests == s.requests && Short(blockSize, enableCaching, s, c, s'.requests[r])))
    case Token(r, token) =>
      var q := s.requests[r];
      s' == s.(requests := s.requests[r := q.(content := q.content.(tokens := q.content.tokens + [token]))])
    case SwapOut(r) =>
      && s'.requests == s.requests[r := s.requests[r].(phase := SwappedOut)]
      && s'.running == s.running - {r} && s'.swapped == s.swapped + {r}
    case Preempt(r) =>
      && s'.requests == s.requests[r := s.requests[r].(phase := Waiting, numComputed := 0)]
      && s'.running == s.running - {r} && s'.swapped == s.swapped
    case Resume(r, budget) =>
      && Changed(s.requests, s'.requests, r)
      && if s'.requests[r].phase.Running?
         then
           && s'.running == s.running + {r} && s'.swapped == s.swapped - {r}
           && Restarted(blockSize, enableCaching, s.pools, s.requests[r], s'.requests[r], budget)
         else
           && s'.running == s.running && s'.swapped == s.swapped && Stayed(s.requests[r], s'.requests[r])
           && Short(blockSize, enableCaching, s, c, s'.requests[r])
    case Finish(r) =>
      s'.requests == s.requests - {r} && s'.running == s.running - {r} && s'.swapped == s.swapped
  }

  /** A request that is admitted or resumed, or not yet. */
  lemma StartEffect(blockSize: nat, enableCaching: bool, s: Snapshot, c: Command, s': Snapshot, budget: nat)
    requires Applies(s, c) && (c == Command.Admit(c.r, budget) || c == Command.Resume(c.r, budget))
    requires Changed(s.requests, s'.requests, c.r)
    requires || (&& Stayed(s.requests[c.r], s'.requests[c.r]) && s'.running == s.running && s'.swapped == s.swapped
                 && Short(blockSize, enableCaching, s, c, s'.requests[c.r]))
             || (&& s'.requests[c.r].phase.Running? && s'.running == s.running + {c.r}
                 && if c.Admit?
                    then
                      && s'.swapped == s.swapped
                      && Started(blockSize, enableCaching, s.pools, s.requests[c.r], s'.requests[c.r], budget)
                    else
                      && s'.swapped == s.swapped - {c.r}
                      && Restarted(blockSize, enableCaching, s.pools, s.requests[c.r], s'.requests[c.r], budget))
    ensures Effect(blockSize, enableCaching, s, c, s')
  {
    hide Short, Started, Restarted;
  }

  lemma AdvanceEffect(blockSize: nat, enableCaching: bool, s: Snapshot, r: Id, budget: nat, s': Snapshot)
    requires Applies(s, Command.Advance(r, budget)) && Changed(s.requests, s'.requests, r)
    requires s'.running == s.running && s'.swapped == s.swapped
    requires || Progressed(s.requests[r], s'.requests[r], s.requests[r].numComputed, budget)
             || (s'.requests == s.requests
                 && Short(blockSize, enableCaching, s, Command.Advance(r, budget), s'.requests[r]))
    ensures Effect(blockSize, enableCaching, s, Command.Advance(r, budget), s')
  {
    hide Short, Progressed;
  }

  lemma StartedFrom(blockSize: nat, enableCaching: bool, p: Pools, q: Req, q': Req, budget: nat, computed: seq<nat>)
    requires UsedPrefix(p, enableCaching, q'.keys, computed, |q.content.tokens|, blockSize)
    requires Progressed(q, q', |computed| * blockSize, budget)
    ensures Started(blockSize, enableCaching, p, q, q', budget)
  {
    hide UsedPrefix, Progressed;
  }

  lemma RestartedFrom(blockSize: nat, enableCaching: bool, p: Pools, q: Req, q': Req, budget: nat, computed: seq<nat>,
                      from: nat)
    requires WholePrefix(p, enableCaching, q'.keys, computed)
    requires from == if q.numComputed < |computed| * blockSize then |computed| * blockSize else q.numComputed
    requires Progressed(q, q', from, budget)
    ensures Restarted(blockSize, enableCaching, p, q, q', budget)
  {
    hide WholePrefix, Progressed;
  }

  lemma AdmitShort(blockSize: nat, s: Snapshot, r: Id, budget: nat, q': Req, computed: seq<nat>, inAdvance: nat,
                   maxBlocks: nat, enableCaching: bool)
    requires blockSize > 0 && r in s.requests
    requires UsedPrefix(s.pools, enableCaching, q'.keys, computed, |s.requests[r].content.tokens|, blockSize)
    requires PlannedSlots(s.pools, Portion(|s.requests[r].content.tokens| - |computed| * blockSize, budget), computed,
                          inAdvance, maxBlocks, blockSize, enableCaching).NoSpace?
    ensures Short(blockSize, enableCaching, s, Command.Admit(r, budget), q')
  {
    hide UsedPrefix, WholePrefix, FreeBesides, CeilDiv;
  }

  lemma ResumeShort(blockSize: nat, enableCaching: bool, s: Snapshot, r: Id, budget: nat, q': Req, computed: seq<nat>)
    requires blockSize > 0 && r in s.requests && r in s.cpuTables
    requires WholePrefix(s.pools, enableCaching, q'.keys, computed)
    requires |s.cpuTables[r]| - |computed| > |FreeBesides(s.pools.freeGpu, computed)|
    ensures Short(blockSize, enableCaching, s, Command.Resume(r, budget), q')
  {
    hide UsedPrefix, WholePrefix, FreeBesides;
  }

  lemma AdvanceShort(blockSize: nat, enableCaching: bool, s: Snapshot, r: Id, budget: nat, q': Req, inAdvance: nat,
                     maxBlocks: nat)
    requires blockSize > 0 && r in s.requests && r in s.tables
    requires var q := s.requests[r];
             PlannedMore(s.pools, s.tables[r],
                         CeilDiv(q.numComputed + Portion(|q.content.tokens| - q.numComputed, budget), blockSize),
                         inAdvance, maxBlocks).NoSpace?
    ensures Short(blockSize, enableCaching, s, Command.Advance(r, budget), q')
  {
    hide CeilDiv;
  }

  class Server {
    const m: KVCacheManager
    const h: Hash
    var requests: map<Id, Req>
    var crash: Option<Crash>

    ghost predicate Sound()
      reads this, m
    {
      && m.Valid() && AllOk(h, m.tables, m.chains, m.cpuTables, m.blockSize, requests)
      && Follow(h, m.tables, m.chains, Contents(requests), m.blockSize)
    }

    ghost function Now(): Snapshot
      reads this, m
    {
      Snapshot(requests, m.tables.Keys, m.cpuTables.Keys, m.tables, m.cpuTables, m.pools)
    }

    /** Why an admission crashes: the plan raises, or the request is too long for a table. */
    ghost predicate AdmitFails(p: Pools, q: Req, budget: nat, computed: seq<nat>) {
      && m.blockSize > 0
      && (|| PlannedSlots(p, Portion(|q.content.tokens| - |computed| * m.blockSize, budget), computed,
                          m.preallocateBlocks, m.maxBlocks, m.blockSize, m.enableCaching).Raised?
          || |q.content.tokens| > m.maxBlocks * m.blockSize)
    }

    /** Why a step crashes: the plan raises, or the table is at its limit. */
    ghost predicate AdvanceFails(p: Pools, t: seq<nat>, q: Req, budget: nat) {
      && m.blockSize > 0
      && var upTo := q.numComputed + Portion(|q.content.tokens| - q.numComputed, budget);
      || PlannedMore(p, t, CeilDiv(upTo, m.blockSize), m.preallocateBlocks, m.maxBlocks).Raised?
      || upTo > m.maxBlocks * m.blockSize
    }

    /** Why a return crashes: the cache knows all tokens, or as many blocks as there were, or
        the CPU blocks do not suffice, or there is no room for the next tokens. */
    ghost predicate ResumeFails(p: Pools, n: nat, q: Req, budget: nat, keys: seq<Key>, computed: seq<nat>) {
      var k, queue := |computed|, FreeBesides(p.freeGpu, computed);
      var from := if q.numComputed < k * m.blockSize then k * m.blockSize else q.numComputed;
      || (m.enableCaching && WhollyCached(p.gpu, keys, |q.content.tokens|, m.blockSize))
      || k >= n
      || (n - k <= |queue| && !Suffices(p, CpusOf(p, computed), queue, n - k))
      || from + Portion(|q.content.tokens| - from, budget) > n * m.blockSize
    }

    /** When a command crashes. */
    ghost predicate Fails(s: Snapshot, c: Command) {
      Applies(s, c) &&
      match c
      case Admit(r, budget) =>
        exists keys, d, computed ::
          && KeysOf(h, m.enableCaching, s.requests[r].keys, s.requests[r].content, keys, d, m.blockSize)
          && UsedPrefix(s.pools, m.enableCaching, keys, computed, |s.requests[r].content.tokens|, m.blockSize)
          && AdmitFails(s.pools, s.requests[r], budget, computed)
      case Advance(r, budget) => r in s.tables && AdvanceFails(s.pools, s.tables[r], s.requests[r], budget)
      case Resume(r, budget) =>
        && r in s.cpuTables
        && exists keys, d, computed ::
             && KeysOf(h, m.enableCaching, s.requests[r].keys, s.requests[r].content, keys, d, m.blockSize)
             && WholePrefix(s.pools, m.enableCaching, keys, computed)
             && ResumeFails(s.pools, |s.cpuTables[r]|, s.requests[r], budget, keys, computed)
      case _ => false
    }

    lemma AdmissionFails(s: Snapshot, r: Id, budget: nat, keys: seq<Key>, d: Content, computed: seq<nat>)
      requires Applies(s, Command.Admit(r, budget))
      requires KeysOf(h, m.enableCaching, s.requests[r].keys, s.requests[r].content, keys, d, m.blockSize)
      requires UsedPrefix(s.pools, m.enableCaching, keys, computed, |s.requests[r].content.tokens|, m.blockSize)
      requires AdmitFails(s.pools, s.requests[r], budget, computed)
      ensures Fails(s, Command.Admit(r, budget))
    {
      hide KeysOf, UsedPrefix, WholePrefix, AdmitFails;
    }

    /** What `ResumeSwapped` says of its outcome `a`, where that ends the run. */
    ghost predicate BadReturn(p: Pools, n: nat, q: Req, budget: nat, keys: seq<Key>, computed: seq<nat>,
                              a: Resumption) {
      var k, queue := |computed|, FreeBesides(p.freeGpu, computed);
      match a
      case AssertionFails => m.enableCaching && WhollyCached(p.gpu, keys, |q.content.tokens|, m.blockSize)
      case Fails(e) =>
        && (e.ValueError? ==> k == n) && (e.AssertionError? ==> k > n) && !e.IndexError?
        && (e.NoFreeCpuBlock? ==> k < n && n - k <= |queue| && !Suffices(p, CpusOf(p, computed), queue, n - k))
      case Resumed(numComputed, numNew) =>
        && numComputed + numNew > n * m.blockSize
        && numComputed == (if q.numComputed < k * m.blockSize then k * m.blockSize else q.numComputed)
        && 0 < numNew <= budget && numComputed + numNew <= |q.content.tokens|
        && (numNew == budget || numComputed + numNew == |q.content.tokens|)
      case NotYet => false
    }

    lemma BadReturnFails(p: Pools, n: nat, q: Req, budget: nat, keys: seq<Key>, computed: seq<nat>, a: Resumption)
      requires BadReturn(p, n, q, budget, keys, computed, a)
      ensures ResumeFails(p, n, q, budget, keys, computed)
    {
      hide Suffices, FreeBesides, WhollyCached;
      match a {
        case Fails(e) =>
          match e {
            case ValueError =>
            case AssertionError =>
            case NoFreeCpuBlock =>
          }
        case _ =>
      }
    }

    lemma ReturnFails(s: Snapshot, r: Id, budget: nat, keys: seq<Key>, d: Content, computed: seq<nat>, a: Resumption)
      requires Applies(s, Command.Resume(r, budget)) && r in s.cpuTables
      requires KeysOf(h, m.enableCaching, s.requests[r].keys, s.requests[r].content, keys, d, m.blockSize)
      requires WholePrefix(s.pools, m.enableCaching, keys, computed)
      requires BadReturn(s.pools, |s.cpuTables[r]|, s.requests[r], budget, keys, computed, a)
      ensures Fails(s, Command.Resume(r, budget))
    {
      hide KeysOf, UsedPrefix, WholePrefix, ResumeFails, BadReturn;
      BadReturnFails(s.pools, |s.cpuTables[r]|, s.requests[r], budget, keys, computed, a);
    }

    constructor (m: KVCacheManager, h: Hash)
      requires m.Valid() && m.tables == map[]
      ensures this.m == m && this.h == h && requests == map[] && crash.None? && Sound()
    {
      this.m, this.h, requests, crash := m, h, map[], None;
    }

    /** Whatever the run: two requests that share a block have the same text up to its end,
        and it stands at the same place of their tables. */
    lemma SharingIsSound(r: Id, i: nat, s: Id, j: nat)
      requires Sound() && CollisionFree(h) && r in m.tables && s in m.tables && (r != s || i != j)
      requires i < |m.tables[r]| && j < |m.tables[s]| && m.tables[r][i] == m.tables[s][j]
      ensures i == j && r != s && r in requests && s in requests
      ensures SamePrefix(requests[r].content, requests[s].content, i, m.blockSize)
    {
      hide KVCacheManager.Valid, CollisionFree, IsChain, SamePrefix;
      SharedMeansSamePrefix(m, h, Contents(requests), r, i, s, j);
    }

    method DoArrive(r: Id, tokens: seq<int>, images: seq<Image>)
      requires Sound() && crash.None? && r !in requests && r !in m.cpuTables && tokens != []
      modifies this
      ensures Sound() && crash.None? && requests == old(requests)[r := Req(Content(tokens, images, 0), [], 0, Waiting)]
      ensures Effect(m.blockSize, m.enableCaching, old(Now()), Command.Arrive(r, tokens, images), Now())
    {
      hide KVCacheManager.Valid, IsChain;
      m.BlockSizePositive();
      var q := Req(Content(tokens, images, 0), [], 0, Waiting);
      NoChain(h, q.content, m.blockSize);
      UpdateOne(h, m.tables, m.chains, m.cpuTables, m.blockSize, requests, m.tables, m.chains, m.cpuTables, r, q);
      NewContent(h, m.tables, m.chains, Contents(requests), m.blockSize, r, q.content);
      requests := requests[r := q];
    }

    /** Admission, with the new tokens computed in the same step. */
    method DoAdmit(r: Id, budget: nat)
      requires Sound() && crash.None? && r in requests && requests[r].phase.Waiting? && budget > 0
      modifies this, m`pools, m`tables, m`chains, m`leaked
      ensures crash.None? ==>
                && Changed(old(requests), requests, r) && Sound()
                && (requests[r].phase.Waiting? || (requests[r].phase.Running? && 0 < requests[r].numComputed))
      ensures crash.None? ==>
                KeysOf(h, m.enableCaching, old(requests)[r].keys, old(requests)[r].content, requests[r].keys,
                       requests[r].content, m.blockSize)
      ensures |old(requests)[r].content.tokens| <= m.maxBlocks * m.blockSize ==>
                crash.None? || crash == Some(Exception(NoFreeCpuBlock))
      ensures if crash.None? then Effect(m.blockSize, m.enableCaching, old(Now()), Command.Admit(r, budget), Now())
              else Fails(old(Now()), Command.Admit(r, budget))
    {
      hide KVCacheManager.Valid, IsChain, KeysOf, PlannedSlots, UsedPrefix, WholePrefix, Follow, AllOk, Effect, Short,
           Server.Fails, Started, Restarted;
      ReqIs(h, m.tables, m.chains, m.cpuTables, m.blockSize, requests, r);
      var q := requests[r];
      var a, keys, d;
      ghost var computed;
      a, keys, d, computed := AdmitWaiting(m, h, r, q.keys, q.content, budget, Contents(requests));
      KeysAre(h, m.enableCaching, q.keys, q.content, keys, d, m.blockSize);
      match a {
        case Admitted(numComputed, numNew) =>
          if numComputed + numNew > |m.tables[r]| * m.blockSize {
            crash := Some(NoRoom);
            AdmissionFails(old(Now()), r, budget, keys, d, computed);
            return;
          }
          q := Req(d, keys, numComputed + numNew, Running);
          StartedFrom(m.blockSize, m.enableCaching, old(m.pools), old(requests)[r], q, budget, computed);
        case Refused =>
          q := q.(content := d, keys := keys);
          AdmitShort(m.blockSize, old(Now()), r, budget, q, computed, m.preallocateBlocks, m.maxBlocks,
                     m.enableCaching);
        case Failed(e) =>
          crash := Some(Exception(e));
          AdmissionFails(old(Now()), r, budget, keys, d, computed);
          return;
      }
      UpdateOne(h, old(m.tables), old(m.chains), old(m.cpuTables), m.blockSize, requests, m.tables, m.chains,
                m.cpuTables, r, q);
      requests := requests[r := q];
      StartEffect(m.blockSize, m.enableCaching, old(Now()), Command.Admit(r, budget), Now(), budget);
    }

    /** One more step of a running request, with its tokens computed in the same step. */
    method DoAdvance(r: Id, budget: nat)
      requires Sound() && crash.None? && r in requests && requests[r].phase.Running? && budget > 0
      requires requests[r].numComputed < |requests[r].content.tokens|
      modifies this, m`pools, m`tables, m`chains, m`pendingOut, m`leaked
      ensures crash.None? ==>
                && Changed(old(requests), requests, r) && Sound() && requests[r].phase.Running?
                && requests[r].content == old(requests)[r].content
                && (requests[r].numComputed > old(requests)[r].numComputed || m.tables == old(m.tables))
      ensures if crash.None? then Effect(m.blockSize, m.enableCaching, old(Now()), Command.Advance(r, budget), Now())
              else Fails(old(Now()), Command.Advance(r, budget))
    {
      hide KVCacheManager.Valid, IsChain, PlannedMore, Follow, AllOk, SameBut, Short, Effect;
      ReqIs(h, m.tables, m.chains, m.cpuTables, m.blockSize, requests, r);
      var q := requests[r];
      var left := |q.content.tokens| - q.numComputed;
      var numNew := Portion(left, budget);
      var a, keys := AdvanceRunning(m, h, r, q.keys, q.content, q.numComputed, numNew, Contents(requests));
      match a {
        case Allocated(blocks) =>
          if q.numComputed + numNew > |m.tables[r]| * m.blockSize {
            crash := Some(NoRoom);
            return;
          }
          q := q.(keys := keys, numComputed := q.numComputed + numNew);
        case NoSpace =>
          assert keys == q.keys;
          AdvanceShort(m.blockSize, m.enableCaching, old(Now()), r, budget, q, m.preallocateBlocks, m.maxBlocks);
        case Raised(e) =>
          crash := Some(Exception(e));
          return;
      }
      Differ(old(m.tables), m.tables, r);
      Differ(old(m.chains), m.chains, r);
      Differ(m.cpuTables, m.cpuTables, r);
      UpdateOne(h, old(m.tables), old(m.chains), old(m.cpuTables), m.blockSize, requests, m.tables, m.chains,
                m.cpuTables, r, q);
      assert Contents(requests)[r := q.content] == Contents(requests);
      requests := requests[r := q];
      AdvanceEffect(m.blockSize, m.enableCaching, old(Now()), r, budget, Now());
    }

    /** The model has produced a token. */
    method DoToken(r: Id, token: int)
      requires Sound() && crash.None? && r in requests && requests[r].phase.Running?
      requires requests[r].numComputed == |requests[r].content.tokens|
      modifies this
      ensures Sound() && crash.None? && requests.Keys == old(requests).Keys
      ensures requests[r].content.tokens == old(requests)[r].content.tokens + [token]
      ensures Effect(m.blockSize, m.enableCaching, old(Now()), Command.Token(r, token), Now())
    {
      hide KVCacheManager.Valid, IsChain, AllOk;
      ReqIs(h, m.tables, m.chains, m.cpuTables, m.blockSize, requests, r);
      var q := requests[r];
      var d := q.content.(tokens := q.content.tokens + [token]);
      ChainGrows(h, q.keys, q.content, [token], m.blockSize);
      ChainGrows(h, m.chains[r], q.content, [token], m.blockSize);
      FollowsWith(h, m.tables, m.chains, Contents(requests), m.blockSize, m.tables, m.chains, r, d);
      q := q.(content := d);
      UpdateOne(h, m.tables, m.chains, m.cpuTables, m.blockSize, requests, m.tables, m.chains, m.cpuTables, r, q);
      requests := requests[r := q];
    }

    method DoSwapOut(r: Id)
      requires Sound() && crash.None? && r in requests && requests[r].phase.Running?
      requires requests[r].numComputed < |requests[r].content.tokens|
      modifies this, m`pools, m`tables, m`chains, m`cpuTables, m`pendingOut
      ensures Sound() && crash.None? && requests == old(requests)[r := old(requests)[r].(phase := SwappedOut)]
      ensures Effect(m.blockSize, m.enableCaching, old(Now()), Command.SwapOut(r), Now())
    {
      hide KVCacheManager.Valid, IsChain, AllOk, SameBut, KeepsCpu, NewlyFree, DirtyPairs, SameMapping, SameKeys,
           Follow;
      ReqIs(h, m.tables, m.chains, m.cpuTables, m.blockSize, requests, r);
      var freed := m.SwapOut(r);
      var q := requests[r].(phase := SwappedOut);
      Differ(old(m.tables), m.tables, r);
      Differ(old(m.chains), m.chains, r);
      Differ(old(m.cpuTables), m.cpuTables, r);
      FollowsWithout(h, old(m.tables), old(m.chains), Contents(requests), m.blockSize, r);
      UpdateOne(h, old(m.tables), old(m.chains), old(m.cpuTables), m.blockSize, requests, m.tables, m.chains,
                m.cpuTables, r, q);
      NewContent(h, m.tables, m.chains, Contents(requests), m.blockSize, r, q.content);
      requests := requests[r := q];
    }

    /** Preemption by recomputing. */
    method DoPreempt(r: Id)
      requires Sound() && crash.None? && r in requests && requests[r].phase.Running?
      modifies this, m`pools, m`tables, m`chains
      ensures Sound() && crash.None?
      ensures requests == old(requests)[r := old(requests)[r].(phase := Waiting, numComputed := 0)]
      ensures Effect(m.blockSize, m.enableCaching, old(Now()), Command.Preempt(r), Now())
    {
      hide KVCacheManager.Valid, IsChain, AllOk, SameBut, KeepsCpu, NewlyFree, SameMapping, SameKeys, Follow;
      ReqIs(h, m.tables, m.chains, m.cpuTables, m.blockSize, requests, r);
      m.Free(r);
      var q := requests[r].(phase := Waiting, numComputed := 0);
      Differ(old(m.tables), m.tables, r);
      Differ(old(m.chains), m.chains, r);
      Differ(old(m.cpuTables), m.cpuTables, r);
      FollowsWithout(h, old(m.tables), old(m.chains), Contents(requests), m.blockSize, r);
      UpdateOne(h, old(m.tables), old(m.chains), old(m.cpuTables), m.blockSize, requests, m.tables, m.chains,
                m.cpuTables, r, q);
      NewContent(h, m.tables, m.chains, Contents(requests), m.blockSize, r, q.content);
      requests := requests[r := q];
    }

    /** The return of a swapped-out request, with its tokens computed in the same step. */
    method DoResume(r: Id, budget: nat)
      requires Sound() && crash.None? && r in requests && requests[r].phase.SwappedOut? && budget > 0
      modifies this, m`pools, m`tables, m`cpuTables, m`chains, m`pendingIn, m`leaked
      ensures crash.None? ==>
                && Changed(old(requests), requests, r) && Sound()
                && (requests[r].phase.SwappedOut? ||
                    (requests[r].phase.Running? && requests[r].numComputed > old(requests)[r].numComputed))
                && KeysOf(h, m.enableCaching, old(requests)[r].keys, old(requests)[r].content, requests[r].keys,
                          requests[r].content, m.blockSize)
      ensures if crash.None? then Effect(m.blockSize, m.enableCaching, old(Now()), Command.Resume(r, budget), Now())
              else Fails(old(Now()), Command.Resume(r, budget))
    {
      hide KVCacheManager.Valid, IsChain, KeysOf, UsedPrefix, WholePrefix, Follow, AllOk, CachedRun, WhollyCached,
           Suffices, FreeBesides, Effect, Server.Fails, Short, SameBut, Started, Restarted;
      ReqIs(h, m.tables, m.chains, m.cpuTables, m.blockSize, requests, r);
      var q := requests[r];
      var a, keys, d;
      ghost var computed;
      a, keys, d, computed := ResumeSwapped(m, h, r, q.keys, q.content, q.numComputed, budget, Contents(requests));
      KeysAre(h, m.enableCaching, q.keys, q.content, keys, d, m.blockSize);
      match a {
        case Resumed(numComputed, numNew) =>
          if numComputed + numNew > |m.tables[r]| * m.blockSize {
            crash := Some(NoRoom);
            ReturnFails(old(Now()), r, budget, keys, d, computed, a);
            return;
          }
          q := Req(d, keys, numComputed + numNew, Running);
          RestartedFrom(m.blockSize, m.enableCaching, old(m.pools), old(requests)[r], q, budget, computed, numComputed);
        case NotYet =>
          q := q.(content := d, keys := keys);
          ResumeShort(m.blockSize, m.enableCaching, old(Now()), r, budget, q, computed);
        case AssertionFails =>
          crash := Some(NoTokensLeft);
          ReturnFails(old(Now()), r, budget, keys, d, computed, a);
          return;
        case Fails(e) =>
          crash := Some(Exception(e));
          ReturnFails(old(Now()), r, budget, keys, d, computed, a);
          return;
      }
      Differ(old(m.tables), m.tables, r);
      Differ(old(m.chains), m.chains, r);
      Differ(old(m.cpuTables), m.cpuTables, r);
      UpdateOne(h, old(m.tables), old(m.chains), old(m.cpuTables), m.blockSize, requests, m.tables, m.chains,
                m.cpuTables, r, q);
      requests := requests[r := q];
      StartEffect(m.blockSize, m.enableCaching, old(Now()), Command.Resume(r, budget), Now(), budget);
    }

    /** The end of a request, by itself or by its client; a swapped-out table stays. */
    method DoFinish(r: Id)
      requires Sound() && crash.None? && r in requests
      modifies this, m`pools, m`tables, m`chains
      ensures Sound() && crash.None? && requests == old(requests) - {r}
      ensures Effect(m.blockSize, m.enableCaching, old(Now()), Command.Finish(r), Now())
    {
      hide KVCacheManager.Valid, IsChain, AllOk, Follow;
      RemoveOne(h, m.tables, m.chains, m.cpuTables, m.blockSize, requests, r);
      m.Free(r);
      requests := requests - {r};
    }

    /** One command; one that does not apply changes nothing. */
    method Do(c: Command)
      requires Sound() && crash.None?
      modifies this, m
      ensures if crash.Some? then Fails(old(Now()), c)
              else
                && Sound()
                && if Applies(old(Now()), c) then Effect(m.blockSize, m.enableCaching, old(Now()), c, Now())
                   else Now() == old(Now())
    {
      hide KVCacheManager.Valid, AllOk, Follow, Effect, Server.Fails;
      match c {
        case Arrive(r, tokens, images) =>
          if r !in requests && r !in m.cpuTables && tokens != [] {
            DoArrive(r, tokens, images);
          }
        case Admit(r, budget) =>
          if r in requests && requests[r].phase.Waiting? && budget > 0 {
            DoAdmit(r, budget);
          }
        case Advance(r, budget) =>
          if r in requests && requests[r].phase.Running? && budget > 0
             && requests[r].numComputed < |requests[r].content.tokens| {
            DoAdvance(r, budget);
          }
        case Token(r, token) =>
          if r in requests && requests[r].phase.Running? && requests[r].numComputed == |requests[r].content.tokens| {
            DoToken(r, token);
          }
        case SwapOut(r) =>
          if r in requests && requests[r].phase.Running? && requests[r].numComputed < |requests[r].content.tokens| {
            DoSwapOut(r);
          }
        case Preempt(r) =>
          if r in requests && requests[r].phase.Running? {
            DoPreempt(r);
          }
        case Resume(r, budget) =>
          if r in requests && requests[r].phase.SwappedOut? && budget > 0 {
            DoResume(r, budget);
          }
        case Finish(r) =>
          if r in requests {
            DoFinish(r);
          }
      }
    }

    /** Any sequence of commands, up to a crash: the server is sound after each of them, and
        each one that applies has had its effect. */
    method Run(commands: seq<Command>) returns (done: nat, ghost trace: seq<Snapshot>)
      requires Sound() && crash.None?
      modifies this, m
      ensures done <= |commands| && |trace| == done + 1 && trace[0] == old(Now())
      ensures forall k :: 0 <= k < done ==>
                if Applies(trace[k], commands[k])
                then Effect(m.blockSize, m.enableCaching, trace[k], commands[k], trace[k + 1])
                else trace[k + 1] == trace[k]
      ensures if crash.None? then done == |commands| && Sound() && trace[done] == Now()
              else done < |commands| && Fails(trace[done], commands[done])
    {
      hide KVCacheManager.Valid, AllOk, Follow, Effect, Applies, Server.Fails;
      done, trace := 0, [Now()];
      while done < |commands|
        invariant done <= |commands| && |trace| == done + 1 && trace[0] == old(Now())
        invariant forall k :: 0 <= k < done ==>
                    if Applies(trace[k], commands[k])
                then Effect(m.blockSize, m.enableCaching, trace[k], commands[k], trace[k + 1])
                else trace[k + 1] == trace[k]
        invariant crash.None? && Sound() && trace[done] == Now()
      {
        Do(commands[done]);
        if crash.Some? {
          return;
        }
        trace := trace + [Now()];
        done := done + 1;
      }
    }
  }

  lemma ReqIs(h: Hash, tables: map<Id, seq<nat>>, chains: map<Id, seq<Key>>, cpuTables: map<Id, seq<nat>>,
              blockSize: nat, requests: map<Id, Req>, r: Id)
    requires AllOk(h, tables, chains, cpuTables, blockSize, requests) && r in requests
    ensures ReqOk(h, tables, chains, cpuTables, blockSize, r, requests[r])
    ensures Contents(requests)[r] == requests[r].content
  {
  }
}
