/** The KV-cache manager together with the memory it manages, with prefix caching.  `Inv`
    says that `KVData.Intact` holds once the queued copies are made, copies out before copies
    in.  Every operation keeps it, so what a request reads is what it has computed, however
    often it and others are swapped out and in.

    Three operations need more than the manager checks.  Copying out needs a CPU block of its
    own behind every block that is marked dirty (`Separate`); the model may write only blocks
    that are marked dirty (`KVData.ComputeKeepsDataIff`); and the queued copies may be made in
    another order only if that makes no difference (`RightOrder`), which is so as long as they
    are calm (`CalmBatches`). */
module KVMachines {
  import opened Sequences
  import opened Numbers
  import opened BlockPools
  import opened CpuBlocks
  import opened CpuDemand
  import opened KVCacheManagers
  import opened SwapCopies
  import opened KVData
  import opened CopyStreams
  import opened CalmBatches
  import opened Separation

  datatype Op<T> =
    | OpAllocate(r: Id, numTokens: int, computed: seq<nat>, hits: seq<Key>, noPreallocate: bool)
    | OpAppend(r: Id, numComputed: nat, numMore: nat, numAllTokens: nat, keys: seq<Key>)
    | OpSwapOut(r: Id)
    | OpSwapIn(r: Id, computed: seq<nat>, hits: seq<Key>, numComputed: nat)
    | OpFree(r: Id)
    | OpExecute(copies: seq<Copy>)
    | OpCompute(r: Id, lo: nat, values: seq<T>)

  /** What a run can be followed by: the tables and pools, the queued copies, and what has
      been computed. */
  datatype State<T> = State(view: View, outs: Pairs, ins: Pairs, data: map<Id, seq<T>>)

  predicate Survives(a: Alloc) {
    a != Raised(NoFreeCpuBlock) && a != Raised(IndexError)
  }

  class Machine<T(==)> {
    const m: KVCacheManager
    const content: Key -> T
    ghost var gpuMem: seq<T>
    ghost var cpuMem: seq<T>
    ghost var baseGpu: seq<T>
    ghost var baseCpu: seq<T>
    var data: map<Id, seq<T>>

    ghost function V(): View
      reads this, m
    {
      View(m.pools, m.tables, m.cpuTables, m.chains)
    }

    ghost predicate Inv()
      reads this, m
    {
      && m.Valid() && m.enableCaching && Intact(V(), gpuMem, cpuMem, data, content)
      && Executed(baseGpu, baseCpu, m.pendingOut, m.pendingIn, gpuMem, cpuMem)
    }

    lemma ConsistentView()
      requires m.Valid()
      ensures Consistent(V(), m.leaked) && Sound(V(), m.leaked)
    {
    }

    /** Before anything is allocated, whatever the memory holds. */
    constructor (m: KVCacheManager, content: Key -> T, ghost gpuMem: seq<T>, ghost cpuMem: seq<T>)
      requires m.Valid() && m.enableCaching && m.tables == map[] && m.cpuTables == map[] && NoKeys(m.pools)
      requires m.pendingIn == [] && m.pendingOut == [] && |gpuMem| == |m.pools.gpu| && |cpuMem| == |m.pools.cpuRef|
      ensures this.m == m && this.content == content && Inv() && data == map[]
    {
      hide KVCacheManager.Valid;
      this.m, this.content := m, content;
      this.gpuMem, this.cpuMem, baseGpu, baseCpu, data := gpuMem, cpuMem, gpuMem, cpuMem, map[];
    }

    /** What a running request has computed is in its blocks, once the copies are made. */
    lemma ReadBack(r: Id)
      requires Inv() && r in m.tables
      ensures r in data && Holds(m.tables[r], gpuMem, data[r])
    {
      hide KVCacheManager.Valid, Executed;
    }

    /** The queued copies are made, in an order that gives what copying out first gives. */
    method Execute(copies: seq<Copy>)
      requires Inv() && RightOrder(copies, m.pendingOut, m.pendingIn)
      modifies this`baseGpu, this`baseCpu, m`pendingIn, m`pendingOut
      ensures Inv() && m.pendingIn == [] && m.pendingOut == [] && QueuedIsCalm()
      ensures baseGpu == gpuMem && baseCpu == cpuMem && Within(copies, |old(baseGpu)|, |old(baseCpu)|)
      ensures Mem(gpuMem, cpuMem) == Made(Mem(old(baseGpu), old(baseCpu)), copies)
    {
      hide KVCacheManager.Valid, Intact, RightOrder, Made, Within, Calm;
      ExecuteInOrder(baseGpu, baseCpu, m.pendingOut, m.pendingIn, gpuMem, cpuMem, copies);
      var ins, outs := m.TakePendingCopies();
      baseGpu, baseCpu := gpuMem, cpuMem;
      NothingQueuedIsCalm(V());
    }

    ghost predicate QueuedIsCalm()
      reads this, m
    {
      Calm(V(), m.pendingOut, m.pendingIn)
    }

    /** A calm batch may be made in any order. */
    lemma CalmExecutes(copies: seq<Copy>)
      requires QueuedIsCalm() && IsReordering(copies, m.pendingOut, m.pendingIn)
      ensures Allowed(OpExecute(copies))
    {
      hide Orderless, Calm;
      CalmIsOrderless(V(), m.pendingOut, m.pendingIn);
    }

    method Free(r: Id)
      requires Inv() && r in m.tables
      modifies m`pools, m`tables, m`chains
      ensures Inv() && m.tables == old(m.tables) - {r} && (old(Separate(m.pools)) ==> Separate(m.pools))
    {
      hide KVCacheManager.Valid, Intact, Executed, KeepsCpu, Consistent, Separate, Sound;
      ConsistentView();
      TableBelow(r);
      ghost var v := V();
      m.Free(r);
      ConsistentView();
      ReleaseKeepsData(v, m.leaked, m.pools, r, gpuMem, cpuMem, data, content);
      if Separate(v.pools) {
        ReleaseKeepsSeparate(v, m.leaked, V(), r);
      }
    }

    /** Admission of a request that is not swapped out. */
    method Allocate(r: Id, numTokens: int, computed: seq<nat>, hits: seq<Key>, noPreallocate: bool) returns (a: Alloc)
      requires Inv() && r !in m.tables && r !in m.cpuTables && Keyed(m.pools.gpu, computed, hits)
      modifies this`data, m`pools, m`tables, m`chains, m`leaked
      ensures a == old(Outcome(V(), OpAllocate(r, numTokens, computed, hits, noPreallocate))) && (Survives(a) ==> Inv())
      ensures a.Allocated? ==>
                m.tables == old(m.tables)[r := computed + a.blocks] && data == old(data)[r := ContentOf(hits, content)]
      ensures a.Allocated? && CeilDiv(numTokens, m.blockSize) <= |a.blocks| ==>
                AllDirty(m.pools.gpu, m.tables[r], |hits|, |hits| + CeilDiv(numTokens, m.blockSize))
      ensures !a.Allocated? && Survives(a) ==> m.tables == old(m.tables) && data == old(data)
      ensures Survives(a) && old(QueuedIsCalm()) ==> QueuedIsCalm()
    {
      hide KVCacheManager.Valid, Intact, Executed, KeepsCpu, Consistent, Grown, TouchedAs, PlannedSlots, Keyed,
           Prepared, FreeBesides, AllDirty, CeilDiv, Calm, KeepsSettled, AsManyAs;
      SizeIsPositive();
      ConsistentView();
      ghost var v, leaked := V(), m.leaked;
      a := m.AllocateSlots(r, numTokens, computed, hits, noPreallocate);
      if a.Allocated? {
        AllocateKeepsData(v, leaked, m.pools, r, computed, hits, a.blocks, SlotClaims(v.pools, computed, |a.blocks|),
                          gpuMem, cpuMem, data, content);
        data := data[r := ContentOf(hits, content)];
        AllocateIsCalm(v, leaked, m.pools, r, computed, a.blocks, SlotClaims(v.pools, computed, |a.blocks|), m.chains);
        StayedCalm(v, leaked, V(), m.pendingOut, m.pendingIn);
        KeyedLength(v.pools.gpu, computed, hits);
        if CeilDiv(numTokens, m.blockSize) <= |a.blocks| {
          PreparedIsDirty(m.pools.gpu, computed, a.blocks, CeilDiv(numTokens, m.blockSize));
        }
      } else if a.NoSpace? || a == Raised(AssertionError) {
        TouchKeepsData(v, leaked, m.pools, computed, hits, gpuMem, cpuMem, data, content);
        TouchIsCalm(v, m.pools, computed);
        StayedCalm(v, leaked, V(), m.pendingOut, m.pendingIn);
      } else {
        RaisedIs(a);
      }
    }

    /** The model writes the blocks of a running request, after the copies have been made. */
    method Compute(r: Id, lo: nat, values: seq<T>)
      requires Inv() && m.pendingIn == [] && m.pendingOut == [] && r in m.tables && r in m.chains && r !in m.cpuTables
      requires r in data
      requires |m.chains[r]| <= lo <= |data[r]| <= lo + |values| <= |m.tables[r]|
      requires forall i :: lo <= i < lo + |values| ==> Ready(m.pools.gpu, cpuMem, m.tables[r], lo, values, i)
      modifies this`gpuMem, this`baseGpu, this`data
      ensures Inv() && data == old(data)[r := old(data)[r][..lo] + values]
    {
      hide KVCacheManager.Valid, Intact, Consistent, Ready, Written;
      ConsistentView();
      TableBelow(r);
      ComputeKeepsDataIff(V(), m.leaked, r, lo, values, gpuMem, cpuMem, data, content);
      WrittenLength(gpuMem, m.tables[r], lo, values);
      gpuMem := Written(gpuMem, m.tables[r], lo, values);
      baseGpu := gpuMem;
      data := data[r := data[r][..lo] + values];
    }

    lemma TableBelow(r: Id)
      requires Inv() && r in m.tables
      ensures Below(m.tables[r], |gpuMem|) && Below(m.tables[r], |m.pools.gpu|) && |gpuMem| == |m.pools.gpu|
    {
      hide Executed, KVCacheManager.Valid;
      m.TableInRange(r);
    }

    /** A further step of a running request, before anything is swapped in. */
    method Append(r: Id, numComputed: nat, numTokens: nat, numAllTokens: nat, keys: seq<Key>) returns (a: Alloc)
      requires Inv() && m.pendingIn == [] && Separate(m.pools) && r in m.tables && r in m.chains && r in data
      requires AppendFits(m.blockSize, |m.tables[r]|, m.chains[r], numComputed, numTokens, numAllTokens, keys, data[r],
                          content)
      modifies this`cpuMem, m`pools, m`tables, m`chains, m`pendingOut, m`leaked
      ensures a == old(Outcome(V(), OpAppend(r, numComputed, numTokens, numAllTokens, keys))) && (Survives(a) ==> Inv())
      ensures a.Allocated? ==>
                var required := CeilDiv(numComputed + numTokens, m.blockSize);
                && m.tables == old(m.tables)[r := old(m.tables)[r] + a.blocks]
                && (required <= |m.tables[r]| || |m.tables[r]| == m.maxBlocks)
                && r in m.chains && |m.chains[r]| == Whole(Min(numComputed, numAllTokens), m.blockSize)
                && (required <= |m.tables[r]| ==>
                      AllDirty(m.pools.gpu, m.tables[r], Whole(Min(numComputed, numAllTokens), m.blockSize), required))
      ensures !a.Allocated? ==> m.tables == old(m.tables)
      ensures Survives(a) && old(QueuedIsCalm()) ==>
                old(CachesOwn(V(), r, Whole(Min(numComputed, numAllTokens), m.blockSize))) ==> QueuedIsCalm()
    {
      hide KVCacheManager.Valid, Intact, Executed, KeepsCpu, Consistent, AppendEffect, Marked, CopiesOut, PlannedMore,
           Whole, CeilDiv, Separate, Copied, Min, Appended, LostOne, AllDirty, Calm, CachesOwn, AsManyMore;
      ConsistentView();
      ghost var v, leaked, outs := V(), m.leaked, m.pendingOut;
      ghost var full := Whole(Min(numComputed, numAllTokens), m.blockSize);
      ghost var required := CeilDiv(numComputed + numTokens, m.blockSize);
      a := m.AppendSlots(r, numComputed, numTokens, numAllTokens, keys);
      if a.Allocated? {
        ConsistentView();
        ghost var w := V();
        AppendedPairs(v, leaked, w, r, a.blocks, keys, full, required, baseGpu, baseCpu, outs, gpuMem, cpuMem, data,
                      content);
        if Calm(v, outs, []) && CachesOwn(v, r, full) {
          AppendIsCalm(v, leaked, w, r, a.blocks, full, outs);
        }
        if required <= |w.tables[r]| {
          MarkedIsDirty(w.pools.gpu, w.tables[r], full, required);
        }
        cpuMem := Appended(gpuMem, cpuMem, w.pools, w.tables[r], |v.chains[r]|, full);
      } else {
        MoreErrors(v.pools, v.tables[r], required, m.preallocateBlocks, m.maxBlocks);
      }
    }

    method SwapOut(r: Id) returns (numFreed: int)
      requires Inv() && m.pendingIn == [] && Separate(m.pools) && r in m.tables && r !in m.cpuTables
      modifies this`cpuMem, m`pools, m`tables, m`cpuTables, m`chains, m`pendingOut
      ensures Inv() && m.tables == old(m.tables) - {r} && r in m.cpuTables
      ensures m.cpuTables == old(m.cpuTables)[r := m.cpuTables[r]] && |m.cpuTables[r]| == |old(m.tables)[r]|
      ensures Separate(m.pools)
    {
      hide KVCacheManager.Valid, Intact, Executed, KeepsCpu, Consistent, DirtyPairs, Separate, Copied, NewlyFree, Sound;
      ConsistentView();
      TableBelow(r);
      ghost var v, leaked, outs := V(), m.leaked, m.pendingOut;
      numFreed := m.SwapOut(r);
      ConsistentView();
      ReleaseKeepsSeparate(v, leaked, V(), r);
      SwapOutKeepsData(v, leaked, m.pools, r, gpuMem, cpuMem, data, content);
      ghost var pairs := DirtyPairs(v.pools.gpu, v.tables[r]);
      ExecuteMoreOut(baseGpu, baseCpu, outs, gpuMem, cpuMem, pairs);
      cpuMem := Copied(gpuMem, cpuMem, pairs);
    }

    /** The return of a request: it has what it had computed, and more if the cache knows
        more of its text. */
    method SwapIn(r: Id, computed: seq<nat>, hits: seq<Key>, numComputed: nat) returns (a: Alloc)
      requires Inv() && r !in m.tables && r in m.cpuTables && r in data && Keyed(m.pools.gpu, computed, hits)
      requires ReturnFits(m.blockSize, |m.cpuTables[r]|, numComputed, hits, data[r], content)
      modifies this`gpuMem, this`data, m`pools, m`tables, m`cpuTables, m`chains, m`pendingIn, m`leaked
      ensures a == old(Outcome(V(), OpSwapIn(r, computed, hits, numComputed))) && (Survives(a) ==> Inv())
      ensures a.Allocated? ==>
                && m.tables == old(m.tables)[r := computed + a.blocks] && m.cpuTables == old(m.cpuTables) - {r}
                && data == old(data)[r := Returned(hits, old(data)[r], content)]
                // what it had and what the cache knows, and nothing else
                && old(data)[r] <= data[r] && ContentOf(hits, content) <= data[r]
                && (data[r] == old(data)[r] || data[r] == ContentOf(hits, content))
                && DirtyIfBegun(m.pools.gpu, m.tables[r], |computed|, m.blockSize, numComputed)
      ensures a.Allocated? && old(Separate(m.pools)) ==>
                var cpu := old(m.cpuTables)[r];
                && |computed| + |a.blocks| == |cpu|
                && (Separate(m.pools) <==>
                      forall l :: 0 <= l < |a.blocks| ==>
                        FindsUnshared(old(m.pools), cpu, |computed|, a.blocks, m.blockSize, numComputed, l))
      ensures !a.Allocated? ==> m.tables == old(m.tables) && m.cpuTables == old(m.cpuTables) && data == old(data)
      ensures Survives(a) && old(QueuedIsCalm()) ==> QueuedIsCalm()
    {
      hide KVCacheManager.Valid, Intact, Executed, KeepsCpu, Consistent, TouchedAs, PlannedSwapIn, Keyed, Copied,
           CopiesIn, BackedBy, Restored, SwapInEffect, Exclusive, NoneLost, SwapInSafe, HasTokens, Returned, NoDup,
           DirtyIfBegun, Calm, KeepsSettled, Separate, Sound, FindsUnshared, Back;
      ConsistentView();
      SizeIsPositive();
      CpuTableBelow(r);
      KeyedLength(m.pools.gpu, computed, hits);
      ghost var v, leaked, ins := V(), m.leaked, m.pendingIn;
      a := m.SwapIn(r, computed, hits, numComputed);
      if a.Allocated? {
        PlannedDistinct(v, leaked, |v.cpuTables[r]|, computed, a);
        EffectLengths(v.pools, m.pools, computed, a.blocks);
        SwapInKeepsData(v, leaked, m.pools, r, computed, hits, a.blocks, m.blockSize, numComputed, gpuMem, cpuMem, data,
                        content);
        ghost var copies := CopiesIn(v.cpuTables[r], a.blocks, |computed|, |a.blocks|, m.blockSize, numComputed);
        ExecuteMoreIn(baseGpu, baseCpu, m.pendingOut, ins, gpuMem, cpuMem, copies);
        gpuMem := Copied(cpuMem, gpuMem, copies);
        ReturnedKeeps(hits, data[r], content);
        data := data[r := Returned(hits, data[r], content)];
        RestoredIsDirtyIfBegun(m.pools.gpu, computed, a.blocks, m.blockSize, numComputed);
        ConsistentView();
        CameBack(v, leaked, V(), r, computed, hits, a.blocks);
        if Separate(v.pools) {
          SwapInSeparateIff(v, leaked, V(), r, computed, hits, a.blocks, m.blockSize, numComputed);
        }
        if Calm(v, m.pendingOut, ins) {
          SwapInIsCalm(v, leaked, V(), r, computed, a.blocks, m.blockSize, numComputed, m.pendingOut, ins);
        }
      } else {
        PlannedErrors(v.pools, |v.cpuTables[r]|, computed, true);
        if a.NoSpace? || a == Raised(AssertionError) {
          TouchKeepsData(v, leaked, m.pools, computed, hits, gpuMem, cpuMem, data, content);
          TouchIsCalm(v, m.pools, computed);
          StayedCalm(v, leaked, V(), m.pendingOut, m.pendingIn);
        }
      }
    }

    /** When an operation may be called.  Besides what the manager's callers see to: copying
        out needs separate CPU blocks behind the dirty blocks, and precedes copying in; and
        only blocks that are marked dirty may be written. */
    predicate Allowed(op: Op<T>)
      reads this, m
    {
      match op
      case OpAllocate(r, _, computed, hits, _) =>
        r !in m.tables && r !in m.cpuTables && Keyed(m.pools.gpu, computed, hits)
      case OpAppend(r, numComputed, numTokens, numAllTokens, keys) =>
        && m.pendingIn == [] && Separate(m.pools) && r in m.tables && r in m.chains && r in data
        && AppendFits(m.blockSize, |m.tables[r]|, m.chains[r], numComputed, numTokens, numAllTokens, keys, data[r],
                      content)
      case OpSwapOut(r) => m.pendingIn == [] && Separate(m.pools) && r in m.tables && r !in m.cpuTables
      case OpSwapIn(r, computed, hits, numComputed) =>
        && r !in m.tables && r in m.cpuTables && r in data && Keyed(m.pools.gpu, computed, hits)
        && ReturnFits(m.blockSize, |m.cpuTables[r]|, numComputed, hits, data[r], content)
      case OpFree(r) => r in m.tables
      case OpExecute(copies) => RightOrder(copies, m.pendingOut, m.pendingIn)
      case OpCompute(r, lo, values) =>
        && m.pendingIn == [] && m.pendingOut == [] && r in m.tables && r in m.chains && r !in m.cpuTables && r in data
        && |m.chains[r]| <= lo <= |data[r]| <= lo + |values| <= |m.tables[r]|
        && AllDirty(m.pools.gpu, m.tables[r], lo, lo + |values|)
    }

    /** The outcome of an operation, from the state before it. */
    ghost function Outcome(v: View, op: Op<T>): Alloc {
      if m.blockSize == 0 then NoSpace
      else
        match op
        case OpAllocate(r, numTokens, computed, hits, noPreallocate) =>
          PlannedSlots(v.pools, numTokens, computed, if noPreallocate then 0 else m.preallocateBlocks, m.maxBlocks,
                       m.blockSize, true)
        case OpAppend(r, numComputed, numTokens, _, _) =>
          if r in v.tables
          then PlannedMore(v.pools, v.tables[r], CeilDiv(numComputed + numTokens, m.blockSize), m.preallocateBlocks,
                           m.maxBlocks)
          else NoSpace
        case OpSwapIn(r, computed, _, _) =>
          if r in v.cpuTables then PlannedSwapIn(v.pools, |v.cpuTables[r]|, computed, true) else NoSpace
        case _ => Allocated([])
    }

    /** One operation on tables and data; the pools follow the manager. */
    ghost predicate Stepped(s: State<T>, op: Op<T>, s': State<T>) {
      var a := Outcome(s.view, op);
      if !a.Allocated?
      then s'.view.tables == s.view.tables && s'.view.cpuTables == s.view.cpuTables && s'.data == s.data
      else
        match op
        case OpAllocate(r, _, computed, hits, _) =>
          && s'.view.tables == s.view.tables[r := computed + a.blocks] && s'.view.cpuTables == s.view.cpuTables
          && s'.data == s.data[r := ContentOf(hits, content)]
        case OpAppend(r, _, _, _, _) =>
          && r in s.view.tables && s'.view.tables == s.view.tables[r := s.view.tables[r] + a.blocks]
          && s'.view.cpuTables == s.view.cpuTables && s'.data == s.data
        case OpSwapOut(r) =>
          && r in s.view.tables && s'.view.tables == s.view.tables - {r} && r in s'.view.cpuTables
          && s'.view.cpuTables == s.view.cpuTables[r := s'.view.cpuTables[r]]
          && |s'.view.cpuTables[r]| == |s.view.tables[r]|
          && s'.data == s.data
        case OpSwapIn(r, computed, hits, _) =>
          && r in s.data && s'.view.tables == s.view.tables[r := computed + a.blocks]
          && s'.view.cpuTables == s.view.cpuTables - {r} && s'.data == s.data[r := Returned(hits, s.data[r], content)]
        case OpFree(r) =>
          s'.view.tables == s.view.tables - {r} && s'.view.cpuTables == s.view.cpuTables && s'.data == s.data
        case OpExecute(_) => s' == s.(outs := [], ins := [])
        case OpCompute(r, lo, values) =>
          r in s.data && lo <= |s.data[r]| && s' == s.(data := s.data[r := s.data[r][..lo] + values])
    }

    /** What keeps the queued copies calm: anything but swapping a request out, freeing one
        while copies are queued, and caching a block that shares its CPU block. */
    ghost predicate KeepsCalm(s: State<T>, op: Op<T>) {
      match op
      case OpAppend(r, numComputed, _, numAllTokens, _) =>
        && m.blockSize > 0 && r in s.view.tables && r in s.view.chains
        && CachesOwn(s.view, r, Whole(Min(numComputed, numAllTokens), m.blockSize))
      case OpSwapOut(_) => false
      case OpFree(_) => s.outs == [] && s.ins == []
      case _ => true
    }

    /** Where dirty blocks may come to share a CPU block. */
    predicate Takes(op: Op<T>) {
      op.OpAllocate? || op.OpAppend? || op.OpSwapIn?
    }

    ghost function Now(): State<T>
      reads this, m
    {
      State(V(), m.pendingOut, m.pendingIn, data)
    }

    lemma SizeIsPositive()
      requires Inv()
      ensures m.blockSize > 0
    {
      hide Intact, Executed, KVCacheManager.Valid;
      m.BlockSizePositive();
    }

    lemma DirtyIsReady(r: Id, lo: nat, values: seq<T>, i: nat)
      requires Inv() && r in m.tables && lo <= i < lo + |values| <= |m.tables[r]|
      requires AllDirty(m.pools.gpu, m.tables[r], lo, lo + |values|)
      ensures Ready(m.pools.gpu, cpuMem, m.tables[r], lo, values, i)
    {
      hide Executed, Agrees, TablesAgree, NoKeys, NotTooLong, Held, TablesHold, SwappedHold, CachedHold, CleanHold;
      assert m.pools.gpu[m.tables[r][i]].status.IsDirty();
    }

    /** Any operation. */
    method Do(op: Op<T>) returns (a: Alloc)
      requires Inv() && Allowed(op)
      modifies this, m
      ensures a == old(Outcome(V(), op)) && (Survives(a) ==> Inv() && Stepped(old(Now()), op, Now()))
      ensures Survives(a) && old(QueuedIsCalm()) && KeepsCalm(old(Now()), op) ==> QueuedIsCalm()
      ensures old(Separate(m.pools)) && !Takes(op) ==> Separate(m.pools)
    {
      hide KVCacheManager.Valid, Intact, Executed, PlannedSlots, PlannedMore, PlannedSwapIn, Keyed, Separate, Ready,
           Below, AllDirty, CeilDiv, HasTokens, DirtyIfBegun;
      SizeIsPositive();
      a := Allocated([]);
      match op {
        case OpAllocate(r, numTokens, computed, hits, noPreallocate) =>
          a := Allocate(r, numTokens, computed, hits, noPreallocate);
        case OpAppend(r, numComputed, numTokens, numAllTokens, keys) =>
          a := Append(r, numComputed, numTokens, numAllTokens, keys);
        case OpSwapOut(r) =>
          var freed := SwapOut(r);
        case OpSwapIn(r, computed, hits, numComputed) =>
          a := SwapIn(r, computed, hits, numComputed);
        case OpFree(r) =>
          Free(r);
        case OpExecute(copies) =>
          Execute(copies);
        case OpCompute(r, lo, values) =>
          forall i | lo <= i < lo + |values|
            ensures Ready(m.pools.gpu, cpuMem, m.tables[r], lo, values, i)
          {
            DirtyIsReady(r, lo, values, i);
          }
          Compute(r, lo, values);
      }
    }

    /** The round trip: a request that is swapped out and, once the copies are made, in again,
        with nothing of it cached, has in its new blocks what it had, unless there are no
        blocks for it. */
    method RoundTrip(r: Id, numComputed: nat) returns (a: Alloc)
      requires Inv() && m.pendingOut == [] && m.pendingIn == [] && Separate(m.pools) && r in m.tables
      requires r !in m.cpuTables && r in data
      requires ReturnFits(m.blockSize, |m.tables[r]|, numComputed, [], data[r], content)
      modifies this, m
      ensures a.Allocated? || a.NoSpace? || a == Raised(ValueError) || a == Raised(NoFreeCpuBlock)
      ensures a.Allocated? ==>
                && Inv() && m.pendingOut == [] && m.pendingIn == [] && data == old(data)
                && m.tables == old(m.tables)[r := a.blocks] && |a.blocks| == |old(m.tables)[r]|
                && Holds(m.tables[r], baseGpu, old(data)[r])
    {
      hide KVCacheManager.Valid, Intact, Executed, Separate, Below, PlannedSwapIn, RightOrder, OutsFirst, HasTokens,
           Calm, Machine.KeepsCalm, Returned;
      SizeIsPositive();
      var b := Do(OpSwapOut(r));
      FirstIsRight(m.pendingOut, m.pendingIn);
      Execute(OutsFirst(m.pendingOut, m.pendingIn));
      NoneKeyed(m.pools.gpu);
      ghost var cpuLength := |m.cpuTables[r]|;
      ghost var p := m.pools;
      ReturnedAlone(data[r], content);
      a := Do(OpSwapIn(r, [], [], numComputed));
      PlannedAnew(p, cpuLength);
      if a.Allocated? {
        assert [] + a.blocks == a.blocks;
        FirstIsRight(m.pendingOut, m.pendingIn);
        Execute(OutsFirst(m.pendingOut, m.pendingIn));
        ReadBack(r);
      }
    }

    /** A whole step of a running request: slots for its tokens, the copies, and then the model
        writes the blocks from the first that is not full on.  They have been marked for it. */
    method Step(r: Id, numComputed: nat, numTokens: nat, numAllTokens: nat, keys: seq<Key>, lo: nat, values: seq<T>)
      returns (a: Alloc)
      requires Inv() && m.pendingOut == [] && m.pendingIn == [] && Separate(m.pools) && r in m.tables && r in m.chains
      requires r in data && r !in m.cpuTables && lo <= |data[r]|
      requires AppendFits(m.blockSize, |m.tables[r]|, m.chains[r], numComputed, numTokens, numAllTokens, keys, data[r],
                          content)
      requires lo == Whole(Min(numComputed, numAllTokens), m.blockSize)
      requires lo + |values| == CeilDiv(numComputed + numTokens, m.blockSize)
      modifies this, m
      ensures a == old(Outcome(V(), OpAppend(r, numComputed, numTokens, numAllTokens, keys))) && (Survives(a) ==> Inv())
      ensures a.Allocated? ==> m.tables == old(m.tables)[r := old(m.tables)[r] + a.blocks]
      ensures a.Allocated? && lo + |values| <= |m.tables[r]| ==>
                data == old(data)[r := old(data)[r][..lo] + values] && Holds(m.tables[r], baseGpu, data[r])
    {
      hide KVCacheManager.Valid, Intact, Executed, Separate, Below, PlannedMore, RightOrder, OutsFirst, Calm,
           Machine.KeepsCalm, Whole, CeilDiv, AllDirty, CachesOwn, AppendFits, Holds, Machine.Outcome;
      FitsSize(r, numComputed, numTokens, numAllTokens, keys);
      a := Append(r, numComputed, numTokens, numAllTokens, keys);
      if a.Allocated? && lo + |values| <= |m.tables[r]| {
        FirstIsRight(m.pendingOut, m.pendingIn);
        Execute(OutsFirst(m.pendingOut, m.pendingIn));
        ComputeAlways(V(), r, lo, values);
        var b := Do(OpCompute(r, lo, values));
        NothingPending();
        ReadBack(r);
      }
    }

    lemma FitsSize(r: Id, numComputed: nat, numTokens: nat, numAllTokens: nat, keys: seq<Key>)
      requires r in m.tables && r in m.chains && r in data
      requires AppendFits(m.blockSize, |m.tables[r]|, m.chains[r], numComputed, numTokens, numAllTokens, keys, data[r],
                          content)
      ensures m.blockSize > 0 && |data[r]| <= CeilDiv(numComputed + numTokens, m.blockSize)
    {
      hide CeilDiv, Whole;
    }

    lemma ComputeAlways(v: View, r: Id, lo: nat, values: seq<T>)
      requires m.blockSize > 0
      ensures Outcome(v, OpCompute(r, lo, values)) == Allocated([])
    {
    }

    /** With nothing queued the memory is what it is. */
    lemma NothingPending()
      requires Inv() && m.pendingOut == [] && m.pendingIn == []
      ensures baseGpu == gpuMem && baseCpu == cpuMem
    {
      hide KVCacheManager.Valid, Intact;
    }

    /** Any sequence of operations, up to the first that is not allowed or raises: what is in
        memory is what has been computed, all along. */
    method Run(ops: seq<Op<T>>) returns (done: nat, crashed: bool, ghost trace: seq<State<T>>)
      requires Inv()
      modifies this, m
      ensures done <= |ops| && |trace| == done + 1 && trace[0] == old(Now())
      ensures forall k :: 0 <= k < done ==>
                Survives(Outcome(trace[k].view, ops[k])) && Stepped(trace[k], ops[k], trace[k + 1])
      ensures if crashed then done < |ops| && !Survives(Outcome(trace[done].view, ops[done]))
              else Inv() && trace[done] == Now() && (done < |ops| ==> !Allowed(ops[done]))
      ensures forall k :: 0 <= k < done && Separate(trace[k].view.pools) && !Takes(ops[k]) ==>
                Separate(trace[k + 1].view.pools)
      ensures !crashed && old(QueuedIsCalm()) && (forall k :: 0 <= k < done ==> KeepsCalm(trace[k], ops[k])) ==>
                QueuedIsCalm()
    {
      hide KVCacheManager.Valid, Intact, Executed, PlannedSlots, PlannedMore, PlannedSwapIn, Keyed, Separate, Below,
           AllDirty, Calm, Machine.Stepped, Machine.Outcome, Machine.KeepsCalm, Machine.Allowed, RightOrder;
      done, crashed, trace := 0, false, [Now()];
      while done < |ops| && Allowed(ops[done])
        invariant done <= |ops| && |trace| == done + 1 && trace[0] == old(Now())
        invariant forall k :: 0 <= k < done ==>
                    Survives(Outcome(trace[k].view, ops[k])) && Stepped(trace[k], ops[k], trace[k + 1])
        invariant Inv() && trace[done] == Now()
        invariant forall k :: 0 <= k < done && Separate(trace[k].view.pools) && !Takes(ops[k]) ==>
                    Separate(trace[k + 1].view.pools)
        invariant old(QueuedIsCalm()) && (forall k :: 0 <= k < done ==> KeepsCalm(trace[k], ops[k])) ==> QueuedIsCalm()
      {
        var a := Do(ops[done]);
        if !Survives(a) {
          crashed := true;
          return;
        }
        trace := trace + [Now()];
        done := done + 1;
      }
    }

    lemma CpuTableBelow(r: Id)
      requires Inv() && r in m.cpuTables
      ensures Below(m.cpuTables[r], |cpuMem|)
    {
      hide Executed, Agrees, TablesAgree, NoKeys, NotTooLong, Held, CleanHold, CachedHold, TablesHold;
      var cs := m.cpuTables[r];
      HeldRemove(m.cpuTables, r);
      forall i | 0 <= i < |cs|
        ensures cs[i] < |cpuMem|
      {
        assert cs[i] in multiset(cs);
        assert cs[i] in Held(m.cpuTables);
      }
    }
  }

  /** `append_slots` is called with the request's tokens: the full blocks hold the data of
      their keys, and what is computed fits. */
  predicate AppendFits<T(==)>(blockSize: nat, blocks: nat, chain: seq<Key>, numComputed: nat, numTokens: nat,
                              numAllTokens: nat, keys: seq<Key>, had: seq<T>, content: Key -> T) {
    && blockSize > 0 && numComputed <= blockSize * blocks
    && chain <= keys && blockSize * |chain| <= Min(numComputed, numAllTokens) < blockSize * (|keys| + 1)
    && var full := Whole(Min(numComputed, numAllTokens), blockSize);
    && full <= |had| <= CeilDiv(numComputed + numTokens, blockSize)
    && forall i :: 0 <= i < |keys| && i < full ==> had[i] == content(keys[i])
  }

  /** `swap_in` is called with the tokens that were computed, and the cached blocks are of the
      request's own text. */
  predicate ReturnFits<T(==)>(blockSize: nat, blocks: nat, numComputed: nat, hits: seq<Key>, had: seq<T>,
                              content: Key -> T) {
    && (forall j :: 0 <= j < blocks ==> (HasTokens(j, blockSize, numComputed) <==> j < |had|))
    && forall i :: 0 <= i < |hits| && i < |had| ==> had[i] == content(hits[i])
  }

  /** The blocks of a table from one place to another are marked as about to be written. */
  predicate AllDirty(gpu: seq<Gpu>, t: seq<nat>, lo: nat, hi: int) {
    hi <= |t| && forall i :: lo <= i < hi ==> t[i] < |gpu| && gpu[t[i]].status.IsDirty()
  }

  lemma MarkedIsDirty(gpu: seq<Gpu>, t: seq<nat>, lo: nat, hi: int)
    requires Marked(gpu, t, lo, hi, HalfDirty) && hi <= |t|
    ensures AllDirty(gpu, t, lo, hi)
  {
  }

  lemma PreparedIsDirty(gpu: seq<Gpu>, computed: seq<nat>, blocks: seq<nat>, n: int)
    requires Prepared(gpu, blocks, n) && n <= |blocks|
    ensures AllDirty(gpu, computed + blocks, |computed|, |computed| + n)
  {
    forall i | |computed| <= i < |computed| + n
      ensures (computed + blocks)[i] < |gpu| && gpu[(computed + blocks)[i]].status.IsDirty()
    {
      assert (computed + blocks)[i] == blocks[i - |computed|];
    }
  }

  /** A block of a resumed request is marked dirty exactly when some of its tokens have been
      computed, and some have not. */
  ghost predicate DirtyIfBegun(gpu: seq<Gpu>, t: seq<nat>, first: nat, blockSize: nat, numComputed: nat) {
    forall i :: first <= i < |t| ==>
      && t[i] < |gpu|
      && (gpu[t[i]].status.IsDirty() <==> HasTokens(i, blockSize, numComputed) && numComputed < (i + 1) * blockSize)
  }

  lemma RestoredIsDirtyIfBegun(gpu: seq<Gpu>, computed: seq<nat>, blocks: seq<nat>, blockSize: nat, numComputed: nat)
    requires Restored(gpu, blocks, |blocks|, |computed|, blockSize, numComputed)
    ensures DirtyIfBegun(gpu, computed + blocks, |computed|, blockSize, numComputed)
  {
    var t := computed + blocks;
    forall i | |computed| <= i < |t|
      ensures t[i] < |gpu|
      ensures gpu[t[i]].status.IsDirty() <==> HasTokens(i, blockSize, numComputed) && numComputed < (i + 1) * blockSize
    {
      var l := i - |computed|;
      assert t[i] == blocks[l];
      assert gpu[blocks[l]].status == RestoredStatus(|computed| + l, blockSize, numComputed);
      assert |computed| + l == i;
    }
  }

  /** So the block with the next token to be computed can be written safely exactly when a
      token in it has been computed before: not when the request stopped between blocks. */
  lemma NextBlockIsDirtyIff(gpu: seq<Gpu>, t: seq<nat>, first: nat, blockSize: nat, numComputed: nat)
    requires DirtyIfBegun(gpu, t, first, blockSize, numComputed) && blockSize > 0
    requires first <= numComputed / blockSize < |t|
    ensures AllDirty(gpu, t, numComputed / blockSize, numComputed / blockSize + 1) <==> numComputed % blockSize != 0
  {
    var i := numComputed / blockSize;
    assert numComputed == i * blockSize + numComputed % blockSize;
    assert (i + 1) * blockSize == i * blockSize + blockSize;
    assert t[i] < |gpu|;
  }

  /** The memory is what it was at the last execution, with the queued copies made. */
  ghost predicate Executed<T>(baseGpu: seq<T>, baseCpu: seq<T>, outs: Pairs, ins: Pairs, gpuMem: seq<T>,
                              cpuMem: seq<T>) {
    && InBounds(outs, |baseGpu|, |baseCpu|) && cpuMem == Copied(baseGpu, baseCpu, outs)
    && InBounds(ins, |cpuMem|, |baseGpu|) && gpuMem == Copied(cpuMem, baseGpu, ins)
  }

  /** Orders of the queued copies that are right on every memory: copies out first, as
      `swap_naive` makes them; two streams that do not meet, each in order, as in `swap`; any
      order at all, as in `swap_block_first`, when the copies do not depend on it. */
  predicate RightOrder(copies: seq<Copy>, outs: Pairs, ins: Pairs) {
    || copies == OutsFirst(outs, ins)
    || (OutsOf(copies) == outs && InsOf(copies) == ins && Apart(outs, ins))
    || (multiset(OutsOf(copies)) == multiset(outs) && multiset(InsOf(copies)) == multiset(ins) && Orderless(outs, ins))
  }

  lemma ExecuteInOrder<T>(baseGpu: seq<T>, baseCpu: seq<T>, outs: Pairs, ins: Pairs, gpuMem: seq<T>, cpuMem: seq<T>,
                          copies: seq<Copy>)
    requires Executed(baseGpu, baseCpu, outs, ins, gpuMem, cpuMem) && RightOrder(copies, outs, ins)
    ensures Within(copies, |baseGpu|, |baseCpu|) && Made(Mem(baseGpu, baseCpu), copies) == Mem(gpuMem, cpuMem)
  {
    hide OutsOf, InsOf, OutsFirst, Apart, Orderless, Made, Within, Copied;
    var m := Mem(baseGpu, baseCpu);
    if copies == OutsFirst(outs, ins) {
      OutsFirstIs(m, outs, ins);
    } else if OutsOf(copies) == outs && InsOf(copies) == ins && Apart(outs, ins) {
      WithinIs(copies, |baseGpu|, |baseCpu|);
      ApartMeans(m, copies);
    } else {
      OrderlessParts(outs, ins);
      AnyOrderMeans(m, copies, outs, ins);
    }
  }

  lemma FirstIsRight(outs: Pairs, ins: Pairs)
    ensures RightOrder(OutsFirst(outs, ins), outs, ins)
  {
    hide OutsFirst, Apart, Orderless, OutsOf, InsOf;
  }

  lemma ReturnedAlone<T>(had: seq<T>, content: Key -> T)
    ensures Returned([], had, content) == had
  {
  }

  /** Without a cached prefix. */
  lemma PlannedAnew(p: Pools, cpuLength: nat)
    ensures var a := PlannedSwapIn(p, cpuLength, [], true);
            && (a.Allocated? ==> |a.blocks| == cpuLength)
            && (a.Allocated? || a.NoSpace? || a == Raised(ValueError) || a == Raised(NoFreeCpuBlock))
  {
    hide Suffices;
    FreeBesidesNone(p.freeGpu);
  }

  lemma OrderlessParts(outs: Pairs, ins: Pairs)
    requires Orderless(outs, ins)
    ensures SingleSource(outs) && SingleSource(ins) && Apart(outs, ins)
  {
  }

  lemma ReturnedKeeps<T>(hits: seq<Key>, had: seq<T>, content: Key -> T)
    requires forall i :: 0 <= i < |hits| && i < |had| ==> had[i] == content(hits[i])
    ensures var now := Returned(hits, had, content);
            had <= now && ContentOf(hits, content) <= now && (now == had || now == ContentOf(hits, content))
  {
  }

  lemma CameBack(v: View, leaked: multiset<nat>, w: View, r: Id, computed: seq<nat>, hits: seq<Key>, blocks: seq<nat>)
    requires Sound(v, leaked) && Sound(w, leaked) && r !in v.tables && r in v.cpuTables
    requires Keyed(v.pools.gpu, computed, hits) && SwapInEffect(v.pools, w.pools, computed, blocks) && NoDup(blocks)
    requires |computed| + |blocks| == |v.cpuTables[r]| && BackedBy(w.pools.gpu, blocks, v.cpuTables[r], |computed|)
    requires w.tables == v.tables[r := computed + blocks] && w.cpuTables == v.cpuTables - {r}
    ensures Back(v, leaked, w, r, computed, hits, blocks)
  {
  }

  lemma StayedCalm(v: View, leaked: multiset<nat>, w: View, outs: Pairs, ins: Pairs)
    requires Consistent(v, leaked) && KeepsSettled(v, w)
    ensures Calm(v, outs, ins) ==> Calm(w, outs, ins)
  {
    hide Consistent, KeepsSettled, Calm;
    if Calm(v, outs, ins) {
      StaysCalm(v, leaked, w, outs, ins);
    }
  }

  lemma ExecuteMoreOut<T>(baseGpu: seq<T>, baseCpu: seq<T>, outs: Pairs, gpuMem: seq<T>, cpuMem: seq<T>, pairs: Pairs)
    requires Executed(baseGpu, baseCpu, outs, [], gpuMem, cpuMem) && InBounds(pairs, |gpuMem|, |cpuMem|)
    ensures Executed(baseGpu, baseCpu, outs + pairs, [], gpuMem, Copied(gpuMem, cpuMem, pairs))
  {
    CopiedInTwo(baseGpu, baseCpu, outs, pairs);
  }

  lemma ExecuteMoreIn<T>(baseGpu: seq<T>, baseCpu: seq<T>, outs: Pairs, ins: Pairs, gpuMem: seq<T>, cpuMem: seq<T>,
                         copies: Pairs)
    requires Executed(baseGpu, baseCpu, outs, ins, gpuMem, cpuMem) && InBounds(copies, |cpuMem|, |gpuMem|)
    ensures Executed(baseGpu, baseCpu, outs, ins + copies, Copied(cpuMem, gpuMem, copies), cpuMem)
  {
    CopiedInTwo(cpuMem, baseGpu, ins, copies);
  }

  /** What is in CPU memory once the newly cached blocks are copied. */
  ghost function Appended<T>(gpuMem: seq<T>, cpuMem: seq<T>, q: Pools, t: seq<nat>, first: nat, full: nat): seq<T>
    requires first <= full <= |t| && Below(t, |q.gpu|)
    requires InBounds(CopiesOut(q.gpu, t, first, full), |gpuMem|, |cpuMem|)
  {
    Copied(gpuMem, cpuMem, CopiesOut(q.gpu, t, first, full))
  }

  lemma AppendedPairs<T>(v: View, leaked: multiset<nat>, w: View, r: Id, blocks: seq<nat>, keys: seq<Key>, full: nat,
                         required: int,
                         baseGpu: seq<T>, baseCpu: seq<T>, outs: Pairs, gpuMem: seq<T>, cpuMem: seq<T>,
                         data: map<Id, seq<T>>, content: Key -> T)
    requires Consistent(v, leaked) && Intact(v, gpuMem, cpuMem, data, content) && Separate(v.pools) && r in v.tables
    requires r in v.chains
    requires r in data && |v.chains[r]| <= full <= |data[r]| <= required && full <= |keys|
    requires w == View(w.pools, v.tables[r := v.tables[r] + blocks], v.cpuTables, v.chains[r := keys[..full]])
    requires Consistent(w, leaked) && AppendEffect(v.pools, w.pools, v.tables[r], blocks, |v.chains[r]|)
    requires Marked(w.pools.gpu, w.tables[r], full, required, HalfDirty)
    requires forall i :: |v.chains[r]| <= i < full ==> data[r][i] == content(keys[i])
    requires Executed(baseGpu, baseCpu, outs, [], gpuMem, cpuMem)
    ensures full <= |w.tables[r]| && Below(w.tables[r], |w.pools.gpu|)
    ensures var pairs := CopiesOut(w.pools.gpu, w.tables[r], |v.chains[r]|, full);
            && InBounds(pairs, |gpuMem|, |cpuMem|)
            && Intact(w, gpuMem, Appended(gpuMem, cpuMem, w.pools, w.tables[r], |v.chains[r]|, full), data, content)
            && Executed(baseGpu, baseCpu, outs + pairs, [], gpuMem,
                        Appended(gpuMem, cpuMem, w.pools, w.tables[r], |v.chains[r]|, full))
  {
    hide Intact, Executed, Consistent, AppendEffect, Marked, CopiesOut, Separate, Copied;
    EffectLength(v.pools, w.pools, v.tables[r], blocks, |v.chains[r]|);
    AppendKeepsData(v, leaked, w, r, blocks, keys, full, required, gpuMem, cpuMem, data, content);
    ExecuteMoreOut(baseGpu, baseCpu, outs, gpuMem, cpuMem, CopiesOut(w.pools.gpu, w.tables[r], |v.chains[r]|, full));
  }

  lemma EffectLength(p: Pools, q: Pools, was: seq<nat>, blocks: seq<nat>, first: nat)
    requires AppendEffect(p, q, was, blocks, first)
    ensures |q.cpuRef| == |p.cpuRef|
  {
  }

  lemma EffectLengths(p: Pools, q: Pools, computed: seq<nat>, blocks: seq<nat>)
    requires SwapInEffect(p, q, computed, blocks)
    ensures |q.cpuRef| == |p.cpuRef|
  {
  }

  lemma RaisedIs(a: Alloc)
    requires !a.Allocated? && !a.NoSpace?
    ensures || a == Raised(ValueError) || a == Raised(AssertionError)
            || a == Raised(IndexError) || a == Raised(NoFreeCpuBlock)
  {
    match a.error
    case ValueError =>
    case AssertionError =>
    case IndexError =>
    case NoFreeCpuBlock =>
  }

  lemma MoreErrors(p: Pools, t: seq<nat>, required: int, inAdvance: nat, maxBlocks: nat)
    ensures var a := PlannedMore(p, t, required, inAdvance, maxBlocks);
            a.Allocated? || a.NoSpace? || a == Raised(AssertionError) || a == Raised(NoFreeCpuBlock)
  {
    hide Suffices, NumNewBlocks;
  }

  lemma PlannedErrors(p: Pools, cpuLength: nat, computed: seq<nat>, enableCaching: bool)
    ensures var a := PlannedSwapIn(p, cpuLength, computed, enableCaching);
            a.Raised? ==> a == Raised(ValueError) || a == Raised(AssertionError) || a == Raised(NoFreeCpuBlock)
  {
    hide FreeBesides, Suffices;
  }

  lemma PlannedDistinct(v: View, leaked: multiset<nat>, cpuLength: nat, computed: seq<nat>, a: Alloc)
    requires Consistent(v, leaked) && a == PlannedSwapIn(v.pools, cpuLength, computed, true) && a.Allocated?
    ensures NoDup(a.blocks) && |computed| + |a.blocks| == cpuLength
  {
    hide Suffices, CpuCounts, TablesAgree, Held, FreeBesides;
    FreeBesidesDistinct(v.pools.freeGpu, computed);
  }

  lemma {:induction false} FreeBesidesDistinct(free: seq<nat>, blocks: seq<nat>)
    requires NoDup(free)
    ensures NoDup(FreeBesides(free, blocks))
  {
    if free != [] {
      FreeBesidesDistinct(free[1..], blocks);
      FreeBesidesIn(free[1..], blocks);
      assert free[0] !in free[1..];
    }
  }
}
