# Verified models of the serving engine

Dafny models of the parts of the repository in which many operations have to agree, with
proofs of what they keep.

**The KV cache of the V1 engine.** The manager pairs a GPU and a CPU block pool, shares blocks between
requests with a common prefix and swaps requests out and in.

- Bookkeeping (`BlockPools`, `PoolLoops`, `CpuDemand`, `CpuBlocks`, `KVCacheManager`). Every operation
  keeps one invariant, `Valid`, on success, on refusal and when it raises, except that a block is lost
  when the CPU pool runs out during an allocation: each reference count equals the number of table
  entries that hold the block, the queue lists exactly the blocks nobody holds, CPU blocks are counted
  through the GPU blocks they back and the swapped-out tables, the cache index lists exactly the blocks
  that carry each key, and a block that is not cached belongs to one request. The outcome of every
  operation, errors included, is a function of the state before it.
- Sharing (`ExtraKeys`, `BlockHash`, `PrefixSharing`, `Serving`, `Server`). Over any run of arrivals,
  admissions, steps, new tokens, preemptions, swaps and departures two requests share a block only behind
  the same text.
- Data (`SwapCopies`, `CopyStreams`, `KVData`, `CalmBatches`, `Separation`, `KVMachine`). With the
  contents of both memories carried along, every request finds what it has computed after any run of
  operations and executed copies, as long as three conditions hold which the manager does not ensure by
  itself: dirty blocks have CPU blocks to themselves, only blocks marked dirty are written, and the
  copies of a batch do not get in each other's way when they are made on two streams. Each is stated
  exactly, with the operations that keep it, and runs that violate the first and the third are given
  (`CachedTwins`, `StreamRaces`; without prefix caching `Incidents`). Copies and computing alternate in
  this model, while the engine makes the copies of a step with the model still computing the step before
  (lines 182-211 of `vllm/v1/engine/core.py`).
- The free queue is verified separately as the doubly linked list it is (`FreeQueue`).

**The scheduler** (`Scheduler`). Steps, updates, arrivals and aborts, for arbitrary answers of the memory
manager and the model: the scheduler's assertions hold over every run, and what becomes of each request
in each step is determined by the answers.

**Text on its way to the client** (`SamplingParams`, `Streaming`, `RequestOutput`): normalised
parameters, stop strings, the characters held back, deltas, and reused output objects.

**Algorithms beside the engine**: the build-time sweep and log reader (`NinjaSweep`, `NinjaLog`,
`Grids`), the scalar-type encodings (`ScalarType`, `Bits`, after section 3.4 of IEEE 754-2019), the
bad-words processor (`BadWords`), batch packing (`BatchPacking`), CUDA-graph padding and maximum length
(`CudaGraphs`, `MaxLen`), the profiler's step plan (`ProfilePlan`) and 2:4 pruning (`Prune24`).

`dafny verify dfyconfig.toml` checks the project.

## What turned out not to hold

Each of these is stated with the exact condition under which the code meets the expectation, and the
less obvious ones with a run that does not.

- A refused allocation leaves references on the cached blocks it touched: exactly when more blocks are
  required than are free besides those (`KVCacheManager.AllocateSlots`, `Incidents.RefusalLeaks`,
  `PrefixSharing.AllFreeIff`). Finishing a swapped-out request leaves its CPU blocks referenced
  (`PrefixSharing.CpuIdleIff`).
- When the CPU pool runs out during an allocation, the GPU block in hand is in no queue and has no
  reference. It runs out exactly when, among the entries of the queue to be taken, those whose CPU block
  is referenced or claimed by an earlier one outnumber the free CPU blocks (`KVCacheManager.TakeBlocks`,
  `Incidents.AllocationLosesBlock`).
- `swap_in` can return a CPU block to the queue while an idle GPU block is mapped to it, after which two
  requests can be given the same CPU block (`KVCacheManager.SwapIn`,
  `CpuBlocks.OneCpuBlockForTwoRequests`).
- Without prefix caching no block is marked as written, so swapping out copies nothing and swapping in
  brings back whatever is in CPU memory (`SwapCopies.NothingQueuedIff`, `Incidents.UncachedSwapLoses`).
- With prefix caching, a block taken from the queue can still be mapped to the CPU block behind a cached
  one and overwrites the copy there (`KVData.SeparateGrownIff`, `CachedTwins.TwinLosesItsCopy`).
- The default kernels copy out and in on two streams at once. A batch with a copy out of a block and a
  copy into it, as when a request is swapped out early and another comes back in the same step, can lose
  the data of the first (`CopyStreams.AnyOrderIff`, `CopyStreams.InterleavingIff`,
  `StreamRaces.StreamsLoseData`); batches queued without swapping out or freeing a request cannot
  (`KVMachines.Machine.Run`).
- After `swap_in` a request that had stopped between blocks writes a block that is not marked dirty and
  is not saved when it is swapped out again (`KVData.ComputeKeepsDataIff`,
  `KVMachines.NextBlockIsDirtyIff`); and it may have no room for its next token
  (`Incidents.ResumedWithoutRoom`).
- Resuming a swapped-out request fails an assertion when the cache knows all its tokens, raises
  `ValueError` when the cached prefix is as long as its table, and fails another assertion, leaving
  references behind, when it is longer (`Serving.ResumeSwapped`, `Incidents.ResumeBehindCache`).
- Images are not part of the chained hash, so equal keys do not mean equal images in earlier blocks
  (`BlockHashes.ImagesAreForgotten`); for text the keys are exact. A key computed when a block is filled
  by generated tokens differs from the one computed from scratch when the block begins where the last
  image ends or two images reach into it (`ExtraKeys.LateIsScratchIff`, `ExtraKeys.LateDiffers`).
- With `min_tokens` set, a stop string can cut off one character that was already sent: exactly when the
  stop string found is a longest one with which the text ended before the last piece
  (`Streaming.CutAndSent`, `Streaming.MinTokensCutsSentText`).
- The spaced spelling of a bad word is not blocked when it has another number of tokens or the same first
  one (`BadWords.SpellingCanBeGeneratedIff`, `BadWords.SpacedSlipsThrough`).
- A second `__post_init__` is not neutral for `n` zero with `best_of`
  (`SamplingParameters.PostInitIdempotentIff`).
- The maximum of an IEEE format with one exponent bit is not one of its values
  (`ScalarTypes.MaxIsExact`).
- The sweep raises a missing key for a target that ends before it starts (`NinjaSweep.Summarize`).
- `run_hf` unpacks requests as triples, which the request class does not support; the model uses the
  fields it means.

## Model

| member | source | states |
|---|---|---|
| `KVCacheManagers.KVCacheManager.constructor` | vllm/v1/core/kv_cache_manager.py:50-92 | a new manager is consistent: nothing is held, GPU block i is mapped to CPU block i, the other CPU blocks are free |
| `KVCacheManagers.KVCacheManager.GetComputedBlocks` | vllm/v1/core/kv_cache_manager.py:105-137 | the longest run of the request's keys, from the first on, that is cached, with a block for each; the next key is carried by no block |
| `KVCacheManagers.KVCacheManager.Release` | vllm/v1/core/kv_cache_manager.py:342-364 | every reference of the table goes back, CPU references too or handed to the caller; blocks nobody else holds join the queue at its end, the last of the table first when caching; they are marked free; all other tables keep theirs; the `ValueError` of `mark_clean` cannot be raised |
| `KVCacheManagers.KVCacheManager.Free` | vllm/v1/core/kv_cache_manager.py:342-364 | keeps the manager consistent; only the table of that request goes, and it may have none; which blocks become free, in which order |
| `KVCacheManagers.KVCacheManager.TouchComputed` | vllm/v1/core/kv_cache_manager.py:495-509 | adds one reference per block, takes exactly the touched blocks off the queue, keeps keys and mappings |
| `KVCacheManagers.KVCacheManager.TakeBlocks` | vllm/v1/core/kv_cache_manager.py:424-460 | hands out the head of the queue in order: distinct blocks that no table held and that carry no key any more; it gets all of them exactly when the free CPU blocks suffice for those entries of the queue whose own CPU block is referenced or claimed by an earlier entry; otherwise the block in hand is lost and the manager is inconsistent |
| `KVCacheManagers.LostBlock` | vllm/v1/core/kv_cache_manager.py:443-450 | a block that left the queue without a reference breaks the bookkeeping |
| `KVCacheManagers.KVCacheManager.AllocateTouched` | vllm/v1/core/kv_cache_manager.py:290-322 | the outcome after touching is the plan on the pools before it: refused, the assertion, the `IndexError`, the lack of CPU blocks, or exactly which blocks: as many as are required and wanted in advance, or all that are free, or all that fit the table |
| `KVCacheManagers.KVCacheManager.AllocateSlots` | vllm/v1/core/kv_cache_manager.py:260-340 | the outcome is a function of the state before: refused exactly when more blocks are required than are free besides the computed ones, and then, and on the failed assertion, one reference per computed block stays behind; the CPU blocks run out exactly when they do not suffice, and only then is the manager inconsistent; the new table has the required blocks and those preallocated, or else the queue is empty or the table at its limit; its marks and the CPU block behind each new block |
| `KVCacheManagers.KVCacheManager.ExtendTable` | vllm/v1/core/kv_cache_manager.py:162-191 | the outcome is the plan on the state before; a table that is extended has room for what is required unless it is at its limit; it grows by what is missing and the blocks preallocated, or else the queue is empty or the table at its limit; on refusal nothing changes |
| `KVCacheManagers.KVCacheManager.CacheFullBlocks` | vllm/v1/core/kv_cache_manager.py:511-579 | each full block gets the key at its place in the request's chain and is queued for copying; no block that has a key already is cached again; the block found for a key stays the one cached first; no count, queue or mapping changes |
| `KVCacheManagers.KVCacheManager.AppendSlots` | vllm/v1/core/kv_cache_manager.py:145-248 | the outcome is the plan on the state before; there is room for the computed and the new tokens unless the table is at its limit; the table grows by what is missing and the blocks preallocated, or else the queue is empty or the table at its limit; exactly the blocks filled by computed tokens are cached, under the request's keys, their copies are queued and the blocks to be written are marked dirty; only blocks of the uncached part change |
| `KVCacheManagers.KVCacheManager.SwapOut` | vllm/v1/core/kv_cache_manager.py:410-422 | dirty blocks are queued for copying, the CPU blocks become the swapped-out table, the number of freed GPU blocks is reported |
| `KVCacheManagers.KVCacheManager.TakeOverCpuBlocks` | vllm/v1/core/kv_cache_manager.py:380-392 | CPU blocks made useless by prefix hits are dropped, every new GPU block is mapped to the CPU block at its place, counts stay exact |
| `KVCacheManagers.KVCacheManager.RestoreBlocks` | vllm/v1/core/kv_cache_manager.py:395-404 | each new block gets the status its computed tokens call for, and is queued for copying exactly when it holds one |
| `KVCacheManagers.KVCacheManager.SwapIn` | vllm/v1/core/kv_cache_manager.py:372-408 | the outcome from the lengths of cached prefix and CPU table, the free blocks and the free CPU blocks: `ValueError` when they are equally long, the assertion when the prefix is longer, refusal, lack of CPU blocks, or as many blocks as it had, backed by its own CPU blocks, with all copies queued; free CPU blocks stay free exactly when none of those given up is mapped elsewhere, from the state before; none is lost |
| `KVCacheManagers.KVCacheManager.TakePendingCopies` | vllm/v1/core/kv_cache_manager.py:94-103 | hands over the queued copies, once |
| `PoolLoops.TouchAll` | vllm/v1/core/kv_cache_manager.py:495-509 | the loop of `_touch`: every count and the cache index stay exact, the queue is left with the other blocks, the CPU blocks behind the touched ones have that many more references, and free CPU blocks stay free |
| `PoolLoops.TakeNew` | vllm/v1/core/kv_cache_manager.py:439-458 | the loop of `_get_new_blocks`: it completes exactly when the free CPU blocks suffice; counts, eviction from the cache index, which CPU block is behind each new block, and free CPU blocks stay free |
| `PoolLoops.ReleaseAll` | vllm/v1/core/kv_cache_manager.py:358-364 | the loop of `free`: counts, queue order, CPU references dropped or kept, free CPU blocks stay free |
| `PoolLoops.FreedAre` | vllm/v1/core/kv_cache_manager.py:358-364 | of distinct blocks exactly those nobody else holds become free |
| `PoolLoops.FreedInOrder` | vllm/v1/core/kv_cache_manager.py:358-364 | they are queued in the order of their release |
| `PoolLoops.DropAll` | vllm/v1/core/kv_cache_manager.py:380-384 | the first loop of `swap_in` drops exactly the given CPU references; which CPU blocks become free; none is lost |
| `PoolLoops.RelocateAll` | vllm/v1/core/kv_cache_manager.py:386-392 | the second loop of `swap_in` remaps exactly the given blocks, moves the references along, and gives up the CPU blocks they had; which of these become free; none is lost |
| `PoolLoops.MarkAll` | vllm/v1/core/kv_cache_utils.py:107-150 | marking blocks without a key changes nothing but their status |
| `BlockPools.TouchCounts` | vllm/v1/core/kv_cache_manager.py:503-509 | one touch adds one reference to the block and to the CPU block behind it and unqueues it if it was free |
| `BlockPools.TouchAgrees` | vllm/v1/core/kv_cache_manager.py:503-509 | a touched cached block is full and clean; the cache index is untouched |
| `BlockPools.TakeCounts` | vllm/v1/core/kv_cache_manager.py:441-456 | a block taken from the queue has one reference and so has its CPU block, replaced if it was still referenced |
| `BlockPools.TakeAgrees` | vllm/v1/core/kv_cache_manager.py:462-476 | a block taken from the queue has lost its key and its entry in the cache index, and no other entry changed |
| `BlockPools.EvictAgrees` | vllm/v1/core/kv_cache_manager.py:462-476 | eviction keeps the index listing exactly the blocks that carry each key |
| `BlockPools.ReleaseCounts` | vllm/v1/core/kv_cache_manager.py:358-364 | one release takes one reference off the block, and off its CPU block or not, and queues it when it was the last |
| `BlockPools.ReleaseAgrees` | vllm/v1/core/kv_cache_manager.py:358-364 | a shared block can always be marked clean; keys and mapping stay |
| `BlockPools.DropCounts` | vllm/v1/core/kv_cache_manager.py:380-384 | dropping one CPU reference keeps every count exact |
| `BlockPools.RelocateCounts` | vllm/v1/core/kv_cache_manager.py:386-392 | moving a block with one reference to another CPU block keeps every count exact |
| `BlockPools.SetKeyAgrees` | vllm/v1/core/kv_cache_manager.py:576-578 | setting a key on a block without one keeps index and counts exact |
| `PrefixSharing.SharedOnlyWhenCached` | vllm/v1/core/kv_cache_manager.py:72-82 | two table entries hold one block only if both are cached under one key |
| `PrefixSharing.SharedMeansSamePrefix` | vllm/v1/core/kv_cache_utils.py:327-351 | prefix caching is sound: a shared block stands at the same place in both tables and both requests have the same tokens up to its end and the same extra keys there |
| `PrefixSharing.TablesAreDistinct` | vllm/v1/core/kv_cache_manager.py:84-88 | no table lists a block twice |
| `PrefixSharing.LookupFollowsTokens` | vllm/v1/core/kv_cache_manager.py:126-137 | a block found by lookup that another request holds belongs to the same tokens |
| `PrefixSharing.TailIsEvictedFirst` | vllm/v1/core/kv_cache_utils.py:161-169 | of the blocks a finished request alone held, those further back in its table are queued and evicted first |
| `PrefixSharing.HeadIsQueuedFirst` | vllm/v1/core/kv_cache_manager.py:352-357 | without caching they are queued in the order of the table |
| `PrefixSharing.FreeAndLive` | vllm/v1/core/kv_cache_manager.py:603-604 | the free queue and the held blocks add up to the pool, with references left by failed allocations counted as held |
| `PrefixSharing.AllFreeIff` | vllm/v1/core/kv_cache_manager.py:282-297 | the whole pool is free exactly when no table lists a block and no failed allocation left a reference: such references are never given back |
| `PrefixSharing.CpuIdleIff` | vllm/v1/core/kv_cache_manager.py:342-364 | no CPU block is referenced exactly when no GPU block is held and no swapped-out table is left: `free` never releases such a table |
| `CpuBlocks.NewPoolsAreExclusive` | vllm/v1/core/kv_cache_manager.py:62-70 | at the start no free CPU block is referenced, mapped or listed twice |
| `CpuBlocks.TouchKeeps` | vllm/v1/core/kv_cache_manager.py:503-509 | one touch keeps the free CPU blocks really free; for the loop see `PoolLoops.TouchAll` |
| `CpuBlocks.ReleaseKeeps` | vllm/v1/core/kv_cache_manager.py:358-364 | so does one release, with and without the CPU reference; for the loop see `PoolLoops.ReleaseAll` |
| `CpuBlocks.TakeKeeps` | vllm/v1/core/kv_cache_manager.py:441-456 | so does allocation, with copy-on-write |
| `CpuBlocks.DropKeepsIff` | vllm/v1/core/kv_cache_manager.py:381-384 | dropping one CPU reference keeps them free exactly when the block does not become free while a GPU block is mapped to it; for the whole of `swap_in` see there |
| `CpuBlocks.RelocateKeepsIff` | vllm/v1/core/kv_cache_manager.py:387-392 | remapping one block keeps them free exactly when the CPU block given up does not become free while another GPU block is mapped to it |
| `CpuBlocks.SwapsFreeAMappedBlock` | vllm/v1/core/kv_cache_manager.py:372-422 | a run of seven steps after which a mapped CPU block is in the free queue |
| `CpuBlocks.OneCpuBlockForTwoRequests` | vllm/v1/core/kv_cache_manager.py:441-456 | four more steps give that CPU block to two running requests at once |
| `CpuBlocks.TakeGetsOwnCpu` | vllm/v1/core/kv_cache_manager.py:447-456 | then a new block has a CPU block to itself: one reference and no other live block mapped to it |
| `CpuBlocks.NewPoolsLoseNone` | vllm/v1/core/kv_cache_manager.py:62-70 | at the start every CPU block is queued, referenced or mapped |
| `CpuBlocks.TouchLosesNone` | vllm/v1/core/kv_cache_manager.py:503-509 | a touch loses no CPU block |
| `CpuBlocks.ReleaseLosesNone` | vllm/v1/core/kv_cache_manager.py:358-364 | nor does a release |
| `CpuBlocks.TakeLosesNone` | vllm/v1/core/kv_cache_manager.py:441-456 | allocation loses none, also when it replaces the CPU block |
| `CpuBlocks.DropLosesNone` | vllm/v1/core/kv_cache_manager.py:381-384 | dropping a CPU reference queues the block when it was the last, so none is lost |
| `CpuBlocks.RelocateLosesNone` | vllm/v1/core/kv_cache_manager.py:387-392 | nor by remapping a block |
| `CpuDemand.ClaimsPrefix` | vllm/v1/core/kv_cache_manager.py:439-458 | which CPU block each block of the queue gets does not depend on how many are taken after it |
| `CpuDemand.ClaimsTouched` | vllm/v1/core/kv_cache_manager.py:447-456 | after touching cached blocks the claims are those computed before it with the touched CPU blocks counted as referenced |
| `SwapCopies.DirtyPairsAre` | vllm/v1/core/kv_cache_manager.py:415-419 | the copies queued by `swap_out` are those of the dirty blocks of the table, each to the CPU block behind it |
| `SwapCopies.NothingQueuedIff` | vllm/v1/core/kv_cache_manager.py:415-419 | so nothing is queued exactly when no block of the table is dirty |
| `SwapCopies.CopiesInAre` | vllm/v1/core/kv_cache_manager.py:395-404 | the copies queued by `swap_in` are those of the new blocks with a computed token, each from the CPU block at its place |
| `SwapCopies.CopiedInTwo` | vllm/v1/swapper/native/swapper.cpp:182-214 | copies queued in several rounds may be made in one |
| `SwapCopies.SwapOutSavesIff` | vllm/v1/core/kv_cache_manager.py:415-419 | the copies out save all dirty blocks of a table exactly when no two of them with different data have one CPU block behind them |
| `KVData.ReleaseKeepsData` | vllm/v1/core/kv_cache_manager.py:342-364 | releasing a table leaves all data in place |
| `KVData.AllocateKeepsData` | vllm/v1/core/kv_cache_manager.py:260-340 | a new table holds the data of its cached prefix, and no other table loses any |
| `KVData.AppendKeepsData` | vllm/v1/core/kv_cache_manager.py:145-248 | with the copies it queues, `append_slots` leaves every cached block with its data behind it and every table as it was |
| `KVData.SwapOutKeepsData` | vllm/v1/core/kv_cache_manager.py:410-422 | with the copies it queues, `swap_out` leaves the swapped-out table with all the request has computed; spare blocks do not matter |
| `KVData.SwapInKeepsData` | vllm/v1/core/kv_cache_manager.py:372-408 | with the copies it queues, `swap_in` gives the request back what it had computed, or its cached prefix where that is longer |
| `KVData.ComputeKeepsDataIff` | vllm/v1/core/kv_cache_manager.py:319-322 | writing blocks keeps everything intact exactly when all of them are marked dirty, or have the new data behind them by coincidence |
| `KVData.SeparateGrownIff` | vllm/v1/core/kv_cache_manager.py:441-456 | after an allocation the blocks to be written have their CPU blocks to themselves exactly when no cached block is mapped to one of those, from the state before |
| `Separation.ReleaseKeepsSeparate` | vllm/v1/core/kv_cache_manager.py:358-364 | releasing a table, to free or to swap it out, keeps the CPU blocks behind dirty blocks separate |
| `Separation.SwapInSeparateIff` | vllm/v1/core/kv_cache_manager.py:380-404 | `swap_in` keeps them separate exactly when the block that is begun and not full finds its CPU block referenced once, besides the references dropped, and behind no cached block, from the state before |
| `Separation.AppendSeparateIff` | vllm/v1/core/kv_cache_manager.py:217-221 | `append_slots` on a table that is long enough keeps them separate exactly when the blocks it leaves dirty had their CPU blocks to themselves |
| `CopyStreams.OutsFirstIs` | vllm/v1/swapper/native/swapper.cpp:170-216 | `swap_naive`: all copies out and then all copies in |
| `CopyStreams.ApartMeans` | vllm/v1/swapper/native/swapper.cpp:123-167 | copies that are apart give that result in every interleaving |
| `CopyStreams.InterleavingIff` | vllm/v1/swapper/native/swapper.cpp:123-167 | two streams, each in order, give that result in every interleaving and on every memory exactly when no copy that counts in the end has its source written by the other list |
| `CopyStreams.AnyOrderIff` | vllm/v1/swapper/native/swapper.cpp:25-121 | batched copies give it in every order and on every memory exactly when, besides, copies to one place have one source |
| `CopyStreams.DisjointIff` | vllm/v1/swapper/native/swapper.cpp:25-167 | then the condition is that no GPU block is both copied out and copied into, and no CPU block both copied to and copied from |
| `CopyStreams.OverwrittenDoesNotCount` | vllm/v1/swapper/native/swapper.cpp:123-167 | two streams can meet without harm: a copy that is overwritten by a later one of its own list |
| `CalmBatches.CalmIsOrderless` | vllm/v1/swapper/native/swapper.cpp:25-121 | while the blocks copied out stay in tables and no swapped-out table lists the CPU blocks they go to, the batch meets this condition |
| `CalmBatches.AppendIsCalm` | vllm/v1/core/kv_cache_manager.py:217-219 | the copies of `append_slots` keep it so if the blocks that are cached have their CPU blocks to themselves |
| `CalmBatches.SwapInIsCalm` | vllm/v1/core/kv_cache_manager.py:395-404 | the copies of `swap_in` keep it so |
| `CalmBatches.SwapInDisjointIff` | vllm/v1/core/kv_cache_manager.py:395-404 | in general they are out of the way exactly when no queued copy out reads one of the new blocks with a computed token or writes the CPU block it is filled from |
| `KVMachines.Machine.constructor` | vllm/v1/core/kv_cache_manager.py:50-92 | before anything is allocated the memory is intact, whatever it holds |
| `KVMachines.Machine.Execute` | vllm/v1/swapper/native/swapper.cpp:25-216 | the queued copies are made in any order in which the kernels may make them, and the memory is then what copying out first would give: always for `swap_naive`, for two streams if the copies are apart, for batched copies if they do not depend on the order |
| `KVMachines.Machine.Free` | vllm/v1/core/kv_cache_manager.py:342-364 | keeps the memory intact and the CPU blocks behind dirty blocks separate |
| `KVMachines.Machine.Allocate` | vllm/v1/core/kv_cache_manager.py:260-340 | keeps the memory intact unless it raises for lack of CPU blocks or with an `IndexError`; the blocks to be written are marked dirty; a calm batch stays calm |
| `KVMachines.Machine.Append` | vllm/v1/core/kv_cache_manager.py:145-248 | keeps the memory intact unless the CPU blocks run out, given separate CPU blocks behind dirty ones; the blocks to be written are marked dirty; a calm batch stays calm if the blocks that are cached have their CPU blocks to themselves |
| `KVMachines.Machine.SwapOut` | vllm/v1/core/kv_cache_manager.py:410-422 | keeps the memory intact, given separate CPU blocks behind dirty ones, and these separate |
| `KVMachines.Machine.SwapIn` | vllm/v1/core/kv_cache_manager.py:372-408 | keeps the memory intact unless the CPU blocks run out; the request has all it had computed and all the cache knows; a block of the returned table is marked dirty exactly when it is begun and not full; CPU blocks stay separate exactly when that block finds its CPU block unshared; a calm batch stays calm |
| `KVMachines.Machine.Compute` | vllm/v1/core/kv_cache_manager.py:319-322 | writing blocks that are marked dirty keeps the memory intact |
| `KVMachines.Machine.ReadBack` | vllm/v1/core/kv_cache_manager.py:372-422 | what a running request has computed is in its blocks |
| `KVMachines.Machine.Do` | vllm/v1/core/kv_cache_manager.py:145-422 | any operation: its outcome from the state before, what it does to tables, queued copies and data, and that the memory stays intact |
| `KVMachines.Machine.RoundTrip` | vllm/v1/core/kv_cache_manager.py:372-422 | a request that is swapped out and, once the copies are made, in again, with nothing of it cached, has in its new blocks what it had, unless there are no blocks for it |
| `KVMachines.Machine.Step` | vllm/v1/core/kv_cache_manager.py:145-248 | a whole step of a running request: slots, copies and the model's writes, whose blocks have been marked for it; afterwards its blocks hold its data |
| `KVMachines.Machine.Run` | vllm/v1/core/kv_cache_manager.py:145-422 | over any sequence of operations, up to the first that is not allowed or raises: every request finds what it has computed, running or swapped out, however often it and others are swapped; separate CPU blocks can be lost only where blocks are taken; and a batch queued without swapping out or freeing a request may be made in any order |
| `KVMachines.Machine.CalmExecutes` | vllm/v1/swapper/native/swapper.cpp:25-121 | a calm batch may be made in any order |
| `KVMachines.NextBlockIsDirtyIff` | vllm/v1/core/kv_cache_manager.py:395-404 | after `swap_in` the block of the next token is marked dirty exactly when a token in it was computed before: a request that stopped between blocks writes one that is not |
| `Incidents.RefusalLeaks` | vllm/v1/core/kv_cache_manager.py:282-297 | a run in which a refused request leaves a reference behind: nobody has a table, and a block is not free |
| `Incidents.AllocationLosesBlock` | vllm/v1/core/kv_cache_manager.py:441-456 | a run in which the CPU pool is empty when a referenced CPU block has to be replaced, and the GPU block is lost |
| `Incidents.UncachedSwapLoses` | vllm/v1/core/kv_cache_manager.py:313-322 | a run without prefix caching: no block is ever marked dirty, nothing is copied out, and the request gets back what happened to be in CPU memory |
| `Incidents.ResumeBehindCache` | vllm/v1/core/kv_cache_manager.py:372-378 | a run in which a request is overtaken while swapped out: resuming raises `ValueError`, or fails the assertion and leaves references behind |
| `Incidents.ResumedWithoutRoom` | vllm/v1/core/scheduler.py:263-279 | a run in which a resumed request has no room for its next token |
| `CachedTwins.TwinLosesItsCopy` | vllm/v1/core/kv_cache_manager.py:386-392 | a run with prefix caching in which a request, on its way out, overwrites the CPU copy of a cached block |
| `StreamRaces.StreamsLoseData` | vllm/v1/core/scheduler.py:369-378 | a run in which a request is swapped out early and another is swapped in to the same block in the same step: if the copy in is made first, the first one has lost its data |
| `FreeQueues.FreeKVCacheBlockQueue.constructor` | vllm/v1/core/kv_cache_utils.py:174-184 | threads the pool in order: the links spell the sequence of blocks |
| `FreeQueues.FreeKVCacheBlockQueue.PopLeft` | vllm/v1/core/kv_cache_utils.py:186-197 | removes and returns the first block, or reports the empty queue |
| `FreeQueues.FreeKVCacheBlockQueue.Remove` | vllm/v1/core/kv_cache_utils.py:199-221 | removes a block anywhere in the queue by relinking its neighbours; the others keep their order; the block ends up loose |
| `FreeQueues.FreeKVCacheBlockQueue.Append` | vllm/v1/core/kv_cache_utils.py:223-241 | adds a block at the end, also to an empty queue |
| `FreeQueues.FreeKVCacheBlockQueue.GetAllFreeBlocks` | vllm/v1/core/kv_cache_utils.py:243-254 | following the links lists exactly the queue, and the counter is its length |
| `FreeQueues.Unlink` | vllm/v1/core/kv_cache_utils.py:205-210 | linking the neighbours to each other changes no other link |
| `FreeQueues.Detach` | vllm/v1/core/kv_cache_utils.py:219-220 | without the removed block the links spell the remaining sequence |
| `BlockHashes.ChainedHashInjective` | vllm/v1/core/kv_cache_utils.py:327-351 | without hash collisions the chained hash determines all tokens up to its block |
| `BlockHashes.KeysEqualIff` | vllm/v1/core/kv_cache_utils.py:327-351 | two keys are equal exactly when the token prefixes and the extra keys of the last blocks are |
| `BlockHashes.ChainKeysEqualIff` | vllm/v1/core/kv_cache_utils.py:327-351 | wherever they stand: equal keys mean the same place, the same tokens before it and the same extra keys |
| `ExtraKeys.GenerateExtraKeys` | vllm/v1/core/kv_cache_utils.py:257-324 | the loop computes the collected entries of a block and the image to go on with; an error exactly when positions and hashes differ in number |
| `ExtraKeys.EntryIs` | vllm/v1/core/kv_cache_utils.py:309-310 | an entry names the image and how far into it the block begins |
| `ExtraKeys.CollectedFacts` | vllm/v1/core/kv_cache_utils.py:293-322 | where the search goes on: at the first image that is not finished at the end of the block |
| `ExtraKeys.ScratchIsOverlap` | vllm/v1/core/kv_cache_utils.py:377-395 | hashing from scratch, a block gets exactly the images that overlap it, in order, each with the place it has reached |
| `ExtraKeys.LateIsScratchIff` | vllm/v1/core/kv_cache_utils.py:283-291 | for a block past all images, starting from the last image gives the extra keys that hashing from scratch gives, exactly unless the block begins where the last image ends, or two images reach into it |
| `ExtraKeys.LateDiffers` | vllm/v1/core/kv_cache_utils.py:283-291 | an image that fills block 0: block 1 has no extra keys from scratch, and one when the keys are extended |
| `BlockHashes.HashRequestTokens` | vllm/v1/core/kv_cache_utils.py:354-395 | the keys of all full blocks and of no partial one, each chained over everything before it, with the extra keys of its images; fails exactly when positions and hashes differ in number |
| `BlockHashes.ExtendKeys` | vllm/v1/core/kv_cache_manager.py:533-579 | extends the chain from the key of the last cached block; the blocks beyond those hashed at first get extra keys as the code looks them up, from the last image on |
| `BlockHashes.ExtendedIsScratchIff` | vllm/v1/core/kv_cache_manager.py:553-569 | the extended chain is the one hashing from scratch gives exactly when, for every block added, the two ways to look up extra keys agree |
| `BlockHashes.ChainGrows` | vllm/v1/core/kv_cache_utils.py:354-395 | more tokens only add keys |
| `BlockHashes.ChainsAgree` | vllm/v1/core/kv_cache_utils.py:354-395 | two chains of one request agree as far as both go |
| `BlockHashes.ImagesAreForgotten` | vllm/v1/core/kv_cache_utils.py:350-351 | for the same tokens two keys are equal exactly when the extra keys of that one block are: differing images in earlier blocks do not show |
| `Serving.CachedPrefix` | vllm/v1/core/scheduler.py:222-228 | the request's keys, and the cached prefix up to the first key that no block carries; nothing of either without caching |
| `Serving.LookUp` | vllm/v1/core/scheduler.py:222-248 | at least one token and at most the budget is left to compute, also when everything is cached |
| `Serving.AdmitWaiting` | vllm/v1/core/scheduler.py:222-262 | the outcome is the plan for the new tokens behind the whole cached prefix, or all but its last block when the cache knows every token, from the state before; a request that fits the model is admitted with room for both, or refused, or the CPU blocks run out; on refusal the references to its prefix stay behind; cached keys keep following the tokens of their requests |
| `Serving.AdvanceRunning` | vllm/v1/core/scheduler.py:151-155 | the outcome is the plan from the state before; there is room for the new tokens unless the table is at its limit; the full blocks are cached under the request's own keys, which are extended exactly then, and sharing stays sound |
| `Serving.ResumeSwapped` | vllm/v1/core/scheduler.py:263-279 | exactly when each outcome occurs: the assertion that tokens are left fails when the cache knows all tokens; `ValueError` when the cached prefix is as long as the swapped-out table, the assertion in the manager when it is longer, refusal for lack of blocks, an exception for lack of CPU blocks; otherwise it resumes with as many blocks as it had |
| `Servers.Server.constructor` | vllm/v1/core/scheduler.py:49-78 | a server without requests is sound |
| `Servers.Server.DoArrive` | vllm/v1/core/scheduler.py:870-873 | a request arrives |
| `Servers.Server.DoAdmit` | vllm/v1/core/scheduler.py:222-307 | a waiting request is given the tokens that are left behind its cached prefix, or as many as the budget allows, and has room for them, or stays as it is, only if more blocks are needed behind that prefix than are free; it crashes only if the plan behind that prefix raises or the request is too long for a table, and one that fits the model only for lack of CPU blocks |
| `Servers.Server.DoAdvance` | vllm/v1/core/scheduler.py:136-206 | a running request is given the tokens that are left, or as many as the budget allows, and has room for them, or nothing changes, only if more blocks are needed than are free; it crashes only if the plan raises or the table is at its limit |
| `Servers.Server.DoToken` | vllm/v1/core/scheduler.py:782-842 | a generated token joins the text, and all keys stay right |
| `Servers.Server.DoSwapOut` | vllm/v1/core/scheduler.py:172-174 | a request is swapped out with what it has computed |
| `Servers.Server.DoPreempt` | vllm/v1/core/scheduler.py:165-171 | a request is preempted and starts again |
| `Servers.Server.DoResume` | vllm/v1/core/scheduler.py:263-307 | a swapped-out request goes on from where it was, or from its cached prefix if that is longer, with the tokens that are left or as many as the budget allows, or stays as it is, only if more blocks are needed behind that prefix than are free; it crashes only if the cache knows all its tokens or as many blocks as it had, the CPU blocks do not suffice, or there is no room for its tokens |
| `Servers.Server.DoFinish` | vllm/v1/core/scheduler.py:904-909 | a request leaves, its swapped-out table stays |
| `Servers.Server.Do` | vllm/v1/core/scheduler.py:384-547 | any command: its effect, or nothing where it does not apply, or a crash for one of the reasons above |
| `Servers.Server.Run` | vllm/v1/core/scheduler.py:384-909 | over any sequence of commands, up to a crash for one of the reasons above: the manager is consistent, every request has room for what it has computed, all keys follow the texts, and each command has had its effect |
| `Servers.Server.SharingIsSound` | vllm/v1/core/kv_cache_utils.py:327-351 | at every state of every run a block shared by two requests stands at the same place, behind the same text |
| `Schedulers.Scheduler.constructor` | vllm/v1/core/scheduler.py:49-78 | a scheduler without requests is ready, for every configuration whose token budget is at least the number of running requests, which `vllm/config.py` checks |
| `Schedulers.Scheduler.AddRequest` | vllm/v1/core/scheduler.py:870-873 | a new request waits at the end of the queue |
| `Schedulers.Scheduler.FinishRequests` | vllm/v1/core/scheduler.py:875-902 | exactly the aborted requests leave both lists, and the others stay schedulable |
| `Schedulers.Scheduler.SwapOutEarly` | vllm/v1/core/scheduler.py:310-381 | the chosen requests wait, swapped out, behind the re-sorted queue; the others keep their order and stay schedulable; none is lost |
| `Schedulers.RemainingAre` | vllm/v1/core/scheduler.py:369-378 | the requests not swapped out are those at the other places, in order |
| `Schedulers.Scheduler.MakeRoom` | vllm/v1/core/scheduler.py:151-185 | one victim for each refused call and then a granted one, or the request is its own victim; the victims, taken from the end, wait in that order, with nothing computed when they are to be recomputed, and otherwise swapped out with what they have |
| `Schedulers.Scheduler.ScheduleRunning` | vllm/v1/core/scheduler.py:456-496 | the manager is asked once for each running request and as many go on, from the front, as it grants; the others wait, each by its place preempted or swapped out; the assertions on partial requests and the budget hold; only the last request may be partial, and then the budget is used up |
| `Schedulers.VictimsAre` | vllm/v1/core/scheduler.py:157-176 | each preempted request by its place: id and tokens stay; recomputing loses what is computed, swapping keeps it |
| `Schedulers.RunKeepsIds` | vllm/v1/core/scheduler.py:456-496 | preemption loses no request |
| `Schedulers.AllGrantedIff` | vllm/v1/core/scheduler.py:456-496 | all running requests go on exactly when every call is granted |
| `Schedulers.Scheduler.ScheduleWaiting` | vllm/v1/core/scheduler.py:500-538 | the waiting requests are considered in order: those admitted run, a swapped-out one from the larger of its own count and the cached one; only new ones are passed over and put back while CPU blocks are scarce; it stops exactly for a partial request, a full list, an empty budget or a refusal; none is lost |
| `Schedulers.WaitDoneMeans` | vllm/v1/core/scheduler.py:500-538 | every request that has started was waiting and goes on from where it should; only new requests are passed over, and only while CPU blocks are scarce |
| `Schedulers.Scheduler.Schedule` | vllm/v1/core/scheduler.py:384-547 | the three phases one after the other, and the four assertions at the end; waiting requests are considered unless one was preempted, or in any case after early swapping |
| `Schedulers.NobodyPreempted` | vllm/v1/core/scheduler.py:456-490 | without early swapping the running requests all go on exactly when the manager grants every call |
| `Schedulers.Scheduler.Update` | vllm/v1/core/scheduler.py:782-842 | the requests that do not stop, each advanced by its tokens and by one new token when it has none left; all but the last then have exactly one token to compute |
| `Schedulers.Scheduler.Handle` | vllm/v1/core/scheduler.py:384-902 | an arrival, an abort or a step with its update, each leaving the scheduler ready |
| `Schedulers.Scheduler.Serve` | vllm/v1/core/scheduler.py:384-902 | over any run of arrivals, aborts and steps, whatever memory and model answer, the scheduler is ready before each of them, so that no assertion fails and no step exceeds the budget, and each step has the effect that the answers determine |
| `Schedulers.GivenPush` | vllm/v1/core/scheduler.py:495-496 | a request may follow only requests that were given all they need |
| `Schedulers.WithoutIds` | vllm/v1/core/scheduler.py:890-902 | an aborted request is in neither list, and every other as often as before |
| `Schedulers.WithoutAre` | vllm/v1/core/scheduler.py:890-902 | the requests that are not aborted keep their order |
| `NinjaSweep.Sort` | tools/report_build_time_ninja.py:219-220 | a permutation ordered by time, starts before stops |
| `NinjaSweep.CollectEvents` | tools/report_build_time_ninja.py:203-216 | two events per target, the extent of the log and the processor time |
| `NinjaSweep.Sweep` | tools/report_build_time_ninja.py:225-252 | fails exactly when some target stops before it starts; otherwise each weight equals the sum over elementary intervals of length divided by concurrency, the table ends empty and the total is the busy time |
| `NinjaSweep.Summarize` | tools/report_build_time_ninja.py:194-258 | the same from an unsorted list, on every grid of the end points; each weight lies between duration divided by the number of targets and duration; total plus idle time is the length of the log |
| `NinjaSweep.WeightBounds` | tools/report_build_time_ninja.py:81-86 | the assertion in `WeightedDuration` cannot fail, also for empty intervals |
| `NinjaSweep.WeightsAddUp` | tools/report_build_time_ninja.py:244-250 | conservation: the weights of all targets add up to the busy time |
| `NinjaSweep.BusyAndIdle` | tools/report_build_time_ninja.py:254-258 | busy and idle time add up to the whole stretch; there is no idle time exactly when every gap is spanned |
| `NinjaSweep.GridIndependent` | tools/report_build_time_ninja.py:234-251 | the reference weights do not depend on how the end points are listed |
| `NinjaLog.ReadTargets` | tools/report_build_time_ninja.py:101-144 | the result groups by command hash exactly the well-formed lines from the last reset on, or all lines; the header and number errors |
| `NinjaLog.AddRecord` | tools/report_build_time_ninja.py:120-143 | one line: both resets, then joining its target or starting a new one |
| `NinjaLog.CutIsConsistent` | tools/report_build_time_ninja.py:120-139 | from the last reset on end times never decrease and lines of one hash agree on both times |
| `NinjaLog.CutIsReset` | tools/report_build_time_ninja.py:120-139 | the line at a reset did not fit the build before it |
| `NinjaLog.ConflictTest` | tools/report_build_time_ninja.py:120-139 | comparing with the last end time and with the target of the hash detects every conflict |
| `ScalarTypes.OrAndAdvance` | vllm/scalar_type.py:142-147 | masking and or-ing places a field above the bits in use |
| `ScalarTypes.Id` | vllm/scalar_type.py:132-159 | the six fields side by side |
| `ScalarTypes.PackedField` | vllm/scalar_type.py:142-147 | every field can be read back from its bit range |
| `ScalarTypes.IdFields` | vllm/scalar_type.py:149-159 | the fields occupy disjoint ranges of 58 bits |
| `ScalarTypes.IdRoundTrip` | csrc/core/scalar_type.hpp:142-157 | decoding the id gives the type back exactly when its fields fit their widths, with the bias sign-extended |
| `ScalarTypes.IdInjective` | vllm/scalar_type.py:132-159 | types whose fields fit have the same id exactly when they are equal |
| `ScalarTypes.MaxBitsDecode` | vllm/scalar_type.py:67-104 | for at most 52 mantissa bits and at most 11 exponent bits, or 10 when not IEEE, the bits are those of a finite normal double with the value of the largest exponent and mantissa |
| `ScalarTypes.MaxExistsIff` | vllm/scalar_type.py:67-85 | the assertions hold exactly for those formats, which are those whose largest exponent a double has |
| `ScalarTypes.BuiltIs` | vllm/scalar_type.py:270-294 | which formats the constructors build |
| `ScalarTypes.MaxIsExact` | vllm/scalar_type.py:67-130 | for the same formats that double is at least every finite code, `_raw_min` decodes to its negation, and it is attained exactly when the largest finite code is normal |
| `ScalarTypes.IntegerRange` | vllm/scalar_type.py:106-130 | `max` exists exactly for at most 63 bits besides the sign, `min` also for every unsigned type; they are the least and the greatest stored values, bias included |
| `BadWords.NoBadWordsLogitsProcessor.constructor` | vllm/logits_process.py:52-54 | starts without a cached bias |
| `BadWords.NoBadWordsLogitsProcessor.CheckTokenIdsBounds` | vllm/logits_process.py:105-119 | collects exactly the ids outside the vocabulary |
| `BadWords.NoBadWordsLogitsProcessor.InitWordBias` | vllm/logits_process.py:88-103 | the cached bias is the one computed from the word list, or the invalid ids are reported and nothing is cached |
| `BadWords.NoBadWordsLogitsProcessor.LastTokenBias` | vllm/logits_process.py:65-82 | a token is masked exactly when it completes a longer word; an empty word is an index error |
| `BadWords.NoBadWordsLogitsProcessor.Call` | vllm/logits_process.py:56-86 | a logit becomes minus infinity exactly when the token would complete a bad word and is unchanged otherwise; the input array is left alone and the cache stays as it is |
| `BadWords.SelectableIff` | vllm/logits_process.py:56-86 | a token can be chosen exactly when it could before and completes no bad word |
| `BadWords.OccurrenceIsCompletion` | vllm/logits_process.py:65-80 | a word occurs exactly when its last token completed it |
| `BadWords.RunIsSafe` | vllm/logits_process.py:56-103 | over every run from no tokens, no bad word ever appears |
| `BadWords.SafeIsRun` | vllm/logits_process.py:56-103 | and every sequence without bad words can still be generated |
| `BadWords.BuildWordList` | vllm/logits_process.py:17-45 | the list holds exactly the spellings of the words; it fails exactly when a spelling encodes to nothing |
| `BadWords.LStripIs` | vllm/logits_process.py:28-28 | stripping drops the spaces at the beginning and nothing else |
| `BadWords.BadWordsNeverGenerated` | vllm/logits_process.py:17-103 | from the words to the tokens: the plain spelling of a bad word is never generated, nor the spaced one where the code lists it, that is when it has as many tokens and another first one |
| `BadWords.SpellingCanBeGeneratedIff` | vllm/logits_process.py:28-45 | any spelling can be generated exactly when no listed word occurs in it |
| `BadWords.SpacedSlipsThrough` | vllm/logits_process.py:28-45 | a word of two tokens whose spaced spelling is one token, which is generated |
| `BatchPacking.RunHf` | benchmarks/benchmark_throughput.py:309-345 | the batches are the request list in order with nothing left over, none empty, none extensible, all within both limits |
| `BatchPacking.GreedyStaysAhead` | benchmarks/benchmark_throughput.py:312-325 | after any number of batches at least as many requests are taken as by any other split |
| `BatchPacking.GreedyIsOptimal` | benchmarks/benchmark_throughput.py:307-347 | no split into consecutive feasible batches uses fewer batches |
| `BatchPacking.KeptFit` | benchmarks/benchmark_throughput.py:150-155 | every kept request fits a batch of its own |
| `BatchPacking.SampleRequests` | benchmarks/benchmark_throughput.py:92-163 | the first kept requests, in order; every one fits on its own |
| `CudaGraphs.CompilationConfig.InitWithCudagraphSizes` | vllm/config.py:2959-3002 | for sizes in any order and with repeats, the table maps every batch size to the least size, or zero, that is at least it |
| `CudaGraphs.FillTable` | vllm/config.py:2990-3002 | the nested loops fill the table from the sorted sizes |
| `CudaGraphs.CompilationConfig.PadForCudagraph` | vllm/config.py:3093-3098 | a lookup, with an index error exactly beyond the largest size |
| `CudaGraphs.PadBetween` | vllm/config.py:2994-3000 | everything strictly between two neighbouring sizes pads to the larger one |
| `CudaGraphs.PaddingLaws` | vllm/config.py:3093-3098 | padding is unique, monotone, idempotent, and wastes less than the gap to the next smaller size |
| `CudaGraphs.PaddingExistsIff` | vllm/config.py:3093-3098 | a batch size can be padded exactly up to the largest size |
| `CudaGraphs.DefaultSizes` | vllm/config.py:3241-3266 | the default sizes cover the number of sequences, up to 8192, with less than 8 to spare; they are 1, 2, 4 and the multiples of 8, and those sizes pad to themselves |
| `CudaGraphs.DefaultWaste` | vllm/config.py:3241-3266 | with default sizes less than 8 slots are wasted |
| `MaxLen.GetMinSlidingWindow` | vllm/config.py:2426-2431 | the least window of any layer; an error without one |
| `MaxLen.SmallestKey` | vllm/config.py:2325-2332 | the least of the lengths in the config |
| `MaxLen.Choose` | vllm/config.py:2391-2423 | when a user length is accepted, that it is then returned unchanged, and which error is raised otherwise |
| `MaxLen.ScaleByRope` | vllm/config.py:2359-2386 | three rope types leave the limit alone; the others multiply it by the factor, or by one; `yarn` starts from the original limit, and fails without it; none is allowed with the sliding window disabled |
| `MaxLen.DeriveLimit` | vllm/config.py:2325-2344 | the least limit of the config and, if the sliding window is disabled, of the windows; an error exactly when no layer has one |
| `MaxLen.DerivedUnique` | vllm/config.py:2325-2344 | config and window determine the limit |
| `MaxLen.GetAndVerifyMaxLen` | vllm/config.py:2299-2423 | every outcome from the derived limit, errors included: a config without limits takes any user length, rope scaling acts on that limit, and an error of it comes before the user length is looked at; with the sliding window disabled and no override no result exceeds the smallest window |
| `ProfilePlan.ComputeRequestOutputLengths` | examples/offline_profile.py:71-112 | the output lengths reproduce the steps exactly when the steps form a plan |
| `ProfilePlan.DetermineRequestsPerStep` | examples/offline_profile.py:115-162 | both modes make plans; the assertion fails exactly when neither mode is given |
| `ProfilePlan.GenerateOutputLengths` | examples/offline_profile.py:224-227 | every length as often as the dictionary says |
| `ProfilePlan.PlanAndAssign` | examples/offline_profile.py:71-162 | the functions undo each other: step i runs as many requests as have an output length of at least i + 1, and exactly the batch size is handed out |
| `RequestOutputs.SequenceGroup.Fresh` | vllm/outputs.py:197-319 | the content of a newly built output, with the prompt, log probabilities and positions it must have |
| `RequestOutputs.SequenceGroup.Cached` | vllm/outputs.py:197-319 | the reusing path returns the group's object with that same content; objects keep their positions and are reused as far as they go |
| `RequestOutputs.SequenceGroup.Run` | vllm/outputs.py:197-319 | over any run of calls, with sequences coming and going, both paths agree at every return |
| `RequestOutputs.Collect` | vllm/outputs.py:220-255 | every object at position i has index i, so the assertion in the loop holds; objects are distinct |
| `RequestOutputs.CompletionOutput.Refresh` | vllm/outputs.py:253-269 | everything but the index is overwritten |
| `RequestOutputs.DeltaLogprobs` | vllm/outputs.py:230-234 | in delta mode the log probabilities are the last ones, one for each new token |
| `SamplingParameters.PostInitIdempotentIff` | vllm/sampling_params.py:284-347 | a second `__post_init__` never raises and changes nothing exactly unless `best_of` replaced an `n` of zero |
| `SamplingParameters.PostInitTwiceDiffers` | vllm/sampling_params.py:291-298 | such parameters, on which the second pass overwrites the recorded number |
| `SamplingParameters.PostInitMeans` | vllm/sampling_params.py:284-347 | greedy exactly at temperature zero, then one sequence and no restriction; `best_of`, stop strings and the number of characters held back |
| `SamplingParameters.AcceptedIff` | vllm/sampling_params.py:284-411 | exactly which parameters are accepted |
| `SamplingParameters.PostInitFields` | vllm/sampling_params.py:284-347 | what becomes of every field |
| `SamplingParameters.PostInitCovers` | vllm/sampling_params.py:346-347 | the stop tokens are among all stop tokens |
| `SamplingParameters.SamplingParams.UpdateFromGenerationConfig` | vllm/sampling_params.py:414-440 | which tokens are added to which set; the stop tokens stay among all stop tokens |
| `SamplingParameters.SamplingParams.Updates` | vllm/sampling_params.py:414-440 | so they do through any run of updates, and none is lost |
| `Streaming.CheckStopStrings` | vllm/engine/output_processor/stop_checker.py:92-128 | the first stop string in list order that occurs anew, at its first new occurrence; where the text is to be cut, with -1 exactly when the stop string is kept and ends the text; no match exactly when no stop string occurs anew |
| `Streaming.SearchIsComplete` | vllm/engine/output_processor/stop_checker.py:110-116 | searching the new part only misses nothing while the old text is free of stop strings |
| `Streaming.HoldBack` | vllm/sampling_params.py:333-336 | a cut at a stop string reaches text already sent exactly when the longest stop string ended the old text |
| `Streaming.BufferIsNormalised` | vllm/sampling_params.py:333-336 | the characters held back are those the normalised parameters say |
| `Streaming.HoldBackStopFree` | vllm/sampling_params.py:333-336 | so never while the old text is free of stop strings |
| `Streaming.CutAndSent` | vllm/sequence.py:477-494 | a cut reaches what was sent exactly when the stop string found is a longest one with which the old text ended, and then by one character |
| `Streaming.MinTokensCutsSentText` | vllm/engine/output_processor/stop_checker.py:41-44 | a run with `min_tokens` that meets this condition |
| `Streaming.Sequence.TextDelta` | vllm/sequence.py:477-494 | the pieces add up to the text that may be shown |
| `Streaming.Sequence.TokenDelta` | vllm/sequence.py:496-518 | no token is lost or repeated |
| `Streaming.Sequence.Step` | vllm/engine/output_processor/stop_checker.py:33-79 | the sequence stops exactly when it has `min_tokens` tokens and a stop string occurs anew, and the text is cut where it begins |
| `Streaming.Sequence.Feed` | vllm/sequence.py:477-518 | one round: the pieces sent add up to the text without the characters held back or, at the end, to the final text |
| `Streaming.Stream` | vllm/sequence.py:477-518 | over a whole run, up to the first piece that stops it or to the end: text and tokens are those of the pieces taken, the tokens sent are the tokens generated, and the text sent is the final text, save for one character exactly in the case above; with `min_tokens` at most one it stops exactly with the first stop string, and nothing sent is taken back |
| `Streaming.StopsAtFirst` | vllm/engine/output_processor/stop_checker.py:69-79 | searching from the first token on, the run stops with the first stop string |
| `Prune24.TopTwo` | benchmarks/cutlass_benchmarks/utils.py:45-46 | the two entries of largest magnitude |
| `Prune24.PruneTo24` | benchmarks/cutlass_benchmarks/utils.py:40-60 | keeps those two in each group and zeroes the others; a shape error exactly when there are no whole groups |
| `Prune24.PrunedIsSparse` | benchmarks/cutlass_benchmarks/utils.py:40-60 | at most two non-zeros in each group |
| `Prune24.PruningIsBest` | benchmarks/cutlass_benchmarks/utils.py:40-60 | no tensor with that pattern has a smaller total absolute error |
| `Prune24.PruningIdempotent` | benchmarks/cutlass_benchmarks/utils.py:40-60 | pruning twice is pruning once, however ties are broken |
| `Prune24.Int8IsNearest` | benchmarks/cutlass_benchmarks/utils.py:15-16 | clamping and rounding picks the nearest representable value, and the even one of two equally near ones |
| `Prune24.QuantisingKeepsPattern` | benchmarks/cutlass_benchmarks/utils.py:68-71 | quantising afterwards keeps the pattern |

## Left out

- The mode with `prefix_cache_fix` off, the sliding window in the manager and `can_hold_all_requests`.
- Lookahead scheduling, encoder inputs and the encoder cache, `reschedule`, and the time stamps that
  order early swapping: the order of the waiting requests after sorting, and which requests are swapped
  out early, are arbitrary in `Scheduler`.
- Two unfinished requests with the same id in `Scheduler`: aborting removes both there, and the source
  the later one.
- The hash function itself: it is a parameter, assumed free of collisions where that is needed.
- KVCacheManagers.KVCacheManager.constructor: asks for at least one GPU block and as many CPU blocks;
  with fewer the source raises while filling the queue.
- KVCacheManagers.KVCacheManager.AllocateSlots: is stated for a request without a table, as the scheduler
  calls it; the source would overwrite an existing one.
- KVCacheManagers.KVCacheManager.AppendSlots: is stated for computed tokens that fit the table and the
  keys of the request, as the scheduler guarantees.
- KVCacheManagers.KVCacheManager.SwapOut: is stated for a request that has a table and is not swapped out
  already.
- KVCacheManagers.KVCacheManager.SwapIn: takes the keys of the computed blocks as a parameter, since the
  request object is not part of the manager.
- In the manager the queues are sequences of block ids and a block is the record at its id; the linked
  list behind the queue is `FreeQueues`, and its blocks carry only their links there.
- FreeQueues.FreeKVCacheBlockQueue.Remove: is stated for a block in the queue, and compares blocks by
  identity where the source compares all fields.
- Servers.Server.Run: a step computes the tokens of one request at a time, and a crash ends the run, as an
  exception ends the engine; a command that does not apply changes nothing.
- Schedulers.Scheduler.constructor: the configuration check itself (lines 1494-1498 of `vllm/config.py`) is its
  precondition.
- Schedulers.Scheduler.Schedule: assumes that an admitted request has tokens left, which
  `Serving.AdmitWaiting` proves and `Serving.ResumeSwapped` qualifies.
- Copies while the model is computing: in `KVMachines` blocks are written when no copy is queued. Within a
  batch a block is copied as a whole; the layers of a block are copied one by one in `swap_naive`, each as in
  the model.
- KVMachines.Machine.Append: copies out are queued before copies in, as `schedule` does within a step, and
  dirty blocks have separate CPU blocks; which operations keep that see `Separation`, where it fails see
  `CachedTwins`.
- KVMachines.Machine.SwapOut: the same conditions.
- KVMachines.Machine.Compute: writes whole blocks; which tokens of a block hold data is not modelled.
- ExtraKeys.LateIsScratchIff: is stated for images that do not overlap and for blocks past all of them, as the
  source assumes where it extends keys.
- Floating-point rounding: times, logits, scores and lengths are reals, with infinities and NaN as cases
  of their own for logits; so the epsilon in `WeightedDuration` is not needed.
- Splitting and parsing of log lines, printing and the grouping by file extension.
- NinjaSweep.Summarize: is stated for distinct targets; its length law for times that are not negative, as
  the search for the earliest start demands.
- `has_nans`, `is_ieee_754` and the names of scalar types, and float formats outside IEEE 754 that have
  infinities, which no predefined type is.
- BadWords.NoBadWordsLogitsProcessor.Call: is stated for logits of one vocabulary size; tokenizers are a
  parameter of `BadWords.BuildWordList`.
- Loading, shuffling and tokenizing of the data set in `sample_requests`, and the model call in `run_hf`.
- The fixed capture sizes of the V1 engine; the derived sizes and any sizes given in the config are covered.
- ProfilePlan.PlanAndAssign: is stated for the inputs on which the planner does not fail its assertion and
  plans at least one step.
- RequestOutputs.SequenceGroup.Cached: token lists handed over by a sequence are values, so a list shared
  with the caller is not modelled; assembling of groups, metrics and time stamps are left out.
- Streaming.Sequence.Step: models the search for stop strings with the stop string left out of the output;
  end tokens, stop tokens and length limits are left out.
- In `SamplingParams` the type checks of `n` and `top_k`, guided decoding and logits processors; the
  normalisation is a function on the fields, since it runs as part of construction.
- MaxLen.GetAndVerifyMaxLen: scaled lengths are reals, truncated at the end.
- Multiplication by the mask in `prune_to_2_4` on infinities and NaN.
- HTTP, workers, kernels, model execution, benchmarks and examples otherwise.
