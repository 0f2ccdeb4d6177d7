# Verification of the streaming volume viewer's core

This project models the parts of the viewer that hold state between frames and between threads, and proves what they
keep. `dafny verify dfyconfig.toml` checks all of it.

| files | what they model |
|---|---|
| `PipelineSpec`, `PipelineInv`, `PipelineSteps`, `PipelineRuns`, `PipelineFlow`, `PipelineLives`, `PipelinePins`, `PipelinePolite`, `PipelineCap`, `PinLapses`, `ChunkFetchPipeline` | the fetch, decode and publish pipeline over the RAM cache: atomic steps, their invariants, all runs, the way of the bricks and of each key through them, who keeps the pins, runs that break what does not hold, the class itself |
| `LruSpec`, `LruRuns`, `LruCache` | the byte-budgeted recency cache with pins, and what any run of calls leaves in it |
| `BrickKeys` | brick identities and their packed 64-bit form |
| `PageTable`, `PageSeeding`, `SeedSteps`, `SlotPool`, `PoolRuns`, `PoolStories`, `PoolLapses`, `PageTextures`, `GpuBrickCache` | the sparse page tables, the brick pool, their textures and the shader's lookup, and the class that owns them |
| `UploadRing`, `RingOrder`, `GpuUploader` | the ring of upload slots shared by callers, assembly workers, the render thread and the GPU |
| `Planner`, `PlannerVoxels` | the working set of a view: octree descent over the frustum, and what its boxes mean in voxels |
| `Flood`, `SeedFairness`, `Accumulators`, `BucketQueue`, `Snic` | the supervoxel flood |
| `Manifest`, `ManifestWriter` | the per-brick statistics file: parser, lookups, parallel scan and writer |
| `Grid`, `Numbers`, `Options` | row-major indexing, small arithmetic, optional values |

## How the model is built

* Code that changes fields in place is a class or a method with loops, proved equal to a step function on values
  (`PipelineSpec`, `LruSpec`, `PageTable`, `SlotPool`, `UploadRing`); the lemmas are about those steps and about all runs
  made of them. Every critical section is one atomic step. What runs outside a lock is split where another thread can
  come in between: a decode job inserts into the cache and publishes in two steps, an unpin reaches the cache and the
  pipeline in two steps, a drain of the ring is one step per fence, one to select and one to finish.
* A decoded brick is a value, its key, whether it is fill, and its bytes; two reads that decode alike give the same brick.
* The store answers each read once with data, not found, cancelled or failed. Decoding succeeds, finds fill, or fails.
  Fences signal oldest first. Worker scheduling is an arbitrary choice at each step.
* Textures are functions from texels to values, and uploads are copies of blocks into them.
* Distances, priorities, planes, intensities and cube roots are reals or parameters. The flood is proved for every distance
  function, the pool sizes for every value of the cube root.

## Premises

* Pipeline: the caps and the largest chunk size are as the constructor leaves them, at least one; key fields fit the widths
  of the packed form; priorities are ordered (no NaN); a brick is unpinned once for every time it was drained. Submits may
  ask for anything. Only that published bricks stay pinned asks more: exactly that every event spares the pins
  (`PipelinePins.Spares`), for which it is enough that no submit wants a brick which is published and not yet given back and
  that other users of the cache neither replace nor unpin the pipeline's bricks (`PipelinePolite.Polite`).
* GPU cache: all keys share one volume id and lie in the grid, the bordered edge is from 3 to 1024, there is at least one
  directory entry, and the textures are created once. Where a statement needs a tile for every directory entry
  (`Roomy`; the pool is built that large for up to 65536 of them) it says so; all others hold for an exhausted pool too.
* Upload ring: it is initialised before the first brick is queued, and never released.
* Flood: at most 2^34 voxels, so that cluster numbers fit the 32-bit labels. The queue's 32-bit indices are modelled.
* Manifest writer: the data of a level has fewer than 2^64 bytes, and the grid's first axis plus the number of workers is
  at most 2^32, so that the shared 32-bit slice counter does not wrap. The thread pool has at least one worker.

## Where the code and its documentation differ

The model follows the code.

* `src/data/ChunkFetchPipeline.h:48-49` says that a stale heap entry is pushed again with its new priority when it is
  popped. `src/data/ChunkFetchPipeline.cpp:98-101` drops it; the new entry was pushed at submit. `HeapOk` shows that this
  is enough.
* `maxQueuedDecodes` is only looked at when a fetch starts, so decodes can exceed it: `PipelineCap.DecodeCapIff`, with the
  run `PipelineCap.Overshoot`.
* `src/data/ChunkFetchPipeline.h:61-62` leaves it to the caller to skip bricks that are already there, and the caller looks
  in the cache before it submits, without a common lock (`src/app/ViewerWindow.cpp:1173-1187`). If a brick is read again
  while it is published and not given back, its pin can be lost in three ways: both lives are published, and giving back the
  first leaves the second without a pin (`PinLapses.UnpinTakesTwin`); the first is given back while the second is in the
  cache and not yet published (`PinLapses.UnpinBeforePublish`); or the second read decodes to another brick, which takes the
  entry of the first (`PinLapses.InsertDropsFirst`). All pins that are owed are kept exactly if every event satisfies
  `PipelinePins.Spares`: an insert replaces a held brick only by itself; a release finds two pins on the entry, or leaves no
  brick of its key held or inserted; other users replace an owed brick only by itself, pinned, and unpin one only where its
  entry has two pins (`PipelinePins.PinsIff` for one event, `PipelinePins.AlwaysPinnedIff` for runs). Nothing else about the
  pipeline depends on it.
* `src/data/Snic3D.h:22` promises exact connectivity. The queue keeps voxel indices in 32 bits
  (`src/data/Snic3D.cpp:11-14`), so the labelled voxels are the reachable ones exactly if no reachable voxel has an index
  from 2^32 on: `Snic.Snic3d`, with `Snic.SeedsAreCut`.
* `src/data/Snic3D.h:18-22` says that the globally closest pair is committed first. The queue tells distances apart by 1/128
  and takes the newest pair of a bucket (`BucketQueues.NearerBeforeFarther`). So a seed can go to another cluster, and its
  own then stays empty: exactly if a seed is offered, while it is open, at a distance below 1/128 (`Snic.Snic3d`;
  `Snic.EverySeedItsOwn` if no distance is).
* `src/core/LruCache.h:37` promises the stored value back from an insert. An unpinned insert can evict itself
  (`LruSpec.InsertKeepsIff`); then the value of a pinned entry comes back, or the front of an empty list is read
  (`LruSpec.InsertLoses`, where the model returns no value).
* A brick that has a slot is not always found through its page entry. Marking it empty breaks the agreement
  (`SlotPool.MarkEmptyFoundIff`, with the run `PoolLapses.MarkLoses`), and so does giving it a slot when the tile pool is
  used up, because the entry is then not written (`SlotPool.UploadFoundIff`, with the run `PoolLapses.ExhaustionLoses`).
  `PoolRuns.AlwaysFoundIff` shows that there is no third way.
* The manifest's level count is one byte; 256 levels or more are cut off: `ManifestWriters.WrittenReadsBack`, with
  `ManifestWriters.CountLoses`. A level whose size wraps in 64 bits parses, but not all of its bricks can then be looked up:
  `Manifests.ReadableIff`, with the file `Manifests.WrapLoses`.
* `src/data/VolumeManifest.h:53` calls a brick empty if it is absent or uniform fill. For 16-bit volumes the scan keeps only
  the high byte of each voxel and the file only the low byte of the fill value (`src/tools/svmanifest_main.cpp:58-59`; what
  the conversion gives above 255 is taken to be that byte). A chunk of nothing but the fill value is recorded as empty
  exactly if the value's two bytes are equal (`ManifestWriters.UniformIsEmptyIff`), and a chunk recorded as empty can hold
  other values (`ManifestWriters.EmptyIsUniformIff`, with `ManifestWriters.HighBytesMislead`). What is true of both widths is
  the statement in the 8-bit domain: `ManifestWriters.EmptyIff`.

## Model

| member | source | states |
|---|---|---|
| `PipelineRuns.EveryRunIsSafe` | src/data/ChunkFetchPipeline.cpp:52-249 | in every state of every run, with submits of any bricks, store answers, decodes, drains, unpins and anything other users do to the cache interleaved at will: a queued key has a fetch or decode under way or the ready bytes at their cap; the three bounds hold; ready bytes are the sum over bricks not given back; reads and decode jobs match tracked keys one to one |
| `PipelineFlow.EveryBrickHandedOver` | src/data/ChunkFetchPipeline.cpp:228-241 | over every run from the start: what the drains return, one after the other, followed by what is still ready, are the bricks published, in order |
| `PipelineFlow.FirstInFirstOut` | src/data/ChunkFetchPipeline.cpp:228-241 | the same from any state, after the bricks that were ready in it |
| `PipelineFlow.ReadyAreHeld` | src/data/ChunkFetchPipeline.cpp:228-249 | in every state of every run each ready brick is among those published and not released, at least as often as it is ready |
| `PipelineFlow.BytesBalance` | src/data/ChunkFetchPipeline.cpp:230-249 | over every run the ready bytes change by the chunk sizes, level by level, of the bricks published less those of the bricks given back |
| `PipelineLives.KeyMoves` | src/data/ChunkFetchPipeline.cpp:52-249 | every event moves every key only as it may: a cancelled or failed read ends its key, data or nothing found leads to a decode, a decode ends it either way, a waiting key is fetched if one of the last two submits wanted it and dropped only if neither did, and a key that is out stays out unless a submit wants it |
| `PipelineLives.GoneStaysGone` | src/data/ChunkFetchPipeline.cpp:52-249 | once a key is out no read of it is answered and nothing is decoded, inserted or published for it in any run that does not want it again |
| `PipelinePins.PinsIff` | src/data/ChunkFetchPipeline.cpp:52-249 | where every brick that is published and unreleased, or inserted and about to be published, is in the cache, pinned, any enabled event keeps it so if and only if it spares the pins: a condition on the cache entry and the key lists just before it |
| `PipelinePins.AlwaysPinnedIff` | src/data/ChunkFetchPipeline.cpp:52-249 | all through a run every such brick stays pinned if and only if every event spares the pins |
| `PipelinePins.EverySparingRunKeepsPins` | src/data/ChunkFetchPipeline.cpp:228-249 | after every run of such events from the start each published, unreleased brick is in the cache, pinned |
| `PipelinePins.ReleasesIff` | src/data/ChunkFetchPipeline.cpp:243-249 | unpinning a brick takes no other owed pin if and only if its entry has two pins or no further brick of its key is held or inserted |
| `PipelinePins.InsertsIff` | src/data/ChunkFetchPipeline.cpp:228-234 | a pinned insert drops no owed brick if and only if every held brick of its key is the one inserted |
| `PipelinePolite.EveryPoliteRunKeepsPins` | src/data/ChunkFetchPipeline.cpp:228-249 | if no submit wants a brick that is still held and others leave its pin alone, each published, unreleased brick is in the cache, pinned, and not tracked again, in every state of the run |
| `PipelinePolite.PoliteRunSpares` | src/data/ChunkFetchPipeline.cpp:52-249 | such runs spare every pin, and no held key ever gets a second life |
| `PinLapses.UnpinTakesTwin` | src/data/ChunkFetchPipeline.cpp:52-73 | if one chunk leaves room under the byte cap, a run, built step by step, in which a brick is published twice and giving back one life leaves the other held and unpinned |
| `PinLapses.UnpinBeforePublish` | src/data/ChunkFetchPipeline.cpp:228-249 | ... in which the first life is given back between the second's insert and its publishing, so that it is published without a pin |
| `PinLapses.InsertDropsFirst` | src/data/ChunkFetchPipeline.cpp:228-236 | ... in which the second read decodes to another brick and the held one leaves the cache before anything is given back |
| `PipelineRuns.NothingWantedIsLost` | src/data/ChunkFetchPipeline.cpp:52-236 | from a submit to the next each of its keys is tracked, unless it was published, its read came back cancelled or failed, or its decode failed |
| `PipelineRuns.RunKeeps` | src/data/ChunkFetchPipeline.cpp:52-249 | from any state that satisfies the system invariant every run leads to one that does |
| `PipelineRuns.EventKeeps` | src/data/ChunkFetchPipeline.cpp:52-249 | each single event keeps the system invariant, whatever ran before |
| `PipelineRuns.RunsDry` | src/data/ChunkFetchPipeline.cpp:86-249 | without new submits the fetches and decodes that complete in a run number at most 3 per heap entry, 2 per fetch and 1 per decode of the start |
| `PipelineSteps.QuietMeansDone` | src/data/ChunkFetchPipeline.cpp:86-126 | once all reads are answered, all decodes finished and all bricks given back, no key is left waiting |
| `PipelineSteps.CompletionsBurn` | src/data/ChunkFetchPipeline.cpp:128-249 | each completion lowers the fuel strictly, and neither drain nor unpin raises it |
| `PipelineInv.PumpKeeps` | src/data/ChunkFetchPipeline.cpp:86-126 | pumping keeps heap, life, epoch, byte and bound invariants and stops only at a cap or with nothing queued |
| `PipelineInv.PumpOrder` | src/data/ChunkFetchPipeline.cpp:86-126 | the reads a pump issues come in falling current priority and, at equal priority, in the order in which the keys were first queued with it, and each goes before every key that stays queued, despite stale and duplicate heap entries |
| `PipelineInv.NoInversion` | src/data/ChunkFetchPipeline.cpp:91-107 | a key that is issued is queued, no queued key has a higher current priority, and those of equal priority were given it later |
| `PipelineInv.NewReadsLogged` | src/data/ChunkFetchPipeline.cpp:107-124 | a pump adds its reads to those issued before and alters none of them |
| `PipelineInv.PumpEffect` | src/data/ChunkFetchPipeline.cpp:86-126 | a pump either leaves a key as it was, starts its fetch or drops it, and touches nothing but queued keys |
| `PipelineInv.IssueBounds` | src/data/ChunkFetchPipeline.cpp:88-110 | a fetch started below the caps stays within the real bounds: fetches up to their cap, fetches plus decodes below the sum of both caps, and bytes below their cap plus that many chunks |
| `PipelineInv.DropKeeps` | src/data/ChunkFetchPipeline.cpp:95-101 | an entry that does not carry a queued key's current priority can be thrown away |
| `PipelineInv.InitInv` | src/data/ChunkFetchPipeline.h:105-116 | the empty pipeline satisfies the invariants |
| `PipelineSteps.SubmitKeeps` | src/data/ChunkFetchPipeline.cpp:52-84 | a submit keeps the invariants |
| `PipelineSteps.EnqueueAllKey` | src/data/ChunkFetchPipeline.cpp:59-73 | after a submit each wanted key is tracked with the new epoch; a new or still queued one has the priority asked for last; the others are untouched |
| `PipelineSteps.SubmitStops` | src/data/ChunkFetchPipeline.cpp:75-81 | of the fetches already flying a submit stops exactly those it does not want, and otherwise leaves them as they were |
| `PipelineSteps.WantedIffPacked` | src/data/ChunkFetchPipeline.cpp:56-60 | comparing packed keys is comparing keys |
| `PipelineSteps.ReadsAreRecent` | src/data/ChunkFetchPipeline.cpp:102-110 | a pump reads only keys wanted by one of the last two submits, and drops only keys wanted by neither |
| `PipelineSteps.CallbackFindsKey` | src/data/ChunkFetchPipeline.cpp:128-145 | a store callback always finds its key tracked and fetching, and there is only one per key |
| `PipelineSteps.JobFindsKey` | src/data/ChunkFetchPipeline.cpp:160-171 | a decode job always finds its key tracked and decoding, and there is only one per key |
| `PipelineSteps.FetchDoneKeeps` | src/data/ChunkFetchPipeline.cpp:128-171 | every outcome of a read keeps the invariants, no-stall included, although the success path does not pump |
| `PipelineSteps.DecodeFailedKeeps` | src/data/ChunkFetchPipeline.cpp:216-225 | a failed decode keeps the invariants |
| `PipelineSteps.PublishKeeps` | src/data/ChunkFetchPipeline.cpp:228-236 | publishing keeps the invariants: the decode's share of the bound turns into its bytes |
| `PipelineSteps.UnpinExact` | src/data/ChunkFetchPipeline.cpp:243-249 | the saturating subtraction of a given-back brick's bytes never saturates |
| `PipelineSteps.UnpinKeeps` | src/data/ChunkFetchPipeline.cpp:243-249 | giving a brick back keeps the invariants |
| `PipelineCap.DecodeCapIff` | src/data/ChunkFetchPipeline.cpp:88-90 | the number of queued decodes stays within its cap in every run if and only if one fetch at a time is allowed |
| `PipelineCap.Overshoot` | src/data/ChunkFetchPipeline.cpp:88-162 | with room for two fetches there is a run, built step by step, that queues one decode more than the cap |
| `ChunkFetchPipelines.ChunkFetchPipeline.Pump` | src/data/ChunkFetchPipeline.cpp:86-126 | the loop over the mutable heap, map and counters refines the specified pump |
| `ChunkFetchPipelines.ChunkFetchPipeline.Submit` | src/data/ChunkFetchPipeline.cpp:52-84 | refines the specified submit |
| `ChunkFetchPipelines.ChunkFetchPipeline.CancelUnwanted` | src/data/ChunkFetchPipeline.cpp:75-81 | the walk over the tracked map, in any order, stops exactly the specified fetches |
| `ChunkFetchPipelines.ChunkFetchPipeline.OnFetchDone` | src/data/ChunkFetchPipeline.cpp:128-171 | refines the specified completion for all four outcomes, and remembers which reads found nothing |
| `ChunkFetchPipelines.ChunkFetchPipeline.DecodeAndPublish` | src/data/ChunkFetchPipeline.cpp:173-236 | a broken chunk only gives up its place; any other is in the cache with one pin, is appended to the ready bricks and adds its bytes, with no payload if it is fill, as it is after a read that found nothing; its key is out |
| `ChunkFetchPipelines.ChunkFetchPipeline.DrainReady` | src/data/ChunkFetchPipeline.cpp:238-241 | hands over all ready bricks in order and keeps none |
| `ChunkFetchPipelines.ChunkFetchPipeline.Unpin` | src/data/ChunkFetchPipeline.cpp:243-249 | takes one pin off in the cache and gives the bytes back to the pipeline |
| `ChunkFetchPipelines.RamCache.InsertPinned` | src/data/RamCache.h:31-35 | the brick is at the front with one pin and is what comes back |
| `LruSpec.EvictIsShortest` | src/core/LruCache.h:83-94 | eviction removes the shortest run of unpinned entries, oldest first, that meets the budget, or all of them |
| `LruSpec.PinnedSurvive` | src/core/LruCache.h:83-94 | no pinned entry is evicted and nothing new appears |
| `LruSpec.BudgetOrPinned` | src/core/LruCache.h:83-94 | afterwards the budget is met or only pinned entries are left |
| `LruSpec.InsertKeepsIff` | src/core/LruCache.h:38-51 | an insert keeps its own entry, and then returns it, if and only if it is pinned or fits the budget beside the pinned rest |
| `LruSpec.InsertLoses` | src/core/LruCache.h:38-51 | an unpinned entry larger than the budget is gone at once; a pinned entry's value comes back, or none |
| `LruRuns.EveryRunIsTold` | src/core/LruCache.h:24-63 | after any run of lookups, inserts, pins and unpins on a new cache the list is in order of last use, and each entry has the value and bytes last inserted under its key and the pins counted since |
| `LruRuns.KeysKept` | src/core/LruCache.h:24-63 | only inserts change which keys are there; an insert adds at most its own key, and takes none if all fit the budget |
| `LruRuns.LeastRecentGoes` | src/core/LruCache.h:38-51 | whatever an insert pushes out was used less recently than every unpinned entry it leaves |
| `LruRuns.OldestGoFirst` | src/core/LruCache.h:83-94 | an unpinned entry stays only if everything more recent does |
| `LruRuns.NoMoreThanNeeded` | src/core/LruCache.h:83-94 | if anything is pushed out, some entry that went would not have fitted beside what is left |
| `LruCaches.LruCache.EvictOld` | src/core/LruCache.h:83-94 | the backward walk with its running byte count refines the specified eviction |
| `LruCaches.LruCache.Insert` | src/core/LruCache.h:38-51 | replaces an entry of that key, links the new one in front, evicts, and returns the front |
| `LruCaches.LruCache.Get` | src/core/LruCache.h:24-30 | moves a hit to the front and returns its value; a miss changes nothing |
| `LruCaches.LruCache.Pin` | src/core/LruCache.h:53-56 | one pin more on that entry, order and bytes unchanged |
| `LruCaches.LruCache.Unpin` | src/core/LruCache.h:58-62 | one pin less, never below none |
| `BrickKeys.PackedInjective` | src/data/BrickKey.h:24-30 | keys pack alike if and only if they agree after masking, so keys whose fields fit pack alike only when equal |
| `BrickKeys.UnpackPacked` | src/data/BrickKey.h:21-30 | every field can be recovered from the packed form, which fits 63 bits |
| `BrickKeys.PackedIs` | src/data/BrickKey.h:24-30 | x, y and z in 17 bits each, then four bits of level, then the volume |
| `BrickKeys.OrIsSum` | src/data/BrickKey.h:25-29 | on machine words the shifted fields do not overlap |
| `PageTable.WriteEntryExact` | src/render/GpuBrickCache.cpp:181-199 | against the flat view of the table a write changes that brick's entry and occupancy and no other brick's of any level, also when it turns an all-empty tile into a real one; with no tile left it changes nothing |
| `PageTable.AllocateReads` | src/render/GpuBrickCache.cpp:164-179 | giving a directory entry a tile changes what no brick reads |
| `PageTable.AllocateKeeps` | src/render/GpuBrickCache.cpp:164-179 | no two directory entries ever share a tile, and every tile in use has one |
| `PageTable.PlacesDistinct` | src/render/GpuBrickCache.h:106-116 | no two bricks of any levels share a place in the tile store |
| `PageTable.PlaceInjective` | src/render/GpuBrickCache.h:106-116 | directory index and place in the tile determine the brick |
| `PageTable.PlaceIs` | src/render/GpuBrickCache.h:106-116 | tiles of 16 bricks a side are listed along x first, then y, then z, and bricks in a tile likewise |
| `PageTable.RoomyNeverFails` | src/render/GpuBrickCache.cpp:38-54 | if the pool has as many tiles as there are directory entries a write never lacks a tile |
| `PageTable.SpareEntry` | src/render/GpuBrickCache.cpp:164-168 | while some directory entry of some level owns no tile, fewer tiles are owned than there are entries |
| `PageTable.PoolHoldsAll` | src/render/GpuBrickCache.cpp:41-51 | whatever the cube root gives, the box of tiles holds the wanted number |
| `PageTable.PoolIsTight` | src/render/GpuBrickCache.cpp:42-52 | and with one layer of tiles less it would not; at most 65536 are asked for |
| `PageTable.WriteEntryShape` | src/render/GpuBrickCache.cpp:181-199 | a write keeps the tables well formed and all sizes |
| `PageSeeding.MarkOne` | src/render/GpuBrickCache.cpp:211-214 | with tiles enough, marking one more empty brick extends the seeded set by exactly that brick |
| `PageSeeding.SeedWhole` | src/render/GpuBrickCache.cpp:239-241 | one directory entry stands for a wholly empty unknown tile: the same bricks read as empty as if each had been marked |
| `PageSeeding.ScanTile` | src/render/GpuBrickCache.cpp:224-236 | the loops that stop early still say exactly whether all, and whether any, of a ragged tile's bricks are empty |
| `PageSeeding.DirsNext` | src/render/GpuBrickCache.cpp:221-252 | once a tile's own directory entry is seeded, the level's entries are seeded that far, and no other entry of any level has changed |
| `GpuBrickCaches.GpuBrickCache.SeedEmpties` | src/render/GpuBrickCache.cpp:216-252 | for any state of the tile pool all invariants are kept and only empty bricks of the level newly read as empty; with a tile for every directory entry a brick of the level reads as empty afterwards if and only if it did before or is empty, every other entry of every level is unchanged, and a wholly empty unknown tile uses no tile |
| `GpuBrickCaches.GpuBrickCache.SeedTile` | src/render/GpuBrickCache.cpp:224-250 | the same for one tile: with room it ends up seeded exactly and takes no tile if it was unknown and wholly empty; without, nothing but empty bricks is touched |
| `SeedSteps.SeedsToKeeps` | src/render/GpuBrickCache.cpp:216-252 | however a seeding mixes directory entries and marks, and whether or not tiles run out, the tables stay well formed and only empty bricks of the level newly read as empty |
| `SeedSteps.StepKeeps` | src/render/GpuBrickCache.cpp:211-241 | one mark, or one wholly empty tile, makes at most the bricks it is about newly read as empty |
| `SlotPool.UploadKeeps` | src/render/GpuBrickCache.cpp:286-316 | after any upload, with or without a slot or tile, free and occupied slots partition the pool, no two bricks share a slot, and every resident entry decodes to an occupied slot that holds that brick |
| `SlotPool.UploadExact` | src/render/GpuBrickCache.cpp:286-316 | with a tile for every directory entry, after an upload the brick reads its slot and the densities it came with, a victim reads unknown with the densities (0, 255), and every other brick reads entry and densities as before |
| `SlotPool.UploadWrites` | src/render/GpuBrickCache.cpp:286-316 | the same whenever the tile pool can serve the two entries |
| `SlotPool.UploadFoundIff` | src/render/GpuBrickCache.cpp:286-316 | where every slotted brick's entry points to its slot, an upload keeps it so if and only if the brick was resident, no slot could be had, or its tile exists or a tile is left |
| `SlotPool.AcquireKeeps` | src/render/GpuBrickCache.cpp:254-278 | while a slot is being reassigned it is neither free nor occupied and nothing points to it |
| `SlotPool.VictimIsOldest` | src/render/GpuBrickCache.cpp:260-273 | the victim is unpinned, occupied and least recently touched, the first among equals; none only if no slot qualifies |
| `SlotPool.EntryDecodes` | src/render/GpuBrickCache.h:29-30 | a resident entry's three ten-bit fields decode to the slot it was made for |
| `SlotPool.EntryIs` | src/render/GpuBrickCache.cpp:314-315 | the entry of the slot at (z, y, x) is bit 30 plus x, plus 2^10 times y, plus 2^20 times z |
| `SlotPool.OrIsSum` | src/render/GpuBrickCache.cpp:314-315 | on machine words the entry's fields and flag do not overlap |
| `SlotPool.SlotDimsFit` | src/render/GpuBrickCache.cpp:56-74 | for every budget and cube root the slot coordinates fit ten bits and no axis of the pool exceeds 2048 voxels |
| `SlotPool.SlotDimsTight` | src/render/GpuBrickCache.cpp:57-68 | the side is the root wanted, within 2 and the texture's limit, and the layers are as many as the budget allows, within 1 and that limit |
| `SlotPool.MarkEmptyFoundIff` | src/render/GpuBrickCache.cpp:211-214 | marking a brick empty keeps slots and entries in agreement if and only if that brick has no slot; nothing dangles either way |
| `SlotPool.EmptiesKeep` | src/render/GpuBrickCache.cpp:211-252 | reading more bricks as empty never makes an entry dangle |
| `PoolRuns.EveryRunKeeps` | src/render/GpuBrickCache.cpp:201-316 | in every state of every run of uploads, touches, frames, marks and seeding steps, tile-pool exhaustion included, the slots stay partitioned and no page entry dangles |
| `PoolRuns.SeedingIsRun` | src/render/GpuBrickCache.cpp:216-252 | a whole seeding is a run of marks and blanked tiles and changes nothing but the tables |
| `PoolRuns.PinnedForGood` | src/render/GpuBrickCache.cpp:262-278 | a pinned brick keeps its slot through any run |
| `PoolRuns.HonestIff` | src/render/GpuBrickCache.cpp:201-316 | an event keeps slots and entries in agreement if and only if it marks no brick empty that has a slot and gives no brick a slot whose entry the tile pool cannot serve |
| `PoolRuns.RoomyIsHonest` | src/render/GpuBrickCache.cpp:38-54 | if the pool has a tile for every directory entry, no upload ever breaks the agreement |
| `PoolRuns.AlwaysFoundIff` | src/render/GpuBrickCache.cpp:201-316 | all through a run every resident brick's page entry leads to its slot if and only if every event is of that kind |
| `PoolRuns.HonestRunFinds` | src/render/GpuBrickCache.cpp:201-316 | and after a run of such events every resident brick's page entry leads to its slot |
| `PoolStories.EveryStoryIsTrue` | src/render/GpuBrickCache.cpp:201-316 | through any run every brick with a slot has the pin of the upload that gave it the slot, the frame of its last touch or upload, its own voxels in the slot's block and, where its entry leads to the slot, the densities of that upload |
| `PoolStories.FoundReadsItsUpload` | src/render/GpuBrickCache.cpp:286-316 | so a brick that is found reads the densities it was last brought in with |
| `PoolStories.SlotsInTurn` | src/render/GpuBrickCache.cpp:73-74 | until a brick has to give up its slot, bricks get the slots 0, 1, 2 and so on |
| `PoolLapses.MarkLoses` | src/render/GpuBrickCache.cpp:211-214 | a run from a fresh cache: an upload and a mark leave a brick with a slot that no entry leads to |
| `PoolLapses.ExhaustionLoses` | src/render/GpuBrickCache.cpp:187-189 | a run from a fresh cache of a level with 65600 tiles and a pool of 65559: once the pool is used up by marks, an uploaded brick has a slot that no entry leads to |
| `SlotPool.ResidentIff` | src/render/GpuBrickCache.cpp:201-204 | where slots and entries agree, a brick counts as resident exactly when its page entry says resident or empty |
| `PageTextures.ShaderAgrees` | src/render/vtkScrollVolumeMapper.cpp:241-259 | with nothing dirty the shader's directory and tile lookup gives the table's entry for every brick of every level, and the occupancy beside it |
| `PageTextures.TexelIs` | src/render/vtkScrollVolumeMapper.cpp:247-253 | tile t's block starts at 16 times (t mod px, t / px mod py, t / (px py)), a brick's texel is its coordinates modulo 16 into it, and it lies inside the texture |
| `PageTextures.CoherentKept` | src/render/GpuBrickCache.cpp:164-199 | a change that leaves its dirty mark keeps every clean part of the textures up to date |
| `PageTextures.WriteEntryMarked` | src/render/GpuBrickCache.cpp:181-199 | a write leaves a dirty mark on everything it changes |
| `PageTextures.BlankTileMarked` | src/render/GpuBrickCache.cpp:239-241 | so does turning a tile all-empty |
| `PageTextures.BlitSyncs` | src/render/GpuBrickCache.cpp:342-346 | copying a tile to its block brings it up to date and disturbs no other tile's block |
| `PageTextures.BlocksDisjoint` | src/render/GpuBrickCache.cpp:334-346 | blocks of different tiles share no texel |
| `PageTextures.CleanedReads` | src/render/GpuBrickCache.cpp:318-365 | clearing dirty marks changes what no brick reads |
| `GpuBrickCaches.GpuBrickCache.constructor` | src/render/GpuBrickCache.cpp:21-81 | starts with every brick unknown, every slot free and no tile used, and with tiles for all directory entries up to the limit |
| `GpuBrickCaches.GpuBrickCache.Initialize` | src/render/GpuBrickCache.cpp:85-137 | creating the textures in plain row-major order keeps coherence, because every tile in use is still dirty then |
| `GpuBrickCaches.GpuBrickCache.SyncPageTables` | src/render/GpuBrickCache.cpp:318-365 | afterwards nothing is dirty and the shader's lookup gives the table's entry and occupancy for every brick; no entry changes |
| `GpuBrickCaches.GpuBrickCache.UploadFromBoundPbo` | src/render/GpuBrickCache.cpp:286-316 | refines the specified upload and keeps textures and tables coherent; a brick newly in a slot to which its entry leads reads the minimum and maximum given |
| `GpuBrickCaches.GpuBrickCache.AcquireSlot` | src/render/GpuBrickCache.cpp:254-278 | refines the specified choice of free slot or victim |
| `GpuBrickCaches.GpuBrickCache.FindVictim` | src/render/GpuBrickCache.cpp:260-269 | the scan finds the specified victim |
| `GpuBrickCaches.GpuBrickCache.WriteEntry` | src/render/GpuBrickCache.cpp:181-199 | refines the specified write |
| `GpuBrickCaches.GpuBrickCache.AllocateTile` | src/render/GpuBrickCache.cpp:164-179 | refines the specified allocation |
| `GpuBrickCaches.GpuBrickCache.MarkEmpty` | src/render/GpuBrickCache.cpp:211-214 | refines the specified mark and keeps all invariants, also for a resident brick |
| `GpuBrickCaches.GpuBrickCache.IsResidentKey` | src/render/GpuBrickCache.cpp:201-204 | true exactly if some slot holds that brick or it is known to be empty; where slots and entries agree, exactly if its page entry says resident or empty |
| `GpuBrickCaches.GpuBrickCache.Touch` | src/render/GpuBrickCache.cpp:206-209 | only the last use of that brick's slot changes |
| `UploadRing.EveryInterleavingIsSafe` | src/render/GpuUploader.cpp:51-153 | in every interleaving from a fresh ring: each in-flight slot belongs to one batch and each slot being written to one worker; every accepted brick is waiting, in the ring or handed over, once; no wakeup is lost |
| `UploadRing.EventKeeps` | src/render/GpuUploader.cpp:51-153 | each step of callers, workers and render thread keeps all three |
| `UploadRing.TakeKeeps` | src/render/GpuUploader.cpp:66-91 | a worker that finds nothing to do may end without a wakeup being lost |
| `UploadRing.SelectKeeps` | src/render/GpuUploader.cpp:123-143 | a batch takes exactly its slots' bricks out of the ring and into the cache |
| `UploadRing.RecycleKeeps` | src/render/GpuUploader.cpp:108-121 | a signalled fence frees exactly its own batch |
| `UploadRing.LaunchLoad` | src/render/GpuUploader.cpp:127-143 | the bricks handed over are those that leave the ring, counted brick by brick |
| `UploadRing.QuietMeansFull` | src/render/GpuUploader.cpp:62-82 | when all workers are idle and bricks wait, every slot is ready or in flight, so the next drain has a batch or a fence |
| `UploadRing.NothingPending` | src/render/GpuUploader.cpp:155-161 | when the pending count reads zero every accepted brick has been handed over exactly once |
| `RingOrder.EveryBrickInTurn` | src/render/GpuUploader.cpp:51-91 | over every interleaving from a fresh ring: the bricks that workers start on, in order, followed by those waiting, are the bricks accepted, in order |
| `RingOrder.OldestFirst` | src/render/GpuUploader.cpp:51-91 | the same from any state, after the bricks that waited in it |
| `RingOrder.FirstSentFirstFreed` | src/render/GpuUploader.cpp:108-152 | over every interleaving slots come free in the order in which they were sent to the GPU |
| `RingOrder.FlightsMove` | src/render/GpuUploader.cpp:108-133 | an event puts exactly the slots it sends in flight and frees exactly those it recycles, and no slot in flight changes its brick |
| `RingOrder.BatchExact` | src/render/GpuUploader.cpp:124-133 | a drain sends the ready slots from the lowest up, all of them or as many as the budget; a negative budget allows all |
| `GpuUploaders.GpuUploader.Enqueue` | src/render/GpuUploader.cpp:51-60 | refuses a brick exactly when 4096 wait; otherwise it is accepted once, goes behind those that wait, and a job is owed |
| `GpuUploaders.GpuUploader.TakeWork` | src/render/GpuUploader.cpp:73-91 | gives a worker the brick that waited longest and the first free slot, if there are both, and leaves the others waiting in order |
| `GpuUploaders.GpuUploader.FinishWork` | src/render/GpuUploader.cpp:99-100 | makes that worker's slot ready |
| `GpuUploaders.GpuUploader.RecycleFront` | src/render/GpuUploader.cpp:110-121 | the loop over the batch refines the specified recycling |
| `GpuUploaders.GpuUploader.SelectBatch` | src/render/GpuUploader.cpp:124-133 | the two loops pick the first ready slots up to the budget; a negative budget is no limit |
| `GpuUploaders.GpuUploader.EndDrain` | src/render/GpuUploader.cpp:135-152 | a fence goes in behind a non-empty batch, and a job is posted if a slot was freed or used |
| `GpuUploaders.GpuUploader.PendingCount` | src/render/GpuUploader.cpp:155-161 | counts the waiting bricks and the slots that are not free |
| `Planner.Plan` | src/render/WorkingSetPlanner.cpp:89-182 | the stack loop visits exactly the wanted bricks, each once; a wanted brick is listed visible once if resident, otherwise asked for once with its priority unless the limit is reached; no other brick is listed; and every request comes after requests for all bricks coarser around its own but the resident ones, wherever the limit cuts the list; the visits are in the order of recursive descents from the coarsest bricks, the last in scan order first |
| `Planner.DrainIsDescent` | src/render/WorkingSetPlanner.cpp:140-179 | from any stack the loop visits what recursive descents from its bricks visit, each brick before its eight children and those from (1, 1, 1) down to (0, 0, 0) |
| `Planner.MissingTopDown` | src/render/WorkingSetPlanner.h:15-18 | bricks visited parents first are requested coarse before fine, up to the top of the fallback chain, with or without the limit |
| `Planner.CoveredStep` | src/render/WorkingSetPlanner.cpp:140-179 | a brick only gets onto the stack after everything coarser around it was visited |
| `Planner.DescentIsFilter` | src/render/WorkingSetPlanner.cpp:128-179 | descent by popping and pushing children visits what a filter over all bricks of all wanted levels selects, each once |
| `Planner.FlatFilter` | src/render/WorkingSetPlanner.cpp:143-148 | with nothing pruned that filter is: in the grid, at a level from the desired one up, and through the frustum test |
| `Planner.WantedUpward` | src/render/WorkingSetPlanner.cpp:121-123 | every brick coarser around a wanted brick is wanted too |
| `Planner.DrainHits` | src/render/WorkingSetPlanner.cpp:140-179 | from any stack the loop visits a brick once for every stacked brick whose descent comes by it |
| `Planner.StepLighter` | src/render/WorkingSetPlanner.cpp:140-179 | replacing a brick by its children lowers the weight 1 + 8w of the stack, so the loop ends |
| `Planner.GridHalves` | src/render/WorkingSetPlanner.cpp:27-35 | a level has at most twice as many bricks along an axis as the next coarser one |
| `Planner.ParentInGrid` | src/render/WorkingSetPlanner.cpp:168-177 | the parent of an existing brick exists |
| `Planner.ParentPasses` | src/render/WorkingSetPlanner.cpp:65-87 | if a brick passes the frustum test so does its parent, clipped boxes at the volume's edge included |
| `PlannerVoxels.NeverCullsVisible` | src/render/WorkingSetPlanner.cpp:65-87 | if a point of the world cell of some voxel of a brick lies inside all planes, the brick passes |
| `PlannerVoxels.CulledIff` | src/render/WorkingSetPlanner.cpp:65-87 | a brick of the grid is culled if and only if one plane has every point of every one of its voxels' cells behind it |
| `PlannerVoxels.InGridIff` | src/render/WorkingSetPlanner.cpp:27-35 | a brick lies in its level's grid if and only if some voxel of the volume falls to it |
| `PlannerVoxels.EmptyAxis` | src/render/WorkingSetPlanner.cpp:30-32 | an axis of no voxels still counts one brick |
| `PlannerVoxels.WantedIff` | src/render/WorkingSetPlanner.cpp:140-179 | with nothing pruned, wanted are the bricks of the wanted levels that some voxel falls to and that no single plane has behind it |
| `Numbers.ClampNearest` | src/render/WorkingSetPlanner.cpp:115 | the desired level is the level in range nearest to the one the zoom asks for |
| `Planner.CoarserFirst` | src/render/WorkingSetPlanner.cpp:156-165 | a coarser brick outranks every finer one, and within a level the nearer wins |
| `Snic.Snic3d` | src/data/Snic3D.cpp:54-136 | the labelled voxels are exactly those reachable from a seed by a 6-path through voxels above the threshold, for any distance function, if and only if no reachable voxel's index is cut to 32 bits; then some seed goes to another cluster, and fewer clusters than seeds come out, if and only if a seed was offered, while open, at a distance below 1/128; at most 2^31 seeds; at most seeds + 6 times labelled pops; each cluster's sums are the batch sums over its voxels, and the counts output add up to the labelled voxels |
| `Snic.EverySeedItsOwn` | src/data/Snic3D.cpp:77-134 | if no distance is below 1/128 and no reachable index is cut, every seed belongs to its own cluster and as many clusters come out as there are seeds |
| `Snic.ClustersAreMeans` | src/data/Snic3D.cpp:97-134 | the clusters that come out are those that own a voxel, in the order of their seeds, and position and mean times the count are the sums of the coordinates and intensities of the cluster's voxels |
| `Snic.ClustersConnected` | src/data/Snic3D.cpp:88-125 | every voxel of a cluster is joined to the cluster's seed by a 6-path inside that cluster |
| `Snic.OutputIffOwnsSeed` | src/data/Snic3D.cpp:127-134 | a cluster is output if and only if it owns its own seed voxel |
| `Snic.SmallFits` | src/data/Snic3D.cpp:11-14 | up to 2^32 voxels no index is cut |
| `Snic.SeedsAreCut` | src/data/Snic3D.cpp:78-86 | a volume of 2^33 voxels in which seeds are |
| `Snic.FewSeeds` | src/data/Snic3D.cpp:78-86 | there is at most one seed for every eight voxels |
| `Snic.PlaceSeeds` | src/data/Snic3D.cpp:77-86 | the strided loops place exactly one seed on every grid point above the threshold, in scan order |
| `Snic.SeedsAre` | src/data/Snic3D.cpp:77-86 | the seeds are the voxels above the threshold whose coordinates are half a step plus a multiple of the step, with indices along x first |
| `Snic.FloodStep` | src/data/Snic3D.cpp:88-125 | one turn drops a taken voxel, or labels it, adds it to its cluster's sums and offers its open neighbours; sums and ranges are kept even where indices are cut |
| `Snic.PushNeighbours` | src/data/Snic3D.cpp:108-124 | if no neighbour's index is cut, exactly the open 6-neighbours are offered, the grid's faces included |
| `Snic.SixNeighbours` | src/data/Snic3D.cpp:119-124 | the six guarded steps are all the neighbours there are |
| `Flood.Closes` | src/data/Snic3D.h:22-30 | when no pair is pending the labelled nodes are the reachable ones |
| `Flood.CommitKeeps` | src/data/Snic3D.cpp:91-124 | labelling a node and offering its neighbours keeps labels joined to seeds and the frontier pending, in any order of pops |
| `Flood.SeedOwnsItself` | src/data/Snic3D.cpp:78-91 | a cluster that owns any node owns its seed |
| `SeedFairness.FairPushes` | src/data/Snic3D.cpp:108-118 | offering an open voxel to a cluster endangers a seed exactly if the voxel is a seed and the distance is below 1/128 |
| `SeedFairness.FairPops` | src/data/Snic3D.cpp:89-91 | committing the newest pair of the lowest bucket keeps what is said of the seeds |
| `Accumulators.BatchAdds` | src/data/Snic3D.cpp:93-102 | labelling one more voxel adds it to its own cluster's batch sum and to no other |
| `Accumulators.OutputCounts` | src/data/Snic3D.cpp:127-134 | leaving out empty clusters loses no voxel |
| `Accumulators.OutputLength` | src/data/Snic3D.cpp:127-134 | as many clusters come out as are not empty |
| `Accumulators.BatchSums` | src/data/Snic3D.cpp:97-102 | a batch is the sums of z, y, x and intensity over the voxels with its label, and their number |
| `Accumulators.Emit` | src/data/Snic3D.cpp:127-134 | outputs centroid, mean and count of the non-empty clusters in order |
| `BucketQueues.BucketQueue.Push` | src/data/Snic3D.cpp:27-31 | the element goes to its distance's bucket, never behind the cursor nor past the last bucket; it will come out after everything in lower buckets and before everything else |
| `BucketQueues.BucketQueue.Pop` | src/data/Snic3D.cpp:33-39 | takes the newest element of the lowest non-empty bucket, which is the first in the order the queue holds, and leaves the order of the rest; the cursor only grows and stays in range |
| `BucketQueues.BucketWidth` | src/data/Snic3D.cpp:24-28 | a distance's bucket is 128 times the distance without the fraction |
| `BucketQueues.BucketRises` | src/data/Snic3D.cpp:24-28 | farther is never a lower bucket, and 1/128 farther is a higher one |
| `BucketQueues.NearerFirst` | src/data/Snic3D.cpp:27-39 | of all elements pushed before the first pop those nearer than b/128 come out before all others, for every b up to 2047 |
| `BucketQueues.NearerBeforeFarther` | src/data/Snic3D.cpp:27-39 | of two elements pushed before the first pop, at least 1/128 apart and below 2047/128, the nearer comes out first |
| `Manifests.ParsedIff` | src/data/VolumeManifest.cpp:17-56 | the parser accepts exactly the bytes that begin with a serialised manifest, and returns that one; the reserved field and what follows do not matter |
| `Manifests.RoundTrip` | src/data/VolumeManifest.cpp:17-56 | a serialised manifest parses back to itself |
| `Manifests.OneLevelFile` | src/data/VolumeManifest.h:22-26 | byte by byte: 0x53 0x56 0x4d 0x46, version, fill, level count, two bytes, the grid's z, y and x with the lowest byte first, and two bytes for every brick |
| `Manifests.PairAt` | src/data/VolumeManifest.h:44-51 | a brick's minimum, then its maximum, with bricks along x first, then y, then z; outside the grid the pair is (0, 255) |
| `Manifests.HeaderErrors` | src/data/VolumeManifest.cpp:21-35 | which first bytes give which header error, and that no other file gives it |
| `Manifests.ParsedLevelsErr` | src/data/VolumeManifest.cpp:41-53 | a level error names the first level that is not there: those before it are, and what is left is too short for it |
| `Manifests.Parse` | src/data/VolumeManifest.cpp:17-56 | the cursor code refines the specified parser, each error in its order |
| `Manifests.ParseLevels` | src/data/VolumeManifest.cpp:41-53 | so does the loop over the levels |
| `Manifests.ReadWord` | src/data/VolumeManifest.cpp:8-14 | succeeds exactly if the input is long enough, and then the input is the word's encoding followed by what is left; otherwise nothing is taken |
| `Manifests.ReadableIff` | src/data/VolumeManifest.h:44-51 | all bricks of an accepted level can be looked up inside its data if and only if its size does not wrap in 64 bits |
| `Manifests.WrapLoses` | src/data/VolumeManifest.cpp:46-52 | a file of one level, 2^32 - 1 by 2^31 + 1 bricks, that parses with 2^32 - 2 bytes of data and has a brick out of reach |
| `Manifests.EncodeDecoded` | src/data/VolumeManifest.cpp:8-14 | every run of bytes is the little-endian form of the word read from it |
| `ManifestWriters.StepKeeps` | src/tools/svmanifest_main.cpp:88-136 | whichever worker moves next, each byte is untouched or holds its half of the right pair, written once |
| `ManifestWriters.ScanComplete` | src/tools/svmanifest_main.cpp:137-147 | when all workers are done every byte has been written exactly once and every brick's pair is in place |
| `ManifestWriters.StepBurns` | src/tools/svmanifest_main.cpp:89-136 | every move of any worker uses up a bounded amount, so every schedule ends |
| `ManifestWriters.ScanLevel` | src/tools/svmanifest_main.cpp:76-147 | with any schedule of any number of workers the level's data records the pair of every brick |
| `ManifestWriters.RangeOf` | src/tools/svmanifest_main.cpp:99-134 | the branches and loops over a brick give its specified pair |
| `ManifestWriters.PairIs` | src/tools/svmanifest_main.cpp:104-134 | a brick that was not looked into gets (0, 255), one that was its least and greatest densities |
| `ManifestWriters.EmptyIff` | src/tools/svmanifest_main.cpp:99-134 | a brick is recorded as empty if and only if it is absent or was seen to hold nothing but fill in the 8-bit domain: bytes equal to the fill byte, words whose high byte is |
| `ManifestWriters.UniformIsEmptyIff` | src/tools/svmanifest_main.cpp:58-131 | a 16-bit chunk of nothing but the fill value is recorded as empty if and only if the value's high byte equals its low byte |
| `ManifestWriters.EmptyIsUniformIff` | src/data/VolumeManifest.h:53-58 | a 16-bit chunk recorded as empty is uniform fill if and only if those two bytes are equal and every low byte is the same |
| `ManifestWriters.HighBytesMislead` | src/tools/svmanifest_main.cpp:124-131 | for every fill value a 16-bit chunk that is recorded as empty and is not uniform fill |
| `ManifestWriters.InvisibleIff` | src/tools/svmanifest_main.cpp:99-134 | and as invisible under a cutoff if and only if nothing in it, as far as is known, is above the cutoff |
| `ManifestWriters.WriteManifest` | src/tools/svmanifest_main.cpp:62-150 | the file is the header followed by every level's grid and recorded data |
| `ManifestWriters.WrittenReadsBack` | src/tools/svmanifest_main.cpp:62-67 | what is written parses back with the right fill and levels, all of them if and only if there are fewer than 256 |
| `ManifestWriters.CountLoses` | src/tools/svmanifest_main.cpp:66 | 256 levels written are read back as none |
| `ManifestWriters.CullingIsSound` | src/data/VolumeManifest.h:53-65 | from store to lookup: a brick reads as empty exactly when the store has nothing for it or the scan saw only fill in the 8-bit domain, and as invisible only if the scan saw nothing above the cutoff |
| `Grid.AtIndex` | src/data/Snic3D.cpp:94-96 | division recovers the cell from its row-major index |
| `Grid.IndexAt` | src/render/GpuBrickCache.cpp:299-302 | every index below the count is that of a cell inside the grid |

## Left out

- OpenGL, VTK, Qt, curl, the stores, codecs, JSON and zarr metadata: foreign or input and output; the model has their effects as parameters or environment steps.
- Rounding of floats in distances, priorities, frustum planes, cube roots and zoom levels; `Planner.Plan` is given the level the zoom asks for.
- Extraction of the frustum from the camera matrix.
- The minimum and maximum of a decoded brick in the pipeline: whether a decoded brick is all fill is a parameter there (the same computation is modelled in the manifest writer).
- Destruction of the pipeline: pump stays enabled while the destructor waits, so nothing is claimed about what is outstanding afterwards.
- Releasing the graphics resources and creating them again; coherence would need all tiles marked dirty.
- Stop requests inside the upload workers and the release of the ring.
- LruCaches.LruCache.Insert: list iterators are not modelled; the map from keys to list nodes is the set of its keys, and following it is a search.
- ChunkFetchPipelines.ChunkFetchPipeline.DecodeAndPublish: as one method it runs both halves in one go; that other threads come between the cache insert and the publishing is in `PipelineRuns`.
- GpuUploaders.GpuUploader.SelectBatch: the bricks count as handed over when they are selected; the calls into the cache that follow are those of `GpuBrickCache.UploadFromBoundPbo`.
- PipelineCap.DecodeCapIff: for decode caps below 2^31, the range of the source's int.
- Snic.Snic3d: which of two competing clusters gets a voxel depends on the distances and is left open; sums are exact where the source uses doubles; not modelled are arrays of more than 2^34 voxels, whose cluster numbers overflow the 32-bit labels, and the 32-bit voxel count of a cluster, which wraps when one cluster has all 2^32 voxels.
- ManifestWriters.ScanLevel: the count of present chunks, which is only printed.
- The brick assembler, the surface mask, Otsu's threshold, cluster spheres, the thread pool and the window: easier members that would add nothing to the above.
