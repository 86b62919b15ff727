# Scene-cache engine, source closures and crash-safe publication: a Dafny model

This project models the parts of USDHub that share state through files and threads, and proves what they promise.

* **Scheduler** (`WarmKeys`, `WarmQueue`, `WarmSystem`, `WarmState`, `WarmDrain`, `WarmSteps`, `WarmPlays`,
  `WarmPromises`, `WarmRaces`, `WarmLedger`, `WarmDeliveries`). The bounded, coalescing scheduler of cache-warming work:
  `latest`, `scheduled`, `dirty_projects`, a channel of two jobs and one worker. `WarmQueue` defines every operation on
  values, `WarmState` has the classes whose methods are proved against it, and `WarmSystem` is the state machine over
  all runs of whole calls: space bound, one job per key, no stall, no lost invalidation. `WarmDrain` shows that the
  worker alone empties the queue. `WarmSteps` takes the calls apart where the program gives its lock back, with any
  number of producers between their steps: what still holds in every run, and exactly which two steps leave work to
  nobody. `WarmPlays` shows that the parts, undisturbed, are the whole calls; `WarmPromises` says exactly when folding
  recovered work in loses a promised Scene; `WarmRaces` has histories from the empty scheduler that end in each failure.
  `WarmLedger` and `WarmDeliveries` prove, for whole calls and for locked sections, that the worker is handed what was
  recorded.
* **Scene index** (`SceneOrder`, `SceneCache`, `SceneBuild`). Address order, the persistent records and their validity,
  and the building of a Scene index out of a prim tree: owned paths, sorted rows, in-place parent links, a forest.
* **Scene store** (`SceneProtocol`, `SceneSafety`, `SceneActivation`, `SceneFields`, `SceneRepairs`, `SceneRows`,
  `SceneRaces`, `SceneLostRows`, `SceneStore`, `ScenePublishing`). One Scene's descriptor, index and spatial files as
  shared state. `SceneProtocol` is a machine whose publishers may die between any two writes, whose files may be removed
  at any moment, and whose readers look at arbitrary moments; `SceneSafety`, `SceneActivation`, `SceneRepairs` and
  `SceneRows` prove what holds in every run, `SceneFields` what advances, builds, repairs and prim counts write,
  `SceneRaces` and `SceneLostRows` when three races do harm, with histories in which they do. `SceneStore` is the class
  the program has, with a failure possible at every file access, and `ScenePublishing` its three publishers: a managed
  build, a targeted repair and a prim count.
* **Boundaries before work** (`WarmAdmission`). Mutation and recovery entry points: every Scene gets a newer generation,
  or loses its cache, before any work is admitted, whatever fails.
* **Project lookup** (`CacheLookup`, `LookupUpdates`, `LookupTheorems`, `LookupAnswers`, `LookupState`). Seven maps
  updated in place, checked against the plain lists of rows: incremental equals rebuilt, Scene order is irrelevant,
  persistence round trips.
* **Source closure** (`AssetPaths`, `ClosureValue`, `ClipTimes`, `DiscoveryFacts`, `ClosureDiscovery`, `ClosurePlan`,
  `Localize`, `LocalizeTheorems`, `LocalizeValues`, `LocalizeSucceeds`, `LocalizeFrame`, `ClosureExactness`,
  `ClosureReport`, `ClosureExamples`). The discovery worklist computes reachability; the rewriting of a layer commutes
  with taking its dependencies; where each file goes; after a complete report every field of every layer looked into is
  rewritten, images for dependencies.
* **Managed-layer normal form** (`ManagedLayer`). The line loop that makes a fingerprint blind to display names.
* **Recovery** (`CheckpointQueue`, `RecoveryDisk`) and **Model publication** (`ModelPublication`).
* `Wrappers` and `Text` hold what several of these share.

## How the model reads the code

* **Granularity.** In `WarmSystem` each of `record`, `take`, `cancel` and finish-and-retry is one step. The code drops
  its lock inside `record` (cache_warmer_queue.rs:91-95) and inside the retry loop (lines 150-182); in `WarmSteps` every
  locked section, unlocked send and unlocked read is a step of its own, and the worker lives. The descriptors of one
  Project are read in one step, and the worker's look whether a sender exists, before the lock that ends its job, is
  another. A target is recorded some time after its Scene was advanced, and the Scene may have been advanced again,
  settled or removed since, and another producer may have recorded it at a newer generation. A producer that would block
  is a step that is not enabled.
* **Progress.** `WarmDrain` assumes that warming a current target ends its Building state, as a build or the marking of
  its failure does unless that write fails too. A job without a target, and one whose target is stale, does nothing.
* **Locks.** In `SceneProtocol` a lock holder reads, then writes file after file; anything unlocked may happen between
  two of its steps. Any file may be removed at any moment, since `remove_all_derived_cache`
  (cache_scene_store.rs:122-132) takes no lock. Marking a failed warm terminal is one step although it takes no lock;
  its split form is in `SceneRaces`.
* **Hashes and encodings.** A digest is the value it was computed from (an injective hash); the all-zero digest belongs
  to no file. Encoding and decoding are inverse. Directory labels in a closure plan are assumed apart for different
  directories.
* **Failures.** File accesses in `SceneStore`, `ScenePublishing`, `WarmAdmission` and `RecoveryStore` may fail at any
  call, unless the store is `reliable`; then each method fails exactly for the reasons that lie in the files. An atomic
  write fails only before its rename, as `write_bytes_atomic` does. `ModelPublication` takes the failing steps and the
  failing rollback steps as parameters.
* **Names.** Identifiers are numbers in the source's order; target texts are parsed by a given function that reads back
  what the program writes. Generations and counts do not wrap; the generation limit of 64 bits is modelled, a sum of
  byte sizes beyond it is not.
* **Paths.** A canonical path is its list of components; an authored asset path is a list of steps with an optional path
  inside a package. The resolver is any function that keeps file names, looks into packages, and finds a file next to
  one it finds; next to a path inside a package, only where the neighbour holds the same path. Packages are copied as
  they are. The localized copy is read by relative steps only. Of a target only what lies below the destination must
  have plain names; the destination's own path is any normal path.

## Where the code and its claims differ

* `record` with the lock dropped before its undo, and the worker's leaving the loop after its last look, can each leave
  work without a job (`UndoCanStrand`, `CheckCanStrand`); these two steps and no other, and exactly when, is
  `SupplyEndsExactlyWhenStranded`.
* Folding recovered work in after other producers filled the queue can forget a Project (`MergeCanForget`). It can also
  put an older generation of a Scene where the promised one is expected (`MergeCanShadow`); the Scene is then passed
  over and the scheduler comes to rest with it still Building (`ShadowedSceneIsLost`). Exactly when, is
  `MergeKeepsPromisesExactlyWhen`.
* Two producers can record one Scene in the other order than they advanced it; the late record then takes the place of
  the newer target, its warm is stale, and the scheduler comes to rest with the Scene still Building
  (`RecordCanOvertake`). An admitted invalidation is promised until such a record comes (`Overtakes`).
* `load_activation` agrees on the generation but may pair a descriptor with the index of another publication of that
  generation, when the index is replaced and put back between its reads (`ActivationCanMixIndexes`): only if a
  publication of another index completed in between, and always then if nobody removed the index file since some moment,
  at or before the first read, with no publisher at work (`ActivationMixesExactlyWhenRenamed`).
* A targeted repair whose activation mixes publications in this way, and is granted, publishes the rows of the other
  index: it can take back what another repair put into a row that it does not name (`MixedRepairCanTakeRowBack`);
  exactly when, is `RepairTakesRowBackExactlyWhen`, and otherwise the row stands (`RepairedRowStands`).
* Marking a failure terminal without the lock brings a dead generation back exactly if an advance came between its read
  and its write (`SplitTerminalizeGoesBackExactlyWhen`, `SplitTerminalizeCanGoBack`). Within one generation it takes the
  index on file, and any repair on it, away exactly if the last publication in between named another index than the
  descriptor it read (`SplitTerminalizeLosesPublicationExactlyWhen`, `SplitTerminalizeCanLosePublication`,
  `SplitTerminalizeCanLoseBuildAfterCount`), and takes counts back exactly if that publication changed them, as a second
  prim count of a failing build does (`SplitTerminalizeTakesCountsBackExactlyWhen`, `SplitTerminalizeCanTakeCountBack`).
  With advances and removals in between too, exactly when is `SplitTerminalizeTakesBackExactlyWhen`.
* A clip template with its number marks in a directory name is rewritten to a path without marks, which expands to
  nothing (`TemplateIsCarried`, `MarksInDirectoryAreLost`); so is one whose name moves below a directory with marks of
  its own. One with marks in a directory that moves below such a directory is numbered there, and finds none of the
  images it should. A texture pattern whose tiles move to several directories keeps its authored text when its extension
  makes it optional, and finds nothing in the copy (`AssetIsCarried`, `SpreadTextureIsKept`).
* Two closure files share a place exactly when a source file sits under `external/<label>` where an external one goes
  (`PlacesAreUniqueExactlyWhen`); nothing in the plan rules this out (`PlacesCanBeShared`).
* A display line that ends in an opening parenthesis is visible to the fingerprint (`OpenDisplayLineIsVisible`).
* The rollback of a failed Model publication removes an empty import directory that was there before
  (`BareImportsAreLost`); this is the only exception.
* A Scene given to the enqueuing entry point under two texts can be removed and then start again at generation 1
  (`TwoTextsCanFallBack`); when a targeted Scene ends at a newer generation or without a descriptor, is exactly
  `BoundedExactlyWhen`. That nothing stays activatable holds for all.

## Model

| member | source | states |
|---|---|---|
| WarmQueue.InsertRecoveredFrame | src/project/cache_warmer_queue.rs:183-198 | Re-inserting recovered work touches only `latest`: every key it had stays, with its target, and the channel and schedule are as before. |
| WarmKeys.KeysInOrder | src/project/cache_warmer_queue.rs:148-157 | Keys sort by Project, Models before the root before Scenes, and by number. |
| WarmQueue.OverflowLeavesWork | src/project/cache_warmer_queue.rs:173-198 | A recovered batch that overflows leaves an unscheduled key waiting, so the next pass sends or returns. |
| WarmQueue.DrainMakesProgress | src/project/cache_warmer_queue.rs:148-199 | A pass that drains a dirty Project leaves either a waiting key or fewer dirty Projects, although it may mark the same Project dirty again; the retry loop terminates. |
| WarmState.WarmChannel.TrySend | src/project/cache_warmer_queue.rs:91-105 | Sends if a receiver lives and a slot is free; otherwise changes nothing and says which of the two it was. |
| WarmState.LatestWarmState.Record | src/project/cache_warmer_queue.rs:64-106 | The whole new state and the answer of recording a target, on every branch: full, known, sent, channel full, disconnected. |
| WarmState.LatestWarmState.TakeLatest | src/project/cache_warmer_queue.rs:108-112 | Taking a target removes it from `latest` and nothing else, and hands over whatever target stood there. |
| WarmState.LatestWarmState.Cancel | src/project/cache_warmer_queue.rs:114-117 | Cancelling removes the key's target, not its job. |
| WarmState.LatestWarmState.FinishAndRetry | src/project/cache_warmer_queue.rs:119-127 | Releases the key and then retries as long as a sender exists. |
| WarmState.LatestWarmState.RetryUnscheduled | src/project/cache_warmer_queue.rs:148-199 | The loop over unscheduled keys and dirty Projects terminates and ends in the state the specification gives. |
| WarmState.LatestWarmState.DrainDirtyProject | src/project/cache_warmer_queue.rs:171-198 | One dirty Project is popped, its Building Scenes re-inserted, and it is dirty again exactly if not all fit and a slot is free. |
| WarmState.LatestWarmState.InsertRecovered | src/project/cache_warmer_queue.rs:183-193 | Recovered keys go in, in order, until `latest` is full; known keys are skipped. |
| WarmState.RecoverBuildingSceneTargets | src/project/cache_warmer_queue.rs:231-249 | Exactly the Project's Scenes whose descriptor is Building, in key order. |
| WarmSystem.RecordKeepsQueue | src/project/cache_warmer_queue.rs:64-106 | Recording keeps the schedule exact, the bounds, and the worker supplied with a job while work waits. |
| WarmSystem.RetryKeepsQueue | src/project/cache_warmer_queue.rs:148-199 | Every exit of the retry loop leaves the schedule exact and bounded, and a job in the channel if any work is pending. |
| WarmSystem.RetryKeepsPromises | src/project/cache_warmer_queue.rs:148-199 | The retry loop keeps every promised invalidation represented in `latest` or by a dirty Project. |
| WarmSystem.StepKeepsInvariant | src/project/cache_warmer_queue.rs:64-199 | Every step of the system keeps the invariant. |
| WarmSystem.RunKeepsInvariant | src/project/cache_warmer_queue.rs:64-199 | Every reachable state satisfies the invariant. |
| WarmSystem.SpaceIsBounded | src/project/cache_warmer_queue.rs:21-23 | In every reachable state at most 8 + 2 + 1 keys are in `latest` or scheduled, at most 4 Projects dirty, at most 2 jobs in the channel. |
| WarmSystem.OneJobPerScheduledKey | src/project/cache_warmer_queue.rs:64-127 | In every reachable state the schedule is exactly the channel's keys plus the key in flight, without duplicates: no key is warmed twice at once. |
| WarmSystem.NeverStalls | src/project/cache_warmer_queue.rs:64-199 | In every reachable state with a sender and a live worker, pending work comes with a job in the channel or in the worker's hands. |
| WarmSystem.PromiseSurvivesStep | src/project/cache_warmer_queue.rs:64-199 | A step that does not settle an admitted invalidation keeps it promised at a generation at least as new. |
| WarmSystem.NoInvalidationIsLost | src/project/cache_warmer_queue.rs:64-249 | In every run an invalidation admitted for a Scene that is Building stays in `latest` at a generation at least as new, or its Project is dirty and its recovery finds the Scene, until it is withdrawn, taken, overtaken by a late record of the Scene, or the descriptor leaves Building or is removed. |
| WarmDrain.RetryAddsNoStray | src/project/cache_warmer_queue.rs:148-249 | What the retry loop brings back from disk is current: it adds no job whose warm would find it stale. |
| WarmDrain.CycleTakesItsJobAway | src/project/cache_warmer_queue.rs:372-389 | A round of the worker adds no pending key and no stray job, and takes its own job away: a current one out of what is pending, a cancelled or stale one out of the strays. |
| WarmDrain.WorkerEmptiesTheQueue | src/project/cache_warmer_queue.rs:372-389 | The worker alone, cancelled and stale jobs included, reaches an empty queue with no promise open, if warming a current target ends its Building state. |
| WarmDrain.NothingIsLeft | src/project/cache_warmer_queue.rs:148-199 | When the channel is empty nothing is waiting, scheduled, dirty or promised. |
| WarmSteps.StepKeepsSound | src/project/cache_warmer_queue.rs:64-199 | Every locked section, unlocked send and unlocked read keeps: the scheduled keys are those in the channel, with the worker, and with producers between their steps, all different; two jobs and four dirty Projects at most. |
| WarmSteps.OneJobInEveryRun | src/project/cache_warmer_queue.rs:64-127 | In every run a scheduled key has exactly one job, in the channel, with the worker, or with one producer; an unscheduled key has none. |
| WarmSteps.SpaceIsBounded | src/project/cache_warmer_queue.rs:21-23 | With at most n producers between their steps at any moment, at most 8 + 2 + n keys are in `latest` or scheduled in every run, and at most 4 Projects dirty. |
| WarmSteps.SupplyEndsExactlyWhenStranded | src/project/cache_warmer_queue.rs:91-199 | Pending work is left without a job by exactly two steps: the undo of the only producer under way when channel and worker have been drained, and the worker's return when a key has become unscheduled since it looked. |
| WarmSteps.RunStaysSupplied | src/project/cache_warmer_queue.rs:64-199 | In every run without those two, pending work comes with a job in the channel, a worker at work or a producer under way. |
| WarmPlays.RecordPlays | src/project/cache_warmer_queue.rs:64-106 | The sections of `record`, undisturbed, are a history that does what the whole call does. |
| WarmPlays.RetryPlays | src/project/cache_warmer_queue.rs:148-199 | The sections of the retry loop, undisturbed, are a history that ends where the whole loop does. |
| WarmPlays.FinishPlays | src/project/cache_warmer_queue.rs:119-127 | The same for the end of a job, the look for a sender before it included, with or without a sender. |
| WarmPromises.FittingKeysGoIn | src/project/cache_warmer_queue.rs:183-192 | Exactly the first unknown keys that `latest` has room for go in, and the overflow flag says that there are more unknown keys than room. |
| WarmPromises.StepKeepsPromises | src/project/cache_warmer_queue.rs:64-182 | Every step but the folding in of recovered work keeps each promised Scene in `latest` at its generation, or unknown with its Project dirty or in the worker's hand. |
| WarmPromises.MergeKeepsPromisesExactlyWhen | src/project/cache_warmer_queue.rs:173-198 | Whatever happened since the descriptors were read, folding them in keeps every promise exactly if no promised unknown Scene is left over with all dirty slots taken by others, or put in at an older generation than promised. |
| WarmPromises.LossNeedsPressure | src/project/cache_warmer_queue.rs:183-197 | A loss takes more new Scenes than room and four other dirty Projects, or a promise renewed after the read. |
| WarmPromises.NoInvalidationIsLost | src/project/cache_warmer_queue.rs:64-249 | In every run of locked sections without such a fold, an admitted Scene invalidation stays where the worker will come to it, at a generation at least as new, until it is settled, or a late record of the Scene overtakes it. |
| WarmRaces.UndoCanStrand | src/project/cache_warmer_queue.rs:91-97 | A history of three records and a drained worker that ends, with the third undo, in work nobody looks for. |
| WarmRaces.CheckCanStrand | src/project/cache_warmer_queue.rs:148-180 | One that ends so with the worker's return. |
| WarmRaces.MergeCanForget | src/project/cache_warmer_queue.rs:173-198 | A history in which `latest` and the dirty slots fill up while a Project is read, and its promised Scene is forgotten. |
| WarmRaces.MergeCanShadow | src/project/cache_warmer_queue.rs:181-192 | A history in which a Scene is recorded again while its Project is read, and the older generation goes in. |
| WarmRaces.ShadowedSceneIsLost | src/project/cache_warmer_queue.rs:171-198 | That history continued until the scheduler is empty and at rest, the Scene Building at a promised generation that was never taken. |
| WarmRaces.RecordCanOvertake | src/project/cache_warmer_enqueue.rs:76-119 | A history of two advances recorded in the other order: the late record replaces the newer target, and the scheduler comes to rest with the Scene Building at the recorded generation, which was never taken. |
| WarmLedger.RetryBringsBack | src/project/cache_warmer_queue.rs:148-199 | A retry keeps every waiting target as it is; what is new afterwards are Building Scenes of dirty Projects, at their generation on file. |
| WarmLedger.LatestIsTheLedger | src/project/cache_warmer_queue.rs:64-199 | In every run of whole calls `latest` is the ledger: per key, Model, Project root or Scene, the last target recorded with room, until it is taken, cancelled, removed, or its job could be sent to nobody, plus what retries brought back. |
| WarmLedger.TakeYieldsTheEntry | src/project/cache_warmer_queue.rs:372-379 | A take hands the worker exactly the ledger's entry for the job it received, or nothing if there is none. |
| WarmLedger.RecordedTargetIsDelivered | src/project/cache_warmer_queue.rs:64-112 | A recorded target of any kind stands as recorded until another call displaces it, and a take that comes first hands over that very target. |
| WarmLedger.AnswerIsTrue | src/project/cache_warmer_queue.rs:64-106 | A record is answered with yes exactly if its target then stands in `latest`, or it is a Scene's, found no room, and its Project is dirty. |
| WarmLedger.WaitsExactlyWhileNothingFits | src/project/cache_warmer_queue.rs:73-86 | A producer waits exactly while its Scene finds no room and one more dirty Project would be one too many. |
| WarmDeliveries.LatestIsTheLedger | src/project/cache_warmer_queue.rs:64-199 | The same in every run of locked sections, with recovered work folded in at the generation that was read. |
| WarmDeliveries.TakeYieldsTheEntry | src/project/cache_warmer_queue.rs:372-379 | The same for a take between the sections of others. |
| WarmDeliveries.RecordedTargetIsDelivered | src/project/cache_warmer_queue.rs:64-112 | The same, also while the job of the target is refused and undone. |
| SceneOrder.AddressLessIsTotal | src/project/cache_target.rs:107-117 | The derived address order is total, together with transitivity and irreflexivity. |
| SceneOrder.AddressLessIsTransitive | src/project/cache_target.rs:107-117 | The derived address order is transitive. |
| SceneOrder.PrefixIsLess | src/project/cache_target.rs:107-117 | A proper prefix sorts before the whole string. |
| SceneOrder.StringLessExactlyWhen | src/project/cache_target.rs:107-117 | Of two texts the one with the smaller character at the first difference, or that ends there, sorts before. |
| SceneOrder.AddressesInOrder | src/project/cache_target.rs:107-117 | Addresses sort by Scene, prim paths before members, paths as texts, members by number. |
| SceneCache.OrderedAtAnyDistance | src/project/cache_target.rs:188-191 | Neighbour-wise strict order is strict order at any distance, so a valid index has distinct addresses. |
| SceneBuild.CollectOwnedPrimPaths | src/project/cache_scene_build.rs:225-243 | The collected paths are exactly those of prims with no member root at or above them, each once in a well-named tree, appended to what was collected before. |
| SceneBuild.PathsAreUnambiguous | src/project/cache_scene_build.rs:225-243 | Plain names along two chains make one path only if the chains agree. |
| SceneBuild.OwnedExactlyOutsideMembers | src/project/cache_scene_build.rs:225-243 | A prim of the Scene is owned exactly if its path is neither a member root's nor below one. |
| SceneBuild.AssignParentIndexes | src/project/cache_scene_build.rs:283-300 | The in-place pass, a path map and then one assignment per row, leaves exactly the rows the specification of parent links gives. |
| SceneBuild.SpatialIndexIsValid | src/project/cache_scene_build.rs:302-316 | The spatial index of a valid index validates for the same Scene and generation. |
| SceneBuild.ParentsKeepIndexValid | src/project/cache_scene_build.rs:283-300 | Linking parents keeps a valid index valid. |
| SceneBuild.SortKeepsSorted | src/project/cache_scene_build.rs:127-137 | Sorting by address leaves a sorted list as it is. |
| SceneBuild.SortIsStable | src/project/cache_scene_build.rs:127-137 | Rows of one address keep their order. |
| SceneBuild.ParentSitsBefore | src/project/cache_scene_build.rs:283-300 | Every parent index is strictly smaller than its child's. |
| SceneBuild.BuiltIndexIsAForest | src/project/cache_scene_build.rs:42-137 | A built index and its spatial index validate, and following parents goes strictly down: a forest. |
| SceneBuild.LinkFollowsTree | src/project/cache_scene_build.rs:283-300 | A row's parent link leads to the row of its parent path. |
| SceneBuild.BuildFromStage | src/project/cache_scene_build.rs:42-137 | The build from a prim tree has one owned row for exactly the owned paths, with everything extraction found out about its prim, and a row for each member with its place and transform; it is sorted, valid and a forest. |
| SceneBuild.OwnedRowsArePaths | src/project/cache_scene_build.rs:127-137 | Owned rows and collected paths correspond. |
| SceneProtocol.Fill | src/project/cache_demand_projection.rs:186-218 | A payload is refused exactly when no row owns its path; rows are never added. |
| SceneSafety.StepIsSound | src/project/cache_scene_store.rs:122-212 | Every step of a publisher, locked or unlocked remover or unlocked writer keeps the descriptor's digests naming valid files. |
| SceneSafety.RunIsSound | src/project/cache_scene_store.rs:122-212 | Every reachable state does. |
| SceneSafety.LoadedIndexIsThePublishedOne | src/project/cache_scene_store.rs:214-226 | Whatever the moments of its two reads, `load_index` yields nothing or exactly the index whose publication produced the descriptor it read; it never reports a corrupt one. |
| SceneSafety.NamedIndexWasPublished | src/project/cache_scene_store.rs:146-174 | A descriptor that names an index comes from a publication of that index and generation. |
| SceneSafety.GenerationsGoForward | src/project/cache_scene_store.rs:68-90 | Between removals the generation on file never decreases. |
| SceneSafety.NoPublisherOfADeadGeneration | src/project/cache_scene_store.rs:176-192 | After the generation advanced, no publisher of an older one is at work. |
| SceneSafety.BuildOfADeadGenerationIsRefused | src/project/cache_warm_runtime.rs:49-125 | A managed build based on a generation that was advanced past publishes nothing. |
| SceneSafety.PrimCountOfADeadGenerationIsStale | src/project/cache_scene_prim_count.rs:20-94 | A prim count for a generation that was advanced past is stale. |
| SceneSafety.ActivationAgreesOnGeneration | src/project/cache_scene_store.rs:231-263 | Without removals the pair from `load_activation` agrees on its generation. |
| SceneActivation.IndexLoadsExactlyWhen | src/project/cache_scene_store.rs:214-226 | Of files that stay as they are, `load_index` finds exactly the index on file, if the descriptor names it and it validates; it is missing exactly if none is there that the descriptor names. |
| SceneActivation.SpatialLoadsExactlyWhen | src/project/cache_scene_store.rs:265-280 | The same for the spatial index. |
| SceneActivation.ActivatesExactlyWhen | src/project/cache_scene_store.rs:231-263 | `load_activation` yields the pair on file, exactly if the descriptor is Partial or Ready and names the index there, which validates. |
| SceneActivation.UndisturbedReaderGetsTheFiles | src/project/cache_scene_store.rs:231-263 | In every run, reads at whatever moments between which nobody touches descriptor and index file yield what the files say. |
| SceneActivation.PublicationIsActivated | src/project/cache_scene_store.rs:146-174 | After a publication that made a Partial or Ready Scene such a reader gets exactly the published index with the descriptor that names it; after any other publication nothing. |
| SceneActivation.AdvanceEndsActivation | src/project/cache_scene_store.rs:68-118 | After an advance nothing is activated until something is published. |
| SceneActivation.TerminalMarkingEndsActivation | src/project/cache_warmer.rs:238-255 | Nor after a failed warm was marked; the marked descriptor differs in its state alone. |
| SceneActivation.TerminalMarkingSparesOthers | src/project/cache_warmer.rs:238-255 | The marking changes no other generation and no descriptor that is not Building. |
| SceneActivation.BuildIsActivated | src/project/cache_warm_runtime.rs:70-125 | An undisturbed build with a Partial or Ready caller is activated as built. |
| SceneFields.AdvanceLeaves | src/project/cache_scene_store.rs:68-118 | Every field of the descriptor an advance leaves: next generation, Building, nothing counted, nothing named. |
| SceneFields.RemovalLeaves | src/project/cache_scene_store.rs:194-212 | A removal takes one file at a time and leaves the others. |
| SceneFields.BuildCapturesExactlyWhen | src/project/cache_warm_runtime.rs:52-71 | A build goes ahead exactly on a descriptor of its caller's generation, schema, configuration and stamp, unless two different source hashes are known. |
| SceneFields.BuildLeaves | src/project/cache_warm_runtime.rs:75-101 | Every field of a build's descriptor: Building gives way to the caller's state, a lacking source hash is the caller's, counts and sizes are those of the rows, the rest is as captured. |
| SceneFields.RepairLeaves | src/project/cache_demand_projection.rs:213-225 | Every field of a repair's descriptor: counts and sizes of the repaired rows, the rest as expected. |
| SceneFields.CountIsPublishedExactlyWhen | src/project/cache_scene_prim_count.rs:20-94 | When a prim count is published, stale or to be tried again, exactly, by identity, state, the files that are there and the rows already counted cacheable. |
| SceneFields.CountLeaves | src/project/cache_scene_prim_count.rs:20-80 | A published count changes the count alone and names the files that are there, or new ones without rows. |
| SceneFields.SpatialListsBounds | src/project/cache_scene_build.rs:302-316 | The spatial index lists exactly the rows with bounds, with their bounds. |
| SceneFields.IndexValidatesExactlyWhen | src/project/cache_target.rs:180-218 | An index validates exactly if it has schema, Scene and generation, its addresses ascend at any distance, and each row is of its Scene, has another row for parent, and geometry only as cacheable and under its own digest. |
| SceneFields.SpatialValidatesExactlyWhen | src/project/cache_target.rs:232-246 | The same for a spatial index. |
| SceneRaces.NewNameWasWritten | src/project/cache_scene_store.rs:146-174 | A descriptor comes to name another index only when a publication of that index writes it. |
| SceneRaces.ActivationMixesExactlyWhenRenamed | src/project/cache_scene_store.rs:231-263 | Between two moments whose descriptors agree, some reader is given an index its descriptor does not name only if a publication of another index completes in between; and exactly then, if from some moment at or before the first, with no publisher at work, nobody removes the index file. |
| SceneRaces.RebuildPlays | src/project/cache_warm_runtime.rs:70-125 | A build under the descriptor on file, undisturbed, is a history that leaves exactly its own three files. |
| SceneRaces.ActivationCanMixIndexes | src/project/cache_scene_store.rs:231-263 | A history of three builds, from no files on, in which a reader is given such a pair. |
| SceneRaces.SplitTerminalizeIsAtomicUndisturbed | src/project/cache_warmer.rs:238-255 | With no publication, advance or removal between its halves, the unlocked marking does what the single step does, other markings notwithstanding. |
| SceneRaces.SplitTerminalizeTakesBackExactlyWhen | src/project/cache_warmer.rs:238-255 | In every run the unlocked marking leaves the descriptor it read, marked; that is another than the one on file, marked, exactly if the last publication, advance or removal between its halves left another one, or none. |
| SceneRaces.SplitTerminalizeGoesBackExactlyWhen | src/project/cache_warmer.rs:238-255 | Without a removal in between, the unlocked marking brings a dead generation back exactly if an advance committed between its halves. |
| SceneRaces.SplitTerminalizeLosesPublicationExactlyWhen | src/project/cache_warmer.rs:238-255 | Within one generation, whatever descriptor it read, the marking takes the index on file away exactly if the last publication between its halves named another index than that descriptor. |
| SceneRaces.SplitTerminalizeTakesCountsBackExactlyWhen | src/project/cache_warmer.rs:238-255 | And it takes the counts on file back exactly if that last publication left other counts than the descriptor read. |
| SceneRaces.SplitTerminalizeCanGoBack | src/project/cache_warmer.rs:238-255 | A history in which a dead generation comes back. |
| SceneRaces.SplitTerminalizeCanLosePublication | src/project/cache_warmer.rs:238-255 | A history in which an index is lost, and an activation that succeeded before does not after. |
| SceneRaces.SplitTerminalizeCanTakeCountBack | src/project/cache_scene_prim_count.rs:94-94 | A history of two prim counts of a Building Scene whose second one the marking takes back, with the index unchanged. |
| SceneRaces.SplitTerminalizeCanLoseBuildAfterCount | src/project/cache_warmer.rs:238-255 | A history in which the descriptor read already names the empty index of a prim count, and the index of the build after it is lost. |
| SceneRepairs.RepairKeepsGeometry | src/project/cache_demand_projection.rs:186-218 | A repaired index has geometry wherever the old one had and for every payload given. |
| SceneRepairs.RepairValidates | src/project/cache_demand_projection.rs:186-237 | Repairing a valid activation gives an index, a spatial index and a descriptor that validate. |
| SceneRepairs.GrantedRepairIsCurrent | src/project/cache_demand_projection.rs:219-237 | A repair that wins the compare-and-swap worked on an index with all the geometry of the one it replaces, although it read without the lock. |
| SceneRepairs.GeometryIsKept | src/project/cache_scene_store.rs:176-192 | Over any interleaving of repairs, prim counts and crashes of one generation, geometry once named stays named. |
| SceneRepairs.NoRepairIsLost | src/project/cache_demand_projection.rs:169-237 | After a repair published, every later descriptor of that interleaving names a valid index with the repair's geometry. |
| SceneRows.RepairChangesItsRows | src/project/cache_demand_projection.rs:183-212 | Row by row: the first row that owns a path payloads name has the blob, size and content hash of the last of them, and its old bounds or the first ones given; every other field, and every other row, is as it was, parents aside. |
| SceneRows.RepairRefusesExactlyWhen | src/project/cache_demand_projection.rs:186-194 | A repair is refused exactly if some payload's path has no owning row. |
| SceneRows.RepairedRowStands | src/project/cache_demand_projection.rs:169-237 | Over any interleaving of repairs, prim counts, failed warms and crashes, the row stays named with its blob until another repair of that path is published, or one that read index and descriptor of different publications. |
| SceneRows.RepairTakesRowBackExactlyWhen | src/project/cache_demand_projection.rs:169-237 | A granted repair takes back a row it does not name exactly if the index it read has another row there than the descriptor it replaces, which then names another index. |
| SceneLostRows.MixedRepairCanTakeRowBack | src/project/cache_demand_projection.rs:169-237 | A history of four repairs in which the last one, of another path, takes the blob of the third back. |
| SceneStore.PartialPublicationIsInvisible | src/project/cache_scene_store.rs:146-174 | What a publication leaves that stops at any of its writes is read as the old index, the very index it wrote, or none. |
| SceneStore.SceneCacheStore.LoadDescriptor | src/project/cache_scene_store.rs:282-300 | Yields the descriptor on file only if it belongs to the Scene and validates. |
| SceneStore.SceneCacheStore.PublishDescriptor | src/project/cache_scene_store.rs:134-144 | Replaces the descriptor and nothing else, or changes nothing. |
| SceneStore.SceneCacheStore.AdvanceGeneration | src/project/cache_scene_store.rs:68-118 | On success the next generation's Building descriptor is on file; on any failure, overflow included, nothing changed. |
| SceneStore.SceneCacheStore.PublishGeneration | src/project/cache_scene_store.rs:146-174 | On success the three files are exactly the published ones; on failure only the files written so far changed. |
| SceneStore.SceneCacheStore.PublishGenerationIfCurrent | src/project/cache_scene_store.rs:176-192 | Publishes only over the expected descriptor, whole; refuses without a trace otherwise. |
| SceneStore.SceneCacheStore.RemoveScene | src/project/cache_scene_store.rs:194-212 | On success nothing of the Scene is left; on failure files may be gone but none is replaced. |
| SceneStore.SceneCacheStore.RemoveAllDerivedCache | src/project/cache_scene_store.rs:122-132 | On success no Scene has any file. |
| SceneStore.SceneCacheStore.LoadIndex | src/project/cache_scene_store.rs:214-226 | Agrees with the protocol's load on the files at hand. |
| SceneStore.SceneCacheStore.LoadActivation | src/project/cache_scene_store.rs:231-263 | Agrees with the protocol's activation on the files at hand. |
| SceneStore.SceneCacheStore.MarkWarmFailureTerminal | src/project/cache_warmer.rs:238-255 | Terminalizes the Building descriptor of that generation or changes nothing. |
| SceneStore.SceneCacheStore.LoadSpatial | src/project/cache_scene_store.rs:265-280 | Agrees with the protocol's load of the spatial index on the files at hand. |
| ScenePublishing.PublishPrimCountIfCurrent | src/project/cache_scene_prim_count.rs:20-80 | Every answer is the one the protocol's plan gives for the files at hand, and leaves exactly its files or none changed; an error leaves at most a prefix of its writes. |
| ScenePublishing.FillAt | src/project/cache_demand_projection.rs:186-206 | Filling changes the first row that owns the path and no other. |
| ScenePublishing.FindOwned | src/project/cache_demand_projection.rs:187-192 | The first row that owns the path, or that there is none. |
| ScenePublishing.FillPayloads | src/project/cache_demand_projection.rs:186-207 | Filling payload by payload in place succeeds exactly if every payload's path has its row, and gives the specified rows. |
| ScenePublishing.RepairRows | src/project/cache_demand_projection.rs:183-212 | The repaired index is the given one filled, sorted and linked again. |
| ScenePublishing.PersistScenePayloads | src/project/cache_demand_projection.rs:169-237 | A repair replaces exactly the descriptor it was asked to repair, by the repaired index's files, or nothing; an error leaves at most a prefix of its writes. |
| ScenePublishing.BuildAndPublishManaged | src/project/cache_warm_runtime.rs:49-125 | A build publishes its files under the captured descriptor's identity with the build's counts, or nothing; an error leaves a prefix of its writes, or all of them when only the lookup failed. |
| WarmAdmission.DeduplicatedKeepsTargets | src/project/cache_warmer_enqueue.rs:46-47 | Sorting and dropping repetitions keeps every target, once, in key order. |
| WarmAdmission.BoundaryStopsActivation | src/project/cache_scene_store.rs:231-242 | Behind a boundary no activation succeeds, whatever index file is found. |
| WarmAdmission.EstablishedGrows | src/project/cache_warmer_enqueue.rs:63-101 | One more target's boundary keeps what the boundaries of the earlier ones established. |
| WarmAdmission.RecordedIsAdmitted | src/project/cache_warmer_enqueue.rs:108-122 | Admitted work is for given targets, with distinct build numbers and the generation now on file. |
| WarmAdmission.ProjectTargetsExactly | src/project/cache_warmer.rs:138-155 | A Project's targets are its root, if it has one, its Scenes and its Models. |
| WarmAdmission.ProjectCacheWarmQueue.RemoveTargetDescriptors | src/project/cache_warmer.rs:104-136 | Success for a Scene leaves none of its files; failure replaces none; other Scenes are untouched. |
| WarmAdmission.ProjectCacheWarmQueue.EnqueueTargetsInner | src/project/cache_warmer_enqueue.rs:40-124 | Failing closed: success means no target Scene stays activatable, and each has a newer generation or no descriptor if it is given under one text, its boundaries leaving a trace as in `BoundedExactlyWhen`; work is admitted only if every boundary succeeded; a fatal failure admits none. Otherwise generations only go forward. |
| WarmAdmission.ProjectCacheWarmQueue.EnqueueProjectTargets | src/project/cache_warmer.rs:84-96 | Success means every manifest Scene has a newer generation; failure never takes one back. |
| WarmAdmission.ProjectCacheWarmQueue.EnqueueProjectTargetsFailClosed | src/project/cache_warmer_recovery.rs:13-66 | Under arbitrary failures, a true answer means every manifest Scene has a newer generation or no descriptor. |
| WarmAdmission.BoundedExactlyWhen | src/project/cache_warmer_enqueue.rs:63-101 | Over the boundaries of one call that fails closed, a Scene targeted under however many texts ends at a newer generation or without a descriptor exactly if no boundary removed it, the last one did, it had none before, or the advances since the last removal outnumber its old generation. |
| WarmAdmission.TwoTextsCanFallBack | src/project/cache_warmer_enqueue.rs:63-101 | Two texts of one Scene that take it from generation 5 back to 1. |
| CacheLookup.AgreementDecides | src/project/cache_lookup.rs:20-29 | The plain lists of rows decide all seven maps, list order included. |
| LookupUpdates.RowIsAppended | src/project/cache_lookup.rs:123-150 | A row is refused exactly when its address is listed; otherwise all maps say what the Scene's list with the row appended says. |
| LookupUpdates.SceneIsForgotten | src/project/cache_lookup.rs:152-174 | Removal through the Scene's own key lists drops its rows from every map and no other row. |
| LookupUpdates.IndexIsInserted | src/project/cache_lookup.rs:111-121 | A valid index of a new Scene goes in whole. |
| LookupUpdates.BuiltLookupAgrees | src/project/cache_lookup.rs:32-44 | A lookup can be built exactly from valid indexes of different Scenes, and then says what they say. |
| LookupTheorems.ReplaceEqualsRebuild | src/project/cache_lookup.rs:63-69 | Replacing an index succeeds exactly on valid indexes, equals building from the updated list, and otherwise changes nothing. |
| LookupTheorems.SessionEqualsRebuild | src/project/cache_lookup.rs:63-69 | The same after any sequence of updates. |
| LookupTheorems.ReplaceLeavesOtherScenes | src/project/cache_lookup.rs:63-69 | An update of one Scene changes no answer about another. |
| LookupTheorems.MergeableCounts | src/project/cache_lookup.rs:32-44 | Whether a list can be built from depends on its elements, not their order. |
| LookupTheorems.SceneOrderIsIrrelevant | src/project/cache_warm_runtime.rs:153-165 | Listing the same indexes in another order gives the same lookup or the same refusal. |
| LookupTheorems.SortedRowsAreUnique | src/project/cache_lookup.rs:91-99 | Two address-sorted lists of the same rows are the same list. |
| LookupTheorems.PersistenceRoundTrips | src/project/cache_lookup.rs:46-61 | Writing a built lookup's generations and rows and reading them back succeeds and gives the same seven maps. |
| LookupTheorems.AddressFindsItsEntry | src/project/cache_lookup.rs:71-73 | An address finds exactly the object of its entry. |
| LookupTheorems.HashFindsItsAddresses | src/project/cache_lookup.rs:75-77 | A content hash finds, in address order and once each, exactly the Scene's addresses with that content. |
| LookupAnswers.AddressShowsItsRow | src/project/cache_lookup.rs:71-73 | An address finds exactly an object that shows every field of the row at that address. |
| LookupAnswers.ForeignAddressFindsNothing | src/project/cache_lookup.rs:71-81 | Addresses of Scenes without an index find nothing. |
| LookupAnswers.HashFindsItsRows | src/project/cache_lookup.rs:75-77 | A content hash finds, ascending, exactly the addresses of owned prims with that content. |
| LookupAnswers.GenerationIsTheIndexs | src/project/cache_lookup.rs:79-81 | A Scene's generation is that of its index. |
| LookupAnswers.MemberFindsItsChild | src/project/cache_lookup.rs:83-89 | A member finds exactly the child Scene of the last row that stands for it. |
| LookupState.SortRowsSorts | src/project/cache_lookup.rs:97-97 | Sorting keeps the rows and orders them by address. |
| LookupState.ProjectCacheLookup.InsertRow | src/project/cache_lookup.rs:123-150 | The whole new state of inserting a row, including the overwritten object of a refused duplicate. |
| LookupState.ProjectCacheLookup.InsertSceneIndex | src/project/cache_lookup.rs:111-121 | The row-by-row loop ends where the specification says, also when it stops early. |
| LookupState.ProjectCacheLookup.RemoveScene | src/project/cache_lookup.rs:152-174 | The three loops remove exactly the Scene's keys, duplicates in the key lists included. |
| LookupState.ProjectCacheLookup.ReplaceSceneIndex | src/project/cache_lookup.rs:65-69 | Validation, removal and insertion give the specified state. |
| LookupState.ProjectCacheLookup.Rows | src/project/cache_lookup.rs:91-99 | Every row once, in address order, whatever order the map is read in. |
| LookupState.ProjectCacheLookup.Generations | src/project/cache_lookup.rs:101-109 | Every Scene's generation once, in Scene order, whatever order the map is read in. |
| LookupState.BuildFromSceneIndexes | src/project/cache_lookup.rs:32-44 | The loop with its early refusals builds what the specification builds. |
| LookupState.BuildFromPersistentRows | src/project/cache_lookup.rs:46-61 | Likewise from persisted rows, refusing repeated generations and addresses. |
| LookupState.PublishAndLoad | src/project/cache_warm_runtime.rs:129-191 | Building a lookup, listing its generations and rows and building from the lists gives the same seven maps, end to end. |
| AssetPaths.RelativeLeadsBack | src/project/storage/layout.rs:222-298 | The relative path written for a file leads back to it from the layer's directory. |
| AssetPaths.RelativeEndsInName | src/project/storage/layout.rs:222-298 | The relative path is non-empty and ends in the file's name unless the file is a directory above the layer. |
| AssetPaths.TileTextReadsBack | src/project/source_closure_patterns.rs:28-40 | A tile is written in four digits that read back. |
| AssetPaths.PatternsAsWritten | src/project/source_closure_patterns.rs:28-40 | The token, the range of tiles, and which asset is the empty one. |
| ClosureValue.PutThenGet | src/project/source_closure_localize_patterns.rs:77-123 | Updating one key of a clip set changes what that key holds and no other. |
| ClipTimes.ExpandTimes | src/project/source_closure_patterns.rs:78-93 | The loop over a template's times makes exactly the times in the range, truncated, in order; it gives up exactly if there are more than a million. |
| ClipTimes.NumberClip | src/project/source_closure_patterns.rs:62-101 | The same from the three metadata values, refused unless they are finite doubles with a stride forward and a range that is not empty. |
| ClipTimes.TruncatedIsWholePart | src/project/source_closure_patterns.rs:83-83 | Times are truncated toward zero. |
| ClipTimes.PaddedReadsBack | src/project/source_closure_patterns.rs:81-85 | A padded number reads back, holds no marks, and has the width of the marks unless its digits need more. |
| ClipTimes.ClipsArePaddedWithoutMarks | src/project/source_closure_patterns.rs:81-85 | So the program's numbering writes no marks. |
| ClipTimes.ExpandsExactlyWhen | src/project/source_closure_patterns.rs:62-119 | A template expands exactly if all its marks are one run and there are times. |
| ClipTimes.ExpandedFile | src/project/source_closure_patterns.rs:78-93 | Each file is the template with its padded time in the place of the run. |
| ClipTimes.FilesDifferByTime | src/project/source_closure_patterns.rs:78-93 | Two files of a template are one exactly if their times truncate to one number. |
| Localize.RelativeIsFound | src/project/source_closure_localize_rewrite.rs:165-192 | A rewritten single asset finds its localized file, and a path inside it that it holds; the destination may be any normal path. |
| Localize.PatternFindsImages | src/project/source_closure_localize_patterns.rs:33-68 | A pattern in the file name finds, in the copy, exactly the images of the tiles it found. |
| Localize.TilesResolve | src/project/source_closure_patterns.rs:12-59 | A pattern stands for exactly the files its numbered candidates resolve to. |
| LocalizeTheorems.LayerAssetIsPlaced | src/project/source_closure_localize_rewrite.rs:165-192 | A layer asset is rewritten exactly when it stands for one file of the closure, and then finds its image. |
| LocalizeTheorems.PatternAssetIsPlaced | src/project/source_closure_localize_patterns.rs:33-68 | A pattern is rewritten exactly when its files move to one directory, and then finds their images. |
| LocalizeTheorems.AssetIsCarried | src/project/source_closure_localize_rewrite.rs:136-163 | When an asset value is rewritten, kept or refused, exactly, and that the rewritten one finds the images. |
| LocalizeTheorems.ArcIsCarried | src/project/source_closure_localize_rewrite.rs:33-79 | The same for references and payloads. |
| LocalizeValues.TemplateIsCarried | src/project/source_closure_localize_patterns.rs:105-123 | A clip template with its marks in the file name expands to the images of its expansion, unless a directory on its new way has marks of its own; then it expands to nothing. One with marks in a directory expands to nothing too, or, below a directory with marks, to paths of which none is an image, as numbers are written without marks. |
| LocalizeValues.ClipIsCarried | src/project/source_closure_localize_patterns.rs:70-126 | The three updates of a clip set carry all its dependencies. |
| LocalizeValues.LocalizationCommutes | src/project/source_closure_localize_rewrite.rs:15-134 | For every value tree, the dependencies of the rewritten value in the copy are, one by one, the images of the value's dependencies in the original layer, except kept optional or empty assets; with or without the arcs composition follows. |
| LocalizeFrame.LocalizationKeepsTheRest | src/project/source_closure_localize_rewrite.rs:15-134 | Every rewritten value is the value with its assets elsewhere: same constructors, lengths, order, keys, sample times, numbers and texts, same prim paths and offsets of arcs, same paths inside packages. |
| LocalizeFrame.ClipKeepsTheRest | src/project/source_closure_localize_patterns.rs:70-126 | In a clip set nothing changes but the assets under its three asset keys. |
| LocalizeSucceeds.TemplateSucceedsExactlyWhenServed | src/project/source_closure_localize_patterns.rs:105-123 | A template is rewritten exactly if its files exist, one for each time, move to one directory, and its own name there is not the layer's directory. |
| LocalizeSucceeds.LocalizationSucceedsExactlyWhenServed | src/project/source_closure_localize_rewrite.rs:15-134 | A value is rewritten exactly if its dependencies, arcs included, all have their place in the plan or are allowed to lack one, as empty clip paths and optional assets are, and no sublayer path is empty. |
| ClosurePlan.BuildMapping | src/project/source_closure_localize.rs:144-162 | Every closure file gets the place the plan gives it; refused exactly if one has none. |
| ClosurePlan.NamesAreKept | src/project/source_closure_localize.rs:176-191 | Files are copied under their own names. |
| ClosurePlan.OneTargetDirectoryExactlyWhen | src/project/source_closure_localize.rs:176-191 | Two files go to one directory exactly when they come from one, or one's directory is laid out like the other's place. |
| ClosurePlan.PlacesAreUniqueExactlyWhen | src/project/source_closure_localize.rs:144-191 | No two files share a place exactly when no source file sits, under its name, where an external one goes. |
| ClosurePlan.PlanIsOrderly | src/project/source_closure_localize.rs:144-191 | A plan whose `external` directory is free, for files with plain names, keeps directories apart and makes no file another's directory. |
| DiscoveryFacts.ClosedHoldsReachable | src/project/source_closure_discovery.rs:63-111 | A set of layers that holds the root and is closed under what visits find holds everything reachable. |
| DiscoveryFacts.ExplorationGrows | src/project/source_closure_discovery.rs:63-111 | A further visit keeps: the report is the visits' facts, the scans are the visits' scans, and all is reachable. |
| DiscoveryFacts.ExplorationIsReachability | src/project/source_closure_discovery.rs:63-111 | When nothing waits, the visited layers are exactly the reachable ones. |
| DiscoveryFacts.LayersAreKnown | src/project/source_closure_discovery.rs:63-111 | Every layer found is one of finitely many canonical files, so the worklist ends. |
| ClosureDiscovery.DiscoveryState.AddLayer | src/project/source_closure_discovery.rs:213-229 | Lists the canonical file or reports it, and queues it unless visited. |
| ClosureDiscovery.DiscoveryState.AddDependency | src/project/source_closure_discovery.rs:231-258 | Adds exactly the facts of one dependency: its layers or files, or one unresolved or tolerated asset. |
| ClosureDiscovery.DiscoveryState.ScanValue | src/project/source_closure_discovery.rs:287-371 | Adds exactly the facts of the value's dependencies. |
| ClosureDiscovery.DiscoveryState.VisitIdentifier | src/project/source_closure_discovery.rs:85-110 | Adds exactly the identifier's facts and looks into its layer unless that was done before. |
| ClosureDiscovery.DiscoveryState.Discover | src/project/source_closure_discovery.rs:44-120 | Over any finite layer graph the worklist terminates; it succeeds exactly if every reachable layer can be read; then the layers with the root are exactly the reachable ones, the root is not listed, each list holds exactly what is found from the reachable layers, and each layer was looked into exactly once. |
| ClosureReport.OptionalExactlyByExtension | src/project/source_closure_discovery.rs:373-386 | Missing assets are tolerated by their extension alone, in small or capital letters. |
| ClosureReport.VisitFindsExactly | src/project/source_closure_discovery.rs:63-111 | A visit contributes exactly what opening the file, naming its layers and resolving what their fields ask for finds. |
| ClosureReport.ReportIsExact | src/project/source_closure_discovery.rs:44-120 | Each of the four lists of a report, exactly. |
| ClosureReport.ToleratedExactlyRendererOnly | src/project/source_closure_discovery.rs:248-257 | The optional unresolved assets are exactly the missing renderer-only ones that are asked for as no layer. |
| ClosureReport.CompleteExactlyWhenIntact | src/project/source_closure_discovery.rs:44-120 | A report is complete exactly if every reachable file opens without composition errors, every layer named or asked for is a regular file, every template expands, and every other asset is there or renderer-only. |
| ClosureReport.ReadableGoesOn | src/project/source_closure_discovery.rs:63-111 | A discovery goes on after a file exactly if its stage can be traversed and every layer it looks into can be read. |
| ClosureExactness.CompleteReportKnowsDependencies | src/project/source_closure_localize.rs:122-130 | A report without unresolved dependencies knows the files of every dependency of every scanned field. |
| ClosureExactness.KnownAssetIsRewritten | src/project/source_closure_localize_rewrite.rs:136-163 | An asset value known to the closure is refused exactly if it is required and its pattern is spread over several directories. |
| ClosureExactness.CompleteReportLocalizes | src/project/source_closure_localize.rs:35-94 | After a complete report, under an orderly plan, every field of every layer looked into is rewritten and its dependencies in the copy, arcs included, are the images of the original ones, if each pattern's files stay together. |
| ClosureExamples.MarksInDirectoryAreLost | src/project/source_closure_localize_patterns.rs:105-123 | A template with marks in a directory, localized below a directory `C#`, that is rewritten and then expands to nothing. |
| ClosureExamples.PlacesCanBeShared | src/project/source_closure_localize.rs:176-191 | Two files of one closure with one place. |
| ClosureExamples.SpreadTextureIsKept | src/project/source_closure_localize_rewrite.rs:136-163 | A pattern with tiles in two directories that keeps its text and finds nothing in the copy. |
| ManagedLayer.NormalizeLayer | src/project/source_closure.rs:255-302 | The index loop with its look-behind and look-ahead computes the normal form. |
| ManagedLayer.NormalFormIsIdempotent | src/project/source_closure.rs:255-302 | Normalizing twice is normalizing once; a layer without display lines is its own normal form. |
| ManagedLayer.DisplayLineIsInvisible | src/project/source_closure.rs:268-293 | Changing a display line leaves the normal form alone exactly unless one of the two ends in an opening parenthesis, the other does not, and the end of a block follows. |
| ManagedLayer.OpenDisplayLineIsVisible | src/project/source_closure.rs:271-290 | Such a change, concretely. |
| ManagedLayer.BlockIsInvisible | src/project/source_closure.rs:279-290 | Adding or removing a metadata block that holds only a display line leaves the normal form alone if the header ends in no blank or opening parenthesis, and only then if no display line after it ends in one. |
| ManagedLayer.FramingIsInjective | src/project/source_closure.rs:297-300 | The bytes given to the hash determine the normal form. |
| ManagedLayer.DisplayExactlyWhen | src/project/source_closure.rs:266-270 | A display line is blanks and then one of the two display-name texts. |
| ManagedLayer.EndsOpenExactlyWhen | src/project/source_closure.rs:271-275 | A line ends open if nothing but blanks follows an opening parenthesis. |
| ManagedLayer.StripExactly | src/project/source_closure.rs:284-288 | Stripping takes off exactly the blanks and opening parentheses at the end. |
| ManagedLayer.ClosingExactlyWhen | src/project/source_closure.rs:282-282 | A line closes if it holds blanks and closing parentheses only. |
| ManagedLayer.LittleEndianReadsBack | src/project/source_closure.rs:298-298 | A length is written least byte first. |
| CheckpointQueue.SubmissionIsKept | src/project/recovery_worker.rs:44-59 | Submitting keeps: submitted = taken + waiting + coalesced, what waits is the newest, what was taken came in order. |
| CheckpointQueue.TakingIsKept | src/project/recovery_worker.rs:61-72 | Taking keeps the same and takes the oldest waiting. |
| CheckpointQueue.NewestIsKept | src/project/recovery_worker.rs:44-72 | The newest accepted work is never pushed out. |
| CheckpointQueue.PushesOutExactlyWhenFull | src/project/recovery_worker.rs:44-59 | Work is pushed out exactly when four are waiting, and then the oldest; the high water is the most that ever waited. |
| CheckpointQueue.WaitsExactlyWhenOpenAndEmpty | src/project/recovery_worker.rs:61-72 | The worker waits exactly on an open queue with nothing in it; else it gets the oldest work, or learns that a closed queue is drained. |
| CheckpointQueue.RecoveryQueue.Submit | src/project/recovery_worker.rs:44-59 | Refused exactly when closed; otherwise the specified queue, with its high water and coalesced counts. |
| CheckpointQueue.RecoveryQueue.Recv | src/project/recovery_worker.rs:61-72 | The oldest waiting work, or nothing when closed and empty. |
| CheckpointQueue.RecoveryQueue.Stats | src/project/recovery_worker.rs:74-82 | The three counters. |
| CheckpointQueue.RecoveryQueue.Close | src/project/recovery_worker.rs:84-89 | Closes and changes nothing else. |
| RecoveryDisk.RecoveryStore.WriteCheckpoint | src/project/recovery.rs:136-190 | On success both files are the checkpoint's; a failure leaves both, or the new stage with the old metadata. |
| RecoveryDisk.RecoveryStore.Look | src/project/recovery.rs:193-220 | Yields metadata only if it validates and the stage has its digest. |
| RecoveryDisk.CheckpointIsAcceptedExactlyWhen | src/project/recovery.rs:193-220 | A checkpoint is accepted exactly if both files are there and the metadata has the format, the session and the stage's own digest. |
| RecoveryDisk.MetadataSaysItsWork | src/project/recovery.rs:136-190 | The metadata says everything about the work, field by field. |
| RecoveryDisk.StepIsSound | src/project/recovery_worker.rs:147-172 | Every step keeps metadata on disk belonging to taken work no later than the last taken. |
| RecoveryDisk.RunRestoresWholeCheckpoints | src/project/recovery.rs:193-220 | At every moment of every run, so after a crash at any point, an accepted checkpoint's metadata and stage belong to one submitted work. |
| RecoveryDisk.RevisionNeverGoesBack | src/project/recovery_worker.rs:147-172 | With ordered submissions a session's revision on disk never decreases until it is cleared, over failures and coalesced work. |
| RecoveryDisk.DrainedQueueLeavesNewest | src/project/recovery_worker.rs:44-72 | Once the queue is drained and the last write succeeded, inspection yields the newest checkpoint submitted. |
| ModelPublication.CandidatesDiffer | src/project/model_wrapper.rs:364-370 | Different ordinals make different storage keys. |
| ModelPublication.UsedCandidatesAreFew | src/project/model_wrapper.rs:364-385 | A run of used candidates is no longer than the set of used keys. |
| ModelPublication.NextStorageKey | src/project/model_wrapper.rs:364-385 | The first unused candidate, found within one more attempt than there are keys; refused exactly for an invalid name. |
| ModelPublication.KeysAsWritten | src/project/model_wrapper.rs:364-385 | How numbered keys are written, and keys that are refused. |
| ModelPublication.PublishModel | src/project/model_wrapper.rs:138-362 | Exactly when it succeeds; then all four are the new ones; if it fails and the rollback succeeds, the Project is as before, exactly unless an empty import directory had been replaced. |
| ModelPublication.BareImportsAreLost | src/project/model_wrapper.rs:312-339 | That exception, concretely. |

## Left out

- WarmState.LatestWarmState.Record: one pass of the whole call; its locked sections are steps of `WarmSteps`, and the wait of a blocked producer is a step that is not enabled.
- WarmState.LatestWarmState.RetryUnscheduled: one uninterrupted loop over a fixed disk; with others in between it is the worker's steps of `WarmSteps`.
- WarmState.RecoverBuildingSceneTargets: a Scene whose manifest or descriptor cannot be read is not in the disk it is given.
- WarmSystem.NeverStalls: for whole calls; `WarmSteps` has the form for locked sections.
- WarmSystem.NoInvalidationIsLost: for whole calls, and manifest and descriptor reads succeed during recovery from disk, because a failing read recovers nothing; `WarmPromises` has the form for locked sections, under the same condition.
- WarmSteps.StepKeepsSound: the worker does not die and records no failures there; `WarmSystem` has both.
- WarmAdmission.ProjectCacheWarmQueue.EnqueueTargetsInner: whether the scheduler accepts each admitted target is left open, because the scheduler's own answer is modelled in `WarmQueue`.
- SceneBuild.BuildFromStage: payload extraction, transforms and bounds are opaque facts about a prim.
- ClosureDiscovery.DiscoveryState.Discover: the report's texts do not carry field names, a package as root is its own short branch, and the order in which a resolved pattern's files are queued is left open.
- LocalizeValues.LocalizationCommutes: asset paths are lists of steps, so text that only differs in separators is one path; a pattern whose token is in the path inside a package is not part of this model; how a template is numbered is any function there, and the program's own, over exact numbers, is in `ClipTimes`.
- ClosureExactness.CompleteReportLocalizes: that composition opens every layer an arc names, and that resolution gives canonical files, are hypotheses about OpenUSD.
- ScenePublishing.BuildAndPublishManaged: the built index and spatial index are given; `SceneBuild` builds them, and what happens between the capture and the publication is the subject of `SceneSafety`.
- RecoveryDisk.RevisionNeverGoesBack: blocking on a full result channel and a stopped worker are runs that take no further work.
- ModelPublication.NextStorageKey: ordinals are unbounded and the name is given trimmed, because a manifest holds far fewer entries than a 32-bit ordinal counts.
- ModelPublication.PublishModel: authoring and validating the wrapper and parent layers are one step that may fail; the transaction directory and created parent directories are not compared.
- Failure messages kept by the scheduler, waiting for a Project to be idle, activation preparation and the legacy descriptor store.
- The unmanaged build that publishes without a captured descriptor, which only tests use.
- Extraction of payloads, the search for the owned prim of a payload and the choice of repairs in a lookup (cache_demand_projection.rs:34-167).
- The second stale check of `warm_target`, after its identity is computed: the compare-and-swap that follows is what the proofs rest on.
- OpenUSD composition, Bevy, meshes and materials, Git, blake3 and JSON internals, threads, timeouts, clocks, permissions and temporary names.
- Project protocol records, stage diffs, branch comparison, spatial and skinning arithmetic, hydration and viewport code, which would add only easy members or foreign ones.
