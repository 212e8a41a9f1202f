# Verification model of the compute-native core

This project models the Rust core under `compute-native/src_old` in Dafny and proves what its
parts promise together. Where the code does not keep a documented promise, the project states
exactly where the promise holds and gives a case where it does not.

`dafny verify dfyconfig.toml` checks everything.

## What is modelled

| modules | part of the system |
|---|---|
| `Naming`, `Config`, `ImageBuilder`, `Emission`, `Compiler`, `Quantized`, `OutputProjection`, `EntryNames`, `EntryInfo`, `BindingCheck`, `Checkpoints` | the image compiler: architecture to tensor bindings, the check of a checkpoint against them, emission into packed segments, the execution plan and the validator that judges it, reading tensors back, the names and the entries of an image, and the checkpoints that compile |
| `Plan`, `PlanRows`, `PlannedSizes`, `Pipeline`, `Density`, `Lanes`, `PlannedFiles` | the relocation plan, its sizes and its files against the emitted image, and the three concurrent lanes that carry it out over two bounded channels: a step system with every interleaving, channel closing and lane failure, and the lanes themselves as an object whose methods are the steps |
| `KvCache`, `LayerCaches`, `Masks` | the per-layer KV cache (ring, trimming, eviction, commit, rollback) as values and as an object with in-place ring arrays, and the attention masks that read it |
| `Registry`, `StaleHandles`, `KeptGenerations`, `Bridge`, `Runtime` | the array registry with its freelist and packed handles, the leases, and whole model runs |
| `RunLookups`, `ImageRuns`, `Conversion`, `ImageCatalog` | compiler and runtime together: what the runtime loads from an emitted image, what a run finds in it, when both succeed, and the catalog of such an image |
| `Strides`, `Layout` | contiguous strides, mask alignment, segment packing and the layout validator |
| `Sorting`, `Sampler`, `Sampling` | temperature, top-k, top-p and the fallback of the sampler, over exact reals |
| `ArenaPool`, `LockedPool` | the arena pool: its critical sections as atomic actions of any number of threads, and as methods |
| `Admission`, `Catalog` | the layer-window bound, and the tensor catalog with its aliases |
| `Shapes`, `RunLayers` | compiler and executor together: packed group sizes, tensor shapes, and the cache, mask and rotary frequencies that a run gives a layer |

Entities that the source updates in place are classes: `ImageBuilder.Builder`, `Lanes.Machine`,
`LayerCaches.LayerCache`, `Bridge.ArrayRegistry`, `Runtime.ImageRuntime`, `LockedPool.ArenaPool`.
Each has a function `View()` giving its value, every method states the new `View()` through a
specification function of the old one, and the theorems are lemmas about those functions and
about runs: sequences of operations or actions of any length.

Payload bytes are any function of the relocation unit with the planned length, the digest is any
function of a byte stream, tensors and arrays are opaque tokens, and the exponential of softmax is any
positive function.

## Where the code and its documentation disagree

- `bridge.rs` says that a stale handle is always rejected. `remove` forgets the generation and the
  released slots are a stack, so the promise ends with the first insert that is not paid for by
  another remove (`StaleHandles.StaleUntilReuse`, `Registry.ReuseRevivesHandle`). A registry that
  keeps generations meets it (`KeptGenerations.StaleForever`).
- `session.rs` describes top-p as the smallest set whose mass exceeds p; the code drops the entry
  that crosses p (`Sampler.DocumentedNucleusIsLarger`), and can drop everything. The fallback
  called argmax then reads an already masked vector (`Sampler.FallbackToken`).
- `kv_cache.rs` says that an append is uncommitted until the commit step and that a rollback
  restores the state before it. The first append commits itself, so it stays after a rollback
  (`KvCache.UncommittedFirstAppendStays`); on a sliding layer evicted tokens do not come back
  (`KvCache.EvictedTokenIsLost`); and on a global layer two uncommitted appends lose it, even if the second is empty
  (`KvCache.DoubleAppendDefeatsRollback`, `KvCache.EmptyAppendDefeatsRollback`). Over a run, all
  rollbacks keep the promise exactly if each met its condition when it was made
  (`KvCache.RollbacksShowToldIff`).
- `kv_cache.rs` calls `logical_start` an absolute position; after a trimmed first append it is not
  (`KvCache.LogicalStartIff`, `KvCache.TrimmedFirstAppendMisplaces`).
- `align_up` is documented as the next multiple of the alignment; that needs a power of two
  (`Layout.AlignUpMultipleIff`, `Layout.AlignUpNotMultiple`).
- The catalog promises that physical names keep their tensors and aliases share the storage of
  theirs. An alias under a physical name replaces that name's entry and redirects later aliases
  (`Catalog.ShadowingCaptures`, `Catalog.SelfAliasUnclean`), and an empty alias name catches unknown
  ids. Both parts hold exactly for the tables of `Catalog.CatalogFaithfulIff`; the compiler only
  emits such tables (`ImageCatalog.EmittedCatalog`).
- The relocation plan leaves out scales and biases, which the sequential compiler emits
  (`PlannedSizes.PlanMatchesImageIff`, `PlannedFiles.PipelineMatchesCompilerIff`,
  `Checkpoints.QuantizedPlanIsSmaller`).
- `validator.rs` gives a verdict on whether a checkpoint is executable; it does not look for scales and
  biases, without which the compiler fails (`Checkpoints.CheckedCompilesIff`,
  `Checkpoints.MissingScalesPass`).
- The decoder passes the absolute position as mask offset; after an eviction the ring has been
  rebased and the mask no longer matches (`Masks.AbsoluteOffsetExactIff`,
  `Masks.EvictedStepSeesNothing`).
- Without quantization metadata the embedding gets tensor id 0, which the validator reads as
  missing (`Compiler.PlanAccepted`, `Checkpoints.UnquantizedRejected`).
- A checkpoint with an output head and a configuration that ties embeddings gives a plan without
  an output projection (`OutputProjection.OutputProjectionIff`, `Checkpoints.TiedHeadLost`).
- `resolve_namespace` accepts the roots `language_model.model` and `model`; `run_full_model` looks
  everything up under the first one, so an image with the second root compiles and never runs
  (`Checkpoints.OtherRootNotFound`, `RunLookups.LookupsSucceedIff`, `ImageRuns.RunImage`).
- The binding check accepts F16, F64 and I64; the runtime cannot convert them, so an executable
  checkpoint can give an image that never opens (`Conversion.CheckedTypes`, `Conversion.OpensIff`,
  `Conversion.HalfNormNeverOpens`).
- The epilogue speaks of a dedicated output head for models that do not tie it; a run never looks
  one up and projects with the embedding (`RunLookups.HeadNotLookedUp`, `RunLookups.ResidentIsLookedUp`).
- When the writer of the pipeline fails, the caller can be told that an earlier lane found its channel
  closed (`Pipeline.OutcomeTells`).
- `arena_pool.rs` promises a global byte budget for all pooled arenas; an arena made elsewhere is
  cached without being charged (`ArenaPool.PoolAccounting`, `ArenaPool.ForeignArenaIsFree`).
- `compile_layouts` documents lifetime overlap analysis for activations; the code packs them one
  after another, and its overlap check cannot fire (`Layout.OverlapNeverFires`).

## Model

| member | source | states |
|---|---|---|
| Naming.LayerSegmentInjective | compute-native/src_old/compute_image.rs:2978-2982 | layer segment ids of different layers differ, and none is `persistent` |
| Naming.SegmentFileInjective | compute-native/src_old/compute_image.rs:697-708 | padded segment file names of different numbers differ, also beyond three digits |
| Naming.LayerNameInjective | compute-native/src_old/config.rs:340-347 | a tensor name determines its layer and its suffix |
| Naming.LayerNameNotGlobal | compute-native/src_old/config.rs:405-407 | no tensor of a layer has the name of a global tensor |
| Config.PackableDivides | compute-native/src_old/config.rs:705-707 | the packing divisions are defined exactly for 8 to 39 bits and a nonzero group size |
| Config.Compile | compute-native/src_old/config.rs:435-684 | panics exactly for unpackable metadata, otherwise the spec of all layers in order, whose shapes `RunLayers.LayerFitsIff` and `RunLayers.PlanEndsFit` judge |
| Config.LayerTensorNames | compute-native/src_old/config.rs:510-636 | a layer emits one binding per field under that field's name; full attention has no v_proj |
| Config.BuildExecutionPlan | compute-native/src_old/config.rs:327-433 | the loop over layers computes the plan whose ids `PlanLoadsCheckpoint` interprets, and whose numbers `RunLayers` holds against what a run does with them |
| Config.Validate | compute-native/src_old/config.rs:256-322 | the list of complaints contains exactly the violations the plan has |
| Config.ValidateLayer | compute-native/src_old/config.rs:261-311 | the complaints about one layer are exactly that layer's violations |
| Emission.EmitTensorKeeps | compute-native/src_old/compute_image.rs:1026-1054 | a present tensor is appended under the next id, in the open segment, and the image invariant is kept |
| Emission.EmitBindingKeeps | compute-native/src_old/compute_image.rs:1130-1159 | a binding is emitted exactly when its tensors are in the checkpoint; its own id comes last and holds its bytes |
| Emission.EmitQuantizedKeeps | compute-native/src_old/compute_image.rs:1056-1107 | a packed binding emits scales, biases and weight in this order, iff all three exist, and the weight's descriptor names the other two entries |
| Emission.EmitAllKeeps | compute-native/src_old/compute_image.rs:2963-2966 | a list of bindings is emitted exactly when all are present, and the id map grows by exactly their names |
| Compiler.EmitLayersKeeps | compute-native/src_old/compute_image.rs:2978-2993 | all layers are emitted iff present; every name of layer j gets a fresh id in `layer_j` |
| Compiler.FirstBindingId | compute-native/src_old/compute_image.rs:2963-2966 | the first binding's own id follows its scales and biases |
| Compiler.ImageEmitted | compute-native/src_old/compute_image.rs:2959-2993 | compilation succeeds exactly when the checkpoint has every needed tensor, and leaves the ids and segments that the plan needs |
| Compiler.EmitOne | compute-native/src_old/compute_image.rs:1026-1054 | the builder object takes the step of the emission function |
| Compiler.EmitBindingSet | compute-native/src_old/compute_image.rs:1130-1159 | returns the id of the binding's own tensor, with the builder in the state of the emission function |
| Compiler.EmitList | compute-native/src_old/compute_image.rs:2963-2966 | the loop over bindings refines the emission of a list |
| Compiler.CompileSequential | compute-native/src_old/compute_image.rs:2943-3002 | manifest, files and plan are those of the emitted image, or a checkpoint tensor is missing |
| Compiler.PlanAccepted | compute-native/src_old/config.rs:256-322 | the validator accepts the plan of an emitted image iff there is quantization metadata, a layer, a vocabulary, and a global head dimension when some layer is full attention |
| Compiler.PlanLoadsCheckpoint | compute-native/src_old/config.rs:327-433 | every id of layer i's plan names the intended tensor, in `layer_i`, and reading it back gives the checkpoint's bytes; so do embedding and final norm |
| Quantized.QuantizedTensorsLoad | compute-native/src_old/compute_image.rs:1056-1107 | every entry of an emitted image loads the checkpoint's tensor of its name, and a packed one names entries that load its own scales and biases |
| Quantized.NamesReadCheckpoint | compute-native/src_old/compute_image.rs:1525-1556 | reading by name gives the checkpoint's tensor for exactly the emitted names |
| OutputProjection.HeadEmitted | compute-native/src_old/config.rs:489-497 | the output head is emitted, into the persistent segment, iff the configuration does not tie it |
| OutputProjection.OutputProjectionIff | compute-native/src_old/config.rs:736-764 | the plan has no output projection iff the checkpoint has a head that the configuration ties; otherwise it loads the head, or the embedding without one |
| EntryNames.EmittedGroups | compute-native/src_old/compute_image.rs:2959-2993 | an emitted image holds, segment by segment in order, the names of its bindings with scales and biases; its alias table names the embedding's id, or is empty |
| EntryNames.EntryNamesUnique | compute-native/src_old/compute_image.rs:2943-3002 | the tensor table of every emitted image lists the bindings' names in order, none twice |
| EntryInfo.EntriesExplained | compute-native/src_old/compute_image.rs:1026-1159 | every entry of an emitted image has storage type, shape, file, offset and length of its tensor in the checkpoint, and segment, layer, role, logical shape and packing of the binding it was emitted for |
| EntryInfo.RoleNameInjective | compute-native/src_old/compute_image.rs:1130-1136 | different roles are written under different names |
| Checkpoints.RootResolves | compute-native/src_old/config.rs:736-761 | the first root with all anchors is taken; the head's name is that of a tensor, and is aliased iff there is no head |
| Checkpoints.CompilesIff | compute-native/src_old/compute_image.rs:2959-2993 | a checkpoint compiles iff it has every name that the image will hold |
| BindingCheck.CheckBinding | compute-native/src_old/validator.rs:372-409 | a binding passes iff its own tensor is there, in its logical or its packed shape and a known storage type |
| BindingCheck.ValidateBindings | compute-native/src_old/validator.rs:527-665 | the verdict is executable iff there is a binding and all of them pass; the counts are those of the bindings that do and do not |
| Checkpoints.CheckedCompilesIff | compute-native/src_old/compute_image.rs:1005-1011 | a checkpoint that the check calls executable compiles iff it also has the scales and biases of all packed matrices |
| Checkpoints.MissingScalesPass | compute-native/src_old/validator.rs:372-409 | for every quantized model: a checkpoint without the scales of the embedding that passes the check and does not compile |
| Checkpoints.UnquantizedRejected | compute-native/src_old/config.rs:256-322 | for every architecture: without metadata a complete checkpoint passes the check and compiles, and the validator rejects its plan |
| Checkpoints.QuantizedPlanIsSmaller | compute-native/src_old/compute_image.rs:2776-2884 | for every quantized model with a group to scale in its embedding: a checkpoint that passes the check, whose plan and image differ in the size of a segment |
| Checkpoints.TiedHeadLost | compute-native/src_old/config.rs:736-764 | for every tied model with a layer: a checkpoint with an output head that resolves, passes the check and compiles to a plan without output projection |
| Checkpoints.OtherRootNotFound | compute-native/src_old/config.rs:736-761 | for every model with a layer: a checkpoint under `model` that resolves, passes the check and compiles, without the embedding that a run looks up |
| ImageBuilder.Builder.constructor | compute-native/src_old/compute_image.rs:665-695 | a new builder is the empty image |
| ImageBuilder.Builder.BeginSegment | compute-native/src_old/compute_image.rs:697-708 | flushes the open segment and opens the next |
| ImageBuilder.Builder.AddTensor | compute-native/src_old/compute_image.rs:711-757 | appends the bytes at the running offset and returns the next id |
| ImageBuilder.Builder.AddAlias | compute-native/src_old/compute_image.rs:760-766 | adds one row to the alias table and changes nothing else |
| ImageBuilder.Builder.FlushSegment | compute-native/src_old/compute_image.rs:799-834 | closes the open segment into payload, segment table and its residency list |
| ImageBuilder.Builder.Finalize | compute-native/src_old/compute_image.rs:769-797 | the manifest and files are those of the flushed image |
| ImageBuilder.RunKeeps | compute-native/src_old/compute_image.rs:697-834 | every run of the builder keeps the image invariant, segments in the order begun |
| ImageBuilder.RunPanics | compute-native/src_old/compute_image.rs:711-730 | a run panics exactly when its first tensor precedes its first segment |
| ImageBuilder.ReadBack | compute-native/src_old/compute_image.rs:2094-2104 | slicing entry k of a finished image out of its file gives the k-th bytes added |
| ImageBuilder.ReadByName | compute-native/src_old/compute_image.rs:1525-1556 | reading by name gives the bytes of the first tensor added under it, or fails iff there is none |
| ImageBuilder.ImageRoundTrip | compute-native/src_old/compute_image.rs:697-834 | for every run with distinct segment ids: round trip of all tensors, ids 0..n in segment order, tiling of each segment, residency lists, and total bytes conserved |
| ImageBuilder.ResidentsPartition | compute-native/src_old/compute_image.rs:799-834 | the two residency lists together are the segments |
| ImageBuilder.TilesAreDisjoint | compute-native/src_old/compute_image.rs:711-757 | tensors of a segment are ordered, disjoint and within it |
| Plan.Plan | compute-native/src_old/compute_image.rs:2776-2884 | each row of the table is its binding, placed after the earlier bytes of its segment; each segment has the size and count of its rows |
| Plan.PlaceSegment | compute-native/src_old/compute_image.rs:2801-2855 | the placing loop extends the table and keeps running offsets equal to the bytes placed |
| Plan.PlanIsDense | compute-native/src_old/compute_image.rs:2801-2855 | planned offsets are dense and ascending in every segment, ids are row numbers |
| Plan.PlanKnowsSegments | compute-native/src_old/compute_image.rs:2791-2864 | every row's segment is planned, and segment ids and file names are distinct |
| PlanRows.RowsDescribe | compute-native/src_old/compute_image.rs:2801-2855 | row k is the k-th binding, with shard, offset, length and type of its tensor in the checkpoint, or of an empty one if that is missing |
| PlanRows.PlanTotals | compute-native/src_old/compute_image.rs:2857-2868 | the segments hold all rows between them, and the image has as many bytes as the tensors that go into it |
| PlannedSizes.EmittedSizes | compute-native/src_old/compute_image.rs:2943-3002 | each emitted segment has the bytes of its bindings, scales and biases |
| PlannedSizes.PlannedSizesAre | compute-native/src_old/compute_image.rs:2776-2884 | each planned segment has the bytes of its bindings' own tensors |
| PlannedSizes.PlanMatchesImageIff | compute-native/src_old/compute_image.rs:2776-2884 | the plan has the emitted image's segments and file names, never larger, and of equal size iff no packed matrix has scales or biases with bytes |
| Pipeline.RunInv | compute-native/src_old/compile_pipeline.rs:45-208 | the pipeline invariant holds after every interleaving |
| Pipeline.NothingLostOrReordered | compute-native/src_old/compile_pipeline.rs:106-208 | written, in flight and unread units are the non-alias tensors in order, with at most capacity + 2 payloads alive |
| Pipeline.NextAction | compute-native/src_old/compile_pipeline.rs:45-208 | no reachable unfinished state is stuck, for every capacity of at least 1 |
| Pipeline.RunsEnd | compute-native/src_old/compile_pipeline.rs:45-208 | every run has at most six steps per tensor and six more |
| Pipeline.RunCanFinish | compute-native/src_old/compile_pipeline.rs:45-208 | every run can be continued without I/O errors until all lanes have ended |
| Pipeline.WriterFailsOnUnknownOnly | compute-native/src_old/compile_pipeline.rs:156-208 | without I/O errors the writer fails only on an unplanned segment |
| Pipeline.SuccessIffKnown | compute-native/src_old/compile_pipeline.rs:45-208 | an ended run without I/O errors succeeds iff every needed segment is planned |
| Pipeline.OutcomeTells | compute-native/src_old/compile_pipeline.rs:86-101 | every ended run gives digests iff it succeeded, and otherwise names the first failed lane in await order; the writer has then failed, too |
| Pipeline.WriteAtIs | compute-native/src_old/compile_pipeline.rs:193-200 | seek and write, byte by byte: the data, the file as it was, zeros in a gap |
| Pipeline.ReplayHolds | compute-native/src_old/compile_pipeline.rs:156-208 | for dense units each file and its hashed stream are the concatenated payloads |
| Pipeline.PipelineWritesPlan | compute-native/src_old/compile_pipeline.rs:106-208 | for every interleaving that succeeds: files are the payloads in table order, digests are those of the files, no other file changes |
| Pipeline.PlannedImageOnDisk | compute-native/src_old/compute_image.rs:2776-2884 | for every plan of the planner, success puts each tensor at its destination offset in a file of the planned size |
| Pipeline.PlannedRunSucceeds | compute-native/src_old/compute_image.rs:2776-2884 | only I/O can fail the run of such a plan |
| Pipeline.OverlapBreaksDigest | compute-native/src_old/compile_pipeline.rs:183-201 | a successful run of an overlapping table whose digest is not that of its file |
| Density.ReplayHas | compute-native/src_old/compile_pipeline.rs:183-201 | file and hashed stream of each segment after any units, dense or not |
| Density.MisplacedRun | compute-native/src_old/compile_pipeline.rs:45-208 | for every misplaced table there are payloads and a successful run whose file is not what was hashed |
| Density.FaithfulIffDense | compute-native/src_old/compile_pipeline.rs:45-208 | all successful runs with all payloads leave files that are what was hashed iff nonempty payloads are dense |
| PlannedFiles.PlanReadsCheckpoint | compute-native/src_old/compute_image.rs:2903-2917 | for every plan, reading each unit's shard at its offset gives the checkpoint's data of the unit's name |
| PlannedFiles.PipelineMatchesCompilerIff | compute-native/src_old/compute_image.rs:2776-3002 | when the units are read out of the shards, every successful interleaving writes all files of the sequential compiler, with the same bytes iff no packed matrix has scales or biases to store |
| Lanes.Machine.constructor | compute-native/src_old/compile_pipeline.rs:45-84 | all lanes running, channels empty |
| Lanes.Machine.DropSenders | compute-native/src_old/compile_pipeline.rs:82-84 | the orchestrator drops its two senders, one action each |
| Lanes.Machine.SourceReadStep | compute-native/src_old/compile_pipeline.rs:106-134 | one iteration is one enabled action; it blocks exactly on a full open channel |
| Lanes.Machine.RelocateStep | compute-native/src_old/compile_pipeline.rs:141-152 | half an iteration is one enabled action, or none of the lane's actions is enabled |
| Lanes.Machine.OpenSegments | compute-native/src_old/compile_pipeline.rs:163-181 | creates all files and hashers in one action |
| Lanes.Machine.CreateFiles | compute-native/src_old/compile_pipeline.rs:163-181 | the loop over segments builds the handles, empty files and hashers |
| Lanes.Machine.WriteStep | compute-native/src_old/compile_pipeline.rs:183-208 | receive, finish or write, each one enabled action, or none of the lane's actions is enabled |
| Lanes.Machine.WriteOut | compute-native/src_old/compile_pipeline.rs:183-201 | writes and hashes at the unit's offset, or aborts on an unknown segment |
| Lanes.Machine.AwaitAll | compute-native/src_old/compile_pipeline.rs:86-101 | awaits source, relocate and writer and returns the first error, or the digests |
| Lanes.Machine.GiveUp | compute-native/src_old/compile_pipeline.rs:184-191 | the writer fails on an unknown segment |
| Lanes.Machine.WriteHeld | compute-native/src_old/compile_pipeline.rs:193-200 | the packet in hand is written and hashed |
| Lanes.Machine.WriteAndHash | compute-native/src_old/compile_pipeline.rs:193-200 | exactly one file and one hasher change, as the specification says |
| Lanes.HandlesAreKnown | compute-native/src_old/compile_pipeline.rs:163-191 | in every reachable state a segment has a handle iff it is planned |
| KvCache.WrapInRange | compute-native/src_old/kv_cache.rs:185-242 | both halves of a wrapping write are in range exactly when position plus length is at most twice the capacity |
| KvCache.RingWriteHolds | compute-native/src_old/kv_cache.rs:185-242 | a ring write keeps slot i mod capacity holding token i |
| KvCache.RingReadHolds | compute-native/src_old/kv_cache.rs:367-407 | reading the ring gives the last tokens, oldest first |
| KvCache.AppendRepresents | compute-native/src_old/kv_cache.rs:123-275 | appending, with a trimmed first append, keeps the cache in step with everything offered |
| KvCache.AppendValid | compute-native/src_old/kv_cache.rs:123-242 | the counter invariants: write position, sequence length and total |
| KvCache.WindowIsTail | compute-native/src_old/kv_cache.rs:355-407 | the window is the last min(n, capacity) tokens of everything offered |
| KvCache.LogicalStartIff | compute-native/src_old/kv_cache.rs:56-59 | after every run, `logical_start` is the position of the oldest cached token in everything offered iff the append that started the storage had at most `capacity` tokens |
| KvCache.TrimmedFirstAppendMisplaces | compute-native/src_old/kv_cache.rs:138-172 | three tokens into a window of two: the field says 0, the oldest cached token is number 1 |
| KvCache.RollbackCounters | compute-native/src_old/kv_cache.rs:297-339 | after a rollback the counters are always those of the committed prefix |
| KvCache.RollbackIdempotent | compute-native/src_old/kv_cache.rs:297-339 | rolling back twice is rolling back once; a no-op when nothing is pending |
| KvCache.RollbackWindow | compute-native/src_old/kv_cache.rs:297-339 | which token each slot of the window holds after any rollback |
| KvCache.RollbackExactIff | compute-native/src_old/kv_cache.rs:297-339 | a sliding rollback is exact iff nothing was pending or nothing had been evicted |
| KvCache.RollbackRepresents | compute-native/src_old/kv_cache.rs:297-339 | a rollback that meets the condition gives back the committed history |
| KvCache.RestorableMeans | compute-native/src_old/kv_cache.rs:245-339 | the condition on the fields is, in every run, one on what the caller has done |
| KvCache.RollbackRestoresIff | compute-native/src_old/kv_cache.rs:297-339 | after every run with distinct tokens whose earlier rollbacks met the condition, a rollback shows the list that the code keeps, in which a first append commits itself, up to its committed length iff nothing is pending, or (global) all pending tokens came in the latest append, or (sliding) the list fits the ring or nothing is committed |
| KvCache.RollbackKeepsToldIff | compute-native/src_old/kv_cache.rs:120-122 | after every run with distinct tokens whose earlier rollbacks met the condition of the row above, a rollback shows exactly the tokens of the caller's latest commit step iff nothing else counts as committed and it meets that condition |
| KvCache.RollbacksShowToldIff | compute-native/src_old/kv_cache.rs:120-122 | over every run with distinct tokens, whatever rollbacks it makes: all of them showed exactly the tokens of the latest commit step iff each met the two conditions of the row above when it was made |
| KvCache.UncommittedFirstAppendStays | compute-native/src_old/kv_cache.rs:138-182 | a run of one append without a commit step, sliding or global, where a rollback leaves the token in the window |
| KvCache.EvictedTokenIsLost | compute-native/src_old/kv_cache.rs:297-339 | a window of one with a committed and a pending token: the rollback does not show the committed one |
| KvCache.DoubleAppendDefeatsRollback | compute-native/src_old/kv_cache.rs:245-275 | two uncommitted appends of a global layer leave two tokens behind a counter of one |
| KvCache.EmptyAppendDefeatsRollback | compute-native/src_old/kv_cache.rs:245-275 | so does an empty append after a nonempty one |
| KvCache.CacheRefinesList | compute-native/src_old/kv_cache.rs:80-496 | over every sequence of appends, commits, clears and rollbacks that meet the caller's condition, the window is the tail of a plain list |
| LayerCaches.LayerCache.constructor | compute-native/src_old/kv_cache.rs:86-106 | a new cache is the empty one |
| LayerCaches.LayerCache.Append | compute-native/src_old/kv_cache.rs:123-135 | the object moves as the specification of append |
| LayerCaches.LayerCache.FirstAppend | compute-native/src_old/kv_cache.rs:138-182 | allocates the ring, trims to capacity and commits |
| LayerCaches.LayerCache.NewRing | compute-native/src_old/kv_cache.rs:157-163 | a fresh ring with the first tokens at its start |
| LayerCaches.LayerCache.WriteRing | compute-native/src_old/kv_cache.rs:196-219 | the ring array is overwritten in place, wrapping at its end |
| LayerCaches.LayerCache.AppendSliding | compute-native/src_old/kv_cache.rs:185-242 | later appends write the two rings in place and move the counters |
| LayerCaches.LayerCache.AppendGlobal | compute-native/src_old/kv_cache.rs:245-275 | concatenates and keeps the snapshot for rollback |
| LayerCaches.LayerCache.CommitStep | compute-native/src_old/kv_cache.rs:283-287 | the committed length becomes the total, the snapshot is dropped |
| LayerCaches.LayerCache.Rollback | compute-native/src_old/kv_cache.rs:297-339 | the object moves as the specification of rollback |
| LayerCaches.LayerCache.ReadWindow | compute-native/src_old/kv_cache.rs:355-364 | reads what the specification shows, changing nothing |
| LayerCaches.LayerCache.ReadRing | compute-native/src_old/kv_cache.rs:367-407 | one slice, or the end of the buffer followed by its beginning |
| LayerCaches.LayerCache.Clear | compute-native/src_old/kv_cache.rs:481-495 | back to the empty cache |
| Masks.CausalMask | compute-native/src_old/executor.rs:523-536 | entry (i, j) of the filled vector is open iff j is at most offset + i |
| Masks.SlidingMask | compute-native/src_old/executor.rs:542-556 | entry (i, j) is open iff j is among the last `window` positions up to offset + i |
| Masks.FillRow | compute-native/src_old/executor.rs:526-534 | the inner loop masks exactly the keys outside the row's interval |
| Masks.RowAdmits | compute-native/src_old/executor.rs:194-216 | causal plus sliding equals sliding alone and admits max(0, p+1-window)..=p |
| Masks.SelectInterval | compute-native/src_old/executor.rs:212-218 | a mask open on an interval leaves that slice of the keys |
| Masks.NoEvictionExact | compute-native/src_old/compute_image.rs:2568-2579 | while nothing is evicted every row attends to the keys of full-history sliding attention |
| Masks.RebasedStepExact | compute-native/src_old/executor.rs:194-216 | one-token steps with a rebased offset are exact, evicted or not |
| Masks.RebasedRowExactIff | compute-native/src_old/executor.rs:194-216 | after appends of any length, with a rebased offset, the row of a position in the window is exact iff nothing has been evicted or it is the newest position |
| Masks.AbsoluteOffsetExactIff | compute-native/src_old/executor.rs:194-216 | with the absolute offset they are exact iff nothing has been evicted |
| Masks.EvictedStepSeesNothing | compute-native/src_old/executor.rs:194-216 | two steps on a window of one: the second attends to nothing |
| Masks.GlobalPassExact | compute-native/src_old/executor.rs:302-304 | a full attention layer attends to all positions so far, in every row of a single pass |
| Masks.SinglePassExactIff | compute-native/src_old/compute_image.rs:2568-2579 | a single pass over n tokens is exact in every row iff n fits the window |
| Registry.PackUnpack | compute-native/src_old/bridge.rs:31-38 | packing then unpacking gives back slot and generation |
| Registry.UnpackPack | compute-native/src_old/bridge.rs:31-38 | every handle is the packing of its parts |
| Registry.InsertSpec | compute-native/src_old/bridge.rs:74-102 | insert adds one fresh handle, never null, standing for the given array |
| Registry.RemoveSpec | compute-native/src_old/bridge.rs:120-137 | remove takes out exactly the given handle, and nothing for an unknown one |
| Registry.DrainSpec | compute-native/src_old/bridge.rs:139-143 | drain leaves no live handle |
| Registry.RegistryRefinesMap | compute-native/src_old/bridge.rs:64-144 | over all runs: the freelist is the free slots, slots = 1 + live + free, lookups are those of a map, and null is never live |
| Registry.OnlyRoomIsNeeded | compute-native/src_old/bridge.rs:74-102 | no run panics; only 2^32 slots in use stop an insert |
| Registry.ReuseRevivesHandle | compute-native/src_old/bridge.rs:20-24 | any live handle, removed and followed by an insert, resolves to the new array |
| StaleHandles.StaleUntilReuse | compute-native/src_old/bridge.rs:20-24 | over runs: a removed handle is rejected (until a drain) iff at no point since have there been more inserts than successful removes |
| StaleHandles.DrainedUntilReissued | compute-native/src_old/bridge.rs:139-143 | over runs: after a drain a handle of slot s is rejected iff at every point since fewer than s entries have been in use |
| KeptGenerations.StaleForever | compute-native/src_old/bridge.rs:20-24 | with kept generations a removed or drained handle never resolves again, over all runs |
| Bridge.ArrayRegistry.constructor | compute-native/src_old/bridge.rs:65-72 | only the guarded slot 0 |
| Bridge.ArrayRegistry.Insert | compute-native/src_old/bridge.rs:74-102 | the live map gains one new handle for the array |
| Bridge.ArrayRegistry.Fill | compute-native/src_old/bridge.rs:74-102 | slot reuse with a bumped generation, or a new slot |
| Bridge.ArrayRegistry.Get | compute-native/src_old/bridge.rs:104-118 | a lookup succeeds iff the handle is live, with its array |
| Bridge.ArrayRegistry.Remove | compute-native/src_old/bridge.rs:120-137 | the live map loses exactly the handle |
| Bridge.ArrayRegistry.Take | compute-native/src_old/bridge.rs:120-137 | an entry of the handle's generation is taken and its slot released, any other is left in place |
| Bridge.ArrayRegistry.DrainAll | compute-native/src_old/bridge.rs:139-143 | the live map becomes empty |
| Runtime.NameMapSize | compute-native/src_old/compute_image.rs:2034-2046 | different names remember different handles |
| Runtime.ImageRuntime.RegisterAll | compute-native/src_old/compute_image.rs:2070-2083 | success iff every tensor loads; otherwise exactly the tensors before the first that does not load stay live |
| Runtime.ImageRuntime.ActivatePersistent | compute-native/src_old/compute_image.rs:2015-2052 | all persistent tensors become live, a repeated name forgets the earlier handle |
| Runtime.ImageRuntime.ActivateLayer | compute-native/src_old/compute_image.rs:2057-2091 | the lease owns exactly the handles that the layer added |
| Runtime.ImageRuntime.DropLease | compute-native/src_old/compute_image.rs:614-620 | frees the lease's handles and nothing else |
| Runtime.ImageRuntime.Release | compute-native/src_old/compute_image.rs:2763-2773 | frees the remembered persistent handles once |
| Runtime.ImageRuntime.RunLayers | compute-native/src_old/compute_image.rs:2586-2698 | the loop over the layers, with its boundary and lease states and what a layer that does not load leaves live |
| Runtime.ImageRuntime.RunFullModel | compute-native/src_old/compute_image.rs:2498-2761 | the states at all layer boundaries equal the start; the states under a lease are the start and the layer; success frees the persistent handles; a failure leaves exactly the counted handles of one layer |
| Runtime.OpenAndRun | compute-native/src_old/compute_image.rs:1567-1603 | boundaries are the start and the persistent tensors; success restores the live set iff persistent names are unique; after a failed open or run the number of handles left is exact |
| RunLookups.LookupsSucceedIff | compute-native/src_old/compute_image.rs:2511-2660 | the embedding with scales and biases is found iff the root is `language_model.model` and there is metadata, the final norm iff the root is that one; with that root every layer has its tensors |
| RunLookups.LeasedIsLookedUp | compute-native/src_old/compute_image.rs:2622-2667 | every tensor of a layer is looked up in a run |
| RunLookups.ResidentIsLookedUp | compute-native/src_old/compute_image.rs:2511-2540 | and so is every tensor outside the layers, but an output head |
| ImageRuns.RuntimeTensors | compute-native/src_old/compute_image.rs:2015-2091 | for every emitted image the runtime keeps exactly the global tensors resident, no name twice, and leases exactly the tensors of each layer, each converted from the checkpoint's bytes in the checkpoint's type and shape |
| ImageRuns.RunFinds | compute-native/src_old/compute_image.rs:2511-2732 | what the lookups of a run find among the tensors that the runtime has loaded from an emitted image |
| ImageRuns.RunImage | compute-native/src_old/compute_image.rs:2498-2761 | a run of an emitted image succeeds iff the root is the one it assumes, the plan meets the validator's conditions, all tensors load and the executor does its part; then the live handles are those before; at the layer boundaries they are those before and the resident ones; how many handles a failed open, prologue, layer or epilogue leaves is exact |
| RunLookups.HeadNotLookedUp | compute-native/src_old/compute_image.rs:2511-2667 | no lookup of a run names an output head |
| Conversion.CheckedTypes | compute-native/src_old/validator.rs:372-409 | the types that the check accepts are those that the runtime converts, and three more |
| Conversion.StoredWidths | compute-native/src_old/compute_image.rs:1265-1338 | an element of a converted type takes the bits of the type's name |
| Conversion.OpensIff | compute-native/src_old/compute_image.rs:1265-1338 | an emitted image opens iff all tensors outside the layers are of convertible types in whole elements, and a layer loads iff all of its tensors are |
| Conversion.HalfNormNeverOpens | compute-native/src_old/compute_image.rs:1265-1338 | for every model: a checkpoint with a final norm in half precision that passes the check and compiles to an image that does not open |
| ImageCatalog.EmittedCatalog | compute-native/src_old/compute_image.rs:389-439 | the catalog of every emitted image is faithful; its keys are the emitted names and the head's alias, which denotes the storage of the embedding |
| Strides.ComputeContiguousStrides | compute-native/src_old/layout_compiler.rs:469-481 | the reversed loop computes the contiguous strides |
| Strides.ContiguousIff | compute-native/src_old/layout_compiler.rs:466-493 | the strides accepted are exactly element size times the product of the dimensions to the right |
| Strides.OffsetInRange | compute-native/src_old/layout_compiler.rs:452-481 | every valid index maps to a multiple of the element size within the tensor |
| Strides.OffsetInjective | compute-native/src_old/layout_compiler.rs:469-481 | different indices have different offsets |
| Strides.OffsetSurjective | compute-native/src_old/layout_compiler.rs:469-481 | every such multiple is the offset of an index |
| Layout.AlignUpNotBelow | compute-native/src_old/layout_compiler.rs:458-464 | the mask form never goes below its argument, for any alignment |
| Layout.AlignUpIsLeast | compute-native/src_old/layout_compiler.rs:458-464 | for a power of two it is the least multiple at or above |
| Layout.AlignUpMultipleIff | compute-native/src_old/layout_compiler.rs:457-464 | the result is a multiple of the alignment for every offset iff the alignment is a power of two, and otherwise fails at offset 1 |
| Layout.AlignUpKeepsPages | compute-native/src_old/layout_compiler.rs:458-464 | aligning an offset on a page, to any alignment, leaves it on a page |
| Layout.AlignUpNotMultiple | compute-native/src_old/layout_compiler.rs:458-464 | a case: aligning 4 to 6 gives 8 |
| Layout.PackWeights | compute-native/src_old/layout_compiler.rs:228-272 | each weight starts where the earlier ones end |
| Layout.PackActivations | compute-native/src_old/layout_compiler.rs:274-325 | each activation starts at the aligned end of the earlier ones |
| Layout.CompileLayouts | compute-native/src_old/layout_compiler.rs:202-328 | reports of weights, then of activations |
| Layout.ActivationsDisjoint | compute-native/src_old/layout_compiler.rs:274-325 | activations are ordered, disjoint and within the segment for every alignment |
| Layout.WeightsDense | compute-native/src_old/layout_compiler.rs:228-272 | weights have no gaps and lie within their segment |
| Layout.OverlapNeverFires | compute-native/src_old/layout_compiler.rs:397-445 | no report carries the overlap violation |
| Layout.ReportsSay | compute-native/src_old/layout_compiler.rs:228-325 | a report has a violation iff its offset misses its alignment or, for an I/O surface, the page; it is eligible iff the offset is on a page (and an activation an I/O surface); padding leads to an aligned offset; size and strides are those of the shape |
| Layout.ValidateLayout | compute-native/src_old/layout_compiler.rs:352-394 | which of the four complaints a report gets, for any segment |
| Layout.NamedWidths | compute-native/src_old/layout_compiler.rs:110-119 | an element takes the bits of its type's name, except that four bits take a byte |
| Layout.ActivationValidIff | compute-native/src_old/layout_compiler.rs:352-394 | an activation validates against the final segment iff its offset meets its natural alignment |
| Layout.AlignedActivationValidates | compute-native/src_old/layout_compiler.rs:352-394 | it does whenever its alignment is a multiple of the natural one, power of two or not |
| Layout.ActivationAlwaysValidIff | compute-native/src_old/layout_compiler.rs:274-394 | it does after every list of earlier activations iff its alignment is a multiple of the natural one |
| Layout.WeightValidIff | compute-native/src_old/layout_compiler.rs:352-394 | a weight validates iff the sizes before it add up to a multiple of its natural alignment; the page check always passes |
| Sorting.SortSorts | compute-native/src_old/executor.rs:464-470 | the sorted indices are all indices once, in descending order of their keys |
| Sorting.SortIsStable | compute-native/src_old/executor.rs:464-470 | of equal keys the smaller index comes first |
| Sampler.FilterTopK | compute-native/src_old/executor.rs:428-441 | masks in place exactly what is below the k-th largest value |
| Sampler.TopKKeepsLargest | compute-native/src_old/executor.rs:428-441 | at least k entries kept, all above every dropped one, fewer than k above the threshold |
| Sampler.TopKLeavesCandidate | compute-native/src_old/executor.rs:428-450 | top-k always leaves a finite logit for top-p |
| Sampler.FilterTopP | compute-native/src_old/executor.rs:443-484 | masks in place everything from the rank at which the mass first exceeds p |
| Sampler.MaskTail | compute-native/src_old/executor.rs:477-479 | the ranks from the cut on are masked, nothing else |
| Sampler.ProbabilitiesSumToOne | compute-native/src_old/executor.rs:446-462 | probabilities add up to one and are positive exactly on the candidates |
| Sampler.ComputeProbabilities | compute-native/src_old/executor.rs:446-462 | the loops for the maximum, the weights with their sum, and the division compute the probabilities |
| Sampler.ProbabilityOrder | compute-native/src_old/executor.rs:446-462 | of two candidates the larger logit is the more probable, for every increasing exponential |
| Sampler.ProbabilitiesAreSoftmax | compute-native/src_old/executor.rs:446-462 | the shifted form gives exp(logit) over the sum of exp of all logits |
| Sampler.ProbabilityRatio | compute-native/src_old/executor.rs:446-462 | two candidates' probabilities differ by the exponential of the difference of their logits |
| Sampler.TopPKeepsLargest | compute-native/src_old/executor.rs:443-484 | every logit that is kept is unchanged and at least every logit that is dropped |
| Sampler.TopPKeepsPrefix | compute-native/src_old/executor.rs:472-482 | what is kept is the longest prefix of mass at most p, and something is always dropped |
| Sampler.EmptyIffTopExceeds | compute-native/src_old/executor.rs:472-490 | nothing is kept iff one entry alone exceeds p |
| Sampler.ArgMaxLast | compute-native/src_old/executor.rs:491-496 | a maximum, the last one of equals |
| Sampler.FallbackToken | compute-native/src_old/executor.rs:486-501 | taken iff everything is masked, and then the last token of the vocabulary |
| Sampler.DocumentedNucleusIsLarger | compute-native/src_old/session.rs:318-321 | the documented nucleus has exactly one entry more than what is kept |
| Sampling.CandidateBeforeTopP | compute-native/src_old/executor.rs:418-450 | after temperature and top-k there is always a candidate |
| Sampling.ApplyTemperature | compute-native/src_old/executor.rs:418-426 | scales every logit in place, unless the temperature is off or within epsilon of one |
| Sampling.TemperatureKeepsTopK | compute-native/src_old/executor.rs:418-441 | no temperature changes which entries top-k keeps |
| Sampling.StagesKeepLargest | compute-native/src_old/executor.rs:418-484 | no stage drops a larger logit than one it keeps, and what is kept is the logit over the temperature |
| Sampling.FilterLogits | compute-native/src_old/executor.rs:418-501 | all stages in turn, with no kept logit below a dropped one; the fallback happens iff top-p is on and one remaining entry exceeds p, and is then the last token |
| ArenaPool.AccountedStep | compute-native/src_old/arena_pool.rs:60-135 | a critical section keeps the byte count exact iff it is not a release of bytes that were never charged |
| ArenaPool.PoolAccounting | compute-native/src_old/arena_pool.rs:60-135 | over every interleaving the count is within budget and every key within its limit; the count has been exact all along iff no nonempty arena from elsewhere has been released |
| ArenaPool.AccountedMeans | compute-native/src_old/arena_pool.rs:120-126 | an exact count is that of the arenas cached and handed out, and the subtraction does not saturate |
| ArenaPool.ForeignArenaIsFree | compute-native/src_old/arena_pool.rs:107-135 | a run that caches more bytes than the budget, with a count of zero |
| ArenaPool.ShapesStepIff | compute-native/src_old/arena_pool.rs:107-135 | a step keeps the shapes iff it is not a release that finds room for a misfit |
| ArenaPool.AcquiredShapeIff | compute-native/src_old/arena_pool.rs:60-135 | over every interleaving, all arenas have had the shape of their key iff no release has cached one that does not fit |
| ArenaPool.AcquiredShape | compute-native/src_old/arena_pool.rs:60-135 | in particular when every release uses the key of its acquire, or one that an arena from elsewhere fits |
| ArenaPool.DishonestReleaseBreaksShape | compute-native/src_old/arena_pool.rs:107-135 | a run in which an arena of another shape is handed out |
| LockedPool.ArenaPool.constructor | compute-native/src_old/arena_pool.rs:47-54 | an empty pool |
| LockedPool.ArenaPool.TryTake | compute-native/src_old/arena_pool.rs:72-81 | the oldest cached arena of the key, if there is one |
| LockedPool.ArenaPool.Allocate | compute-native/src_old/arena_pool.rs:83-85 | a new arena of the key's dimensions, not yet charged |
| LockedPool.ArenaPool.Charge | compute-native/src_old/arena_pool.rs:87-99 | charged iff the budget allows |
| LockedPool.ArenaPool.Store | compute-native/src_old/arena_pool.rs:107-134 | cached iff the key has room |
| LockedPool.ArenaPool.Subtract | compute-native/src_old/arena_pool.rs:122-124 | the dropped bytes leave the count |
| LockedPool.ArenaPool.Acquire | compute-native/src_old/arena_pool.rs:60-100 | pooled, fresh within budget, or refused with the pool unchanged |
| LockedPool.ArenaPool.Release | compute-native/src_old/arena_pool.rs:107-135 | any arena is cached, or its bytes are taken off the count, which stays exact for an arena of the pool |
| LockedPool.ArenaPool.Stats | compute-native/src_old/arena_pool.rs:138-152 | counts every cached arena once |
| Admission.PrefixOutweighs | compute-native/src_old/compute_image.rs:1864-1869 | no choice of w positions outweighs the first w of a descending list |
| Admission.WindowIsMaximum | compute-native/src_old/compute_image.rs:1857-1869 | the window bound is at least every choice of that many layers, and some choice reaches it |
| Admission.WindowWithinTotal | compute-native/src_old/compute_image.rs:1864-1869 | it never exceeds all layers, and equals them when the window covers them |
| Admission.WorkingSetWithinImage | compute-native/src_old/compute_image.rs:1848-1871 | for every built image both residency lists resolve in full and the working set is within the image |
| Catalog.BuildTensorCatalog | compute-native/src_old/compute_image.rs:389-439 | the two passes compute the catalog of the tables |
| Catalog.PhysicalFaithful | compute-native/src_old/compute_image.rs:390-412 | with unique names the first pass lists exactly the tensors |
| Catalog.CatalogHolds | compute-native/src_old/compute_image.rs:389-439 | what the catalog of any tables holds: its keys, and which alias wrote each entry last |
| Catalog.CatalogFaithfulIff | compute-native/src_old/compute_image.rs:414-436 | every physical name keeps its own entry, without an `alias_of`, and every other name denotes the storage of its alias's tensor, iff no alias that writes takes a physical name, and what an alias of an unknown id writes is written over by a later alias of a tensor |
| Catalog.CatalogFaithful | compute-native/src_old/compute_image.rs:414-436 | in particular with aliases that are not empty and take no physical name; the keys are then the physical names and resolvable aliases |
| Catalog.AliasOrderIrrelevant | compute-native/src_old/compute_image.rs:414-436 | reordering the alias table does not change the catalog |
| Catalog.ShadowingCaptures | compute-native/src_old/compute_image.rs:414-436 | an alias with a physical name redirects later aliases to other storage |
| Catalog.SelfAliasUnclean | compute-native/src_old/compute_image.rs:414-436 | an alias of a tensor under its own name keeps the storage and replaces the physical entry by an alias of itself |
| Catalog.EmptyNameCatchesUnknownIds | compute-native/src_old/compute_image.rs:442-448 | an alias with an empty name makes aliases of unknown ids resolve |
| Shapes.GroupSizeRecoveredIff | compute-native/src_old/executor.rs:128-135 | the executor recovers the compiled group size exactly for recoverable widths, which include positive multiples of 4 and the group size |
| Shapes.WiderBitsMisread | compute-native/src_old/config.rs:705-720 | with wider packing it reads a size too large by the packing ratio |
| Shapes.LayerGroupSizes | compute-native/src_old/config.rs:549-636 | all matrices of a layer are read right iff its three input widths are recoverable |
| Shapes.KvShapesAgreeIff | compute-native/src_old/executor.rs:240-247 | k_proj width, executor heads and cache shape agree iff the layer is sliding, the global KV head count is set, or there is one KV head |
| Shapes.ProjectionFitsIff | compute-native/src_old/config.rs:549-557 | the projection alone fits iff that holds or the head dimension is zero |
| Shapes.RepeatedHeadsIff | compute-native/src_old/executor.rs:558-567 | repeated KV heads match the query heads iff they divide them |
| RunLayers.LayerFitsIff | compute-native/src_old/executor.rs:137-345 | for every compiled layer the shapes of queries, output projection, norms and MLP are those that the executor relies on; keys and values fit iff the layer is sliding, the global KV head count is set, there is one KV head, or the head dimension is zero |
| RunLayers.PlanEndsFit | compute-native/src_old/config.rs:406-432 | shapes of embedding, head and final norm, and the plan's names and numbers for them |
| RunLayers.SpecAgrees | compute-native/src_old/config.rs:510-684 | widths, kind and rotary spec of a compiled layer agree with its plan |
| RunLayers.PackedCovers | compute-native/src_old/config.rs:705-720 | a packed matrix keeps its rows, and its words and groups cover as many columns as fit |
| RunLayers.LayersPacked | compute-native/src_old/config.rs:435-636 | the four norms of a layer are not packed, its projections are: as the metadata says, or as 16-bit values in groups of 64 without any |
| RunLayers.RunWindow | compute-native/src_old/compute_image.rs:2566-2579 | the cache of a sliding layer and its mask have the window of the architecture; a full layer gets at most 8192 positions |
| RunLayers.RunAttendsIff | compute-native/src_old/executor.rs:194-216 | one pass of every compiled plan: a sliding layer attends in every row to the last window of positions iff the tokens fit the window, a full one to all positions so far |
| RunLayers.RunRowExact | compute-native/src_old/executor.rs:194-216 | as long as the architecture's window is not exceeded, every row of a sliding layer attends to the keys of full-history sliding attention |
| RunLayers.RunStepExact | compute-native/src_old/executor.rs:194-216 | later one-token steps of a sliding layer, with a rebased offset, attend to exactly the window of the architecture |
| RunLayers.PlanRope | compute-native/src_old/compute_image.rs:2546-2563 | plan and run use the same frequencies: the global ones on full attention where declared, else the local ones |
| RunLayers.KeysForValues | compute-native/src_old/config.rs:379-388 | only full attention takes keys for values, and then the plan names one tensor for both |

## Left out

- Foreign code: MLX, Metal, Core ML and Accelerate calls, floating-point tensor arithmetic, RoPE, norms, drawing the categorical sample; a failing primitive inside an append is not modelled.
- Files are maps from names to bytes and SHA-256 is any function of a byte stream; JSON, timing, memory telemetry, progress and error texts are not modelled.
- Integers are unbounded: overflow of 32-bit counters, of 64-bit offsets and shape products, and of `align_up` near the top of its range is not modelled. Handles and slot numbers of the registry do have their width.
- NaN: the sampler works over exact reals and negative infinity, so rounding of the running sums is not modelled either.
- The report of the binding check beside its verdict, reading of configurations and shards, and the copied dimension fields of a compiled layer spec.
- Byte accounting and receipts of the KV cache.
- Layout.CompileLayouts: takes weights and activations already in order, because activations with equal first use follow the iteration order of a hash map; every theorem holds for every order.
- KeptGenerations.StaleForever: is about a variant that keeps the generation of a released slot, where a slot whose generation is used up takes no more inserts; the code does neither.
- PlannedFiles.PipelineMatchesCompilerIff: supposes a lane that reads each unit out of the data section of its shard; the relocate lane still sends zeros of the planned length.
- Lanes.Machine.WriteOut: has no I/O errors, which only the step system has (`WriterIoError` at any write).
- Registry.ReuseRevivesHandle: the `_on_drop` callbacks of arrays are not modelled.
- Runtime.OpenAndRun: assumes that handle slots do not run out; the results of the executor and of plan validation are parameters (`ImageRuns.RunImage` runs the validator and the lookups), and the building of quantized bindings, which can fail, is not modelled.
- ImageRuns.RunImage: the optional lookups of q_norm and k_norm do not affect it, and the conversion of bytes to an array is any partial function, of which `Conversion.DtypeToArray` is the one of the code, up to the values of the array.
- LockedPool.ArenaPool.Allocate: always succeeds; a failed allocation is a thread that stops before it charges.
- Admission.WindowIsMaximum: the other terms of the admission estimate are fixed formulas and not modelled.
- Worker supervision, sessions, streaming, Core ML audit, fusion regions, hybrid profiles, arena life cycle, build scripts and language bindings: they would add only easy members or are foreign.
