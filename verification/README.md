# Verified kernels of the distillation trainer

A Dafny model of the parts of the trainer that are pure protocol, layout and bookkeeping, and the properties that
training, checkpoint conversion and configuration rely on. `dafny verify dfyconfig.toml` checks everything.

Code that works on values is modelled by functions; code that updates dictionaries, counters or fields step by step
is modelled by methods and classes, each proved against a function, about which the properties are proved. Python
exceptions and failed assertions are `Err` or `None` results.

| modules | what they model |
|---|---|
| OffloadWindow, OffloadModel, OffloadHandler, OffloadInvariant, OffloadRuns, OffloadDelivery, OffloadSafety, OffloadOverlap, OffloadMemory | asynchronous activation offloading: the window map, the two handlers as classes, their state machine with a trace of stream operations, the invariant, whole runs, stream safety, safety of device memory, overlap of copies with computation, bounds of device memory |
| ModuleNames, ParallelLoad, CheckpointIndex | the names in a module tree, which rank reads which checkpoint file, the broadcasts that initialise a module tree, and what the weight map must say for them to match |
| PipelineShards, StageLayout | layers per pipeline rank, renumbering of stages, output files |
| QkvLayout, MoeCheckpoint | fused attention and feed-forward weights, stacked experts |
| DataProto, DataProtoChunks, DataProtoDistribution, DataProtoOperations, DataProtoUnfold, DataProtoProvenance | batches with tensor and numpy columns |
| TokenAlignment | alignment of two tokenisations |
| BoundingBox | clamping and enlarging a requested image region |
| ConfigMerge, ConfigOverrides, ConfigObjects, ConfigLoading | nested configuration dictionaries as values and as shared objects |
| Wrappers, Arithmetic, TorchRows, NumpyRows | outcomes, division facts, torch's and numpy's row operations |

## What the proofs found

- `get_dynamic_pipeline_shards` does not split as uniformly as possible: 21 layers on 5 ranks give
  [3, 5, 5, 5, 3]. Its largest stage is optimal, and `UniformExactlyWhen` says when stages differ by at most one.
- For any number of offloaded groups, what the device no longer holds has been copied out, and is used only behind its
  copy back (`RunsAreMemorySafe`).
- With as many offloaded groups as model groups, only group 0 is ever offloaded (`FullOffloadMovesOneGroup`). The buffer
  entries of the others are dropped although no copy has been made, while their tensors stay on the device
  (`EarlyRelease`): every entry is dropped behind a copy exactly when there are fewer, or one group only
  (`StreamSafeExactlyWhen`).
- The documented bound of two groups on the device holds of every run exactly for one offloaded group less than there
  are groups, which is what is configured, and for at most three groups that are all to be offloaded
  (`AtMostTwoExactlyWhen`). In general the most is L - N + 1 for N < L and max(1, L - 1) for N = L, and it is
  reached.
- Groups survive offloading exactly when equal storage keys mean equal data (`OffloadReloadRoundTrip`).
- The alignment loop can miss matches next to tokens that normalise to the empty text; `AlignmentIsAllMatches` says
  exactly when.
- A second name of one tensor in the same module is skipped, keeps its tensor on meta, and is popped in place of a later
  name (`EveryNameGivenExactlyWhen`, `SecondNameSkipped`).
- A pipeline stage without layers shifts the numbers of all later layers by one (`OffsetIs`, `EmptyStageShifts`); the
  numbers are right exactly when no stage with layers follows one without (`NumberedRightExactlyWhen`).
- Two or more ranks stay in lockstep exactly when each name that the weight map lists is held by the rank its file belongs
  to and by no later file of another rank, and no file holds an unlisted name (`LockstepExactlyWhen`).
- `concat` without a TensorDict misaligns columns silently when a part lacks a key (`ConcatAlignedExactlyWhen`,
  `ConcatMisaligns`).
- `unfold_column_chunks` without split keys is documented to repeat all columns; with numpy columns it raises
  (`UnfoldWithoutKeysExactlyWhen`).
- A valid box can be rejected after enlarging because its edges round outwards, exactly from a proportion above 2799/28
  on if its scaled size fits the image (`NeverRejectedExactlyWhen`); `EnlargedExactlyWhen` covers all boxes.
- `load_method_config` can write the method's name into the caller's overrides, where a later call finds it
  (`OverridesKeptExactlyWhen`, `OverridesTouched`, `FirstNameSticks`).

## Model

| member | source | states |
|---|---|---|
| OffloadRuns.AsyncRefinesSync | verl/utils/activation_offload.py:143-395 | for every 1 <= N <= L and every well-formed run (any number of steps, any tensors per group, any fetch order inside a group) neither handler fails an assertion or a lookup, and both hand back the same data and shapes, those that were saved |
| OffloadRuns.AsyncRunCorrect | verl/utils/activation_offload.py:263-395 | the same for the asynchronous handler from every state a run can reach, with its invariant kept; tensors de-duplicated by storage key included |
| OffloadRuns.SyncRunCorrect | verl/utils/activation_offload.py:143-218 | the same for the synchronous handler |
| OffloadRuns.StepsLeaveNothing | verl/utils/activation_offload.py:373-395 | after each complete step the tag, buffer and offload maps are empty and both counters are 0 |
| OffloadRuns.StepBoundary | verl/utils/activation_offload.py:373-395 | that state is again a legal starting state, so steps compose without limit |
| OffloadDelivery.StreamSafeExactlyWhen | verl/utils/activation_offload.py:319-395 | the order of the issued operations: if and only if N < L or L = 1 does every run drop the buffer entries of a group, and reload it, only behind a copy-out of everything it had produced, and use the tensors of an offloaded group only behind a copy-in; these copies exist, and happen before. What is still on the device when an entry is dropped is the subject of RunsAreMemorySafe |
| OffloadDelivery.RunsAreStreamSafe | verl/utils/activation_offload.py:319-395 | the safe half: for N < L or L = 1, every run of any length, empty groups included |
| OffloadDelivery.EarlyRelease | verl/utils/activation_offload.py:330-345 | for every N = L > 1 a run in which the buffer entry of a tensor of group 1 is dropped right after the tensor was pushed, nothing of the group is ever copied out, and the tensor stays on the device in the state dictionary |
| OffloadSafety.RunsAreMemorySafe | verl/utils/activation_offload.py:263-395 | for all 1 <= N <= L, after every event of every run: a tensor that neither dictionary keeps on the device was produced, and a copy-out of its group issued after that is ordered before all later work of the compute stream; and every use in the trace is behind a copy-in issued after any earlier copy-out of its group |
| OffloadSafety.SettledIsSafe | verl/utils/activation_offload.py:319-345 | a state in which each group on the host has been copied out since it was last produced is such a state |
| OffloadSafety.PopReloaded | verl/utils/activation_offload.py:285-296 | when a group is fetched, each copy-out of it has been followed by a copy-in that the compute stream has waited for |
| OffloadSafety.CommitForwardSettles | verl/utils/activation_offload.py:319-352 | a forward commit keeps what this rests on: groups on the host have been copied out, and each copy-out waits for its reload or has been reloaded |
| OffloadSafety.CommitBackwardSettles | verl/utils/activation_offload.py:373-395 | so does a backward commit |
| OffloadOverlap.RunsOverlap | verl/utils/activation_offload.py:263-395 | in every run, for all N <= L: copies out, copies in and all else run on three streams, and an operation of the compute stream waits for a copy-out only if it drops the copied group's buffer entries or comes after their drop, so until then the copy overlaps with computation |
| OffloadOverlap.CommitForwardOverlaps | verl/utils/activation_offload.py:319-352 | a forward commit keeps what this rests on: only the copies of the group whose window is open have not been followed by their drop, and the compute stream has waited for no other |
| OffloadOverlap.CommitBackwardOverlaps | verl/utils/activation_offload.py:373-395 | so does a backward commit, when nothing is left to be dropped |
| OffloadDelivery.CommitForwardFlows | verl/utils/activation_offload.py:319-352 | a forward commit keeps what delivery rests on: each product waits for its group's offload or has been copied out, and then waits for the reload or has been copied in |
| OffloadDelivery.CommitBackwardFlows | verl/utils/activation_offload.py:373-395 | so does a backward commit |
| OffloadRuns.RunsAreOrdered | verl/utils/activation_offload.py:319-395 | for all N <= L: operations that depend on one another happen in the order in which they were issued |
| OffloadMemory.DeviceWindow | verl/utils/activation_offload.py:319-345 | for N < L, in every reachable state only groups between the number of closed windows and the current group can have a tensor on the device |
| OffloadMemory.FullDeviceWindow | verl/utils/activation_offload.py:319-345 | for N = L only groups up to the current one can, and group 0 only while it is the current one |
| OffloadMemory.DeviceBound | verl/utils/activation_offload.py:319-395 | at any moment of any run at most L - N + 1 groups are on the device for N < L, and at most max(1, L - 1) for N = L |
| OffloadMemory.DeviceBoundReached | verl/utils/activation_offload.py:319-345 | for every N <= L a run in which exactly that many are |
| OffloadMemory.AtMostTwoExactlyWhen | verl/utils/activation_offload.py:502-504 | the documented bound of two groups holds of every run if and only if N = L - 1, or N = L and L <= 3 |
| OffloadMemory.AtMostTwoGroups | verl/utils/activation_offload.py:502-543 | with N = L - 1, the configuration that is actually built, at most two groups are on the device |
| OffloadMemory.FullOffloadMovesOneGroup | verl/utils/activation_offload.py:324-345 | with N = L every live tensor of every group but the first stays on the device: the offload of its group is issued before the group is pushed |
| OffloadRuns.OffloadReloadRoundTrip | verl/utils/activation_offload.py:298-371 | offloading and reloading a group restores every tensor in it if and only if equal storage keys in the group mean equal data |
| OffloadRuns.ReloadExactlyWhen | verl/utils/activation_offload.py:354-371 | a group comes back if and only if it is one of the first N, has been copied, and each of its tensors on the host finds a copy with as many elements as its shape has; each is then that copy under that shape |
| OffloadRuns.MatrixReloaded | verl/utils/activation_offload.py:354-371 | a tensor of shape [a, b] comes back if and only if its copy has a * b values |
| OffloadModel.NumelOne | verl/utils/activation_offload.py:298-371 | a tensor of shape [n] has n elements, one of shape [] has one |
| OffloadModel.NumelConcat | verl/utils/activation_offload.py:298-371 | joining two shapes multiplies their element counts |
| OffloadRuns.TaggedExactlyWhen | verl/utils/activation_offload.py:263-283 | in every reachable state a saved tensor has a tag if and only if the checker asked for it and it is not an artefact of tracing; any other is handed back itself |
| OffloadRuns.TagsAreConsecutive | verl/utils/activation_offload.py:263-283 | the tags of a group are numbered one after the other |
| OffloadRuns.SyncRunPlaces | verl/utils/activation_offload.py:190-218 | at every moment of every run the synchronous handler has on the host exactly the tensors of the first N groups that the checker asks for |
| OffloadRuns.CommitAssumptionHolds | verl/utils/activation_offload.py:35-37 | in every reachable forward state the shared-storage assumption that the commit methods take holds |
| OffloadRuns.SaveKeeps | verl/utils/activation_offload.py:263-283 | a save never fails and keeps the invariant that links client, handles and handler |
| OffloadRuns.FetchKeeps | verl/utils/activation_offload.py:285-296 | a fetch never fails, returns the saved data and shape and keeps the invariant |
| OffloadRuns.CommitKeeps | verl/utils/activation_offload.py:319-395 | a forward or backward commit never fails and keeps the invariant |
| OffloadRuns.SyncKeeps | verl/utils/activation_offload.py:161-218 | every event of the synchronous handler succeeds, keeps its invariant and returns what was saved |
| OffloadInvariant.PushKeeps | verl/utils/activation_offload.py:263-283 | a push takes a fresh tag and keeps the handler invariant |
| OffloadInvariant.PopKeeps | verl/utils/activation_offload.py:285-296 | a pop of a live tag finds a device tensor equal to the pushed one |
| OffloadInvariant.CommitForwardKeeps | verl/utils/activation_offload.py:319-352 | forward commit g succeeds and leads from the forward state g to g + 1 |
| OffloadInvariant.CommitBackwardKeeps | verl/utils/activation_offload.py:373-395 | backward commit succeeds and leads to the state before group g - 1 is fetched, its group reloaded |
| OffloadInvariant.CloseWindowKeeps | verl/utils/activation_offload.py:330-345 | closing a window drops one group's buffer entries and starts the copy of the next |
| OffloadInvariant.OpenWindowKeeps | verl/utils/activation_offload.py:381-390 | opening a window reloads the last group that is off the device |
| OffloadWindow.FillWindowMap | verl/utils/activation_offload.py:248-257 | the filling loop leaves entry i = (L div N)(i + 1) - 1 + min(i + 1, L mod N) |
| OffloadWindow.WindowGap | verl/utils/activation_offload.py:248-257 | entries increase strictly, by L div N or one more |
| OffloadWindow.WindowEnds | verl/utils/activation_offload.py:248-257 | the last entry is L - 1 and the first is not negative |
| OffloadWindow.WindowAhead | verl/utils/activation_offload.py:340-342 | for N < L entry i is at least i + 1, so group i + 1 is completely pushed when its offload is issued; for N = L entry i is i |
| OffloadWindow.ClosedCounts | verl/utils/activation_offload.py:330-345 | the offloaded-group counter before forward commit g counts exactly the window entries below g |
| OffloadWindow.ClosedAtEnd | verl/utils/activation_offload.py:330-345 | it reaches N after exactly L commits and not before |
| OffloadWindow.ClosedReverse | verl/utils/activation_offload.py:380-390 | the backward commits take the counter through the same values in reverse |
| OffloadHandler.SynchronizedGroupOffloadHandler.constructor | verl/utils/activation_offload.py:143-159 | the initial state |
| OffloadHandler.SynchronizedGroupOffloadHandler.TensorPush | verl/utils/activation_offload.py:195-208 | makes the SyncPush transition, with the assertion as an error |
| OffloadHandler.SynchronizedGroupOffloadHandler.TensorPop | verl/utils/activation_offload.py:210-218 | makes the SyncPop transition, with the assertion as an error |
| OffloadHandler.SynchronizedGroupOffloadHandler.OnGroupCommitForward | verl/utils/activation_offload.py:161-165 | makes the SyncCommitForward transition |
| OffloadHandler.SynchronizedGroupOffloadHandler.OnGroupCommitBackward | verl/utils/activation_offload.py:167-170 | makes the SyncCommitBackward transition, with the assertion as an error |
| OffloadHandler.AsyncDoubleBufferGroupOffloadHandler.constructor | verl/utils/activation_offload.py:228-261 | the initial state, with the window map filled |
| OffloadHandler.AsyncDoubleBufferGroupOffloadHandler.TensorPush | verl/utils/activation_offload.py:263-283 | makes the Push transition in place, with the assertion as an error |
| OffloadHandler.AsyncDoubleBufferGroupOffloadHandler.TensorPop | verl/utils/activation_offload.py:285-296 | makes the Pop transition in place, with both assertions as errors |
| OffloadHandler.AsyncDoubleBufferGroupOffloadHandler.EvictGroup | verl/utils/activation_offload.py:300-311 | the dictionary loop replaces the group's tensors by (key, shape) pairs and gathers one tensor per key, in whatever order it runs |
| OffloadHandler.AsyncDoubleBufferGroupOffloadHandler.MappingIsBackup | verl/utils/activation_offload.py:300-311 | under the shared-storage assumption the visiting order does not matter |
| OffloadHandler.AsyncDoubleBufferGroupOffloadHandler.BulkOffloadGroup | verl/utils/activation_offload.py:298-317 | makes the BulkOffload transition |
| OffloadHandler.AsyncDoubleBufferGroupOffloadHandler.ReleaseBuffers | verl/utils/activation_offload.py:335-338 | drops exactly the references of one group |
| OffloadHandler.AsyncDoubleBufferGroupOffloadHandler.KickstartOffload | verl/utils/activation_offload.py:322-326 | makes the Kickstart transition |
| OffloadHandler.AsyncDoubleBufferGroupOffloadHandler.UncoverCurrentWindow | verl/utils/activation_offload.py:330-338 | makes the Uncover transition: synchronise both ways, then release |
| OffloadHandler.AsyncDoubleBufferGroupOffloadHandler.CloseCurrentWindow | verl/utils/activation_offload.py:330-345 | makes the CloseWindow transition |
| OffloadHandler.AsyncDoubleBufferGroupOffloadHandler.SynchronizeOnGroupCommitForward | verl/utils/activation_offload.py:319-345 | makes the Synchronize transition |
| OffloadHandler.AsyncDoubleBufferGroupOffloadHandler.OnGroupCommitForward | verl/utils/activation_offload.py:347-352 | makes the CommitForward transition |
| OffloadHandler.AsyncDoubleBufferGroupOffloadHandler.RestoreGroup | verl/utils/activation_offload.py:365-371 | succeeds exactly when every off-device tensor of the group has a backup of its size, and then puts the views back |
| OffloadHandler.AsyncDoubleBufferGroupOffloadHandler.BulkReloadGroup | verl/utils/activation_offload.py:354-371 | makes the BulkReload transition, with the assertion and the missing mapping as errors |
| OffloadHandler.AsyncDoubleBufferGroupOffloadHandler.OpenCurrentWindow | verl/utils/activation_offload.py:381-390 | makes the OpenWindow transition |
| OffloadHandler.AsyncDoubleBufferGroupOffloadHandler.OnGroupCommitBackward | verl/utils/activation_offload.py:373-395 | makes the CommitBackward transition |
| ParallelLoad.RanksInLockstep | verl/utils/fsdp_utils.py:314-395 | for any two ranks and any prefix of the members, either both have got that far with the same sequence of (parameter, source) broadcasts, or neither has |
| ParallelLoad.RankFollowsPlan | verl/utils/fsdp_utils.py:336-391 | a rank gets through a prefix of the members if and only if the checkpoint has what it needs; its broadcasts are then the plan, each from the owner of the file and with the owner's value |
| ParallelLoad.SharedObjectsOnce | verl/utils/fsdp_utils.py:372-386 | two visited names get the same materialised object if and only if they name the same tensor, and its broadcast carries the checkpoint's value of its first name |
| ParallelLoad.EveryNameGivenExactlyWhen | verl/utils/fsdp_utils.py:356-386 | every name of a tensor on meta gets its materialised object if and only if no module holds one tensor on meta under two of its own names |
| ParallelLoad.JobEndsWithCheckpoint | verl/utils/fsdp_utils.py:336-391 | all ranks of a job get through or none does; then what each visited name holds on every rank, once the broadcasts are matched, is the checkpoint's value of the tensor's first name |
| ModuleNames.CollectNames | verl/utils/fsdp_utils.py:327-331 | the name lists hold for each tensor all its names in listing order |
| ModuleNames.SlotOf | verl/utils/fsdp_utils.py:356-363 | for every way from the root of a module tree to a module, its j-th member is met under the child names on the way and its own name with dots between, after all that precedes it in the tree, with its own tensor, kind and place, and as listed again if and only if the module holds the tensor under an earlier name |
| ModuleNames.WayOf | verl/utils/fsdp_utils.py:356-388 | and every member that is met is one of these |
| ModuleNames.VisitedBefore | verl/utils/fsdp_utils.py:356-388 | a module's own members come before all below it, and a child with all below it before the next child |
| ModuleNames.CollectedNames | verl/utils/fsdp_utils.py:327-331 | for a listing of parameters, then buffers, along the module tree these are parameter names, then buffer names, in tree order |
| ModuleNames.FlattenVisited | verl/utils/fsdp_utils.py:357-357 | the visit of a module tree skips no name if and only if no module holds one tensor on meta under two of its own names |
| ModuleNames.PoppedIsOwn | verl/utils/fsdp_utils.py:359-363 | the name popped for a member is its own if and only if all earlier names of its tensor have been visited |
| ModuleNames.PoppedOnce | verl/utils/fsdp_utils.py:363-363 | no name is popped for two members |
| ModuleNames.SecondNameSkipped | verl/utils/fsdp_utils.py:357-363 | a module tree in which a name is skipped, stays on meta, and is popped in place of a later one |
| ParallelLoad.BroadcastDelivers | verl/utils/fsdp_utils.py:344-351 | the source of the k-th broadcast takes part in the k-th broadcast and sends the checkpoint's value |
| ParallelLoad.ExactlyOneOwner | verl/utils/fsdp_utils.py:292-296 | for any number of files and ranks every file lies in exactly one rank's slice |
| ParallelLoad.SlicesMeet | verl/utils/fsdp_utils.py:295-296 | the slices follow one another from the first file to the last, and each is full until the files run out |
| ParallelLoad.NoRankHasMore | verl/utils/fsdp_utils.py:295-296 | no rank has more files than any size of which one for each rank suffices |
| ParallelLoad.LoadSafetensors | verl/utils/fsdp_utils.py:298-311 | for any files and any weight map: the loop over ranks and files computes the table that maps, file by file, what this rank's files hold to the tensors and what the weight map lists under the others to their ranks |
| ParallelLoad.TableEntered | verl/utils/fsdp_utils.py:298-311 | when the weight map lists under each file what it holds, that table maps each parameter to its tensor if this rank owns the file and to the owning rank otherwise, and holds nothing else |
| CheckpointIndex.TablesAgreeExactlyWhen | verl/utils/fsdp_utils.py:302-310 | all ranks enter the same names from the same ranks if and only if there is one rank, or every listed name is held by the rank that its file belongs to and by no later file of another rank, and no file holds an unlisted name |
| CheckpointIndex.LockstepExactlyWhen | verl/utils/fsdp_utils.py:302-395 | exactly then do all pairs of ranks stay in lockstep through every prefix of every module tree |
| CheckpointIndex.EntryFrom | verl/utils/fsdp_utils.py:302-310 | an entry comes from the last file under which the rank sees the name, with the value that its own file holds |
| CheckpointIndex.ExactServes | verl/utils/fsdp_utils.py:274-310 | a weight map that lists under each file what it holds satisfies that condition for any number of ranks |
| CheckpointIndex.UnlistedDiffers | verl/utils/fsdp_utils.py:302-310 | a name that is held but not listed gives two ranks different tables |
| ParallelLoad.NoteOwner | verl/utils/fsdp_utils.py:307-310 | the names of a file are entered with the rank that holds it |
| ParallelLoad.VisitStep | verl/utils/fsdp_utils.py:359-386 | one member succeeds exactly when the table has the name that is popped for it, where that is needed, and keeps the invariant on tables and objects |
| ParallelLoad.VisitAllCorrect | verl/utils/fsdp_utils.py:356-393 | the same for any stretch of members |
| ParallelLoad.Loader.CreateAndSyncState | verl/utils/fsdp_utils.py:336-354 | makes the CreateAndSync transition in place |
| ParallelLoad.Loader.InitMember | verl/utils/fsdp_utils.py:359-386 | makes the Visit transition in place, none for a member that is listed again |
| ParallelLoad.Loader.InitFn | verl/utils/fsdp_utils.py:356-393 | the recursion over the module tree, with its memo of tensors already listed, makes the transitions of the flattened members in order |
| PipelineShards.GetDynamicPipelineShards | verl/model_merger/megatron_model_merger.py:59-90 | the search over middle sizes returns the strategy of the least feasible one, and the three error cases |
| PipelineShards.ReturnsExactlyWhen | verl/model_merger/megatron_model_merger.py:59-90 | for layers >= ranks >= 1 it returns if and only if ranks <= 2, or ranks divides layers, or ranks <= layers mod ranks + 2 (layers div ranks) |
| PipelineShards.ShardsByRank | verl/model_merger/megatron_model_merger.py:68-90 | the result is the one split in which all ranks between the ends have ceil(layers / ranks) and the last rank as many layers as the first or one more |
| PipelineShards.FailsWith | verl/model_merger/megatron_model_merger.py:59-64 | which error is raised when |
| PipelineShards.ShardsAreOptimal | verl/model_merger/megatron_model_merger.py:73-90 | all stages are positive, sum to the layers, the largest is ceil(layers / ranks), and no split into that many stages has a smaller largest stage |
| PipelineShards.UniformExactlyWhen | verl/model_merger/megatron_model_merger.py:56-90 | stages differ by at most one if and only if ranks <= 2, or ranks divides layers, or layers mod ranks >= ranks - 2 |
| PipelineShards.NotAsUniformAsPossible | verl/model_merger/megatron_model_merger.py:56-90 | 21 layers on 5 ranks give [3, 5, 5, 5, 3] although [5, 4, 4, 4, 4] is a split |
| PipelineShards.FeasibleRange | verl/model_merger/megatron_model_merger.py:75-85 | the middle sizes the loop accepts are those from ceil(layers / ranks) up to the bound the outer ranks set |
| PipelineShards.DistanceGrows | verl/model_merger/megatron_model_merger.py:83-88 | among them the sort key grows with the middle size, so the smallest is taken |
| PipelineShards.StrategySum | verl/model_merger/megatron_model_merger.py:76-89 | every strategy sums to the layers: the final assertion cannot fail |
| StageLayout.NumberingIsBijective | verl/model_merger/megatron_model_merger.py:351-376 | prefix sums number the local layers of all stages 0..total-1 without gap or clash |
| StageLayout.MergeStateDicts | verl/model_merger/megatron_model_merger.py:349-411 | the loop over stages computes the merge under the running offset |
| StageLayout.MergeStage | verl/model_merger/megatron_model_merger.py:357-409 | one stage adds its renumbered entries, in whatever order they come, and reports its largest layer number |
| StageLayout.NumberedRightExactlyWhen | scripts/legacy_model_merger.py:611-656 | every local layer of every stage is found in the result under the number it has in the whole model, with its own entry, if and only if no stage with layers follows one without |
| StageLayout.RunningOffsetExactlyWhen | scripts/legacy_model_merger.py:611-656 | the running counter equals the prefix sum before every stage that has layers if and only if no such stage follows one without, and before every stage and after the last if and only if every stage has a layer |
| StageLayout.OffsetIs | scripts/legacy_model_merger.py:611-656 | in general it is the prefix sum plus the number of stages without layers so far |
| StageLayout.EmptyStageShifts | scripts/legacy_model_merger.py:611-656 | one stage without layers before a stage with one layer: the layer is numbered 1 instead of 0 |
| StageLayout.MergedEntry | verl/model_merger/megatron_model_merger.py:370-376 | for any stages, every local layer is found under its number plus the running counter, with its own entry |
| StageLayout.MergedOnly | verl/model_merger/megatron_model_merger.py:357-409 | and there is no other layered entry |
| StageLayout.PlainEntry | verl/model_merger/megatron_model_merger.py:370-376 | an entry outside the layers keeps its name, and is that of the last stage to hold it |
| StageLayout.PlainOnly | verl/model_merger/megatron_model_merger.py:357-409 | and comes from some stage |
| StageLayout.MergedLayer | verl/model_merger/megatron_model_merger.py:370-376 | with stages without layers last, a layered entry of the result is the entry of the one stage and local layer that it numbers |
| StageLayout.MergedWithin | verl/model_merger/megatron_model_merger.py:357-409 | and its numbers then lie between the start and the start plus the number of layers |
| StageLayout.SaveRank | verl/model_merger/megatron_model_merger.py:426-448 | the saving loop writes key p of a rank to the file of the part that holds it |
| StageLayout.FileMapEntries | verl/model_merger/megatron_model_merger.py:440-448 | every key of a rank is in exactly one file and no other key is indexed |
| StageLayout.FilesAreNumberedOnce | verl/model_merger/megatron_model_merger.py:421-448 | across ranks every number 1..saves_total is written by exactly one rank, once |
| StageLayout.EveryKeyInOneFile | verl/model_merger/megatron_model_merger.py:421-456 | with the shards computed for the model and keys that no two ranks share, the gathered index has every key of every rank in exactly one of the files 1..saves_per_layer * layers, the one its rank wrote it to, and no other key |
| StageLayout.FilesTotal | verl/model_merger/megatron_model_merger.py:421-431 | the computed shards give every rank a file, and all ranks together saves_per_layer files for each layer |
| StageLayout.FilesByDepth | verl/model_merger/megatron_model_merger.py:421-431 | that is one file for each layer below 30 layers, and two from 30 layers on, on each rank and in all |
| NumpyRows.PartStep | verl/model_merger/megatron_model_merger.py:431-431 | np.array_split: consecutive parts cover the keys, the first n mod parts are one longer |
| StageLayout.FilesInRange | verl/model_merger/megatron_model_merger.py:440-446 | and no rank writes another number |
| QkvLayout.SplitTensors | verl/model_merger/megatron_model_merger.py:321-345 | the chunk loop computes the split, with both assertions and the failing torch calls as errors |
| QkvLayout.SplitExactlyWhen | verl/model_merger/megatron_model_merger.py:321-345 | a fused tensor can be split if and only if the KV heads divide the heads and heads + 2 KV heads divides the rows |
| QkvLayout.ConvertThenSplit | scripts/converter_hf_to_mcore.py:155-168 | splitting what the converter interleaved gives back q, k and v row for row, weights or biases |
| QkvLayout.SplitThenConvert | scripts/converter_hf_to_mcore.py:155-168 | interleaving what the merger split gives back the fused tensor |
| QkvLayout.InterleaveSplit | verl/model_merger/megatron_model_merger.py:334-345 | group by group: chunks of an interleaved tensor come apart into the three parts |
| QkvLayout.InterleaveLayout | scripts/converter_hf_to_mcore.py:155-168 | group g of the interleaved rows is the g-th run of query rows, then of key rows, then of value rows |
| QkvLayout.ConvertLayout | scripts/converter_hf_to_mcore.py:155-168 | so is group g of every converted weight |
| QkvLayout.SplitLayout | verl/model_merger/megatron_model_merger.py:323-346 | and of every fused weight that the merger takes apart |
| QkvLayout.MergeTensors | scripts/legacy_model_merger.py:529-557 | the loop over ranks and chunks computes the merge |
| QkvLayout.MergeIsSplitOfWhole | scripts/legacy_model_merger.py:529-557 | for every tensor-parallel size that divides the KV heads, merging the ranks' slices is splitting the whole tensor |
| QkvLayout.MergeInGroups | scripts/legacy_model_merger.py:533-559 | for any number of ranks and tensor-parallel size, slices of whole groups merge into the parts whose groups are those of the slices, one after the other |
| QkvLayout.GateUpExactlyWhen | verl/model_merger/megatron_model_merger.py:311-320 | chunk(2) undoes the concatenation of gate and up if and only if they have equal rows, or gate one more and up some |
| QkvLayout.MergeGateUpRanks | scripts/legacy_model_merger.py:518-528 | merging ranks that hold equal parts of both restores both |
| MoeCheckpoint.MergeExperts | scripts/veomni/moe_merge.py:95-110 | the nested loops apply the merge of one projection to every layer and projection in order |
| MoeCheckpoint.StackExperts | scripts/veomni/moe_merge.py:96-100 | popping one by one and stacking makes the MergeOne step, with missing keys, no experts and unequal shapes as errors |
| MoeCheckpoint.MergeExactlyWhen | scripts/veomni/moe_merge.py:95-110 | it succeeds if and only if there are experts and every layer has all of them, in equal shapes |
| MoeCheckpoint.MergePointwise | scripts/veomni/moe_merge.py:95-110 | what every key of the result holds |
| MoeCheckpoint.StackedShape | scripts/veomni/moe_merge.py:95-110 | stacking n tensors of one shape adds a dimension of n in front |
| MoeCheckpoint.SplitExperts | scripts/veomni/moe_split.py:75-83 | the nested loops apply the split of one projection to every layer and projection in order |
| MoeCheckpoint.UnstackExperts | scripts/veomni/moe_split.py:79-83 | makes the SplitOne step; an index beyond the stack is an error |
| MoeCheckpoint.SplitPointwise | scripts/veomni/moe_split.py:75-83 | splitting succeeds exactly when every stacked tensor has enough parts, and what every key then holds |
| MoeCheckpoint.RoundTripExactlyWhen | scripts/veomni/moe_split.py:75-83 | after any merge, splitting restores the original dictionary if and only if it held no stacked key of any layer |
| MoeCheckpoint.PairsAre | scripts/veomni/moe_merge.py:95-96 | the loops visit each projection of each layer in their range, once |
| MoeCheckpoint.OtherKeysUntouched | scripts/veomni/moe_merge.py:95-110 | all other keys keep their tensors through both |
| TokenAlignment.AlignTokenSequences | easyopd/methods/_align_utils.py:46-86 | the two-pointer loop and its fast path return the pairs of the walk |
| TokenAlignment.MarkersDoNotMatter | easyopd/methods/_align_utils.py:19-53 | inserting and dropping word-start markers anywhere in tokens that are not the end-of-sequence token, before or after, leaves the returned pairs as they are |
| TokenAlignment.CanonicalStandsFor | easyopd/methods/_align_utils.py:46-53 | the end-of-sequence token of either side stands for the common marker, any other token without word-start markers for itself |
| TokenAlignment.SpellingsAlign | easyopd/methods/_align_utils.py:46-86 | the two spellings of one word are aligned |
| TokenAlignment.AlignmentIsAllMatches | easyopd/methods/_align_utils.py:59-86 | the pairs are strictly increasing and common occurrences for all inputs; they are all (i, j) with equal preceding text and equal tokens if and only if at every text both sides reach, with e and f empty tokens there, e * f <= min(e, f), and e differs from f only if the next tokens differ |
| TokenAlignment.NonEmptyLosesNothing | easyopd/methods/_align_utils.py:59-86 | tokens that do not normalise to the empty text meet that condition |
| TokenAlignment.MatchLost | easyopd/methods/_align_utils.py:65-84 | where the condition fails, a common occurrence that is not returned |
| TokenAlignment.AlignmentIsMaximum | easyopd/methods/_align_utils.py:59-86 | under the condition no increasing alignment of common occurrences is longer |
| TokenAlignment.WalkComplete | easyopd/methods/_align_utils.py:65-84 | under the condition no common occurrence ahead of the walk is lost |
| TokenAlignment.EmptyTokenLosesMatch | easyopd/methods/_align_utils.py:65-84 | one empty token can be enough to lose a match |
| TokenAlignment.WalkSound | easyopd/methods/_align_utils.py:65-84 | every pair found from (i, j) on is a common occurrence |
| TokenAlignment.FastPath | easyopd/methods/_align_utils.py:55-57 | on identical sequences the loop would return the diagonal, empty tokens included |
| TokenAlignment.WalkSymmetric | easyopd/methods/_align_utils.py:65-84 | swapping the two sides swaps the pairs |
| TokenAlignment.FinalEosAligned | easyopd/methods/_align_utils.py:46-53 | equal texts before two final end-of-sequence tokens align those two, whatever their spelling, when no match is lost |
| TokenAlignment.NormalizeOne | easyopd/methods/_align_utils.py:19-21 | of the single characters exactly the two markers are dropped |
| TokenAlignment.NormalizeConcat | easyopd/methods/_align_utils.py:19-21 | normalising goes character by character: what is kept keeps its order and number |
| TokenAlignment.NormalizeTwice | easyopd/methods/_align_utils.py:19-21 | normalising is idempotent |
| DataProtoDistribution.DistributionIsTransparent | verl/protocol.py:70-102 | for every row-wise f, divisor k > 0 and non-empty data: pad, chunk, map f per chunk, concat, unpad equals mapping f over the rows |
| DataProtoDistribution.DistributionNeverFails | verl/protocol.py:70-95 | padding to k and chunking into k never fails, for empty data either |
| DataProtoDistribution.PadToDivisor | verl/protocol.py:70-95 | the method computes the padding, a zero divisor being an error |
| DataProtoDistribution.CollectPadding | verl/protocol.py:83-88 | the loop terminates with the prefixes it must collect |
| DataProtoDistribution.PaddedRows | verl/protocol.py:81-95 | the padded size is the next multiple of k and row i of it is row i mod n |
| DataProtoDistribution.ChunksRows | verl/protocol.py:775-814 | the chunks hold all rows in order |
| DataProtoDistribution.SplitMoves | verl/protocol.py:816-825 | part i of a split holds whole rows, from i times the size on |
| DataProtoDistribution.SplitRows | verl/protocol.py:816-825 | split keeps all rows in order, in parts of the given size with a shorter, non-empty last one |
| DataProtoProvenance.EntriesStayTogether | verl/protocol.py:546-987 | after any sequence of select_idxs, masks, slice, repeat, sample_level_repeat, chunk, split, padding, reorder, unfold_column_chunks, and concat with further data before and after: position i of every tensor and numpy column holds the entry of one row of one input with the same parts taken of it, the row and parts that the operations' own choices give |
| DataProtoProvenance.UnfoldTracked | verl/protocol.py:902-939 | unfolding takes one part of each split key's entry and keeps rows together |
| DataProtoProvenance.JoinTracked | verl/protocol.py:827-848 | so does concat with data of the same columns |
| DataProtoOperations.RowsStayWhole | verl/protocol.py:546-987 | without unfolding and joining the result is one index sequence of original rows, the composition of the operations' own |
| DataProtoOperations.OpMoves | verl/protocol.py:546-987 | each of these operations moves whole rows by one index sequence |
| DataProtoOperations.PadMoves | verl/protocol.py:760-773 | padding appends copies of the first or last row; it fails only on empty data |
| DataProtoOperations.ConcatAlignedExactlyWhen | verl/protocol.py:843-848 | without a TensorDict, concat returns aligned columns if and only if every part with rows has every key of the first; otherwise it silently misaligns |
| DataProtoOperations.ConcatExactlyWhen | verl/protocol.py:827-848 | concat succeeds if and only if there are parts, no part has a numpy key that the first lacks, and, with a TensorDict, all tensor keys agree and every part with rows has every numpy key of the first |
| DataProtoOperations.ConcatMisaligns | verl/protocol.py:843-848 | two columns of one row and then one of them: the result has columns of lengths 2 and 1, and no error |
| DataProtoOperations.DataProtoObject.constructor | verl/protocol.py:300-307 | the object holds the given columns |
| DataProtoOperations.DataProtoObject.Padding | verl/protocol.py:760-773 | the fields are replaced by the padded columns, or left as they were |
| DataProtoOperations.DataProtoObject.Reorder | verl/protocol.py:850-856 | both kinds of columns are indexed in place, or left as they were |
| DataProtoOperations.ReorderUndone | verl/protocol.py:850-856 | reordering by a permutation and by its inverse restores every row |
| DataProtoOperations.ReorderNeedsBatch | verl/protocol.py:850-856 | reordering needs a TensorDict and does what selecting does |
| DataProto.RepeatAgree | verl/protocol.py:869-892 | torch repeat_interleave and numpy repeat agree |
| DataProto.TileAgree | verl/protocol.py:876-894 | torch unsqueeze, expand, reshape and numpy tile agree |
| DataProto.RepeatTimesAgree | verl/protocol.py:965-981 | torch repeat_interleave and numpy repeat agree for one count per row |
| DataProto.MaskAgree | verl/protocol.py:570-582 | torch and numpy boolean indexing agree |
| DataProto.PicksMove | verl/protocol.py:570-584 | if both kinds of columns are picked at the same positions, whole rows move |
| DataProto.RepeatMoves | verl/protocol.py:858-900 | repeat moves whole rows, i to i div k or i mod n |
| DataProto.RepeatedRow | verl/protocol.py:858-900 | row i of the repeated data is row i div k when interleaved, and row i mod n otherwise |
| DataProto.SampledRow | verl/protocol.py:941-987 | the copies of row i take as many places as its count says, right behind those of all earlier rows |
| DataProto.SampledAlike | verl/protocol.py:941-987 | any other number of counts is accepted if and only if it is one, and there is no TensorDict or the batch size happens to be right; every row is then repeated as repeat with interleaving does |
| DataProto.SelectedRow | verl/protocol.py:546-584 | indices are accepted if and only if all lie in [-n, n); row j of the result is row idxs[j] mod n |
| DataProto.SlicedRow | verl/protocol.py:586-625 | row j of a slice is row start + j * step as long as that lies before the end, for Python's start and end of positive and negative steps and bounds; a negative step is accepted if and only if there is no TensorDict |
| DataProto.NonzeroIs | verl/protocol.py:546-584 | a mask picks the positions at which it is true, in increasing order |
| DataProto.MaskFits | verl/protocol.py:546-584 | a mask is accepted if and only if it is as long as the data |
| DataProto.NothingSelected | verl/protocol.py:546-584 | without columns only the batch size changes, and that only with a TensorDict |
| DataProto.SampleRepeatMoves | verl/protocol.py:941-987 | sample_level_repeat moves whole rows, each as often as its count says |
| DataProto.MaskMoves | verl/protocol.py:546-584 | a mask keeps exactly the rows at its true positions, whole |
| DataProtoChunks.ChunkProto | verl/protocol.py:775-814 | the loops yield the chunks or the error: chunk i has torch's i-th tensor chunk and the part of every numpy column between the running sums of the tensor chunks' sizes |
| DataProtoChunks.DealColumns | verl/protocol.py:797-806 | splitting column by column at the running sums and dealing out the parts leaves chunk i the i-th part of every column; it fails exactly when a column does not split into as many parts as asked for |
| NumpyRows.SplitAtSizes | verl/protocol.py:792-804 | np.array_split at the running sums without the last yields one piece per size, between the sums before and after it |
| DataProtoChunks.ChunkAgree | verl/protocol.py:789-806 | torch chunk and numpy array_split at the cumulative sizes cut a column at the same places |
| DataProtoChunks.ChunkMoves | verl/protocol.py:789-812 | chunk i holds whole rows, from one cut to the next |
| DataProtoChunks.CutIs | verl/protocol.py:789-812 | with a TensorDict chunk i starts at row i * ceil(rows / chunks), or at the end |
| DataProtoChunks.EvenCut | verl/protocol.py:789-812 | when the chunks divide the rows, all chunks have the same number of rows |
| DataProtoChunks.ChunksExactlyWhen | verl/protocol.py:784-804 | chunk succeeds if and only if the size is divisible (or padding is enabled) and torch yields as many chunks as asked for |
| DataProtoChunks.ConcatRows | verl/protocol.py:827-848 | concat puts the rows of the parts one after the other |
| DataProtoUnfold.ReshapeEntry | verl/protocol.py:911-915 | entry p of the reshaped column is part p mod n of row p div n |
| DataProtoUnfold.UnfoldAligned | verl/protocol.py:902-939 | at every position all columns come from the same original row, the split ones from the same part of it |
| DataProtoUnfold.UnfoldedTensor | verl/protocol.py:902-939 | entry i of a tensor column is the (i mod n)-th of n equal parts of row i div n if the column is among the split keys, and that whole row otherwise |
| DataProtoUnfold.UnfoldedOther | verl/protocol.py:902-939 | the same for a numpy column |
| DataProtoUnfold.UnfoldExactlyWhen | verl/protocol.py:902-939 | it succeeds if and only if n divides the width of every column to be split and no numpy columns are there without split keys |
| DataProtoUnfold.UnfoldWithoutKeysExactlyWhen | verl/protocol.py:906-933 | reads the guard of the numpy loop back: without split keys the call returns if and only if there are no numpy columns, against the docstring |
| BoundingBox.MaybeResizeBbox | verl/tools/image_zoom_in_tool.py:216-297 | the branches compute Resized |
| BoundingBox.TargetSize | verl/tools/image_zoom_in_tool.py:243-257 | the scaling steps compute Target |
| BoundingBox.ReturnedBoxIsGood | verl/tools/image_zoom_in_tool.py:216-297 | a returned box lies inside the image, has both sides at least 28 (rounded down too), is valid, and contains the clamped requested box |
| BoundingBox.ReturnedPoints | verl/tools/image_zoom_in_tool.py:205-297 | each point of the image in the requested box is in the returned one, which has no point outside the image, and none outside the requested box when that is large enough in the image |
| BoundingBox.RejectedWhen | verl/tools/image_zoom_in_tool.py:205-297 | a box that is not valid in the image is rejected, and a large enough one only then |
| BoundingBox.ValidExactlyWhen | verl/tools/image_zoom_in_tool.py:181-203 | valid means having an inside and no side more than a hundred times the other |
| BoundingBox.NeverRejectedExactlyWhen | verl/tools/image_zoom_in_tool.py:191-297 | of the proportions 1 to 100 that a valid box can have, all boxes that need enlarging and fit once scaled are accepted if and only if the proportion is at most 2799/28 |
| BoundingBox.NeverRejected | verl/tools/image_zoom_in_tool.py:231-297 | up to that proportion such a box is accepted and comes back in the scaled size up to rounding |
| BoundingBox.EnlargedExactlyWhen | verl/tools/image_zoom_in_tool.py:248-295 | whether or not its scaled size fits the image, a box that needs enlarging is accepted if and only if on both axes the target length and the fraction its start is behind a whole number exceed 27 together, and the rounded proportion is valid: always for target sides above 27 and up to 2799, never with a side up to 26 |
| BoundingBox.UnluckyRejected | verl/tools/image_zoom_in_tool.py:191-297 | beyond it, for every proportion, a fitting box that is rejected because its edges round outwards |
| BoundingBox.LargeBoxUnchanged | verl/tools/image_zoom_in_tool.py:216-229 | a valid clamped box with both sides at least 28 is returned as it is |
| BoundingBox.Idempotent | verl/tools/image_zoom_in_tool.py:205-297 | a returned box is returned unchanged by a second call |
| BoundingBox.TargetFits | verl/tools/image_zoom_in_tool.py:243-257 | the scaled size keeps the proportions, is no smaller than the box on either side and fits the image |
| BoundingBox.TargetLargest | verl/tools/image_zoom_in_tool.py:248-262 | and the largest size of these proportions that fits the image and whose shorter side is at most 28 |
| BoundingBox.PlaceNearest | verl/tools/image_zoom_in_tool.py:264-281 | of all places inside the image the stretch is put at the one nearest to the middle of the requested one |
| BoundingBox.PlaceCovers | verl/tools/image_zoom_in_tool.py:259-276 | centring and shifting one axis stays in the image and covers the requested stretch |
| BoundingBox.AspectBound | verl/tools/image_zoom_in_tool.py:191-196 | the aspect test is longer side <= bound times shorter side |
| ConfigMerge.LookupMerge | easyopd/config_loader.py:223-243 | what a reader finds at any path of the merged dictionary, in terms of the two layers: the override wins wherever its path does not end at a missing key |
| ConfigMerge.MergeIdentity | easyopd/config_loader.py:233-243 | the empty dictionary is the identity on both sides |
| ConfigMerge.MergeIdempotent | easyopd/config_loader.py:233-243 | merging a dictionary with itself changes nothing |
| ConfigMerge.ReapplyOverride | easyopd/config_loader.py:233-243 | nor does applying the same override again |
| ConfigMerge.AbsorbedExactlyWhen | easyopd/config_loader.py:233-243 | merging c over a gives c if and only if c has a key wherever a has one |
| ConfigMerge.AssociativeExactlyWhen | easyopd/config_loader.py:233-243 | merging three layers is associative if and only if no leaf of the middle one stands between two dictionaries of which the upper does not cover the lower |
| ConfigMerge.SameShapeAssociates | easyopd/config_loader.py:233-243 | in particular when no path is a dictionary in one layer and a leaf in the next |
| ConfigMerge.NotAssociative | easyopd/config_loader.py:233-243 | three layers for which the order of merging matters |
| ConfigOverrides.ParseConcat | scripts/run_easyopd.py:93-119 | for prefix-free keys and values that are not dictionaries, parsing xs followed by ys succeeds and equals merging the parse of ys over the parse of xs |
| ConfigOverrides.BuildConcat | scripts/run_easyopd.py:98-119 | the same whenever no key extends an earlier one |
| ConfigOverrides.BuildExactlyWhen | scripts/run_easyopd.py:112-117 | assignments of leaves are accepted if and only if no key extends an earlier one |
| ConfigOverrides.BuildBlocks | scripts/run_easyopd.py:112-117 | the way to a path is blocked by a leaf if and only if some key so far is a proper prefix of it |
| ConfigOverrides.BuildLookup | scripts/run_easyopd.py:112-119 | a path holds a leaf if and only if an assignment put it there and no later one assigns the path or a prefix of it |
| ConfigOverrides.InsertIsMerge | scripts/run_easyopd.py:112-117 | inserting a leaf along an open way is merging a dictionary that holds nothing else |
| ConfigOverrides.InsertExactlyWhen | scripts/run_easyopd.py:114-117 | an insertion fails exactly when the way leads into a leaf |
| ConfigOverrides.SplitJoins | scripts/run_easyopd.py:113-113 | splitting at a separator loses nothing, and no part contains it |
| ConfigOverrides.BindingReads | scripts/run_easyopd.py:99-119 | an item of a dotted path, an equals sign and a text binds that path to the literal the text reads as, or else to the text, further equals signs included |
| ConfigOverrides.BindingNeedsSign | scripts/run_easyopd.py:99-101 | any other item is ignored |
| ConfigOverrides.JoinSplits | scripts/run_easyopd.py:113-113 | every path whose names have no separator is read back from its dotted key |
| ConfigObjects.DeepMerge | easyopd/config_loader.py:223-243 | the loop returns a fresh object that shows the merge, leaves both arguments as they were, shares their nested dictionaries where one layer decides and has its own where both do |
| ConfigObjects.ParseOverrides | scripts/run_easyopd.py:93-119 | the loop over items builds the parsed dictionary in place, or fails exactly when the specification does |
| ConfigObjects.DictObject.SetPath | scripts/run_easyopd.py:112-117 | the setdefault walk and the final assignment update the nested objects as Insert does; on failure nothing has changed |
| ConfigObjects.DictObject.SetDefault | scripts/run_easyopd.py:116-116 | setdefault inserts only when the key is missing, and returns what is then there |
| ConfigObjects.FromValue | scripts/run_easyopd.py:104-108 | a literal becomes a fresh object that shows it |
| ConfigLoading.LoadMethodConfig | easyopd/config_loader.py:79-109 | the result shows the merge of defaults, file and overrides with the name filled in, or the error; the caller's overrides afterwards are OverridesAfter |
| ConfigLoading.HighestLayerDecides | easyopd/config_loader.py:81-101 | with or without each layer: outside the method section a leaf comes from the overrides if they have anything to say at its path, else from the file, else from the defaults of the named method |
| ConfigLoading.LoadFailsExactlyWhen | easyopd/config_loader.py:81-97 | a call fails if and only if neither file nor method is given, or the given file does not exist |
| ConfigLoading.NameFilledIn | easyopd/config_loader.py:103-107 | the name is filled in exactly when following method.name in the merged layers ends at a missing key; nothing outside the method section changes |
| ConfigLoading.OverridesKeptExactlyWhen | easyopd/config_loader.py:99-107 | reads OverridesAfter, which LoadMethodConfig is proved to make true, back: the caller's overrides survive if and only if no name is filled in, or it is already there, or the section that gets it is not their own |
| ConfigLoading.OverridesTouched | easyopd/config_loader.py:99-107 | overrides that set a learning rate come back with the method's name beside it |
| ConfigLoading.FirstNameSticks | easyopd/config_loader.py:99-107 | when they do not, loading another method with the same overrides yields the first method's name |
| ConfigLoading.FillName | easyopd/config_loader.py:103-107 | the name is filled in in place |
| ConfigLoading.ApplyOverrides | easyopd/config_loader.py:99-101 | the method section of the result is the overrides' own object exactly when they hold one and the lower layers do not |

## Assumptions

- Offloading: whether a tensor needs offloading is a parameter of each push. A run is well formed when each step pushes
  and commits groups 0..L-1 and then, in reverse, commits and fetches every saved tensor once. Saved tensors of one
  group with the same storage key hold the same flattened data.
- Streams: an operation happens after everything its stream was made to wait for, and after everything issued earlier
  on its stream.
- Loading: all ranks see the same module tree, the same sorted file list, whose contents are a parameter, and the same
  weight map, which lists a name under one file. Where the checkpoint's values are concerned, it lists under each file
  what the file holds. Names of one tensor are all parameters or all buffers, and qualified names are distinct.
- Configuration: the result of reading a text as a literal and the contents of files are parameters. Each nested
  dictionary object is held in one place.
- Chunking: TensorDict's chunk of an empty batch yields as many empty parts as asked for.
- Bounding boxes: coordinates are exact reals.

## Left out

- OffloadRuns.AsyncRefinesSync: says nothing about runs in which a step is abandoned half-way, which the code does not support either.
- OffloadHandler.AsyncDoubleBufferGroupOffloadHandler.TensorPop: the handler's state after a failed assertion is not described; no well-formed run reaches one.
- ParallelLoad.EveryNameGivenExactlyWhen: module objects have no identity. A module registered under two names (x.w and y.w) is visited under both; the code finds its parameters already replaced the second time, pops no name and does not look the second name of a buffer up.
- ParallelLoad.LoadSafetensors: reading the files and the index, and sorting the file names, are not part of the model.
- StageLayout.MergeStateDicts: keys are already parsed and translated; the name tables, the tied output layer and skipped extra state are not modelled.
- MoeCheckpoint.MergeExperts: keys are already parsed into layer, expert and projection.
- QkvLayout.ConvertThenSplit: rows are abstract; the second tensor dimension and copies into Megatron modules are not modelled.
- DataProtoProvenance.EntriesStayTogether: data that is joined on has the same keys; what concat does otherwise is ConcatAlignedExactlyWhen.
- BoundingBox.MaybeResizeBbox: floating-point rounding is not modelled.
- ConfigObjects.DictObject.SetPath: the walking loop is a recursion that does nothing after its call but update ghost fields.
- ConfigOverrides.ParseConcat: literals that are dictionaries with keys other than strings are not modelled.
- ConfigObjects.DeepMerge: nested dictionaries held in several places, such as YAML anchors produce, are excluded by the object invariant.
- DataProtoFuture, fold and unfold of batch dimensions, union, pop, select and rename: corollaries of the row laws or easy members.
- Expert-parallel ranges and the remaining weights in the converter: easy members.
- Streams and autograd hooks as an API, pinned memory, FSDP wrapping and activation checkpointing.
- Tensor arithmetic, element types and casts.
- Reading and writing of files, tokenizers, YAML, argument parsing, logging.
- Configuration validation, parameter-name tables, method registry and hooks: finite tables.
