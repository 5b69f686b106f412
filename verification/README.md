# Verified model of torch_checkpointing

This project models the core of a distributed checkpointing library and proves what its
documentation and tests promise: a checkpoint saved on one layout loads on another without
changing an element, an asynchronous save never writes from a buffer that is being refilled, a
consolidated file holds the global tensors byte for byte, and a checkpoint directory appears at
its final path only when it is complete. The code is in Dafny 4.11; `dafny verify dfyconfig.toml`
checks everything.

The modules follow the system's parts.

- Resharding on load. `LoadPlans` intersects source and target boxes, `ReshardingUtils` removes
  replicas and aliased targets, `ChunkWinners` tells from the metadata which shards are read and
  what they cover, `SourceFiles` reads slices by offset or in full, `LoadExecution` carries out
  plans in any order, `Resharding` proves that the tensor is preserved, and `DefaultResharder` puts
  the complete load together. `Geometry` holds N-dimensional boxes and
  row-major positions, `Streams` a file whose reads may be short, fail or seek elsewhere, and
  `Mesh` the coordinates of ranks.
- Consolidation. `SliceSelection` chooses the slices to read, `SliceAssembly` assembles them,
  `ReadAhead` is the bounded pipeline, `OutputFiles` the files written, `LengthPrefix` the
  little-endian lengths, and `Balance` (over `Sorting`) the assignment of tensors to files.
- Asynchronous save. `Lock` is the readers-writer lock, as a class and over all schedules of its
  threads; `Staging` is the buffer pool and the copy that shares storages; `AsyncProtocol` is the
  protocol of trainer, staging thread, communication thread, subprocess and callbacks, `AsyncSteps`
  its invariant step by step, and `AsyncSave` what holds over all runs.
- Metadata. `MetadataAggregation` compacts, gathers and merges; `MetadataCache` keeps or replaces
  the aggregated view by a vote of all ranks.
- Commit. `Commit` is the write, barrier and rename of all ranks, any of which may stop at any step;
  `CommitConditions`, with the runs of `CommitRuns`, says exactly when every committed checkpoint is
  complete.
- Direct load. `BufferFill` reads a file into memory with concurrent workers, `StructureWalk` merges
  loaded values into a target, and `SafetensorsLayout` flattens and rebuilds nested state dicts.

Objects that the source updates in place (lock, pool, stager, budget, pipeline, reader handles,
metadata manager, streams, target buffers) are classes and arrays here, and their methods are
proved against functions and predicates on values. Threads and processes are modelled as steps in
any order: a run is any sequence of enabled steps, and the results hold in every reachable state.

## What the code does not do

Where a promised property is false of the code the project keeps the code as it is, shows an input
and proves when the property does hold.

- Of the source shards that start the same chunk of a target only one is read
  (torch_checkpointing/resharding_utils.py:74-118). What a load delivers is exact if and only if the
  shards that win their chunks cover the target, which can be told from the metadata before anything
  is read (`ExactIffCovered`, `WinnersCover`). Groups that each cover the tensor with a grid, as a
  whole mesh does, always meet it, however their boxes overlap across groups, and so do shards that
  tile the tensor (`GridsCover`, `CompleteSourcesCover`). A group that lists only part of its mesh can win a chunk
  and lose the rest of it, although another group has it: `IncompleteGroupLosesData`. Reading
  metadata checks layouts and file paths only (torch_checkpointing/distributed_metadata.py:336-364).
- The saver's class documentation (torch_checkpointing/checkpoint_saver.py:229-247) says that the
  staging lock is held for WRITE until staging finishes. After a launch that fails once staging has
  been submitted it is released at once: `AbortLeavesStagingUnlocked`. It is held if and only if the
  launch did not fail (`WriteHeldWhileStagingIffNotAborted`), and even then no write reads a buffer
  that is being refilled (`WriteReadsItsOwnBuffer`, `RefusedTaskReadsNothing`).
- `prepare_tensors_for_save` documents that values round-trip
  (torch_checkpointing/checkpoint_layout.py:218-219). Keys that contain a dot can collide:
  `DottedKeysCollide`. `RoundTripIff` is the exact condition; keys without a dot always meet it
  (`WellNamedRoundTrips`).
- Walking a structure twice need not be the same as walking it once: an empty target list takes over
  a list that holds a range as it is, and the second walk puts a list in place of the range
  (`RangeBecomesList`). `WalkAgain` is the exact condition.
- Metadata that names ranks which do not hold it can be lost by compaction: a value that names ranks
  0 and 1 and is held by rank 1 only is reported by nobody (`OneOfTwoIsLost`). Compacted metadata is
  merged exactly if and only if the ranks it names are those that hold it:
  `CompactionExactIffUniform`.
- Cached metadata goes stale when a rank moves a file of an item for which it has no resharder while
  another rank has one: `MovedFileIsNotSeen`. A cache that all ranks vote to keep is the current
  aggregation, whatever they hold by then, if and only if every item of the cached view has a
  resharder on all ranks: `KeptIsCurrentIffViewResharded`.
- Saves to one path can commit an unfinished file. A run of two ranks whose second save goes to the
  path of the first commits the first with a file that is being written again
  (`SamePathCommitsPartialFile`). Over all runs every committed checkpoint is complete if and only if
  no save that can be committed is followed by one to the same path in which a rank other than rank
  0 writes a file of the same name (`CommittedAreCompleteIff`). That two consecutive saves go to one
  path is not by itself enough for a loss, since the rename is refused when an earlier save went
  there: `BackToFirstIsSafe`.

## Model

| member | source | states |
|---|---|---|
| Resharding.ReshardingPreservesTensor | torch_checkpointing/default_resharder.py:554-857 | If every source rank's file holds its part of a global tensor, and each group of the path covers the tensor with a grid of its own (as a whole mesh does) or the shards are pairwise the same or disjoint and cover it, then after the selected plans were carried out, in any order, the target holds exactly its part of the tensor, for any number of dimensions including none. |
| DefaultResharder.Load | torch_checkpointing/default_resharder.py:510-552 | End to end over all paths: planning fails exactly when the rank is missing from a mesh that lists it or two planned paths share a name; if a planned path has no target, that path is named and nothing is read; after that the load fails if the source of some kept plan is not there, or has no offset under the offset-only strategy, and otherwise only if a file that is read by offset misbehaves; on success the non-reshardable paths are returned in order, every other non-empty path has one selection of plans, and every kept target holds its part of each global tensor its sources bring all of; a target is given up only to a later planned path with the same memory. |
| Resharding.ExactIffCovered | torch_checkpointing/default_resharder.py:554-857 | With no assumption on the source shards: every outcome of the load is exact if and only if the shards that win their target chunk cover the target, a condition on the source metadata and the target box alone. |
| Resharding.CoversIffWinnersCover | torch_checkpointing/resharding_utils.py:74-118 | The selected plans land on every position of the target if and only if the winning shards cover it. |
| ChunkWinners.CompleteSourcesCover | torch_checkpointing/default_resharder.py:604-681 | Sources that are complete, group by group or all together, cover every target after one source per chunk was chosen. |
| ChunkWinners.GridsCover | torch_checkpointing/default_resharder.py:604-681 | If each group covers the tensor with a grid, then whichever rank wins each chunk, and however the grids of different groups overlap, no target index is lost: where a winner misses an index, its own group has a cell that starts nearer to it. |
| ChunkWinners.SelectedAreWinners | torch_checkpointing/resharding_utils.py:74-118 | The plans kept are exactly those whose shard wins its chunk: no other shard starts the same chunk from a lower rank, or from the same rank further down the list. |
| ChunkWinners.IncompleteGroupLosesData | torch_checkpointing/resharding_utils.py:74-118 | Although all elements of the target are held by some source, a half shard whose mesh mate is not listed wins the chunk over a whole one, and the other half is not read. |
| LoadExecution.AnyInterleavingFills | torch_checkpointing/default_resharder.py:763-857 | Any interleaving of the reading threads' element writes, with repetitions after a failed offset read, leaves the target filled: each covered position holds a value some plan puts there, all others are unchanged. |
| LoadExecution.FilledThenFilled | torch_checkpointing/default_resharder.py:763-857 | Carrying out two sets of plans one after the other carries out their union, so neither the order of source files nor a second attempt matters. |
| LoadExecution.ExecuteWithReadStrategy | torch_checkpointing/default_resharder.py:763-857 | On success every step of every source rank was carried out, by offset reads or, for files without offset support, by a full read from the start. It fails if a file, tensor or slice is not there, or has no offset under the offset-only strategy, and otherwise only if a file that is read by offset misbehaves; the error is one that some step causes. So a missing offset never fails the load under the other strategies, whatever the error. |
| LoadExecution.OffsetPhase | torch_checkpointing/default_resharder.py:795-843 | On success each file was completed by offset reads, or lacks offsets and is listed for a full read; an error is caused by some step; targets hold the steps done so far even if a file failed half way. |
| LoadExecution.FullPhase | torch_checkpointing/default_resharder.py:845-857 | On success every listed file was read in full and all its steps were carried out; an error is caused by a step whose file, tensor or slice is not there. |
| LoadExecution.RunOffsetSteps | torch_checkpointing/default_resharder.py:859-917 | A tensor the file lacks is noticed before the first read; after that each slice is copied before the next is read, and the first failure, which a step causes, leaves the targets filled by exactly the steps before it. |
| LoadExecution.RunFullSteps | torch_checkpointing/default_resharder.py:919-955 | A full read succeeds exactly if every slice is readable, and then fills the targets by all its steps; otherwise nothing at all is copied. |
| LoadExecution.RunSteps | torch_checkpointing/default_resharder.py:795-857 | One file's steps by either way of reading: success by offset means that all of them have offsets, an error is caused by one of them, and a full read that fails has copied nothing. |
| LoadExecution.OffsetStep | torch_checkpointing/default_resharder.py:908-917 | One read and copy fills its target by that plan and no other target; a failed read changes nothing, and its error is one the plan causes. |
| LoadExecution.CopyIntoTarget | torch_checkpointing/default_resharder.py:788-793 | The copy writes each source element to its landing position and leaves the rest of the target alone. |
| LoadExecution.GroupByRank | torch_checkpointing/default_resharder.py:733-739 | The plans regrouped by source rank are exactly the plans given. |
| DefaultResharder.ExecuteLoadPlans | torch_checkpointing/default_resharder.py:710-761 | The targets kept after removing aliases have separate memory and each is filled by exactly its own plans; it fails if some kept plan has to fail, and otherwise only if a file that is read by offset misbehaves. |
| DefaultResharder.GenerateLoadPlans | torch_checkpointing/default_resharder.py:554-686 | Reports the first planning error, or fails exactly when two planned paths share a name; otherwise lists the non-reshardable paths in order and one selection of plans per other path. |
| DefaultResharder.OutcomeMeans | torch_checkpointing/default_resharder.py:580-671 | What becomes of a path: an error exactly if this rank, or a source rank listed before any other metadata, is outside its mesh; plans exactly if all groups are DTensor metadata and some source shard shares an index with the target, and then they are the plans of all such shards; nothing to load exactly if none does and the target is empty; otherwise it is reported as not reshardable. |
| DefaultResharder.OptimizePlans | torch_checkpointing/default_resharder.py:673-681 | Keeps one source per chunk and restores the paths; fails exactly when two paths join to one name. |
| LoadPlans.PlanOnePath | torch_checkpointing/default_resharder.py:604-662 | The nested loops over groups and ranks produce the plans of the recursive definition that PathPlansOrigins characterises. |
| LoadPlans.PathPlansOrigins | torch_checkpointing/default_resharder.py:604-662 | The plans read the sources one by one, in order: distinct shards that some listed rank holds and that meet the target, leaving out none. |
| LoadPlans.PlanMovesIntersection | torch_checkpointing/default_resharder.py:629-662 | A global index lies in both shards if and only if there is a plan and the plan moves that index. |
| LoadPlans.IntersectionIsMembership | torch_checkpointing/default_resharder.py:230-256 | An index is in both slice tuples if and only if the intersection exists and contains it. |
| LoadPlans.PlanForFits | torch_checkpointing/default_resharder.py:640-662 | A generated plan stays inside both shards and pairs local positions that name the same global index. |
| Resharding.PlanCopiesOwnElement | torch_checkpointing/default_resharder.py:640-662 | Each element a plan copies lands on the target position of its own global index. |
| Resharding.SelectionKeepsAllPlans | torch_checkpointing/resharding_utils.py:74-118 | For tiled shards, choosing one source per target offset drops no plan. |
| ReshardingUtils.DeduplicateSourceChunks | torch_checkpointing/resharding_utils.py:74-118 | Per name and target offset one plan is kept, from the lowest source rank offered, the last listed of that rank; names keep their order, empty lists disappear, and the ranks returned are those still read. |
| ReshardingUtils.ChooseSources | torch_checkpointing/resharding_utils.py:83-115 | For one name the kept plans cover every offset once, each by the lowest rank that offers it. |
| ReshardingUtils.ConvertNestedPathDictToFqn | torch_checkpointing/resharding_utils.py:39-71 | Succeeds exactly when the joined names are distinct, and then names and paths determine each other. |
| ReshardingUtils.DecimalRoundTrip | torch_checkpointing/resharding_utils.py:27-36 | A position's text consists of digits and the position can be read back from it, so positions have distinct texts. |
| ReshardingUtils.FqnDeterminesTexts | torch_checkpointing/resharding_utils.py:27-36 | Joining paths of non-empty, dot-free components loses nothing but the kind of a component: equal names have equal texts. |
| ReshardingUtils.PlainNamesAreDistinct | torch_checkpointing/resharding_utils.py:27-36 | So distinct paths of such components have distinct names, if at each place all are keys or all are positions. |
| ReshardingUtils.DedupeAliasedTargets | torch_checkpointing/resharding_utils.py:121-162 | Exactly the keys superseded by a later target at the same address are dropped from both dictionaries, each paired with the last key at that address; without aliases nothing changes. |
| ReshardingUtils.KeptAddressesAreDistinct | torch_checkpointing/resharding_utils.py:121-162 | No two kept targets share an address. |
| DefaultResharder.ShouldReshard | torch_checkpointing/default_resharder.py:488-507 | Resharding is called for exactly when both sides have metadata and the source is safetensors or some described target path has no group with the target's sharding. |
| DefaultResharder.DirectReadAgreesWithPlans | torch_checkpointing/resharding.py:183-230 | When no resharding is called for and every group lists exactly its mesh's ranks, what this rank wrote under the path equals what the load plans would assemble for it, if the sources bring all of its shard. |
| SourceFiles.ReadSourceTensorSlice | torch_checkpointing/default_resharder.py:355-408 | Reading one span and viewing it with the source strides gives the same elements as slicing the full tensor, for any shape, strides and storage offset; it fails where slicing fails, where the format records no offset, and otherwise only if the stream misbehaves. |
| SourceFiles.SliceSourceTensor | torch_checkpointing/default_resharder.py:322-352 | Slicing succeeds exactly for in-bounds slices and gives the slice's elements in row-major order; out-of-bounds slices fail although Python slicing would clamp them. |
| SourceFiles.ElementInSpan | torch_checkpointing/default_resharder.py:383-401 | Every element of the slice is found in the span at the offset its own strides give. |
| SourceFiles.SpanInsideStorage | torch_checkpointing/default_resharder.py:383-400 | The span that is read ends inside the storage. |
| SourceFiles.ContiguousSpanBounded | torch_checkpointing/default_resharder.py:387-392 | For a densely packed source the span never exceeds the tensor's element count. |
| SourceFiles.ViewStrided | torch_checkpointing/default_resharder.py:387-401 | The strided view of the packed bytes is the slice. |
| Streams.ReadExact | torch_checkpointing/default_resharder.py:114-127 | Whatever the sizes of the single reads, success means the buffer equals the file's bytes at that offset; it fails only if the file ends before them, a seek lands elsewhere or the backend gives up. |
| Geometry.ContiguousRangeIffRun | torch_checkpointing/tensor_slice.py:97-121 | For a non-empty box the range is returned if and only if every multi-index sits at the start plus its row-major rank in the box, and it is then exactly that run. |
| Geometry.ContiguousStrides | torch_checkpointing/serialized_tensor_slice.py:70-77 | The backward loop gives, for each dimension, the product of the later extents. |
| Geometry.UnravelOfRowMajor | torch_checkpointing/serialized_tensor_slice.py:70-77 | Row-major position and multi-index are inverse to each other (from the index side). |
| Geometry.RowMajorOfUnravel | torch_checkpointing/serialized_tensor_slice.py:70-77 | Row-major position and multi-index are inverse to each other (from the position side). |
| Geometry.EqualSpansForceStrides | torch_checkpointing/tensor_slice.py:97-121 | Equal distance between first and last element forces equal strides in every dimension longer than one. |
| SliceSelection.ConsolidatedTensorIsExact | torch_checkpointing/hf/consolidation.py:580-621 | End to end: if the ranges that the ranks' own file headers record hold those ranks' parts of g and the chosen group's written boxes cover the tensor, the consolidated tensor is g byte for byte. |
| SliceAssembly.AssembledBytes | torch_checkpointing/hf/consolidation.py:1174-1221 | If every slice holds its part of g, the result is g with zero bytes exactly where no slice reaches, whichever mix of direct and element-wise reads was taken. |
| SliceAssembly.CoveringSlicesGiveTensor | torch_checkpointing/hf/consolidation.py:1174-1221 | If the slices also cover the shape, the result is g. |
| SliceAssembly.ReadFullTensorInto | torch_checkpointing/hf/consolidation.py:1174-1221 | Fails on a scalar with other than one slice; it succeeds only if every slice is there in full, and then always with a reliable backend; on success the buffer is the slices assembled in order over its old bytes; at most one slice is staged at a time. |
| SliceAssembly.ReadFullTensor | torch_checkpointing/hf/consolidation.py:1159-1171 | The same over a zeroed buffer of the tensor's full size; the memory this takes is that buffer and the largest slice that has to be staged. |
| SliceAssembly.ReadSliceInto | torch_checkpointing/hf/consolidation.py:1198-1221 | Both branches, the direct range read and the element-wise write, paste exactly the slice's bytes into its box and leave all other bytes; success needs a file that holds the slice, and is certain then with a reliable backend; only a slice that is not one byte range is staged. |
| SliceAssembly.RangeIsPasted | torch_checkpointing/hf/consolidation.py:1198-1206 | A contiguous slice read straight into its byte range is pasted like any other. |
| SliceAssembly.RunBytes | torch_checkpointing/serialized_tensor_slice.py:62-67 | A contiguous slice occupies one byte range, in the order in which it is packed. |
| SliceAssembly.WriteSubTensor | torch_checkpointing/hf/consolidation.py:1207-1220 | Element-wise writing puts each packed byte at its global position (what the torch helper promises). |
| SliceAssembly.ReadTensorDataInto | torch_checkpointing/hf/consolidation.py:1224-1243 | A size mismatch is reported exactly when range and buffer differ in length; success means the buffer part holds as many bytes of the file as addressed, from where the seek landed, which for exact seeks is the address, and nothing else changed; an address inside the file never fails with exact seeks and a reliable backend. |
| SliceAssembly.ReadTensorData | torch_checkpointing/hf/consolidation.py:1246-1252 | The bytes returned are the file's from where the seek landed, which for exact seeks are the addressed ones; an address inside the file never fails with exact seeks and a reliable backend. |
| SliceAssembly.ReaderHandles.Open | torch_checkpointing/hf/consolidation.py:1188-1197 | Reopening a path gives the handle already open; it fails exactly for a missing file. |
| SliceSelection.ResolveDistributedTensorSlices | torch_checkpointing/hf/consolidation.py:580-621 | Succeeds exactly if the groups agree and what every rank of the group with the lexicographically least ranks recorded agrees with the metadata, and some of them wrote a file; the slices are then one per distinct box from the lowest rank that wrote it, sorted. |
| SliceSelection.SelectionCoversWhatWasWritten | torch_checkpointing/hf/consolidation.py:593-621 | Dropping replicas loses no element: the selected slices reach exactly the elements that some rank of the group wrote. |
| SliceSelection.SelectionIsOneTensor | torch_checkpointing/hf/consolidation.py:580-621 | The slices describe one tensor, and a scalar has exactly one, so assembly never stops on its scalar check. |
| SliceSelection.ResolveSlice | torch_checkpointing/hf/consolidation.py:659-717 | The slice has exactly the address and dtype that the rank's own file header records for the tensor, and the metadata's box inside the global shape; it is absent exactly when the rank wrote no file. The call succeeds exactly if the rank has a layout and, where it wrote a file, header, entry, mesh, dtype, shape and bounds agree. |
| SliceSelection.ValidateGroups | torch_checkpointing/hf/consolidation.py:624-656 | Accepts exactly the groups that are all DTensor metadata of one shape and dtype. |
| SliceSelection.FirstByRanks | torch_checkpointing/hf/consolidation.py:591-595 | The chosen group's sorted ranks come first; ties go to the earliest group. |
| SliceSelection.CollectSlices | torch_checkpointing/hf/consolidation.py:596-609 | Fails exactly if some rank's slice cannot be resolved; otherwise keeps one slice per distinct box, from the lowest rank. |
| OutputFiles.TensorsAtDeclaredOffsets | torch_checkpointing/hf/consolidation.py:816-835 | Each tensor lands at the data offsets its header entry declares; entries follow one another without gaps and fill the data part. |
| OutputFiles.ConsolidatedFileIsExact | torch_checkpointing/hf/consolidation.py:954-1049 | From the shards to the file: the header is recovered by its length prefix, and the bytes behind it between the data offsets it declares for a tensor are exactly that tensor, if the source files hold their ranks' parts of it where their own headers say and the ranks of the chosen group wrote all of it. |
| OutputFiles.TensorInFile | torch_checkpointing/hf/consolidation.py:954-1049 | Each entry has its tensor's name and shape, and the assembled tensor lies inside the file where the entry says. |
| OutputFiles.PrepareMetadata | torch_checkpointing/hf/consolidation.py:816-835 | Fails exactly on an unknown dtype or a header too long for its prefix; otherwise the header is the encoding of gap-free entries behind its length. |
| OutputFiles.PrepareEntries | torch_checkpointing/hf/consolidation.py:816-835 | Fails exactly on an unknown dtype; otherwise declares running, gap-free offsets with each tensor's shape and dtype. |
| OutputFiles.ProcessOutputFile | torch_checkpointing/hf/consolidation.py:954-1049 | Fails for the dtype exactly if one is unknown; the published file is the header of exactly these tensors' entries behind its eight-byte length, followed by the assembled tensors in order; with a reliable backend it fails only for an unknown dtype, a header too long for its prefix or a tensor that cannot be assembled; a failure publishes nothing, and the whole read budget is given back either way. |
| OutputFiles.Drain | torch_checkpointing/hf/consolidation.py:988-1006 | Draining the pipeline writes all tensors of the work list, in order, or stops at the first failed read, which with a reliable backend is one of a tensor that cannot be assembled. |
| OutputFiles.DrainNext | torch_checkpointing/hf/consolidation.py:1000-1006 | One round appends the next tensor, ends when none is left, or reports the failure of exactly that tensor. |
| LengthPrefix.LittleEndianRoundTrip | torch_checkpointing/hf/consolidation.py:833-835 | A length is recovered from its k bytes if and only if it fits into them. |
| ReadAhead.FullTensorReader.Next | torch_checkpointing/hf/consolidation.py:1052-1102 | Resuming the generator yields the next tensor in order, ends after the last, or fails, with a reliable backend only if that tensor cannot be assembled; the budget invariant holds throughout, and the end and a failure give the whole budget back. |
| ReadAhead.FullTensorReader.Prefetch | torch_checkpointing/hf/consolidation.py:1068-1084 | Reads are started until the queue is full, the work is used up or the budget declines; afterwards the queue is empty only if no work is left, so the following pop never fails. |
| ReadAhead.FullTensorReader.TakeNext | torch_checkpointing/hf/consolidation.py:1067-1086 | The oldest read is taken exactly when a tensor is left. |
| ReadAhead.FullTensorReader.AwaitHeld | torch_checkpointing/hf/consolidation.py:1086-1096 | The tensor yielded is the one its slices assemble, and the memory its read took is what was reserved for it, never more; a failed read closes the generator with the budget restored. |
| ReadAhead.FullTensorReader.ReleaseAll | torch_checkpointing/hf/consolidation.py:1097-1102 | Every read that will not be used gives its reservation back. |
| ReadAhead.FullTensorReader.Close | torch_checkpointing/hf/consolidation.py:1092-1102 | Closing early restores the whole budget. |
| ReadAhead.FullTensorReader.constructor | torch_checkpointing/hf/consolidation.py:1061-1064 | Nothing is reserved or pending at the start, and each work item's size is its memory need. |
| ReadAhead.QueueAdmits | torch_checkpointing/hf/consolidation.py:1068-1084 | Admitting one more read keeps the budget equation, and overdraws it only by a single oversized tensor read alone. |
| ReadAhead.ReaderMemoryBudget.TryReserve | torch_checkpointing/hf/consolidation.py:907-919 | A reservation is refused exactly when it neither fits nor is forced, and then changes nothing but the count of refusals. |
| ReadAhead.ReaderMemoryBudget.Release | torch_checkpointing/hf/consolidation.py:921-923 | The released bytes are available again. |
| ReadAhead.LargestBuffered | torch_checkpointing/hf/consolidation.py:932-951 | The staging part of a tensor's memory need is its largest buffered slice. |
| ReadAhead.MostStagedIsReserved | torch_checkpointing/hf/consolidation.py:932-951 | What assembly stages beside the output buffer at any time is what the reservation allows for it. |
| Balance.AssignmentWithinFourThirds | torch_checkpointing/hf/consolidation.py:451-464 | If any assignment of the items to m owners keeps all loads within cap, every greedy load is at most (4m - 1) / 3m times cap. |
| Balance.GreedyWithinFourThirds | torch_checkpointing/hf/consolidation.py:451-464 | The same for sizes in descending order. |
| Balance.AssignmentSpread | torch_checkpointing/hf/consolidation.py:451-464 | Any two owners' loads differ by at most the largest item. |
| Balance.AssignmentIgnoresOrder | torch_checkpointing/hf/consolidation.py:451-464 | Ranks with the same items in different dictionary order compute the same assignment. |
| Balance.PlacedBySizeThenName | torch_checkpointing/hf/consolidation.py:459-459 | The items are placed by size downwards, and those of one size by name upwards. |
| Balance.AssignItemsToOwnersBySize | torch_checkpointing/hf/consolidation.py:451-464 | The loop over the sorted items gives each to the first least-loaded owner. |
| Balance.DefaultFqnToIndexMapping | torch_checkpointing/hf/consolidation.py:467-476 | Files are numbered from one up to the smaller of ranks and tensors; every tensor has one, and with positive sizes no file is empty. |
| Balance.EveryOwnerIsUsed | torch_checkpointing/hf/consolidation.py:467-476 | With positive sizes an owner has a load if and only if there are more items than owners before it. |
| Balance.SomeOwnerIsLight | torch_checkpointing/hf/consolidation.py:451-464 | While at least m and fewer than 2m items are placed, some owner's load is at most the size of item 2m-1-n. |
| Balance.PairFitsInCap | torch_checkpointing/hf/consolidation.py:451-464 | When every item exceeds a third of cap, an assignment within cap must put two of the larger items together. |
| Sorting.SortedIsUnique | torch_checkpointing/hf/consolidation.py:459-459 | A sorted order under a total order is determined by the elements. |
| Sorting.SortSorts | torch_checkpointing/hf/consolidation.py:459-459 | Sorting gives a sorted permutation. |
| Lock.SafeInEveryRun | torch_checkpointing/lock.py:127-204 | Over all schedules with spurious wakeups, timeouts and polling: never a writer together with a reader or another writer, and no sleeping un-notified thread could have the lock (no lost wakeup). |
| Lock.DowngradeAdmitsNoWriter | torch_checkpointing/lock.py:189-204 | After a downgrade the former writer is the only reader, and until it releases that hold no run grants a write. |
| Lock.ReadTokenKeepsWritersOut | torch_checkpointing/lock.py:157-175 | While a read hold is not released it stays held and no writer gets in, whoever else comes and goes. |
| Lock.FreeLockWakesEveryone | torch_checkpointing/lock.py:163-187 | Once the lock is free every waiting thread is awake, and whichever checks first is granted. |
| Lock.RefusalChangesNothing | torch_checkpointing/lock.py:127-152 | A refused acquire, by polling or timeout, changes nothing but that the thread is outside again. |
| Lock.ReaderEntersPastWaitingWriters | torch_checkpointing/lock.py:154-158 | Without an active writer a reader is admitted at once, whoever else waits. |
| Lock.NextKeepsInv | torch_checkpointing/lock.py:127-204 | Every step of every thread keeps the lock's invariant. |
| Lock.StepsActAsTheLock | torch_checkpointing/lock.py:127-204 | Each step of a schedule changes the counters as the lock's own method does; an acquire is granted exactly when the mode is available, and a holder's release or downgrade never raises. |
| Lock.ExpiredIsAnswered | torch_checkpointing/lock.py:127-152 | Polling, or a check at or after the deadline, never leaves a thread waiting; if the mode is not available it is outside again and nothing else has changed. |
| Lock.TimedThreadGetsOut | torch_checkpointing/lock.py:137-150 | From every state a thread that waits with a timeout has a run that ends its acquire and moves no other thread. |
| Lock.RWLock.Acquire | torch_checkpointing/lock.py:127-152 | Bad timeouts are refused before anything else; polling answers at once; otherwise the answer is given at the first state seen in which the mode is available, with a grant, or which is seen at or after the deadline, with a refusal; the thread is still waiting if and only if there is no such state. |
| Lock.RWLock.ReleaseRead | torch_checkpointing/lock.py:163-169 | Raises exactly when no reader holds the lock; otherwise one reader fewer, notifying exactly when it was the last. |
| Lock.RWLock.ReleaseWrite | torch_checkpointing/lock.py:182-187 | Raises exactly when no writer holds the lock; otherwise frees it and notifies. |
| Lock.RWLock.Downgrade | torch_checkpointing/lock.py:189-204 | Raises exactly when no writer holds the lock; otherwise the writer becomes one more reader in one step and waiters are notified. |
| Lock.RWLock.LockedMode | torch_checkpointing/lock.py:206-218 | WRITE exactly while a writer is active, nothing exactly while nobody holds the lock. |
| Staging.StagingPreservesSharing | torch_checkpointing/_state_dict_stager.py:282-350 | Two staged tensors share a CPU storage if and only if their sources share one; each keeps its view, and its storage holds its source's bytes. |
| Staging.StateDictStager.Stage | torch_checkpointing/_state_dict_stager.py:276-280 | Fails exactly when a tensor has a partial placement; otherwise the result is the state dict over copies of its storages, and every size class of the pool holds exactly the storages this stage used: some of its old ones, or all of them and new ones. |
| Staging.StateDictStager.DeepCopy | torch_checkpointing/_state_dict_stager.py:363-440 | The copy equals the value with every storage replaced by its copy; objects and storages met before are reused through the memo. |
| Staging.StateDictStager.DeepCopyItems | torch_checkpointing/_state_dict_stager.py:180-213 | A container's items are copied one by one with the memo passed along. |
| Staging.StateDictStager.OffloadTensor | torch_checkpointing/_state_dict_stager.py:282-350 | A tensor is copied onto its storage's copy with its own view, sharing a storage already staged in this operation; a partial placement is refused. |
| Staging.StateDictStager.StageUntypedStorage | torch_checkpointing/_state_dict_stager.py:242-273 | A source storage not staged before gets a pool storage of its own with its bytes. |
| Staging.StorageManager.Get | torch_checkpointing/_state_dict_stager.py:67-91 | A storage of the wanted size that nobody was given since the last reset, and a new one only if all old ones of that size are in use; no other storage changes, and the index never runs past the list. |
| Staging.StorageManager.DeleteUnused | torch_checkpointing/_state_dict_stager.py:97-108 | Afterwards each size class holds exactly the storages in use, with their bytes. |
| Staging.KeptOrExtended | torch_checkpointing/_state_dict_stager.py:67-108 | After a stage each size class is left with the first of its old storages, or with all of them and new ones: staging the same sizes again creates nothing. |
| Staging.StorageManager.DropUnused | torch_checkpointing/_state_dict_stager.py:99-108 | Popping one size class down touches no other class. |
| Staging.StorageManager.Reset | torch_checkpointing/_state_dict_stager.py:93-95 | All storages are unused again and keep their bytes. |
| Staging.StorageManager.NewStorage | torch_checkpointing/_state_dict_stager.py:51-65 | One fresh storage is appended to its size class, pinned exactly if it is large enough. |
| Staging.StorageManager.Close | torch_checkpointing/_state_dict_stager.py:131-134 | The pool is empty and nothing is left pinned. |
| Staging.GetHandsOut | torch_checkpointing/_state_dict_stager.py:67-91 | Whether the list had to grow or not, the pool stays well formed and the storage is new to its users. |
| Staging.PrunedPool | torch_checkpointing/_state_dict_stager.py:275-280 | Removing the unused storages takes away none that was handed out. |
| Staging.RenameAt | torch_checkpointing/_state_dict_stager.py:363-440 | The staged value has the copy of what the original has at every path. |
| AsyncSave.WriteReadsItsOwnBuffer | torch_checkpointing/checkpoint_saver.py:347-509 | Over every interleaving of trainer, staging thread, communication thread and callbacks: from the moment a write takes its payload to the subprocess's answer, the buffer holds exactly what that save staged, so no later stage or prewarm resets it. |
| AsyncSave.LaunchedSaveHoldsLock | torch_checkpointing/checkpoint_saver.py:469-493 | Every launched save holds WRITE until its staging ends, keeps holding the lock until its write ends, and holds nothing after its release. |
| AsyncSave.ReleasedOnce | torch_checkpointing/checkpoint_saver.py:469-493 | After a save's release no run releases or downgrades for that save again. |
| AsyncSave.CallbacksFindTheirHold | torch_checkpointing/checkpoint_saver.py:469-509 | No callback ever raises: whichever of staging and writing ends first, the downgrade finds its own save's WRITE hold and the release its own read hold. |
| AsyncSave.AbortFindsItsHold | torch_checkpointing/checkpoint_saver.py:462-467 | A save that fails before its callbacks are registered still owns the WRITE hold it releases. |
| AsyncSave.WriteHeldWhileStagingIffNotAborted | torch_checkpointing/checkpoint_saver.py:462-493 | While a save's staging is unfinished the save holds WRITE if and only if its launch did not fail. |
| AsyncSave.AbortLeavesStagingUnlocked | torch_checkpointing/checkpoint_saver.py:438-467 | The exception is reachable: a launch that fails after staging was submitted leaves the staging thread filling the buffer with the lock free. |
| AsyncSave.RefusedTaskReadsNothing | torch_checkpointing/checkpoint_process.py:452-476 | A save whose submission failed never has its payload read, also if its write was left on the queue. |
| AsyncSave.WriteUsesItsOwnMetadata | torch_checkpointing/checkpoint_process.py:351-360 | Every write the subprocess performs uses the metadata version its own save fetched, even when the payload omits it. |
| AsyncSave.VersionIsFetched | torch_checkpointing/checkpoint_saver.py:302-329 | A save's version is the manager's at the moment it fetched, on the trainer, and never changes afterwards. |
| AsyncSave.AbortForcesResend | torch_checkpointing/checkpoint_saver.py:462-467 | After a launch that failed, whatever else happens before the next fetch, the save that fetches next brings its metadata version along in full. |
| AsyncSave.InvalidatedIsNotFetched | torch_checkpointing/metadata_manager.py:261-287 | Invalidated metadata reaches no later save: in every run, none fetches until it is computed again. |
| AsyncSave.SentVersionIsLeftOut | torch_checkpointing/checkpoint_saver.py:322-328 | What was sent is not sent again: until another fetch or a failed launch, whatever else happens, a save that fetches the version last fetched leaves it out of its payload. |
| AsyncSave.ComputedIsNew | torch_checkpointing/checkpoint_saver.py:322-328 | Recomputed metadata is never taken for what was sent before: its version differs from the last one sent, from the one the subprocess has and from every save's. |
| AsyncSave.FailedWriteStopsSaves | torch_checkpointing/checkpoint_saver.py:390-396 | After a launched write has failed, no later save stages, fetches or sends anything. |
| AsyncSave.FailureStopsSaves | torch_checkpointing/checkpoint_saver.py:390-396 | However the write of a launched save fails, by the subprocess's answer, its death or before it is sent: from that step on no run surfaces, fetches, stages, submits or sends anything. |
| AsyncSave.NothingIsWrittenAfterFailure | torch_checkpointing/checkpoint_process.py:297-319 | The subprocess does not survive a failure: after it died, or answered with an error, no run sends it anything or ends a write successfully. |
| AsyncSave.FuturesReportWhatHappened | torch_checkpointing/checkpoint_process.py:415-476 | In every run a submission is reported accepted, a write successful or failed and a staging job ended well or badly if and only if the run contains that very event: a write succeeds only by the answer of the subprocess to that save. |
| AsyncSave.TrainerIsNeverStuck | torch_checkpointing/checkpoint_saver.py:347-467 | No deadlock: once the other threads have run dry, a save or stage call in progress can take its next step, unless the previous write failed or there is no metadata to fetch, and only then. |
| AsyncSave.NextSaveCanBegin | torch_checkpointing/checkpoint_saver.py:347-396 | Once the other threads have run dry and the application holds no read lock, the next save can begin if and only if the last prewarm did not fail. |
| AsyncSave.QuiescentLockIsFree | torch_checkpointing/checkpoint_saver.py:462-509 | The lock is never leaked: once the other threads have run dry, no save or stage call holds it, whatever failed before. |
| AsyncSave.ReachableKeepsInv | torch_checkpointing/checkpoint_saver.py:347-509 | All of the above rests on one invariant that every reachable state satisfies. |
| AsyncSteps.NextKeepsInv | torch_checkpointing/checkpoint_saver.py:302-509 | Every step of every thread keeps that invariant. |
| MetadataAggregation.AggregationIsExact | torch_checkpointing/metadata_manager.py:326-363 | If metadata that names its ranks is held by exactly those ranks, merging the compacted metadata gives, per item and path, one group per distinct value with exactly the ascending ranks that hold it, the same as merging it uncompacted. |
| MetadataAggregation.CompactionExactIffUniform | torch_checkpointing/metadata_manager.py:576-673 | The condition is exact: for well-formed metadata, compaction and merge give the right groups if and only if it holds. |
| MetadataAggregation.OneOfTwoIsLost | torch_checkpointing/metadata_manager.py:326-363 | A value that names two ranks and is held by the second only is reported by nobody, so the merged view lacks an item that the exact view has. |
| MetadataAggregation.CompactionLosesNothing | torch_checkpointing/metadata_manager.py:326-363 | The same for one path. |
| MetadataAggregation.GroupedIsByValue | torch_checkpointing/metadata_manager.py:619-639 | Grouping in rank order gives each distinct value once, in order of first appearance, with exactly its holders. |
| MetadataAggregation.HoldersAreExact | torch_checkpointing/metadata_manager.py:624-639 | The ranks listed for a value are ascending and exactly those that hold it. |
| MetadataAggregation.GatherRoundTrip | torch_checkpointing/metadata_manager.py:448-510 | All padded buffers have one size, as the collective needs, and every rank recovers every other rank's data exactly. |
| LengthPrefix.PrefixRoundTrip | torch_checkpointing/metadata_manager.py:448-510 | Data behind its length prefix is recovered whatever padding follows. |
| MetadataAggregation.Compact | torch_checkpointing/metadata_manager.py:326-363 | Keeps the entries this rank speaks for and the items that still have any. |
| MetadataAggregation.MergeObjectMetadataFromRanks | torch_checkpointing/metadata_manager.py:576-673 | The loops build the merged view that the lemmas above characterise, for every item and path that some rank reports. |
| MetadataAggregation.MergePath | torch_checkpointing/metadata_manager.py:619-662 | One path's loop groups the ranks by value and lists named metadata with all its ranks. |
| MetadataAggregation.PathsAreColumns | torch_checkpointing/metadata_manager.py:576-673 | A path is reported exactly when some rank holds a value there. |
| MetadataCache.CachesAreCurrentAfterAnyHistory | torch_checkpointing/metadata_manager.py:200-240 | After any history of rounds, failed rounds and invalidations on any ranks, a successful round, kept or recomputed, leaves every rank with the aggregation of the current metadata and layouts, if the items viewed in the earlier rounds had resharders on all ranks; nothing is asked of the current inputs. |
| MetadataCache.CachesAreCurrent | torch_checkpointing/metadata_manager.py:250-259 | A cache that all ranks vote to keep is the aggregation of the current inputs, if the items of its view had resharders on all ranks. |
| MetadataCache.UnseenLayoutChange | torch_checkpointing/metadata_manager.py:52-60 | A layout change, on a rank without a resharder for an item of the view, takes no part in the vote, and every rank keeps a cache that is no longer the aggregation. |
| MetadataCache.KeptIsCurrentIffViewResharded | torch_checkpointing/metadata_manager.py:52-60 | The condition is exact: a freshly computed cache is current whenever it is kept, for all later inputs, if and only if every item of its view has a resharder on all ranks. |
| MetadataCache.MovedFileIsNotSeen | torch_checkpointing/metadata_manager.py:52-60 | Two ranks save one item, one of them without a resharder; that one moves its file, both vote to keep the cache, and the cache is wrong. |
| MetadataCache.UniformIsEnough | torch_checkpointing/metadata_manager.py:52-60 | Items that have a resharder on all ranks or on none meet the condition. |
| MetadataCache.EventsKeepCoherence | torch_checkpointing/metadata_manager.py:200-287 | Through any events, the caches that are left stem from one earlier round. |
| MetadataCache.ComputeDistributedMetadata | torch_checkpointing/metadata_manager.py:200-239 | All ranks take the same branch; a failed aggregation leaves no cache behind; success is exactly a unanimous vote or an acceptable aggregation. |
| MetadataCache.AllRanksAgree | torch_checkpointing/metadata_manager.py:368-378 | The minimum of the votes is the conjunction of the votes of all ranks. |
| MetadataCache.LayoutsForAllRanks | torch_checkpointing/distributed_metadata.py:336-364 | A computed view lists, per item, the layouts of exactly the ranks of the world, so only shared file paths can make it unacceptable. |
| MetadataCache.LayoutIsTheRanksOwn | torch_checkpointing/metadata_manager.py:425-442 | For each item of a computed view every rank of the world is listed with the layout that this very rank brought for it. |
| MetadataCache.Validate | torch_checkpointing/distributed_metadata.py:336-364 | Accepts exactly the metadata with complete rank lists and no file path used twice. |
| MetadataCache.ValidatePaths | torch_checkpointing/distributed_metadata.py:351-364 | The loop finds a repeated path if and only if two ranks or items share one. |
| MetadataCache.DefaultMetadataManager.InvalidateComputedMetadata | torch_checkpointing/metadata_manager.py:284-287 | The rank has no cache afterwards. |
| MetadataCache.AggregateUsesReshardedLayouts | torch_checkpointing/metadata_manager.py:52-60 | If the items of the view have resharders on all ranks, the aggregation depends on the layouts only through those the cache key looks at. |
| Commit.OnlyTheCommitTouchesFinalPaths | torch_checkpointing/checkpoint_writer.py:219-324 | With any rank stopping at any step: the only step that changes a path outside the temporary directories is rank 0's rename, after all ranks have finished every file of the save and entered its barrier; the path then holds all of them complete, unless the next save overwrites them. |
| Commit.CommittedIsComplete | torch_checkpointing/checkpoint_writer.py:219-324 | A committed checkpoint holds every rank's files complete, in every later state, unless the next save goes to the same path and a rank other than rank 0 writes a file of the same name; saves may otherwise share paths in any way. |
| Commit.CommittedHoldsMetadata | torch_checkpointing/checkpoint_writer.py:476-489 | If rank 0 was given metadata, it is among them. |
| Commit.CommitPublishes | torch_checkpointing/checkpoint_writer.py:300-317 | Rank 0's commit of a save with files: onto a free path it publishes the whole save and leaves no temporary directory; onto an occupied one it changes nothing and rank 0 ends. |
| Commit.MetadataIsLast | torch_checkpointing/checkpoint_writer.py:238-249 | Rank 0 begins the metadata only when all its other files are finished. |
| Commit.BarrierNeverHangs | torch_checkpointing/barriers.py:351-368 | As long as no rank has stopped, some rank is writing its files or can take its next step: no state has all ranks waiting at the barrier for ever. |
| CommitConditions.CommittedAreCompleteIff | torch_checkpointing/checkpoint_writer.py:219-324 | For any plan of saves, every committed checkpoint in every reachable state is complete if and only if no save that can be committed is followed by one to the same path in which a rank other than rank 0 writes a file of the same name. |
| CommitConditions.OverwrittenIsIncomplete | torch_checkpointing/checkpoint_writer.py:219-324 | If one is, a run from the start commits the save while the next one is writing that file again; so the condition cannot be weakened. |
| CommitConditions.CommittedCouldBe | torch_checkpointing/checkpoint_writer.py:300-317 | A save is committed in some run only if no two saves with files up to it share a path, other than a second one right after the first in which rank 0 writes nothing. |
| CommitConditions.SamePathCommitsPartialFile | torch_checkpointing/checkpoint_writer.py:141-142 | Two ranks, each writing one file of one name per save, all to one path: a run from the start commits the first save with rank 1's file unfinished. |
| CommitConditions.BackToFirstIsSafe | torch_checkpointing/checkpoint_writer.py:300-317 | The same ranks saving to x, y, x, x and so on never lose a file, although consecutive saves share a path, because the rename onto the occupied path is refused. |
| Commit.UntouchedUntilCommit | torch_checkpointing/checkpoint_writer.py:219-324 | Until a save to it is committed, a final path is as it was at the start of the run. |
| Commit.PopulatedIsNeverChanged | torch_checkpointing/storage/filesystem.py:324-339 | A populated final directory, or a file in its place, is never changed by any run. |
| Commit.SetFlagMeansAllWritten | torch_checkpointing/barriers.py:351-368 | Once the last-member flag of a save's barrier key is set, every file of that save is complete: in the final directory if it is committed, and otherwise in the temporary one as long as the final path is free. |
| Commit.SetFlagMeansAllArrived | torch_checkpointing/barriers.py:351-368 | The flag is set only after all ranks have arrived under that key. |
| Commit.ReachableKeepsInv | torch_checkpointing/checkpoint_writer.py:219-324 | Every reachable state satisfies the protocol's invariant. |
| Commit.NextKeepsInv | torch_checkpointing/checkpoint_writer.py:219-324 | Every step of every rank keeps it. |
| BufferFill.StreamStorageIntoMmap | torch_checkpointing/storage/torch_serialization.py:248-369 | Bad geometry is refused; otherwise the result is exactly the file's bytes up to the expected size, or an error, which comes exactly when the file is too short, unless the backend misbehaves; a native fill of the right length is taken as it is. |
| BufferFill.PythonFill | torch_checkpointing/storage/torch_serialization.py:168-220 | For any chunk size, number of workers, interleaving and pattern of short reads, a full count means the buffer equals the file; a failed or short parallel attempt is redone sequentially, so a reliable backend fills the buffer from a file that is long enough even if its seeks land elsewhere. |
| BufferFill.FillParallel | torch_checkpointing/storage/torch_serialization.py:72-124 | The byte total equals the size only if the buffer holds the file, and always does with exact seeks, a reliable backend and a file that is long enough. |
| BufferFill.FillRanges | torch_checkpointing/storage/torch_serialization.py:86-124 | On a sound backend every range is filled. |
| BufferFill.RunWorkers | torch_checkpointing/storage/torch_serialization.py:72-124 | Any interleaving of the workers ends, with each worker's part of the buffer right as far as it counted. |
| BufferFill.WorkerStep | torch_checkpointing/storage/torch_serialization.py:94-119 | A worker writes only inside its range and counts only bytes that equal the file's; a seek that lands elsewhere fails the worker; on a sound backend it goes on until its range is filled. |
| BufferFill.FillSerial | torch_checkpointing/storage/torch_serialization.py:53-69 | The bytes counted equal the file's, and a reliable backend fills the buffer whenever the file is long enough. |
| BufferFill.RangesTile | torch_checkpointing/storage/torch_serialization.py:89-92 | The chunk ranges tile the file without gap or overlap, each no longer than a chunk. |
| BufferFill.SumReachesOnlyIfAll | torch_checkpointing/storage/torch_serialization.py:121-124 | Per-range counts add up to the total only if every range was filled. |
| StructureWalk.MissingIsMinimalAbsent | torch_checkpointing/walk_utils.py:136-420 | For a successful walk the reported paths are exactly the minimal target paths the source does not have. |
| StructureWalk.ResultAtPath | torch_checkpointing/walk_utils.py:136-420 | At every target path the result is the merge of source and target where the source has the path, and the target's own value where it does not; `LoadedValuesArrive` says what that merge is. |
| StructureWalk.LoadedValuesArrive | torch_checkpointing/walk_utils.py:72-105 | The loaded values arrive: where source and target both have a tensor, the result has the source's content with the target's class, types and kind; any other leaf is the source's value; containers have the target's keys, or an absent or empty target takes the source's value over. |
| StructureWalk.TakenWhole | torch_checkpointing/walk_utils.py:179-353 | Below a place where the target has no value the result has exactly the source's paths with its values; below an empty target sequence it has the source's elements. |
| StructureWalk.WalkAgain | torch_checkpointing/walk_utils.py:136-420 | Walking again with the result as target always succeeds with the same missing paths, and changes nothing if and only if the values that empty target sequences took over whole are stable under walking into themselves. |
| StructureWalk.RangeBecomesList | torch_checkpointing/walk_utils.py:179-286 | An empty target list takes over a list that holds a range unchanged; walking again puts a list in place of the range. |
| StructureWalk.SelfWalk | torch_checkpointing/walk_utils.py:179-286 | Walking a value into itself misses nothing, and gives it back if and only if its sequences keep their type. |
| StructureWalk.WalkSucceedsIff | torch_checkpointing/walk_utils.py:288-353 | A walk succeeds if and only if at every path that source and target both have the types are compatible and no plain tensor meets a distributed one. |
| StructureWalk.WalkAll | torch_checkpointing/walk_utils.py:136-176 | One pass merges the children the source has, reports the others and keeps them, stopping at the first error. |
| StructureWalk.MissingBelowNull | torch_checkpointing/walk_utils.py:288-353 | Below a target without a value nothing is reported missing. |
| SafetensorsLayout.RoundTripIff | torch_checkpointing/checkpoint_layout.py:208-293 | Saving a nested state dict and reshaping the file to the same structure gives it back if and only if leaves whose paths join to one key hold the same tensor (in particular if joined paths are distinct). |
| SafetensorsLayout.WellNamedRoundTrips | torch_checkpointing/checkpoint_layout.py:208-293 | A nested state dict whose keys are non-empty, dot-free and distinct in each dict always round-trips. |
| SafetensorsLayout.UnflattenIsIdentityIff | torch_checkpointing/checkpoint_layout.py:260-293 | Reshaping to x gives x if and only if the file holds every leaf of x. |
| SafetensorsLayout.DottedKeysCollide | torch_checkpointing/checkpoint_layout.py:230-258 | A dotted key and a nested one join to the same key, and one tensor is lost. |
| SafetensorsLayout.PrepareTensorsForSave | torch_checkpointing/checkpoint_layout.py:208-257 | The dictionary of all leaves by joined path, later leaves winning; or the first non-tensor leaf as an error. |
| SafetensorsLayout.FlattenInto | torch_checkpointing/checkpoint_layout.py:233-257 | The recursion assigns the leaves in order into the shared dictionary. |
| SafetensorsLayout.UnflattenToTarget | torch_checkpointing/checkpoint_layout.py:260-293 | The recursion rebuilds the target's structure from the file, dropping absent leaves from dicts and leaving None in lists. |
| SafetensorsLayout.AssignHoldsAllIff | torch_checkpointing/checkpoint_layout.py:230-258 | The saved dictionary holds every leaf if and only if no key is shared by different tensors. |
| Mesh.CoordinatesAreBijective | torch_checkpointing/dtensor_metadata.py:280-299 | Every coordinate of a valid mesh belongs to exactly one rank. |
| Mesh.RankCoordinates | torch_checkpointing/dtensor_metadata.py:341-348 | Each rank of the mesh gets the multi-index of its place in row-major order, and no other rank has one. |
| Mesh.PositionsAreRowMajor | torch_checkpointing/dtensor_metadata.py:341-348 | The product of the dimension ranges enumerates the multi-indices in row-major order. |
| Mesh.Validate | torch_checkpointing/dtensor_metadata.py:191-205 | Accepts exactly meshes whose ranks are as many as the shape says, distinct, and with as many names as dimensions. |

## Left out

- DefaultResharder.Load: a target has the shape its metadata gives this rank; the copy error of other targets is not modelled. Whether a read by offset of a file that misbehaves (seeks elsewhere, or gives up early) fails is up to the storage.
- DefaultResharder.DirectReadAgreesWithPlans: compares the bytes this rank wrote with the load plans; the reader's unpickling of the whole item is not modelled.
- SliceAssembly.ReadSliceInto: a non-contiguous slice is required to come with exactly its elements' bytes; the code trusts the file's header for that and checks only contiguous slices. The seeks of consolidation's handles are taken to land where asked, since their result is not checked; `ReadTensorDataInto` says what is read when they do not.
- SliceAssembly.WriteSubTensor: stands for a torch helper and does what that helper is documented to do, element by element.
- OutputFiles.ProcessOutputFile: how entries become JSON text is a parameter. Progress logging and the thread pool are not modelled.
- ReadAhead.FullTensorReader.AwaitHeld: a read is carried out when it is awaited; that reading threads run earlier, each with its own handles, changes no value. Submission is assumed not to raise.
- Mesh.RankCoordinates: the weak cache of coordinates is not modelled.
- Staging.StateDictStager.DeepCopy: tuples that keep their identity, attributes of tensors, objects copied by `__reduce_ex__` or `__deepcopy__` and cyclic objects are not modelled; a value is a finite tree whose shared objects carry numbers.
- BufferFill.StreamStorageIntoMmap: an empty mapping, which the operating system refuses, is allowed; a native fill's bytes are whatever the backend returned.
- BufferFill.PythonFill: a worker's failure is an OSError; other exceptions end the load without a retry.
- StructureWalk.ResultAtPath: custom leaf functions are not modelled, and containers are values, so aliasing between source and target containers is not seen.
- MetadataAggregation.GatherRoundTrip: pickling is a parameter; the bytes are what is gathered.
- MetadataAggregation.MergePath: metadata values are identified by their packed form, as the code's dictionary key does.
- MetadataCache.ComputeDistributedMetadata: all ranks take part in each round; a collective that fails on some ranks only is not modelled, nor is the separate branch for a process without a process group.
- AsyncSave.ReachableKeepsInv: `save`, `stage` and `prewarm` are called from one trainer thread, and the stager runs its jobs one at a time in the order submitted. The optional validation of a staged copy is not modelled.
- Lock.RWLock.Acquire: what other threads do while a thread waits is an input; the schedules of `World` and `Step` in the same module put the threads together.
- Commit.NextKeepsInv: every save meets its own barrier key; the TCP and file stores, generations across restarts and the default process group are not modelled. A barrier timeout ends its rank. A file that is open while its directory is renamed, as only saves that share a path with the one before can have, is finished under the temporary path, where the system would finish it in the renamed directory.
- The box of a rank (`compute_local_shard_info`) is torch arithmetic and a parameter; strided shards whose local data is not one box do not fit.
- Data type conversion in `copy_`, conjugate, negated and quantized tensors, non-strided layouts, and devices and streams.
- The cross-filesystem copy that replaces a rename; it is documented as not atomic.
- Files that an earlier, failed attempt left in the temporary directory: what is proved is that this save's files are there.
- Direct I/O, pipes, process start, exception transport, logging, metrics, configuration and version parsing.
- Schemas, the layout of default files, serialization to and from dictionaries, upgrades of old metadata versions, and optimizer state transformations: easy next to the rest.
- The index file of a Hugging Face export, and checks of input and output paths.
