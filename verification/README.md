# NeMo RL: verified models of the algorithmic cores

NeMo RL trains language models with reinforcement learning. This project models its self-contained algorithms in Dafny and
proves what they promise. `dafny verify dfyconfig.toml` checks everything.

| files | what they model |
|---|---|
| `Seqs`, `Lists` | filtering, flattening, strides, stable sorting, permutations: vocabulary shared by the models |
| `ReplayBuffer`, `TrajectoryCollector` | the replay buffer with its three parallel lists, and the collector's reservations |
| `AsyncProtocol`, `AsyncSafety`, `AsyncPrompts`, `AsyncProgress`, `AsyncStale` | asynchronous GRPO as a transition system: what every run keeps, which prompts a step trains on, what makes a step impossible to finish, what stale reservations do to a run |
| `CollectorLoop`, `AsyncFinish`, `AsyncRuns`, `CollectorRefit` | the collection loop around it, action by action: exactly which steps can still be finished, what a refit holds up, and runs that go wrong |
| `Packing`, `ModifiedFirstFit` | the bin packers and the adjustment of the number of bins |
| `BatchedDataDict`, `DynamicBatching`, `Microbatches`, `PackedSharding` | the three sharding modes with their microbatch tables and inverse permutations |
| `ContextParallel`, `VocabParallel`, `VocabTopK`, `ScatterGradients`, `LogprobGradient`, `PackedLogprobs`, `GatherLogits` | context- and tensor-parallel index algebra against its sequential meaning, and the backward passes against the forward passes |
| `GroupStatistics`, `DynamicSampling` | baselines and spreads of prompt groups, and DAPO's dynamic sampling over whole epochs |
| `PackedLoss` | the loss over packed sequences against the loss of the unpacked batch |
| `ConfigTree` | config inheritance and its minimisation |

## How to read the models

- The asynchronous protocol is a set of atomic actions; a run is any enabled sequence of them. The collector may learn of a
  version arbitrarily late. Reading the buffer's last target and taking the reservation are two actions, as in
  `_get_next_target_for_generation`, where the read comes before the lock. A reservation is called fresh when its target is
  still beyond the buffer's last target at the moment it is taken; `ReservedOnceIffFresh` shows that this is exactly what
  uniqueness needs, and `AtOnceIsFresh` that an atomic read and reserve gives it. The results of `AsyncSafety` are about
  fresh runs; `AsyncStale` says for all others what a repeated reservation costs, and `AsyncRuns` has two such runs.
- `CollectorLoops` refines these actions: the collector thread with its refit pause, its limit check, the wait for a version
  and the prompt loop, each read and write an event of its own, and the trainer's messages, which are handled in order.
  Every run of the loop is a run of the protocol (`LoopRefines`), so that what all runs keep, the loop keeps. What can still
  happen, on the other hand, depends on where the collector waits: `AsyncFinish` and `AsyncRuns` are about the loop.
- Rollouts do not fail, batches have `num_prompts_per_step` prompts, `need_refit` holds, and `max_age` is at least one.
- A group whose generation started before a refit keeps its version; a batch that waits for a refit goes on with the
  collector's current version.
- Ranks of a process group are positions in a sequence; a collective operation is a function of what all ranks hold.
  Global counts are not negative. Numbers are reals, and `exp` and `log` are parameters: what the ranks compute is
  the sequential result for any two functions. What that result means is proved for functions with the laws of exponential
  and logarithm (`AreExpLog`; for the gradients also `AboveTangent`).
- The monitor that precedes dynamic sampling is on unless the run switches it off; a trainer is made with either choice.
- A standard deviation is the root of a variance that the models state; the cases `0 * inf` and `sqrt` of a negative number
  are zero, and positive infinity is the largest float, as `nan_to_num(0)` makes them.
- Errors that buffer, packing, sharding, sampling and minimising raise are results of the models. The tensor passes require
  tensors of matching shapes and positive chunk sizes, as torch does.

## What the code does not do

- A stale reservation makes a second set of groups that nothing ever consumes: it takes up the buffer, and the age check
  stops the trainer before its versions are past (`AsyncStale.DuplicateStopsTrainer`). It can also end in a deadlock that
  raises nothing: leftovers and groups for later steps fill the buffer, the push for the current step is refused for good,
  and the trainer waits for it (`StaleReservationsDeadlock`). Without stale reservations neither happens.
- A step can be skipped for good (`SecondStepCanBeSkipped`): a version other than the first one generates only for later
  steps, so a collector that learns of a version before the step of that version was reserved never serves it. A collector
  that waits for a version because all targets were taken misses the step of that version, too, if it was not reserved
  (`WaitSkipsStep`).
- Waiting for pending generations before a refit does not exclude that a worker is under way while the weights change: a
  collector that has looked at the pause but not yet started its worker is not waited for (`OneWorkerSlipsThrough`).
- With importance ratios of whole sequences, `sampling_importance_ratio` multiplies every weight with every sample's mask,
  so that packing changes it unless there is one sequence (`SequenceImportanceAddsUpIff`).
- Equal prompts in one batch are one group for baselines and spreads (`PromptHasStatistics`).
- After dynamic batching, `reorder_data` with the returned indices restores the original order only for a single chunk or a
  single shard (`ReorderRestoresIff`); the indices are listed chunk by chunk, the rejoined rows shard by shard.
- In dynamic sampling the `total_reward` column is not filtered (`TotalRewardAlignedIff`), and samples cached at the end of
  an epoch are dropped (`GrpoTrainer.ResetSampling`).
- The default monitor raises on batches that dynamic sampling exists to drop: on every one whose rewards are all zero
  (`ZeroRewardsStop`), and with fewer than twenty groups only when all groups are (`FewGroupsCollapseIff`).
- Under leave-one-out a group of which all rewards but one agree is split by filtering (`GroupSplitsIff`, `WholeGroupIff`):
  the odd one out is dropped. No other group is.
- Under leave-one-out the baseline of an invalid sample divides by one too few (`StatisticsMean`).
- Minimising loses `{}` over a non-mapping and `[]` over a different value (`PruneKeepsMeaningIff`, `EmptyMappingIsLost`).
- Without the global normaliser of its level the packed loss is not the loss of the batch (`LossAddsUpIff`).
- The branch of `_adjust_bin_count` that reports a bug is unreachable (`AdjustBinCount`).

## Model

| member | source | states |
|---|---|---|
| `ReplayBuffers.ReplayBuffer.Create` | nemo_rl/algorithms/async_utils.py:43-53 | the buffer exists exactly when its size is positive, and is then empty |
| `ReplayBuffers.ReplayBuffer.PushWithWaitSignal` | nemo_rl/algorithms/async_utils.py:55-82 | full exactly at the size limit, and then nothing changes; otherwise one entry more in all three lists, and the last target is the larger of the two |
| `ReplayBuffers.ReplayBuffer.Sample` | nemo_rl/algorithms/async_utils.py:102-223 | the outcome (waiting, the oldest N groups intended for this step, or either exception) and the exact remaining entries; an unsuccessful sample changes nothing |
| `ReplayBuffers.ReplayBuffer.RemoveSelected` | nemo_rl/algorithms/async_utils.py:211-215 | popping the chosen positions from the highest down off three lists keeps them aligned and removes exactly those |
| `ReplayBuffers.PopAllDropsMatches` | nemo_rl/algorithms/async_utils.py:190-215 | popping the first n ready positions removes exactly the first n ready groups |
| `ReplayBuffers.DropMatchesKeepsLater` | nemo_rl/algorithms/async_utils.py:189-215 | the ready groups that stay are the later ones, in order: FIFO within a target |
| `ReplayBuffers.DropMatchesConserves` | nemo_rl/algorithms/async_utils.py:190-215 | sampling loses and duplicates no group |
| `ReplayBuffers.DropMatchesKeepsOthers` | nemo_rl/algorithms/async_utils.py:190-215 | groups intended for other steps stay, in their order |
| `ReplayBuffers.SampleMeans` | nemo_rl/algorithms/async_utils.py:102-223 | a successful sample returns the groups at the first N positions that serve the step, in order, with the mean of their ages; it raises for age exactly when some group is too old |
| `TrajectoryCollectors.AsyncTrajectoryCollector.GetNextTargetForGeneration` | nemo_rl/algorithms/async_utils.py:323-342 | reserves the first target of the window that is beyond the last one generated and not being generated, or nothing |
| `TrajectoryCollectors.AsyncTrajectoryCollector.ShouldPauseForGenerationLimits` | nemo_rl/algorithms/async_utils.py:355-377 | the limit check pauses exactly when a batch started now would find nothing to reserve |
| `TrajectoryCollectors.AsyncTrajectoryCollector.NotePause` | nemo_rl/algorithms/async_utils.py:411-428 | the collector goes on without waiting only if it has paused for this version before and was woken since |
| `TrajectoryCollectors.AsyncTrajectoryCollector.SetWeightVersion` | nemo_rl/algorithms/async_utils.py:344-353 | a new version is stored and lets a waiting collector go on |
| `TrajectoryCollectors.AsyncTrajectoryCollector.ReleaseReservation` | nemo_rl/algorithms/async_utils.py:683-693 | releasing removes this target and no other, and is harmless when it is gone |
| `AsyncProtocol.NextTarget` | nemo_rl/algorithms/async_utils.py:323-342 | the target returned is admissible; none is returned only if none is admissible |
| `AsyncProtocol.TargetWeightsWindow` | nemo_rl/algorithms/async_utils.py:294-321 | exactly which steps a generation version may target, with the wider window of the first version |
| `AsyncProtocol.RunKeepsInv` | nemo_rl/algorithms/async_utils.py:451-508 | every run, stale reservations included, keeps the collector's bookkeeping consistent with what was reserved and pushed |
| `AsyncProtocol.DuplicateIffStale` | nemo_rl/algorithms/async_utils.py:323-342 | in every reachable state the next reservation repeats an earlier one exactly when its target is not beyond the buffer's last target |
| `AsyncProtocol.ReservedOnceIffFresh` | nemo_rl/algorithms/async_utils.py:323-342 | over every run: no target is reserved twice if and only if every reservation was fresh when it was taken |
| `AsyncProgress.AtOnceIsFresh` | nemo_rl/algorithms/async_utils.py:327-340 | if nothing comes between reading the last target and reserving, every reservation is fresh |
| `AsyncSafety.SampleServesItsStep` | nemo_rl/algorithms/grpo.py:2170-2188 | on every fresh run sampling never raises; it waits exactly until all N groups of the step are there and then returns exactly those in push order, each of age 0 to maxAge |
| `AsyncSafety.OutstandingInWindow` | nemo_rl/algorithms/async_utils.py:294-342 | every buffered or in-flight group is for a step in [version, version + maxAge], and its own version is at most maxAge older than its step |
| `AsyncSafety.BufferNeverFull` | nemo_rl/algorithms/grpo.py:2013-2020 | with the trainer's buffer size, buffered plus in-flight groups never exceed it, so no push is ever refused |
| `AsyncSafety.GroupsPerStep` | nemo_rl/algorithms/async_utils.py:451-508 | a reserved step has exactly N groups, pushed, in flight or still to be spawned; an unreserved one none |
| `AsyncSafety.PushedOnceConsumedOnce` | nemo_rl/algorithms/async_utils.py:72-82 | every pushed group is in the buffer or was consumed, once |
| `AsyncSafety.ConsumedAtIntendedStep` | nemo_rl/algorithms/async_utils.py:190-215 | each sampled step took all N groups ever pushed for it, in push order; the buffer holds exactly what was pushed for later steps |
| `AsyncSafety.RunIsSafe` | nemo_rl/algorithms/grpo.py:2153-2180 | the whole safety invariant holds after every fresh schedule, whatever the interleaving and however late the collector learns of a version |
| `AsyncPrompts.PromptsPerReservation` | nemo_rl/algorithms/async_utils.py:474-502 | in every reachable state, stale or not: of each prompt of the batch a step has as many groups, pushed, in flight or still to be spawned, as it has reservations, and none beyond the batch |
| `AsyncPrompts.EachPromptOnce` | nemo_rl/algorithms/async_utils.py:474-502 | on fresh runs a reserved step has exactly one group of each prompt, pushed, in flight or still to be spawned |
| `AsyncPrompts.TrainsOnEachPrompt` | nemo_rl/algorithms/grpo.py:2153-2180 | every step that was sampled trained on each prompt of its batch exactly once: its group numbers are a permutation of 0 to N - 1 |
| `AsyncPrompts.SpawnsVersionRead` | nemo_rl/algorithms/async_utils.py:451-508 | after any schedule, a worker is started for the next prompt of the reserved step with the version that the collector last read, when the batch began or after the last refit that it waited for |
| `AsyncPrompts.RunBoundsInflight` | nemo_rl/algorithms/async_utils.py:281-287 | on every run no more workers than prompts per step times the maximal age |
| `AsyncPrompts.RunKeepsReleased` | nemo_rl/algorithms/async_utils.py:683-722 | on every run a reservation is given back only after the step's first prompt was pushed or one of its workers has pushed and finished |
| `AsyncPrompts.ReleasedEarlyIff` | nemo_rl/algorithms/async_utils.py:683-693 | in any state a reservation can be given back while nothing else changes exactly when a worker for the first prompt of its batch has pushed and has not finished |
| `AsyncProgress.StarvedForever` | nemo_rl/algorithms/async_utils.py:294-321 | once a step is skipped, no continuation whatever trains on it or gets past it |
| `AsyncProgress.StuckForever` | nemo_rl/algorithms/async_utils.py:323-342 | a collector about to take a stale reservation: no fresh continuation trains on a step that was not reserved |
| `CollectorLoops.LoopRefines` | nemo_rl/algorithms/async_utils.py:392-450 | every run of the collection loop with its refit pause, limit check, wait and messages is a run of the protocol, and a fresh one if no reservation is stale |
| `CollectorLoops.LoopStaysReachable` | nemo_rl/algorithms/async_utils.py:392-450 | so every state of the loop is one of the protocol, and all results about reachable and freshly reachable states hold in the loop |
| `CollectorLoops.ReachableIsGood` | nemo_rl/algorithms/grpo.py:2436-2466 | in every freshly reachable state of the loop: the collector is at most one version behind, and only while the refit pause is up; every target being generated has a worker; it pauses for the limit only once the first step was reserved |
| `AsyncFinish.LostForever` | nemo_rl/algorithms/async_utils.py:392-450 | once the collector cannot come to reserve the current step any more, no fresh continuation trains on it |
| `AsyncFinish.CanFinishIff` | nemo_rl/algorithms/async_utils.py:344-508 | in every freshly reachable state of the loop before sampling: the current step can be finished by a fresh continuation exactly when it was reserved, or the collector can still come to reserve it; for every place in the loop the condition says when, such as not waiting on a cleared event |
| `AsyncRuns.SecondStepCanBeSkipped` | nemo_rl/algorithms/async_utils.py:321-321 | in every configuration a fresh run of the loop exists whose second step is skipped for good |
| `CollectorRefit.RefitHoldsCollector` | nemo_rl/algorithms/async_utils.py:392-508 | on every run through a refit, from any state: at most one batch or one worker is started, by a collector that had looked before the refit began |
| `CollectorRefit.WeightsChangeAlmostAlone` | nemo_rl/algorithms/async_utils.py:529-576 | in every reachable state of the loop: without in-flight updates at most one worker is under way while the weights change |
| `CollectorRefit.OneWorkerSlipsThrough` | nemo_rl/algorithms/async_utils.py:475-502 | and one can be: in every configuration a fresh run in which the collector looks before the refit begins and starts its worker after the wait for workers has ended |
| `AsyncRuns.WaitSkipsStep` | nemo_rl/algorithms/async_utils.py:410-431 | with a maximal age of one, for every number of prompts: a fresh run of the loop in which the wait for a version skips the third step for good |
| `AsyncRuns.StaleReservationFillsBuffer` | nemo_rl/algorithms/async_utils.py:327-340 | a run of the loop, past its limit check, in which a stale reservation repeats a target and a push is refused, with or without in-flight updates |
| `AsyncRuns.StaleReservationCrashes` | nemo_rl/algorithms/async_utils.py:138-145 | a run of the loop in which a stale reservation makes the trainer die of the buffer's age check |
| `AsyncStale.GroupsPerReservation` | nemo_rl/algorithms/async_utils.py:451-508 | in every reachable state, stale or not: a step's groups buffered, in flight or still to be spawned are one set for each of its reservations, less the one set it took if it was passed |
| `AsyncStale.PassedGroupStays` | nemo_rl/algorithms/async_utils.py:138-215 | a group still buffered after its step was passed stays in every continuation, and the trainer gets at most one step beyond the group's age |
| `AsyncStale.DuplicateStopsTrainer` | nemo_rl/algorithms/async_utils.py:138-145 | every step reserved twice: when it is passed and its workers are done, exactly N of its groups are in the buffer; exactly these stay in every continuation, and the trainer passes no step beyond the collector's version plus the maximal age |
| `AsyncStale.AtMostTwice` | nemo_rl/algorithms/async_utils.py:323-342 | in every reachable state no step has been reserved more than twice; a passed step has exactly N groups left if it was reserved twice, and none otherwise |
| `AsyncStale.FullBufferStarves` | nemo_rl/algorithms/async_utils.py:72-82 | a full buffer with fewer than N groups ready for the current step stays as it is in every continuation: every push is refused, nothing is trained on, and nothing raises if no buffered group is too old |
| `AsyncStale.FreshNeverClogs` | nemo_rl/algorithms/async_utils.py:72-82 | without a stale reservation that never happens: with the current step incomplete there is room in the buffer |
| `AsyncStale.LeftoversClog` | nemo_rl/algorithms/async_utils.py:72-82 | in every reachable state: twice as many steps as the maximal age, each passed after two reservations or generated ahead, fill the buffer, and no continuation trains on a current step that is incomplete |
| `AsyncRuns.DeadlockIsClog` | nemo_rl/algorithms/async_utils.py:72-82 | a run of the loop reaches such a state, with two passed steps and two steps ahead |
| `AsyncRuns.StaleReservationsDeadlock` | nemo_rl/algorithms/async_utils.py:72-82 | a run of the loop with a maximal age of two and in-flight updates after which, in every continuation, the push for the current step is refused, the trainer waits and nothing raises |
| `Packing.PackConcatenative` | nemo_rl/data/packing/algorithms.py:310-350 | succeeds exactly when every sequence fits; the bins are consecutive runs, each closed only when the next sequence did not fit |
| `Packing.PackFirstFit` | nemo_rl/data/packing/algorithms.py:378-416 | for any order: the bins of first fit, item by item in that order; every sequence in one bin within capacity, and no sequence would fit into a bin before its own |
| `Packing.FirstFitIsTight` | nemo_rl/data/packing/algorithms.py:391-416 | whatever the order, the capacity and the lengths, first fit leaves no item that would fit into an earlier bin |
| `Packing.PackFirstFitDecreasing` | nemo_rl/data/packing/algorithms.py:429-444 | first fit in the order from longest to shortest, of two equal sequences the later first |
| `Packing.LongestFirstIsUnique` | nemo_rl/data/packing/algorithms.py:438-444 | that order is unique, so the bins are determined |
| `Packing.TargetIsLeastMultiple` | nemo_rl/data/packing/algorithms.py:105-114 | the target is the least admissible number of bins |
| `Packing.AdjustBinCount` | nemo_rl/data/packing/algorithms.py:90-166 | reaches the target with no empty bin and no sequence lost: from the fullest bin on, of equal ones the later first, each bin gives its last sequences, down to one, before the next gives any, and the new bins hold them one by one in that order; fails only for too few sequences, so the branch that reports a bug is unreachable |
| `ModifiedFirstFit.AddMedium` | nemo_rl/data/packing/algorithms.py:562-568 | phase 2, from the first bin to the last: every bin takes, from what the bins before it left, the first of the largest medium items that fit, or stays as it is and none fits |
| `ModifiedFirstFit.AddSmallPairs` | nemo_rl/data/packing/algorithms.py:570-589 | phase 3, from the last bin to the first: every bin takes the first of the smallest small items and the last of the largest that fit beside it, or stays as it is because it has a medium item or no two small items fit |
| `ModifiedFirstFit.FillGreedily` | nemo_rl/data/packing/algorithms.py:591-610 | phase 4, from the first bin to the last: every bin takes the first of the largest items that fit, again and again, until none does; what is left in the end fits into no bin |
| `ModifiedFirstFit.PackModifiedFirstFit` | nemo_rl/data/packing/algorithms.py:495-625 | succeeds exactly on a positive capacity with positive lengths within it; the classes are bounded by a half, a third and a sixth of the capacity and sorted stably, phases 2 to 4 follow one another as above, and the rest is packed by first fit from the longest; every sequence once within capacity, one bin for each large item, starting with one, and what is packed last fits into no earlier bin |
| `ModifiedFirstFit.Pack` | nemo_rl/data/packing/algorithms.py:168-189 | the bins of the chosen algorithm, adjusted to the least multiple of `shards` that is neither below their number nor below `shards`; when the sequences divide evenly it fails only on input the algorithm refuses |
| `BatchedDataDicts.MakeLayout` | nemo_rl/distributed/batched_data_dict.py:357-388 | succeeds exactly when there are shards and rows and the batch divides into chunks that divide into shards, or with uneven shards when no batch size is given; the chunks cover the batch; without uneven shards every chunk is shared out evenly, otherwise the share is rounded up |
| `BatchedDataDicts.ShardByBatchSize` | nemo_rl/distributed/batched_data_dict.py:538-586 | one fresh shard for each rank with the parts of every chunk in order, or the assertion that fails |
| `BatchedDataDicts.ChunksAreConserved` | nemo_rl/distributed/batched_data_dict.py:667-699 | for every chunk, `get_batch` of it over all shards, in shard order, is exactly that chunk |
| `BatchedDataDicts.GetBatchIsSubShard` | nemo_rl/distributed/batched_data_dict.py:667-699 | `get_batch(c, shard_size)` returns exactly what chunk c gave the shard |
| `BatchedDataDicts.UnevenShardsConserve` | nemo_rl/distributed/batched_data_dict.py:383-388 | with uneven shards, the shards in order are the whole batch, and none exceeds the rounded-up share |
| `BatchedDataDicts.BatchedDataDict.ReorderData` | nemo_rl/distributed/batched_data_dict.py:237-265 | the rows sorted by the indices paired with them, equal indices in order; for a permutation the row at position k lands at position `indices[k]` |
| `BatchedDataDicts.ReorderUndoesSelect` | nemo_rl/distributed/batched_data_dict.py:237-265 | reordering by a permutation undoes selecting by it |
| `BatchedDataDicts.BatchedDataDict.Slice` | nemo_rl/distributed/batched_data_dict.py:701-722 | the rows asked for, none if the start is not before the end, or an error past the end |
| `BatchedDataDicts.BatchedDataDict.GetBatch` | nemo_rl/distributed/batched_data_dict.py:667-699 | the rows between the cumulative counts, with that batch's tables and element count; exactly when it succeeds |
| `BatchedDataDicts.BatchedDataDict.MakeMicrobatchIteratorForPackableSequences` | nemo_rl/distributed/batched_data_dict.py:782-796 | one microbatch for each interval of the single table, in order; exactly when it succeeds |
| `DynamicBatching.SortedIndicesPermute` | nemo_rl/distributed/batched_data_dict.py:393-426 | the returned indices are a permutation |
| `DynamicBatching.ChunkIsPermuted` | nemo_rl/distributed/batched_data_dict.py:398-413 | sorting and dealing permutes positions inside each chunk only |
| `DynamicBatching.ShardHoldsStride` | nemo_rl/distributed/batched_data_dict.py:403-426 | shard s of chunk c holds ranks s, s + shards, ... by length |
| `DynamicBatching.LengthsAscendAcrossShards` | nemo_rl/distributed/batched_data_dict.py:403-413 | a row is no longer than any row one position later on any shard |
| `DynamicBatching.ReorderRestores` | nemo_rl/distributed/batched_data_dict.py:237-265 | with one chunk or one shard, `reorder_data` restores the rejoined shards to the original batch |
| `DynamicBatching.ReorderRestoresIff` | nemo_rl/distributed/batched_data_dict.py:393-426 | for pairwise different rows it restores the order if and only if there was one chunk or one shard |
| `DynamicMicrobatches.SplitChunk` | nemo_rl/distributed/batched_data_dict.py:594-657 | fails exactly when what some position needs is over budget, the least multiple of the round covering its rows or the width; otherwise the intervals are non-empty, contiguous, cover the share, stay within budget, are as long as their longest member, and each is full |
| `DynamicMicrobatches.PaddedLengthIsNeed` | nemo_rl/distributed/batched_data_dict.py:601-630 | what a position needs is the least multiple of the round that covers its rows on all shards, or the width where that is less |
| `DynamicMicrobatches.GreedyTableIsUnique` | nemo_rl/distributed/batched_data_dict.py:635-657 | needs and budget determine the microbatches: any table with these properties is the same table |
| `DynamicMicrobatches.SplitChunks` | nemo_rl/distributed/batched_data_dict.py:597-658 | every chunk gets such a table, shared by all shards |
| `DynamicMicrobatches.MembersFit` | nemo_rl/distributed/batched_data_dict.py:606-633 | on every shard the recorded length is at least the row's length, as far as the padded width goes |
| `DynamicMicrobatches.ShardForDynamicBatching` | nemo_rl/distributed/batched_data_dict.py:590-663 | succeeds exactly when the batch divides and no row is over budget; shards, tables and indices are as stated above |
| `DynamicMicrobatches.MakeMicrobatchIteratorWithDynamicShapes` | nemo_rl/distributed/batched_data_dict.py:753-776 | the microbatches of the table, every row cut to its first tokens up to the microbatch's own length; exactly when it succeeds |
| `DynamicMicrobatches.DynamicCutsKeepRealTokens` | nemo_rl/distributed/batched_data_dict.py:753-776 | for every chunk and shard, every microbatch of a table lies within the shard's rows, can be cut to its length, and every row of it keeps all its real tokens |
| `PackedSharding.DealBins` | nemo_rl/distributed/batched_data_dict.py:474-518 | dealing bins in turn gives every shard its stride of the bins, with its table and token counts |
| `PackedSharding.PackedIndicesPermute` | nemo_rl/distributed/batched_data_dict.py:520-523 | the returned indices are a permutation |
| `PackedSharding.ChunkSharedOnce` | nemo_rl/distributed/batched_data_dict.py:481-490 | over all shards, chunk c contributes each of its positions exactly once |
| `PackedSharding.PackedRoundTrip` | nemo_rl/distributed/batched_data_dict.py:428-533 | for any chunks and shards: the shards in order are the rows selected by the returned indices, and `reorder_data` with them restores the batch |
| `PackedSharding.GetBatchIsChunk` | nemo_rl/distributed/batched_data_dict.py:667-699 | `get_batch(c)` on a shard gives exactly the rows of the bins of chunk c dealt to it |
| `PackedSharding.MicrobatchIsBin` | nemo_rl/distributed/batched_data_dict.py:782-796 | cutting that batch by its table gives one microbatch for each bin, with exactly the bin's rows |
| `PackedSharding.SharesAreEven` | nemo_rl/distributed/batched_data_dict.py:429-435 | all shards have the same number of microbatches in a chunk, at least one |
| `PackedSharding.MicrobatchAt` | nemo_rl/distributed/batched_data_dict.py:481-490 | the i-th microbatch of shard s is bin s + i * shards of the chunk |
| `PackedSharding.MicrobatchFits` | nemo_rl/distributed/batched_data_dict.py:491-510 | no microbatch is empty or over the token cap |
| `PackedSharding.PaddedLengthsAreLeast` | nemo_rl/distributed/batched_data_dict.py:442-445 | every padded length is the least multiple that is not below the length |
| `PackedSharding.ShardsRecordLengths` | nemo_rl/distributed/batched_data_dict.py:491-516 | every recorded microbatch length is the sum of its rows' padded lengths, and at most the capacity |
| `PackedSharding.PackChunks` | nemo_rl/distributed/batched_data_dict.py:447-465 | every chunk is packed by its own algorithm, exactly when the algorithms accept all chunks: there are always enough sequences for the shards |
| `PackedSharding.ShardForSequencePacking` | nemo_rl/distributed/batched_data_dict.py:428-533 | exactly when it succeeds; the chunks are packed by their algorithms on lengths padded to least multiples, and the shards have the rows, tables, counts and recorded lengths that the statements above are about |
| `PackedSharding.MicrobatchesHoldChunk` | nemo_rl/distributed/batched_data_dict.py:428-533 | end to end: over all shards the microbatches of `get_batch(c)` hold exactly the rows of chunk c, each as often as the batch has it; every shard has as many, none is empty and none over the cap |
| `ContextParallel.AllGather` | nemo_rl/distributed/model_utils.py:712-743 | halving, sorting by chunk number and concatenating gives all chunks in order |
| `ContextParallel.TokenOnRankAt` | nemo_rl/distributed/model_utils.py:669-709 | rank r holds, entry by entry, the r-th chunk from the front and then the r-th from the end |
| `ContextParallel.GatherUndoesShard` | nemo_rl/distributed/model_utils.py:669-709 | for every number of ranks and every divisible length, gathering the shards gives the sequence back |
| `ContextParallel.ShardUndoesGather` | nemo_rl/distributed/model_utils.py:669-743 | sharding what was gathered gives every rank its own tokens back |
| `ContextParallel.BackwardIsAdjoint` | nemo_rl/distributed/model_utils.py:746-775 | the backward pass is the adjoint: the two sums of pairings over the ranks are equal for all tensors and gradients |
| `ContextParallel.DotPicks` | nemo_rl/distributed/model_utils.py:746-775 | what the pairing of that statement is: with a unit sequence it gives the entry |
| `ContextParallel.BackwardAt` | nemo_rl/distributed/model_utils.py:746-775 | entry j of a rank gets the sum over the ranks of the gradients at its position of the whole sequence |
| `VocabParallel.DistributedIsLogSoftmax` | nemo_rl/distributed/model_utils.py:22-56 | the ranks' log-softmaxes, in rank order, are the log-softmax of the whole row |
| `VocabParallel.LogSoftmaxMeans` | nemo_rl/distributed/model_utils.py:22-56 | every entry is its logit less the logarithm of the sum of all exponentials, for exponential and logarithm |
| `VocabParallel.DistributedIsNormalised` | nemo_rl/distributed/model_utils.py:22-56 | what the ranks hold: any two entries differ as their logits do, whatever `exp` and `log`, and the exponentials of all entries sum to one for exponential and logarithm |
| `VocabParallel.NormalisedIsUnique` | nemo_rl/distributed/model_utils.py:22-56 | these two properties determine the row |
| `VocabParallel.GlobalMaxMeans` | nemo_rl/distributed/model_utils.py:38-46 | the ranks subtract the largest logit of the whole row, so that nothing exponentiated is positive |
| `VocabParallel.MaskedSumIsEntry` | nemo_rl/distributed/model_utils.py:75-93 | the masked sum over the ranks is the entry of the full row, and zero for an index nobody owns |
| `VocabParallel.DistributedIsLogprob` | nemo_rl/distributed/model_utils.py:66-99 | the distributed log-probability is that of the full row, the logit less the logarithm of the sum of all exponentials, whatever the number of ranks |
| `VocabParallel.ChunkedDistributedLogprob` | nemo_rl/distributed/model_utils.py:155-207 | chunking over positions does not show: every entry is the log-probability under its full row |
| `VocabTopK.TopKValuesAreUnique` | nemo_rl/distributed/model_utils.py:828-896 | top-k values do not depend on how ties are broken |
| `VocabTopK.TopOfCandidatesIsTop` | nemo_rl/distributed/model_utils.py:866-887 | top-k of the ranks' top-k is a top-k of the whole row: distinct global indices that point at the descending values, nothing larger left out |
| `VocabTopK.DistributedVocabTopK` | nemo_rl/distributed/model_utils.py:828-896 | every position gets the top-k of its whole row for every rank count, k and chunk size; it fails only for an empty sequence or chunk |
| `ScatterGradients.ScatterAdd` | nemo_rl/distributed/model_utils.py:129-130 | every entry gains the sum of all values addressed to it, repeated positions included |
| `ScatterGradients.ClampedSum` | nemo_rl/distributed/model_utils.py:340-372 | gradients masked and scattered at clamped positions are the gradients at the global index |
| `ScatterGradients.OnlyItsRow` | nemo_rl/distributed/model_utils.py:352-372 | flat scattering adds to a row only what that row addressed |
| `ScatterGradients.LogprobBackward` | nemo_rl/distributed/model_utils.py:101-137 | the scatter branch returns exactly the dense gradient of the other branch |
| `ScatterGradients.GatherLogprobBackward` | nemo_rl/distributed/model_utils.py:317-381 | every entry is minus softmax times the sum of the gradients plus those that chose it, with repeated and off-shard indices and any chunk size |
| `LogprobGradient.LogprobBelowTangent` | nemo_rl/distributed/model_utils.py:22-56 | log-probabilities are concave in the logits: going from logits z to w, one grows by no more than its own difference less the expected difference under z |
| `LogprobGradient.BackwardIsGradient` | nemo_rl/distributed/model_utils.py:101-137 | the gradients returned on the ranks, put together, are the slope of the weighted sum of the chosen log-probabilities: it bounds that sum from above for all logits when no gradient is negative, and from below when none is positive |
| `PackedLogprobs.RolledTargets` | nemo_rl/distributed/model_utils.py:585-598 | after all slice writes, every sequence's slice holds this rank's tokens of the rolled sequence |
| `PackedLogprobs.GatherSequences` | nemo_rl/distributed/model_utils.py:635-644 | the per-sequence gathers put every whole sequence back into its place |
| `PackedLogprobs.PackedSequenceLogprobs` | nemo_rl/distributed/model_utils.py:544-666 | entry j of sequence i is the log-probability of its token j + 1 under its own logits at j, and zero from its last position on, for every number of ranks, cumulative lengths and chunk size |
| `PackedLogprobs.SequenceLogprobsOverRanks` | nemo_rl/distributed/model_utils.py:469-541 | the same for unpacked sequences, with padding to the ranks' length |
| `ContextParallel.PointwiseOnRank` | nemo_rl/distributed/model_utils.py:669-703 | cutting for the ranks commutes with anything computed position by position |
| `GatherLogits.ClampedSumIsEntry` | nemo_rl/distributed/model_utils.py:950-970 | clamped, masked and summed over the ranks, the entry is that of the full row |
| `GatherLogits.GatherAtGlobalIndices` | nemo_rl/distributed/model_utils.py:899-982 | every position gets the entries of its full row at its own indices, whatever the ranks, padding and chunk size; with one rank for as many index rows as there are positions |
| `GroupStatistics.CalculateBaselineAndStd` | nemo_rl/algorithms/utils.py:79-156 | every prompt's entries are the statistics of its own group, group by group in place |
| `GroupStatistics.AdvantagesCancel` | nemo_rl/algorithms/utils.py:110-145 | advantages of the valid samples sum to zero in every group, with or without leave-one-out, for every mask |
| `GroupStatistics.BatchAdvantagesCancel` | nemo_rl/algorithms/utils.py:95-156 | the same in the written batch, and every sample lies in the group of its prompt |
| `GroupStatistics.CorrectedIsVariance` | nemo_rl/algorithms/utils.py:147-154 | mean of squares minus squared mean, corrected, is the sum of squared deviations over n - 1 |
| `GroupStatistics.VarianceVanishesIff` | nemo_rl/algorithms/utils.py:147-154 | it is non-negative, and zero exactly when all values are equal |
| `GroupStatistics.StatisticsMean` | nemo_rl/algorithms/utils.py:123-154 | baseline and spread are mean and sample variance of the rewards a sample is compared with, itself excluded under leave-one-out; for an invalid sample there the divisor is one too small, and the baseline is the mean only if the sum is zero |
| `GroupStatistics.SpreadVanishesIff` | nemo_rl/algorithms/utils.py:147-154 | for every sample and mask: its spread is zero exactly when those rewards are all equal, and for an invalid sample under leave-one-out exactly when the squares times the smaller divisor do not exceed the squared sum |
| `GroupStatistics.GroupSharesStd` | nemo_rl/algorithms/utils.py:119-154 | without leave-one-out all samples of a prompt share their standard deviation, for every mask |
| `GroupStatistics.GroupSplitsIff` | nemo_rl/algorithms/utils.py:116-154 | for all rewards: some samples of a group have spread and some have not exactly when leave-one-out is on, there are at least three, and all rewards but one agree |
| `GroupStatistics.OddOneHasNoSpread` | nemo_rl/algorithms/utils.py:116-154 | in such a group the odd one out is the one sample without spread |
| `DynamicSampling.SelectKeepsRows` | nemo_rl/algorithms/grpo.py:748-764 | selecting the non-zero positions column by column keeps each sample's entries together |
| `DynamicSampling.Sample` | nemo_rl/algorithms/grpo.py:694-820 | complete exactly when enough is collected; what is returned, cached or raised in every case |
| `DynamicSampling.GrpoTrainer.ProcessBatch` | nemo_rl/algorithms/grpo.py:1231-1338 | the monitor stops the run exactly on a batch that it does not let pass; otherwise the step trains exactly when the batches since the last step kept enough, then on the first of them in order, and fails exactly when they did not and the limit is used up |
| `DynamicSampling.GrpoTrainer.ResetSampling` | nemo_rl/algorithms/grpo.py:1731-1733 | after a step, and at the start of an epoch, nothing is cached or counted |
| `DynamicSampling.RunEpoch` | nemo_rl/algorithms/grpo.py:1063-1338 | over a whole epoch: steps take adjacent runs of batches that all pass the monitor, no shorter run would do, at most one batch over the limit; what is left is not enough; it raises for the limit exactly one batch past it, and for the monitor exactly on the first batch that does not pass |
| `DynamicSampling.MonitorComparesMeans` | nemo_rl/algorithms/grpo.py:1234-1288 | the monitor's two tests are those on the mean multiplier and on the fraction of all-zero groups |
| `DynamicSampling.MonitorStopsIff` | nemo_rl/algorithms/grpo.py:1234-1288 | the monitor stops a run exactly on a batch whose loss multipliers have a mean of at most one half, or of which at least 95% of the groups have no reward but zero; switched off, never |
| `DynamicSampling.MonitorLooksAtRuns` | nemo_rl/algorithms/grpo.py:1243-1256 | the groups are the runs of N rewards, with less than one group left over, or all rewards together when there is no whole group |
| `DynamicSampling.FewGroupsCollapseIff` | nemo_rl/algorithms/grpo.py:1243-1288 | below twenty groups the monitor finds a collapse exactly when every reward of every group is zero |
| `DynamicSampling.ZeroRewardsStop` | nemo_rl/algorithms/grpo.py:1284-1288 | a batch whose rewards are all zero stops a monitored run, whatever the limit, instead of being dropped |
| `DynamicSampling.WholeGroupIff` | nemo_rl/algorithms/grpo.py:744-764 | filtering keeps or drops a group as a whole unless leave-one-out is on and all its rewards, at least three, agree but one, and only then |
| `DynamicSampling.SplitGroupLosesOne` | nemo_rl/algorithms/grpo.py:744-764 | such a group loses exactly its odd one out |
| `DynamicSampling.TrainsOnWholeGroups` | nemo_rl/algorithms/grpo.py:744-810 | where filtering keeps or drops groups as a whole, a step trains on the first N groups with spread |
| `DynamicSampling.PromptHasStatistics` | nemo_rl/algorithms/utils.py:99-156 | the rows of a prompt, wherever they stand in the batch, have the statistics of all rewards of that prompt; equal prompts are one group |
| `DynamicSampling.PromptWholeIff` | nemo_rl/algorithms/utils.py:99-156 | for every batch with the statistics that the trainer computes, and every prompt of it: filtering keeps or drops all its rows unless leave-one-out is on and all its rewards, at least three, agree but one |
| `DynamicSampling.RunHasStatistics` | nemo_rl/algorithms/utils.py:99-156 | in a batch of pairwise different prompts, each repeated N times in a row, every run of N rows has the statistics of its own rewards |
| `DynamicSampling.TrainsOnWholeGroupsUnlessSplit` | nemo_rl/algorithms/grpo.py:744-813 | with the statistics that the trainer computes for batches of pairwise different prompts, each repeated: without leave-one-out or where no group splits, a step trains on the first groups with spread |
| `DynamicSampling.TotalRewardAlignedIff` | nemo_rl/algorithms/grpo.py:761-764 | the cached reward column belongs to the cached samples exactly when every batch was kept or dropped as a whole |
| `DynamicSampling.SliceAlignedIff` | nemo_rl/algorithms/grpo.py:761-813 | in the slice trained on, the unfiltered rewards belong to the samples beside them exactly when the first rows of the contributing batches all had spread |
| `PackedLoss.MaskedMinMeans` | nemo_rl/algorithms/loss_functions.py:439-453 | the minimum is a valid token's value and no valid token is below it; infinite exactly when none is valid |
| `PackedLoss.MaskedMaxMeans` | nemo_rl/algorithms/loss_functions.py:439-453 | the same for the maximum |
| `PackedLoss.MaskedMeanMeans` | nemo_rl/algorithms/utils.py:170-182 | under a mask of zeros and ones a masked mean is the sum of the valid values over their number and a hundred-millionth |
| `PackedLoss.MetricsMean` | nemo_rl/algorithms/loss_functions.py:412-477 | at token level every metric is what its name says: over the valid tokens of the batch the means of their values, over the normaliser where one is given, the least and the greatest ratios, and their number |
| `PackedLoss.SequenceMetricsMean` | nemo_rl/algorithms/loss_functions.py:385-414 | at sequence level loss and penalty are means over the valid samples of their own means, and with ratios of whole sequences the importance ratio is the sum of all weights times the number of valid samples over the normaliser |
| `PackedLoss.SameReductions` | nemo_rl/algorithms/utils.py:170-182 | entries under a vanishing mask change no sum, count, minimum or maximum |
| `PackedLoss.SequencesAddUp` | nemo_rl/algorithms/loss_functions.py:939-961 | with the normalisers in use global, the accumulated loss (token and sequence level) and every metric the clipped loss returns are those of the batch, infinite sentinels skipped or not; only `sampling_importance_ratio` with ratios of whole sequences is another one |
| `PackedLoss.Call` | nemo_rl/algorithms/loss_functions.py:880-963 | for any wrapped loss and any number of context-parallel ranks: one call for each sequence on its slices, cut at the padded starts divided by the ranks, and its unpadded data; results accumulated |
| `PackedLoss.RowIsAboutNextTokens` | nemo_rl/algorithms/loss_functions.py:163-174 | position j of a row is about token j + 1: its data, under its mask times the sample's, with the logits at j |
| `PackedLoss.TokenwiseIsCutInvariant` | nemo_rl/algorithms/loss_functions.py:326-327 | losses whose values come from one token alone do not see padding |
| `PackedLoss.SequencewiseIsCutInvariant` | nemo_rl/algorithms/loss_functions.py:318-363 | nor do ratios of whole sequences: the mean log ratio under the token mask and the summed log weights under both masks |
| `PackedLoss.SequenceRatiosMean` | nemo_rl/algorithms/loss_functions.py:318-363 | ratios of whole sequences come from the mean of the valid tokens' log ratios, whether the sample counts or not, and their weights from the sum of the log weights, which is zero when it does not |
| `PackedLoss.PackedIsUnpacked` | nemo_rl/algorithms/loss_functions.py:890-963 | for every such loss, any number of ranks that hold their shards of the sequences, and masks that vanish beyond each unpadded length, the wrapper's loss and metrics are those of one call on the unpacked batch, save that one ratio |
| `PackedLoss.ScoringIsOverRanks` | nemo_rl/algorithms/loss_functions.py:242-256 | computing log-probabilities rank by rank and gathering them is the loss of the whole sequence |
| `PackedLoss.ThroughIsCutInvariant` | nemo_rl/algorithms/loss_functions.py:242-256 | losses that see the logits only through log-probabilities see no more of the padding |
| `PackedLoss.LossAddsUpIff` | nemo_rl/algorithms/loss_functions.py:932-961 | at either level the accumulated loss is the batch's on all inputs exactly when the normaliser of that level is global |
| `PackedLoss.RatioAddsUpIff` | nemo_rl/algorithms/loss_functions.py:932-961 | the accumulated `probs_ratio` is the batch's on all inputs exactly when the token count is global |
| `PackedLoss.AllAddsUpIff` | nemo_rl/algorithms/loss_functions.py:932-961 | loss and all metrics add up on all inputs exactly when both are and the importance ratios are not those of whole sequences |
| `PackedLoss.SequenceImportanceAddsUpIff` | nemo_rl/algorithms/loss_functions.py:404-409 | with ratios of whole sequences the accumulated `sampling_importance_ratio` is the batch's exactly for batches of at most one sequence |
| `ConfigTree.PruneKeepsMeaningIff` | tools/config_cli.py:210-246 | for all trees: merging the pruned child gives what merging the child gives exactly when no `{}` stands over a non-mapping and no `[]` over a different value |
| `ConfigTree.PruneKeepsResultIff` | tools/config_cli.py:210-246 | the same with type errors of merging as results, where both merges may also fail alike |
| `ConfigTree.PruneKeepsMergeIff` | tools/config_cli.py:210-246 | for a child that can be merged, the outcome is the same exactly under that condition |
| `ConfigTree.PruneIsIdempotent` | tools/config_cli.py:210-246 | pruning again removes nothing more |
| `ConfigTree.KeptEntriesAreNeeded` | tools/config_cli.py:210-246 | minimal: dropping any entry that pruning kept, at any depth, changes the merged configuration |
| `ConfigTree.MergeFailsIff` | tools/config_cli.py:107-123 | merging fails exactly when some path of keys leads through mappings to a mapping in one configuration and to a list in the other |
| `ConfigTree.MergedAt` | tools/config_cli.py:107-123 | every path of the merged configuration: it leads to what the child has there, and to what the base has there where the child does not decide |
| `ConfigTree.LoadFailsIff` | tools/config_cli.py:107-125 | a file does not load exactly when a parent does not, or clashes with the parents before it, or the file clashes with all of them merged |
| `ConfigTree.MinimizeFailsIff` | tools/config_cli.py:300-344 | a file can be minimised exactly when it names one parent, not in a list, and that parent loads |
| `ConfigTree.LaterParentsWin` | tools/config_cli.py:107-125 | the file overrides its parents, and later parents earlier ones |
| `ConfigTree.LoadOne` | tools/config_cli.py:107-125 | with one parent, a file expands to the parent's expansion with the file merged over it |
| `ConfigTree.MinimizeKeepsMeaningIff` | tools/config_cli.py:326-383 | for every file: the minimised file expands to the same exactly under that condition, or when the pruned entries cannot be merged either |
| `ConfigTree.MinimizeKeepsExpansionIff` | tools/config_cli.py:326-383 | for every file that expands: the minimised file expands to the same configuration exactly when no `{}` stands over a non-mapping and no `[]` over a different value |
| `ConfigTree.MinimizeIsIdempotent` | tools/config_cli.py:326-383 | minimising twice is minimising once |
| `ConfigTree.EmptyMappingIsLost` | tools/config_cli.py:229-231 | a file whose `{}` over a scalar disappears, so that it expands to something else |

## Left out

- Ray actors, threads, semaphore timing, sleeps and backoff: atomic actions and events take their place.
- The manual pause around validation: it is lifted when validation ends, and is raised only after the new version was sent.
- `size` and `clear` of the replay buffer.
- Liveness of the collector beyond `CanFinishIff`, which says when a step can still be finished, not that it will be.
- Worker failures, `stop`, exhausted dataloaders, checkpoints and their timeout, KV-cache invalidation and weight transfer.
- Float rounding, dtypes and devices; sizes are unbounded integers and values are reals.
- The columns of a batch in sharding: a row is one value of any type, so that the columns cannot drift apart; `DynamicSampling` keeps its columns apart.
- Dynamic batching and packing together with uneven shards; the layouts there are the even ones.
- `chunk`, `all_gather`, `from_batches` padding values, `PackedTensor` payloads and `repeat_interleave`.
- The random order of the shuffled first-fit packer is a parameter; any permutation will do.
- `max_sequences_per_bin`, which is switched off, and the packers' metrics.
- Which of several equal values a top-k selects: any choice is allowed and the values do not depend on it.
- The backward pass of `gather_logits_at_global_indices` and of `ChunkedDistributedLogprob`, which computes the dense formula as it stands; `ChunkedDistributedEntropy`.
- `torch.cat` of no chunks: the log-probability passes raise for sequences of length zero, the models return nothing.
- What else can raise in an epoch: validation, generation, the training step itself.
- Dynamic sampling switched off, reward scaling and shaping, `normalize_advantages_with_epsilon`.
- What a token contributes to the loss: the wrapped loss is any function of a token's logits and data and of a summary of its sequence; DPO's per-sequence losses.
- Interpolations, the missing value `???`, file paths, `--base` mode, relative paths of grandparents, `expand` and `compare` output in `config_cli.py`; `1 == True`.
- Merging of two configurations is OmegaConf's; the model is its recursive merge with lists replaced, and a type error for a mapping against a list.
- SFT, DPO, reward-model and distillation loops, environments, datasets, tokenizers, logging and cluster setup.
