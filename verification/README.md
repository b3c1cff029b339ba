# Verified model of decoderARC's machinery

decoderARC is an intrusion-detection engine in C++17 with a Python backend. This project
models the machinery around its learned scoring and proves what that machinery is for. It is
checked with `dafny verify dfyconfig.toml`.

The files, by what they model:

- **Integrity codes and binary formats.** `Crc32.dfy` (with `CrcValue.dfy`), `LittleEndian.dfy`,
  `StateCodec.dfy` (the version 3 state file), `Fnv.dfy`, `ModelCodec.dfy` (the model file); where
  every field lies (`StateLayout.dfy`, `ModelLayout.dfy`) and which files are accepted
  (`StateFiles.dfy`, `ModelFiles.dfy`). Bytes are `bv8`, floats in files are opaque 32-bit words
  with a finiteness test on their bits.
- **Concurrent protocols.** `Sharded.dfy` with `BoundedQueue.dfy`, `ThreadPool.dfy`,
  `CentralRuntime.dfy`. Each is a state machine whose actions are the atomic steps of the
  threads; a run is any sequence of enabled actions. Beside what must not happen,
  `ShardedProgress.dfy` and `CentralProgress.dfy` say what does. `QueueHistory.dfy` relates a
  queue to all that ever entered it.
- **Online statistics and bounded state.** `WeightedStats.dfy` (what a mean and a variance of
  a weighted history are), `LocalStats.dfy`, `Adaptive.dfy` with `AdaptiveLaws.dfy`, `Ssm.dfy`
  with `SsmRuns.dfy`, `Hierarchy.dfy` with `HierarchyRuns.dfy`, `Segments.dfy` with
  `SegmentRuns.dfy`. Floats are reals; `exp`, `log1p` and the finiteness test are parameters and
  norms are compared by their squares.
- **Decisions over time.** `Decisions.dfy` with `Dispatches.dfy`, `NearMiss.dfy`,
  `RateLimit.dfy`, `Correlation.dfy` and `Campaigns.dfy` with `CorrelationLaws.dfy`,
  `CircuitBreaker.dfy`, `Holders.dfy` (staged models and configurations). Every call carries one
  clock reading, and readings do not decrease.
- **Memory and text.** `VectorStore.dfy` and `KeyedStores.dfy` with `StoreLaws.dfy`,
  `CsvLine.dfy`, `JsonString.dfy`.
- **General.** `Folds.dfy`, `Subsequences.dfy`, `SlidingWindow.dfy`.

Objects that the source updates in place are classes whose methods carry the source's loops and
branches; their contracts tie the new state to a specification function or to the whole history
(ghost fields), and the lemmas are about those.

Where the code and what is said of it differ, the model follows the code and the difference is
a theorem:

- The CRC of a state file does not protect the version field: of the changes inside four
  consecutive bytes exactly two get past it, the ones that turn the version into 1 or 2
  (`StateCodec.OnlyDowngradesPass`, `StateCodec.RejectedExactly`), and
  `StateCodec.VersionOneIsUnguarded` and `StateCodec.VersionTwoIsUnguarded` say what they load.
  A key of 65536 bytes or more does not come back (`StateCodec.RebuildsExactly`).
- Shutdown of the sharded pipeline is documented to drain the queues; it may strand an event
  (`Sharded.ShutdownCanStrand`, and `Sharded.UnstartedStrands` when `start` was never called),
  and `Sharded.DrainedExactly` says for every shard exactly when it does.
- The watchdog is said to restart hung shards; it notices a worker that takes no step, but then
  waits for that worker to end and never replaces it (`ShardedProgress.HungWorkerIsAwaited`).
- Escalation for repetition is meant for sources that keep coming; one that goes on without a
  pause for longer than the window is exempt from it (`Dispatches.LongStreakIsNotRepetition`).
- A thread pool without workers finishes its destructor and runs nothing
  (`ThreadPool.EveryTaskRunsExactlyOnce` has both directions).
- A `VectorStore` exceeds its `max_size` after an insert exactly if that is below 3 and less than
  the number of unexpired records (`VectorStore.OverflowsExactlyBelowThree`).
- `validate_config` lets thresholds that are not numbers through
  (`Holders.ValidThresholdsIncrease`, `Holders.NaNSlipsThrough`).
- `parse_csv_line` does not know RFC 4180's doubled quote (`CsvLine.InvertsQuoteFree`), and
  `escape_json` writes some control characters raw (`JsonString.ReadsBackStrictly`).
- The multi-stage detector is sound but greedy: it finds a pattern exactly if taking every stage
  at its first chance never exceeds the gap (`Correlation.ScanFindsLeftmost`,
  `Correlation.StagesFoundExactly`). On queues narrower than the gap that is every pattern spelt
  out (`Correlation.CompleteWithinGap`); on others it can miss one
  (`Correlation.MultiStageMisses`).
- The adaptive thresholds are computed without a reversed clamp for every baseline exactly under
  certain limits, the default ones among them (`Adaptive.ClampsAreDefinedExactly`).
- A near-miss threshold above 50 never fires (`NearMiss.NearMissDetector.Check`).

## Model

| member | source | states |
|---|---|---|
| `Crc32.CrcIsBitSerial` | include/ids.hpp:33-84 | the CRC equals bit-by-bit reflected division by 0xEDB88320 (section 8 of RFC 1952), for every byte string and initial value |
| `Crc32.EntryIsDivision` | include/ids.hpp:34-78 | every one of the 256 table entries is its index put through eight division steps |
| `Crc32.TableStep` | include/ids.hpp:81-82 | one table look-up and shift is eight division steps on the register with the byte mixed in |
| `Crc32.Crc32Of` | include/ids.hpp:33-84 | the loop returns that CRC and the bit-serial reference value |
| `Crc32.Streams` | include/ids.hpp:33-84 | the CRC of a concatenation is the CRC of the second part started from the CRC of the first |
| `Crc32.CrcDetectsFourByteChange` | include/ids.hpp:33-84 | strings equal outside four consecutive bytes have equal CRCs if and only if they are equal |
| `Crc32.TrailerIsResidue` | include/ids.hpp:732-736 | a stored CRC is right exactly when the register after message and trailer is one constant |
| `CrcValue.CheckValue` | include/ids.hpp:33-84 | the CRC of the digits 1 to 9 is 0xCBF43926 |
| `StateCodec.RoundTrip` | include/ids.hpp:651-800 | loading a saved file into any pipeline restores the global state and lays the saved accumulators over the instances, keeping what is not persisted |
| `StateCodec.RebuildsExactly` | include/ids.hpp:651-800 | a fresh pipeline gets back the same state if and only if the level states are finite and all keys are shorter than 65536 bytes |
| `StateCodec.LoadOfSaved` | include/ids.hpp:651-800 | what loading a saved file gives for every state: refusal on a NaN or infinity, otherwise every record under the kept part of its key |
| `StateCodec.CorruptionRejected` | include/ids.hpp:729-738 | a version 3 file that passed its CRC, changed inside four consecutive bytes with the version intact, is refused and changes nothing |
| `StateCodec.SavedFileIsGuarded` | include/ids.hpp:651-738 | every nonempty change confined to four consecutive bytes from offset 8 on, the stored CRC included, is refused |
| `StateCodec.OnlyDowngradesPass` | include/ids.hpp:695-738 | anywhere in a saved file a nonempty change confined to four consecutive bytes is refused and changes nothing, unless the result is the file with version 1 or the file with version 2 |
| `StateCodec.VersionTwoIsUnguarded` | include/ids.hpp:729-738 | writing 2 into the version field of any saved file makes it load exactly as the intact file does |
| `StateCodec.VersionOneIsUnguarded` | include/ids.hpp:729-800 | writing 1 into it replaces the global state by the saved one if its levels are finite, keeps every instance and creates only empty ones, and loads as intact if there are no records |
| `StateCodec.RejectedExactly` | include/ids.hpp:695-800 | so, where the intact file would change the global state, a change inside four bytes is refused without effect if and only if it is neither of the two downgrades |
| `StateCodec.AccumRoundTrip` | include/ids_level1.hpp:69-90 | parsing the 64 bytes written for an accumulator gives the accumulator; `StateLayout.SavedRecords` says which bytes are which field |
| `StateLayout.SavedFields` | include/ids.hpp:651-690 | in every saved file the magic number is at offset 0, the version 3 at 4, entry i of level l at 8+512l+4i, of the baseline at 2056+4i, anomaly history and drift at 2568 and 2572, the number of records at 2576, and the CRC of all before it in the last four bytes |
| `StateLayout.SavedRecords` | include/ids.hpp:669-684 | record n begins where the records before it end, the first at 2584: a length of two bytes, that much of the key, then segment count at +0, count at +8, the two sums at +16 and +20, error count at +24 and the eight type frequencies from +32; the last record ends where the CRC begins |
| `StateLayout.NumberByBytes` | include/ids.hpp:666-676 | byte k of a stored number has weight 256^k |
| `StateLayout.WordByBytes` | include/ids.hpp:656-665 | a 32-bit word is stored from its lowest byte to its highest |
| `StateLayout.BytesCount` | include/ids.hpp:656-676 | the 256 bytes stand for 0 to 255 in order |
| `StateLayout.LevelsFiniteExactly` | include/ids.hpp:757-762 | the finiteness test asks of every entry of every level that its exponent is not all ones |
| `StateFiles.AcceptedExactly` | include/ids.hpp:695-800 | a file of version 2 or 3 is accepted if and only if it has the magic number, the CRC if it says 3, a whole finite global state, a count, and that many records exactly as they are written |
| `StateFiles.RecordsAcceptedExactly` | include/ids.hpp:770-793 | a block is read in full if and only if it begins with that many well-formed records, and then these are restored in order |
| `StateFiles.RefusedLeaves` | include/ids.hpp:695-768 | a refused file changes nothing unless its fixed part was in order, and then replaces the global state by its own |
| `StateCodec.Pipeline.SaveState` | include/ids.hpp:651-690 | the buffer built field by field is the saved form of the pipeline's state |
| `StateCodec.Pipeline.LoadState` | include/ids.hpp:695-800 | reading at an advancing position gives the result and the state of the parser, early exits included |
| `LittleEndian.Le64RoundTrip` | include/ids.hpp:666-676 | eight bytes written for a 64-bit counter read back as it |
| `Fnv.HashDetectsOneByte` | include/ids_model.hpp:35-50 | changing one byte changes the 64-bit FNV-1a hash (section 2 of draft-eastlake-fnv), whatever the rest |
| `Fnv.HexInjective` | include/ids_model.hpp:51-53 | different hashes print differently in hexadecimal |
| `ModelLayout.KnownHashes` | include/ids_model.hpp:35-50 | the hashes of "", "a" and "foobar" are those of appendix C of draft-eastlake-fnv |
| `ModelLayout.HexReads` | include/ids_model.hpp:51-53 | the checksum text, read as lower-case hexadecimal, is the hash, and it has no leading zeros |
| `ModelCodec.RoundTripExactly` | include/ids_model.hpp:121-225 | load_model gives back the model save_model wrote if and only if the version is shorter than 65536 bytes and there are at most 64 blobs |
| `ModelCodec.SealedIsValid` | include/ids_model.hpp:57-117 | the model with its checksum filled in passes validate_model if and only if its version is not empty and its numbers are finite |
| `ModelCodec.OneByteRejected` | include/ids_model.hpp:297-318 | any one changed parameter byte of a saved file makes stage_model fail |
| `ModelCodec.ComputeChecksum` | include/ids_model.hpp:35-54 | the nested loops compute the hexadecimal hash of all parameter bytes in file order |
| `ModelCodec.ValidateModel` | include/ids_model.hpp:57-117 | the checks in order accept exactly the valid models |
| `ModelCodec.SaveModel` | include/ids_model.hpp:184-225 | the file written is the serialised model with its checksum set |
| `ModelCodec.LoadModelFile` | include/ids_model.hpp:121-182 | reading gives what the parser of the format gives, for every byte string |
| `ModelCodec.LayerBlobBijection` | include/ids_model.hpp:256-279 | the two conversions between a layer and its blob are inverse to each other |
| `ModelLayout.HeaderFields` | include/ids_model.hpp:184-208 | where magic, format, version, checksum and time lie in every saved model file |
| `ModelLayout.ParamFields` | include/ids_model.hpp:209-222 | where the five arrays, the number of blobs and the blobs lie, and that the checksum is of exactly these bytes of the file in order |
| `ModelLayout.BlobFields` | include/ids_model.hpp:256-279 | which words of a blob are which array of the layer |
| `ModelFiles.LoadsExactly` | include/ids_model.hpp:121-182 | a byte string loads if and only if it begins with a file of the format with at most 64 blobs |
| `ModelFiles.ValidExactly` | include/ids_model.hpp:57-117 | which models validate_model accepts: named, of the right sizes, all numbers, with no checksum or the right one |
| `ModelFiles.SavedIsStaged` | include/ids_model.hpp:184-318 | the file of a model can be staged, with its checksum filled in, if and only if the model has a name below 65536 bytes, at most 64 blobs and only numbers |
| `Holders.ModelHolder.StageFile` | include/ids_model.hpp:297-318 | a file is staged exactly if it loads and validates; otherwise what was staged stays |
| `Holders.ModelHolder.ApplyModel` | include/ids_model.hpp:337-355 | the staged model becomes active, the newest three earlier ones stay in order, everything active or historical is valid, a throwing callback changes only the answer |
| `Holders.ModelHolder.RollbackModel` | include/ids_model.hpp:358-374 | rolling back by k rotates the first k+1 of active and history |
| `Holders.RollbackCycles` | include/ids_model.hpp:358-374 | rolling back by k steps k+1 times is the identity |
| `Holders.RotateKeepsVersions` | include/ids_model.hpp:358-374 | no version is lost or duplicated |
| `Holders.RotateBrings` | include/ids_model.hpp:358-374 | which version goes where in a rollback |
| `Holders.ValidThresholdsIncrease` | include/ids.hpp:140-160 | the thresholds of an accepted configuration increase strictly if and only if none is NaN |
| `Holders.NaNSlipsThrough` | include/ids.hpp:140-160 | an accepted configuration stays accepted with NaN for its alert threshold |
| `Holders.AcceptedExactly` | include/ids.hpp:140-160 | of the configurations made of numbers exactly those with increasing thresholds, a decay strictly between 0 and 1, weights of at least 0 and a gate in [0,1] are accepted |
| `Holders.ConfigHolder.Update` | include/ids.hpp:173-183 | valid configurations only, at most three kept, the newest first |
| `Holders.ConfigHolder.RollbackBy` | include/ids.hpp:185-193 | a rollback in range makes the chosen configuration current, puts the old one in front and keeps all entries valid; any other changes nothing |
| `Holders.RollbackUndone` | include/ids.hpp:185-193 | rolling back one step after any rollback restores the current configuration |
| `BoundedQueue.Queue.TryPush` | include/ids_sharded.hpp:33-39 | accepted exactly if below capacity, at the end of the queue |
| `BoundedQueue.Queue.PriorityPush` | include/ids_sharded.hpp:43-56 | at capacity a high score evicts exactly the oldest, a low one is refused; both count one drop |
| `BoundedQueue.Queue.Pop` | include/ids_sharded.hpp:59-67 | the oldest event or nothing |
| `Sharded.StepKeeps` | include/ids_sharded.hpp:150-217 | every atomic step of producers, workers, watchdog and controller keeps the invariant: capacity, order, routing, accounting, thread phases |
| `Sharded.KeyIsHandledInOrder` | include/ids_sharded.hpp:163-193 | in every reachable state the events of a routing key are handled as a subsequence, in order, of those accepted, and all went to one shard |
| `Sharded.ShardIsFifo` | include/ids_sharded.hpp:339-358 | without the evicting policy handled, in hand and queued events together are exactly the accepted ones in order |
| `Sharded.OneWorkerPerShard` | include/ids_sharded.hpp:364-394 | two live worker threads of a shard are the same thread, restarts included |
| `Sharded.EventsAreConserved` | include/ids_sharded.hpp:163-193 | queues within capacity; accepted = processed + in flight + queued + evicted per shard; ingested = dropped + accepted + calls in progress |
| `Sharded.OneInRateIsSampled` | include/ids_sharded.hpp:185-188 | the sampling policy lets exactly the first of every sample_rate tickets through, over all producers |
| `Sharded.ExitedLeavesOnlyLateEvents` | include/ids_sharded.hpp:339-358 | an exited worker leaves only events accepted after it last saw the queue empty, and the last worker of a shard leaves none if and only if there were none; that it does not exit while its shard is running is `ShardedProgress.RunningIsAlive` |
| `Sharded.DrainedExactly` | include/ids_sharded.hpp:204-217 | when shutdown has returned, a shard is empty if and only if every event it accepted came before a worker of it last looked and found nothing (before the first one, if it never had a worker, and then all that was not evicted is left); the events left are those accepted, less processed, less evicted |
| `Sharded.DownIsQuiet` | include/ids_sharded.hpp:204-217 | once shutdown has returned no worker or watchdog step is enabled and no step handles an event |
| `Sharded.NothingRunsAfterShutdown` | include/ids_sharded.hpp:204-217 | over every run that continues after shutdown nothing more is handled |
| `Sharded.ShutdownCanStrand` | include/ids_sharded.hpp:341-343 | a run in which an accepted event is left behind by shutdown |
| `Sharded.UnstartedStrands` | include/ids_sharded.hpp:163-217 | for every event, a run that ingests it, never starts and shuts down leaves it in the queue |
| `ShardedProgress.PushIsDecided` | include/ids_sharded.hpp:163-193 | a push is accepted exactly if the queue of the event's shard has room or, under Priority, the event scores at least keep_above and takes the place of the oldest; a refused one is tried again under Block and counted as dropped otherwise; nothing else changes |
| `ShardedProgress.RoutedByField` | include/ids_sharded.hpp:326-336 | every accepted event is in the shard given by the hash of its session or user, if these are routed by and present, else of its source |
| `ShardedProgress.TicketsDecide` | include/ids_sharded.hpp:185-188 | under the sampling policy exactly the tickets divisible by the rate go on to the queue |
| `ShardedProgress.BlockDropsNothing` | include/ids_sharded.hpp:179-184 | under Block no event is dropped, over every run |
| `ShardedProgress.AcceptedWereIngested` | include/ids_sharded.hpp:163-193 | every accepted event is one with which ingest was called |
| `ShardedProgress.RunningIsAlive` | include/ids_sharded.hpp:339-358 | in every reachable state a running shard has a worker that has neither exited nor is about to, and can take a step |
| `ShardedProgress.ServingIsNeverStuck` | include/ids_sharded.hpp:364-394 | while the pipeline serves, every shard is running with a live worker, or the watchdog is restarting it and the old worker or the watchdog can take a step |
| `ShardedProgress.HeadIsHandled` | include/ids_sharded.hpp:339-358 | left alone, a running shard's worker handles what it holds and then the head of the queue within five steps |
| `ShardedProgress.EventsAreServed` | include/ids_sharded.hpp:339-394 | in every run, restarts and shutdown included, a bounded number of the shard's worker steps after event j was accepted it and all before it are handled or evicted, and without eviction handled in order |
| `ShardedProgress.HeartbeatIsWork` | include/ids_sharded.hpp:342-356 | the heartbeat is the number of events processed plus the times the worker found nothing and went on |
| `ShardedProgress.HungWorkerIsAwaited` | include/ids_sharded.hpp:364-394 | a worker that takes no step is noticed at exactly the max_missed_beats'th look at an unchanged heartbeat, and from then on the watchdog waits for it and starts no other |
| `ShardedProgress.BeatingIsSpared` | include/ids_sharded.hpp:368-381 | a worker that has beaten since the watchdog's last look is not stopped at the next, and its missed beats are forgiven |
| `ShardedProgress.WatchdogGoesRound` | include/ids_sharded.hpp:364-384 | the watchdog looks at all shards in order, then rests; told to stop, it does so at the end of a round |
| `ShardedProgress.ThreadsAreCounted` | include/ids_sharded.hpp:151-160 | every worker thread there ever was is one that start made or a counted restart |
| `ShardedProgress.ShutdownIsNeverStuck` | include/ids_sharded.hpp:204-217 | from the call of shutdown to its return it, a worker or the watchdog can take a step |
| `ShardedProgress.ShutdownFinishes` | include/ids_sharded.hpp:211-217 | once the queues are closed, a run of shutdown and workers is no longer than a bound made of the queued events, the workers' phases and the joins left |
| `ThreadPool.TasksAreFifo` | include/ids_thread_pool.hpp:23-37 | in every reachable state the dequeued tasks are a prefix of the accepted ones and the queue is the rest |
| `ThreadPool.AcceptedIsSubmitted` | include/ids_thread_pool.hpp:51-58 | over every run the accepted tasks are exactly those handed to enqueue before the destructor began, in order |
| `ThreadPool.OneSignalPerTask` | include/ids_thread_pool.hpp:51-58 | every accepted task is signalled once, or its signal is still to come |
| `ThreadPool.EveryTaskRunsExactlyOnce` | include/ids_thread_pool.hpp:20-67 | when the destructor is done the executed tasks are the accepted ones, with multiplicity, if and only if there is a worker or no task was accepted; which are accepted is `ThreadPool.AcceptedIsSubmitted` |
| `ThreadPool.SubmittedRunExactlyOnce` | include/ids_thread_pool.hpp:20-67 | when the destructor is done the executed tasks are exactly those submitted before it began, with multiplicity, or none in a pool without workers |
| `ThreadPool.NoLostWakeup` | include/ids_thread_pool.hpp:27-33 | with a worker and a queued task some signal, worker step or destructor step is enabled |
| `ThreadPool.WorkIsBounded` | include/ids_thread_pool.hpp:23-48 | a pool left to itself takes no more signal and worker steps than a measure of its backlog |
| `ThreadPool.IdleHasRunAll` | include/ids_thread_pool.hpp:23-48 | when a pool in service with a worker can work no further, every task submitted so far has run exactly once |
| `ThreadPool.StoppedStepDecreases` | include/ids_thread_pool.hpp:60-67 | after stop a call of enqueue changes nothing and every other step decreases a measure |
| `ThreadPool.StoppedIsNeverStuck` | include/ids_thread_pool.hpp:60-67 | after stop and before the end some worker or destructor step is enabled |
| `ThreadPool.DestructorFinishes` | include/ids_thread_pool.hpp:60-67 | a run from a stopped pool, refused calls aside, is no longer than the measure and accepts nothing |
| `CentralRuntime.UserRuntime.Ingest` | backend/app/central_runtime.py:42-46 | the queue goes on holding the newest 10000 of all events ingested since the last drain, in order |
| `CentralRuntime.IngestKeepsNewest` | backend/app/central_runtime.py:42-46 | dropping the oldest event at a full queue, step by step, is keeping the newest 10000 of the whole sequence |
| `CentralRuntime.UserRuntime.TakeBatch` | backend/app/central_runtime.py:48-52 | the drain loop hands out the newest 10000 of all events ingested since the drain before, in order, and leaves none |
| `CentralRuntime.GroupedKeepsOrder` | backend/app/central_runtime.py:218-226 | grouping by user keeps every user's events in order |
| `CentralRuntime.StepKeeps` | backend/app/central_runtime.py:286-332 | every step of every worker, with an exception at any point and either outcome of the commit, keeps the invariant |
| `CentralRuntime.EventsArriveOnce` | backend/app/central_runtime.py:286-332 | in every reachable state an event is at most once in what ever entered the runtime queues, over all users |
| `CentralRuntime.EventsArePoppedOnce` | backend/app/central_runtime.py:48-52 | an event is popped at most once, and a user's events in arrival order; which are popped is `CentralProgress.DrainsHandOutNewest` |
| `CentralRuntime.QueuesAreClaimed` | backend/app/central_runtime.py:310-321 | a user's queue holds at most 10000 events, all of that user and all marked processed; arrived = popped + dropped + queued |
| `CentralRuntime.NoResizeWhileIterating` | backend/app/central_runtime.py:325-327 | no step changes the keys of the runtimes dictionary while a worker iterates over it |
| `CentralProgress.DrainsHandOutNewest` | backend/app/central_runtime.py:42-52 | over every run a user's popped events are, drain by drain, the newest 10000 of those routed to the user since the drain before, in order, and the dropped ones are counted by the arrivals at a full queue |
| `CentralProgress.NothingIsDroppedBelowLimit` | backend/app/central_runtime.py:42-52 | while at most 10000 events have arrived, those popped and those queued are together the arrived ones in order, and none is dropped |
| `CentralProgress.ClaimedRowsAreSomewhere` | backend/app/central_runtime.py:286-332 | over every run the rows marked processed are exactly those about to be routed, those that arrived, and those an exception between claim and routing gave up |
| `CentralProgress.RowsAreInserts` | backend/app/central_runtime.py:296-303 | the rows are exactly those inserted, and every claim is of 1 to 200 rows |
| `CentralProgress.RoundDrainsAll` | backend/app/central_runtime.py:325-327 | a round that walks all runtimes without an exception leaves nothing of what had arrived when it took the lock, whatever other workers do |
| `CentralProgress.BatchIsDelivered` | backend/app/central_runtime.py:286-332 | undisturbed, a worker's round pops every row of its partition that it fetched, leaves all marked processed, and ends |
| `CentralProgress.PartitionIsAbsolute` | backend/app/central_runtime.py:228-230 | a user's partition depends on the absolute value of its hash |
| `WeightedStats.MixDescribes` | include/ids_adaptive.hpp:50-55 | one update turns the mean and variance of a weighted history into those of the history with the old weights shrunk by 1-a and the new value at weight a |
| `LocalStats.StatsDescribeHistory` | include/ids_level0.hpp:111-118 | for the first `window` values mean and variance are those of 0 and the values, equally weighted; later the update is exponential with gain 1/(window+1) |
| `LocalStats.UpdateIsMix` | include/ids_level0.hpp:113-117 | the two assignments of the loop compute the exponential update of gain 1/n |
| `LocalStats.VarianceIsNonneg` | include/ids_level0.hpp:111-118 | no rolling variance is negative |
| `LocalStats.LocalAnalyzer.Process` | include/ids_level0.hpp:16-26 | after an event every feature's statistics are those of the history with the event, and the buffer is its last `window` events |
| `LocalStats.UpdateStats` | include/ids_level0.hpp:112-118 | the in-place loop takes all features from one history to the next |
| `Adaptive.BaselineIsItsHistory` | include/ids_adaptive.hpp:44-68 | for dimensions 1 to 63 mean and variance are those of all non-anomalous embeddings seen, with exponential weights |
| `Adaptive.MeanIsItsHistory` | include/ids_adaptive.hpp:44-68 | for all 64 dimensions, 0 included, the mean is that of all non-anomalous embeddings seen, with exponential weights |
| `AdaptiveLaws.AveragesAreHistories` | include/ids_adaptive.hpp:56-59 | score, rate, entropy and drift averages are the exponentially weighted means of what the events scoring below 0.70 contributed |
| `AdaptiveLaws.DimensionZero` | include/ids_adaptive.hpp:48-55 | the variance of dimension 0 takes two updates per kept event, the score's and then the embedding's |
| `Adaptive.ScoreMeanIsItsHistory` | include/ids_adaptive.hpp:56 | the average score is the exponentially weighted mean of the scores taken in |
| `Adaptive.VariancesAreNonneg` | include/ids_adaptive.hpp:50-61 | no variance is negative, the twice-updated dimension 0 included |
| `Adaptive.UpdateBaseline` | include/ids_adaptive.hpp:44-63 | the loop gives every dimension its step and leaves a frozen baseline alone |
| `Adaptive.AdaptiveLayer.Update` | include/ids_adaptive.hpp:106-160 | the four scopes, the freeze and update counters, and the noted threshold and gate with their change counters, after one event |
| `Adaptive.ScopesAreIndependent` | include/ids_adaptive.hpp:106-146 | over every run each address, user and host baseline, and the global one, is the one built from its own events alone |
| `AdaptiveLaws.ScopeRates` | include/ids_adaptive.hpp:106-146 | the four scopes adapt at rates 0.001, 0.05, 0.02 and 0.005 |
| `AdaptiveLaws.FreezesAreCounted` | include/ids_adaptive.hpp:106-146 | which baselines an event freezes or thaws, and that every one that went from live to frozen is counted once |
| `AdaptiveLaws.UnnamedScopesStay` | include/ids_adaptive.hpp:127-144 | an event without a user or with an empty one leaves all users' baselines alone, and one without a destination all hosts' |
| `Adaptive.IpBaselineIsItsHistory` | include/ids_adaptive.hpp:118-125 | an address's baseline is the weighted mean and variance of the non-anomalous embeddings it sent since its last reset |
| `Adaptive.ClampsAreDefinedExactly` | include/ids_adaptive.hpp:163-179 | no clamp has its bounds reversed for any baseline if and only if the configured limits leave the stated room around the alert range, as the default ones do |
| `Adaptive.ThresholdsAreOrdered` | include/ids_adaptive.hpp:163-179 | under such limits the four thresholds come out in order, at least 0.05 apart, within their ranges, for every baseline |
| `AdaptiveLaws.UnclampedThresholds` | include/ids_adaptive.hpp:163-180 | where no limit binds, alert is the mean plus k_alert deviations, block k_block deviations more, log 0.6 and ignore 0.3 of alert |
| `AdaptiveLaws.ThresholdsRise` | include/ids_adaptive.hpp:163-180 | a higher mean score lowers no threshold |
| `AdaptiveLaws.MarksFollow` | include/ids_adaptive.hpp:148-160 | a noted threshold or gate is within 0.005 of the current one and is replaced, and the change counted, exactly if it was not |
| `Ssm.StepIsBounded` | include/ids_ssm.hpp:64-81 | after a step that does not throw the norm is at most 2*max_energy, and at most max_energy when dim*clamp^2 <= max_energy^2, where the second throw cannot happen |
| `Ssm.SSM.Step` | include/ids_ssm.hpp:37-92 | the loops compute the specified next state and output, or clear the state and throw |
| `SsmRuns.StepOutcome` | include/ids_ssm.hpp:59-81 | when a step throws, when it clamps, and what it leaves, exactly |
| `SsmRuns.CalmRunIsConvolution` | include/ids_ssm.hpp:37-60 | while the energy stays within the limit the state is, channel by channel, the initial one faded by exp(-t*exp(A_log)) over the elapsed time plus every input's impulse faded since it came |
| `SsmRuns.ClampIsNearest` | include/ids_ssm.hpp:72-75 | clamping moves every entry to the nearest one within the limits |
| `SsmRuns.OutputIs` | include/ids_ssm.hpp:83-92 | the output is the projected state plus the scaled input, up to the input's length |
| `SsmRuns.ProjectionEntry` | include/ids_ssm.hpp:41-58 | the coefficient of input j in row i of a projection is its entry at (i, j) |
| `SsmRuns.EnergyOfEntry` | include/ids_ssm.hpp:28-32 | every entry of the state enters the energy with its square |
| `Ssm.MixStaysInside` | include/ids_ssm.hpp:222-229 | an exponential average of vectors in a ball stays in the ball |
| `Hierarchy.DefaultOutput` | include/ids.hpp:1107-1124 | with the default projections a layer's output is its state |
| `Hierarchy.HierarchicalSSM.Update` | include/ids_ssm.hpp:127-245 | all promotion and skip rules, the catch blocks, baseline, drift and history, against the specification |
| `HierarchyRuns.LayersStepInTurn` | include/ids_ssm.hpp:127-219 | in every call of every run each layer steps exactly when it is forced, due or signalled and not skipped, on the level above as this call leaves it; it publishes its output, is cleared if it throws, and otherwise stays as it was |
| `HierarchyRuns.HistoryIsTrendMean` | include/ids_ssm.hpp:239-241 | the anomaly history is the exponentially weighted mean of all trends, with rate 0.05 |
| `HierarchyRuns.BaselineIsLevelMean` | include/ids_ssm.hpp:221-228 | the baseline is the exponentially weighted mean of the deepest level over all calls, with rate 0.01 |
| `HierarchyRuns.DriftIsDistance` | include/ids_ssm.hpp:230-237 | the drift is the distance between the deepest level and that mean |
| `HierarchyRuns.DefaultChannels` | include/ids.hpp:1107-1124 | with the default parameters every channel is driven by its own entry of the input alone, with time step softplus(x/2) and a tenth of the input |
| `Hierarchy.RunsAreBounded` | include/ids_ssm.hpp:127-245 | over every run with the default layers all states and whole levels stay in the energy ball, as does the part of the baseline the drift is measured against; the whole baseline has at most twice that squared norm; the drift stays within the diameter, the history in [0,1] |
| `Hierarchy.DefaultDriftBound` | include/ids.hpp:1107-1124 | with the default limits the drift score never exceeds 2*max_energy = 200 |
| `Segments.SegmentSSM.Update` | include/ids_level1.hpp:23-56 | a flush happens exactly under the five conditions, and then summarizes exactly the samples since the previous flush; a step that throws leaves samples, times and count as they were |
| `SegmentRuns.SegmentsPartition` | include/ids_level1.hpp:23-56 | over every run the segments and the pending samples are together the samples, no segment is empty or longer than flush_n, and what is remembered is the last cut and the last type |
| `SegmentRuns.CutsExactly` | include/ids_level1.hpp:35-53 | a sample ends a segment if and only if one of the five conditions holds of the samples since the last cut |
| `Segments.Dominant` | include/ids_level1.hpp:100-103 | the dominant type is the smallest of the most frequent |
| `Segments.TrendInUnitRange` | include/ids_level1.hpp:93-108 | scores in [0,1] give a trend and an error frequency in [0,1], the latter at most twice the former |
| `Decisions.DecisionEngine.Execute` | include/ids_decision.hpp:106-170 | overrides, hysteresis, cooldown, learning mode, tracking and dispatch against the specification, with a callback that may throw; what the specification does in every case is in the rows of `Dispatches` |
| `Decisions.DecisionEngine.ApplyOverrides` | include/ids_decision.hpp:47-74 | the list loops and escalation tests decide as the specification, which is what the call asks for (`Dispatches.OverriddenIsAsked`) |
| `Decisions.LastIsRemembered` | include/ids_decision.hpp:158-159 | over every run the engine's two maps hold exactly the last completed dispatch of each source |
| `Decisions.AllowListedIsLeftAlone` | include/ids_decision.hpp:53-55 | an allow-listed source is never logged, alerted, blocked or escalated |
| `Decisions.BlockListedIsOnlyBlocked` | include/ids_decision.hpp:56-58 | outside learning mode a block-listed, not allow-listed source is only ever dispatched Block |
| `Decisions.BlocksAreSpaced` | include/ids_decision.hpp:189-206 | and any two of its dispatches are at least block_cooldown_s apart |
| `Decisions.OnlyWeakEscalateFollowsBlock` | include/ids_decision.hpp:173-206 | within hold time and cooldown of a Block the next dispatch can only be an Escalate scoring below the block threshold less the hysteresis |
| `Decisions.RepeatEscalationIsEarned` | include/ids_decision.hpp:9-44 | an escalation for repetition alone means at least repeat_escalate_n recorded decisions in the last repeat_window_s |
| `Dispatches.OrdinaryIsDispatched` | include/ids_decision.hpp:106-170 | a call that passes the guards, from a source on no list and rested, with no reason in drift or history and fewer than repeat_escalate_n recorded calls in the window, is dispatched as decided (an alert for Block and Escalate in learning mode) |
| `Dispatches.DriftIsEscalated` | include/ids_decision.hpp:60-73 | an alert or block under such circumstances is escalated if the drift is high |
| `Dispatches.OverriddenIsAsked` | include/ids_decision.hpp:47-74 | the overrides give Ignore on the allow list, else Block on the block list, else Escalate to an alert or block with a reason in drift, history or repetition, else the decision itself |
| `Dispatches.FirstIsDispatched` | include/ids_decision.hpp:106-170 | a source's first call that passes the guards is dispatched as what it asks for |
| `Dispatches.AfterBlock` | include/ids_decision.hpp:173-206 | after a Block: exactly which calls are silenced, which ask for Block again, and that all others are dispatched as what they ask for |
| `Dispatches.AfterAlert` | include/ids_decision.hpp:189-206 | after an Alert: within its cooldown only a permitted Block or Escalate gets through, later every call that passes the guards |
| `Dispatches.AfterOther` | include/ids_decision.hpp:173-206 | after any other dispatch every call that passes the guards is dispatched as what it asks for |
| `Dispatches.TrackerIsItsHistory` | include/ids_decision.hpp:9-44 | over every run the tracker knows a source exactly if a streak of it lasts, with the time it began and the number of its recorded calls modulo 2^32 |
| `Dispatches.RepeatsIsTracked` | include/ids_decision.hpp:21-31 | repetition is a reason to escalate if and only if the source's streak began within the window and has enough recorded calls |
| `Dispatches.LongStreakIsNotRepetition` | include/ids_decision.hpp:21-43 | a source whose streak began before the window is not escalated for repetition |
| `Dispatches.ListedMeansContained` | include/ids_decision.hpp:53-58 | a source is on a list if and only if some entry of the list occurs in it |
| `NearMiss.NearMissDetector.Check` | include/ids_types.hpp:697-714 | up to a threshold of 50 the answer is that of the full history; above 50 it is never yes |
| `NearMiss.RingCounts` | include/ids_types.hpp:709-713 | the ring's length and the number of recent near misses agree up to 50 |
| `RateLimit.RateLimiter.Check` | backend/app/ratelimit.py:18-28 | an attempt is accepted exactly if fewer than max_attempts of all attempts accepted since the last clear are in the window |
| `RateLimit.AllowedExactly` | backend/app/ratelimit.py:18-28 | fewer than max_attempts of the accepted attempts are younger than window_s; one exactly that old no longer counts |
| `RateLimit.NeverMoreThanMax` | backend/app/ratelimit.py:18-28 | no half-open window of length window_s holds more than max_attempts acceptances |
| `RateLimit.RateLimiter.WindowsAreBounded` | backend/app/ratelimit.py:18-32 | this holds of every key of a live limiter at any moment |
| `Correlation.RepeatSeesAll` | include/ids_correlation.hpp:137-139 | a threshold within max_records_per_ip is reached in the bounded queue exactly if it is in the whole history |
| `Correlation.MultiStageIsSound` | include/ids_correlation.hpp:241-261 | a hit means a strictly increasing choice of queued records spells a whole pattern with every gap within max_gap_s |
| `Correlation.ScanFindsLeftmost` | include/ids_correlation.hpp:241-261 | on records in order of time the scan completes a pattern if and only if there is a choice that spells it within the gaps and takes every stage at its first occurrence after the one before |
| `Correlation.StagesFoundExactly` | include/ids_correlation.hpp:241-261 | so the detector reports a hit if and only if one of the patterns has such a choice |
| `Correlation.ScanIsMaximal` | include/ids_correlation.hpp:241-261 | on records all within the gap of each other the scan gets at least as far as any spelling of a prefix of the pattern |
| `Correlation.CompleteWithinGap` | include/ids_correlation.hpp:241-261 | there the detector reports a hit if and only if some pattern is spelt out at all |
| `Correlation.MultiStageMisses` | include/ids_correlation.hpp:247-257 | outside those conditions the scan can miss such a choice |
| `Correlation.DetectRepeat` | include/ids_correlation.hpp:229-239 | the loop compares the number of records since the cutoff with the threshold |
| `Correlation.DetectDistributed` | include/ids_correlation.hpp:263-272 | the loop compares the number of different recent sources with the threshold |
| `Correlation.DetectMultiStage` | include/ids_correlation.hpp:241-261 | the nested loops find a pattern exactly if the greedy scan completes one |
| `CorrelationLaws.CountsPlaces` | include/ids_correlation.hpp:229-239 | the count that decides on repeats is the number of records from the cutoff on |
| `CorrelationLaws.SlowCountsPlaces` | include/ids_correlation.hpp:274-284 | the count that decides on slow attacks is the number of recent records scoring high enough |
| `CorrelationLaws.SlowSeesWhatIsKept` | include/ids_correlation.hpp:274-284 | the bounded queue never counts more than the history, and as many if it still holds everything recent |
| `CorrelationLaws.RecentSourcesAre` | include/ids_correlation.hpp:263-272 | which sources count for a distributed attack |
| `CorrelationLaws.ScoreAddsUp` | include/ids_correlation.hpp:149-181 | each detection adds its own weight to the score |
| `Correlation.CorrelationEngine.Correlate` | include/ids_correlation.hpp:125-193 | after one record its three queues have it and all others are unchanged; the four detections, the multi-stage one as the existence of a leftmost choice, score, upgrade and campaign |
| `Correlation.CorrelationEngine.Process` | include/ids_correlation.hpp:118-123 | an ignored decision changes nothing; any other is recorded in its queues, and its repeats are counted over the address's whole history |
| `Campaigns.CampaignsAreConserved` | include/ids_correlation.hpp:286-321 | every record keeps campaigns within the limit, ids exactly camp_0..camp_n-1, at most 2048 sources, and event counts summing to the records absorbed (below 2^32) |
| `Campaigns.UpdateCampaign` | include/ids_correlation.hpp:286-321 | one matching campaign absorbs the record, else a new one opens if score and limit allow, whatever the iteration order |
| `Campaigns.IdInjective` | include/ids_correlation.hpp:312 | different numbers give different campaign ids |
| `CorrelationLaws.RecordFindsCampaign` | include/ids_correlation.hpp:286-321 | a record is taken in if and only if a campaign of its source or class exists or it scores at least 0.4 and there is room; then some campaign was last seen now and has its source and host, and all others are as they were |
| `CorrelationLaws.AbsorbedRecord` | include/ids_correlation.hpp:296-309 | what a campaign becomes with one more record |
| `CorrelationLaws.DecimalReads` | include/ids_correlation.hpp:315 | the number in a campaign's id is its place, in decimal |
| `CircuitBreaker.CircuitBreaker.Call` | backend/app/circuit_breaker.py:48-86 | a call is refused exactly if the history has tripped, nothing passed since the last failure, and that failure is younger than recovery_timeout_s |
| `CircuitBreaker.CircuitBreaker.OnFailure` | backend/app/circuit_breaker.py:78-86 | one failure while half open reopens; the count is the trailing run of failures |
| `CircuitBreaker.ClosingNeedsSuccesses` | backend/app/circuit_breaker.py:68-76 | without a reset a tripped breaker closes only on half_open_max consecutive successes |
| `CircuitBreaker.TrippingNeedsFailures` | backend/app/circuit_breaker.py:78-86 | it trips exactly on the failure that completes failure_threshold in a row |
| `CircuitBreaker.FailureReopens` | backend/app/circuit_breaker.py:49-58 | after a failure while tripped, calls are refused exactly until the timeout has passed |
| `CircuitBreaker.OneStepFromTripped` | backend/app/circuit_breaker.py:68-86 | from tripped, a success closes exactly if it completes half_open_max in a row, a refused call or a failure never does, a reset always |
| `CircuitBreaker.FailuresSince` | backend/app/circuit_breaker.py:78-86 | the failures that count are those since the last success or reset, refused calls aside |
| `CircuitBreaker.PassesSince` | backend/app/circuit_breaker.py:68-76 | the successes that count are those since the last failure or reset, refused calls aside |
| `CircuitBreaker.TestCallsPass` | backend/app/circuit_breaker.py:48-58 | a closed breaker refuses nothing; a tripped one lets calls through once the timeout has passed and goes on while they succeed |
| `VectorStore.Insert` | include/ids_memory.hpp:18-25 | append, then expire, then drop a lowest-scoring quarter, each only while over the limit |
| `VectorStore.InsertKeeps` | include/ids_memory.hpp:18-25 | ids stay unique and below the next id, and the size stays within the larger of max_size and 3 |
| `VectorStore.InsertIsBounded` | include/ids_memory.hpp:103-122 | with max_size >= 3 the store never exceeds it after an insert |
| `StoreLaws.NothingIsLostBelowLimit` | include/ids_memory.hpp:18-25 | over every run of inserts within the limit a store holds all records in order under consecutive ids |
| `StoreLaws.SurvivorsExactly` | include/ids_memory.hpp:103-122 | what an insert keeps: all while there is room, exactly the unexpired if they fit, else three quarters of these |
| `StoreLaws.NewcomerStays` | include/ids_memory.hpp:103-122 | the new record survives its own insert unless it scores no more than all that stayed |
| `VectorStore.EvictedScoreLeast` | include/ids_memory.hpp:113-121 | a record evicted by score scores no more than any survivor |
| `VectorStore.OverflowsExactlyBelowThree` | include/ids_memory.hpp:113-121 | after any insert a store is above its limit if and only if that is below 3 and less than the number of unexpired records, the new one included |
| `VectorStore.Search` | include/ids_memory.hpp:27-63 | the result is the k best records young enough, by weighted similarity, anomaly and recency, in descending order, each position once, none better left out |
| `StoreLaws.ResultSize` | include/ids_memory.hpp:27-63 | a search returns as many records as asked for, or all young enough |
| `StoreLaws.DominanceRanks` | include/ids_memory.hpp:43-50 | with weights of at least 0 a record at least as similar, anomalous and recent as another ranks at least as high |
| `StoreLaws.RankParts` | include/ids_memory.hpp:43-50 | alone at weight 1 each part is the rank |
| `VectorStore.PartialSort` | include/ids_memory.hpp:53-54 | a permutation whose first n elements are in order and before all others |
| `KeyedStores.WriteKeeps` | include/ids_memory.hpp:204-221 | a write keeps every store of a scope holding only records whose key is the store's key |
| `StoreLaws.KeyedWrite` | include/ids_memory.hpp:204-221 | the first record under a key opens a store of 100000 records and one day with it; a later one goes behind those there |
| `StoreLaws.ScopesHoldTheirOwn` | include/ids_memory.hpp:204-221 | in each scope a store's records carry the store's key in that scope's field |
| `KeyedStores.MemoryStore.WriteRecord` | include/ids_memory.hpp:204-221 | which of the six stores receive a record, under which key, and that all others are unchanged |
| `KeyedStores.MemoryStore.StoreAnomaly` | include/ids_memory.hpp:300-311 | the global store and, for a named address, its store receive the record |
| `KeyedStores.MemoryStore.Cleanup` | include/ids_memory.hpp:315-324 | which stores a clean-up removes for each reason |
| `CsvLine.ParseCsvLine` | include/ids_ingest.hpp:58-74 | the loop computes the specified parse |
| `CsvLine.SplitsPlainLines` | include/ids_ingest.hpp:58-74 | a line without quotes is split at its commas |
| `CsvLine.InvertsQuoteFree` | include/ids_ingest.hpp:58-74 | parsing the quoted form of section 2 of RFC 4180 gives back the fields if and only if there is one and none contains a quote |
| `JsonString.EscapeJson` | include/ids_cloud.hpp:405-419 | the loop builds the escaped string |
| `JsonString.ReadsBack` | include/ids_cloud.hpp:405-419 | a reader of section 7 of RFC 8259's two-character escapes gets back exactly the string and whatever follows it |
| `JsonString.ReadsBackStrictly` | include/ids_cloud.hpp:405-419 | a reader that refuses raw control characters does so if and only if the string has none but newline, return and tab |
| `JsonString.EscapedIsPrefixFree` | include/ids_cloud.hpp:405-419 | texts starting with escaped strings are equal only if the strings and the rests are |

## Left out

- Streams and files: the codecs are about the byte buffer that is built and read, not about opening, writing or closing; `include/ids.hpp:654` opens its buffer for output only.
- Garbage in a model whose `load_model` failed half-way, the texts of error reasons, and the fault log.
- `ConfigHolder` built from an explicit configuration, which is not validated.
- `Sharded.KeyIsHandledInOrder`: `flush_pending` is not modelled; it puts a synthetic event into every shard without routing.
- Queue capacity 0 and sample rate 0 in the sharded pipeline, the pop's 5 ms timeout, the latency average, and a second `start`.
- `CentralRuntime.EventsArriveOnce`: one `start` of one manager process is assumed, since Python's string hash differs between processes; alerts, logs and broadcasts are outside the model.
- `ThreadPool`: the futures' values; a task that throws stores its exception and ends like any other.
- Float rounding throughout, and the exact values of `exp`, `log1p` and `sqrt`.
- `LocalStats.LocalAnalyzer.Process`: states the rolling statistics and the buffer only; the returned entropy, burst metric, embedding and score are not modelled, nor is `load_state`, which may change the window.
- `Adaptive.BaselineIsItsHistory`: says nothing of dimension 0, whose variance the code updates twice per event; `AdaptiveLaws.DimensionZero` says what that gives.
- `Ssm.SSM.Step`: projections are functions of row and column, so the flat array indexing is not captured; the L1 instance's own parameters are free.
- `Segments.SegmentSSM.Update`: whether the SSM step throws is a parameter; `restore_accum` is covered by the state file.
- `Campaigns.CampaignsAreConserved`: runs with `sweep`, after which ids may repeat, and the campaigns' user list.
- `Decisions`: several clock readings inside one call are one reading; `reconfig` and the alert's contents.
- `CircuitBreaker`: calls overlapping in time (the class has no lock) and exceptions outside Python's `Exception`.
- `VectorStore.Search`: the cosine of two embeddings and `exp` are parameters; stores are values, so locks, capacity reservation and aliasing are not captured, and a changed `max_size` is not modelled.
- Deduplication across stores in the retriever, the rule table, and the write policy's gate.
- The cloud client's upload queues, `PerIPAggregator` and `DatasetStats`.
- Panic mode, JSON memory persistence, latency percentiles, the neural layers, sockets, capture, the web routers and the user interface: no hard property, or the code does not do what its name says.
