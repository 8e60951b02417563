# Scheduler0 in Dafny

A model of the parts of Scheduler0 that keep state: how job executions are logged, retried and
rescheduled, how ranges of jobs are handed to nodes, how a new leader collects its peers' logs, how
the Raft state is rebuilt after a restart, and the small concurrent machinery underneath. Go
methods that change fields are Dafny methods of a class, proved against functions on values;
protocols are state machines over their steps; the theorems are about every run, every reachable
state or every input.

- `Batcher`: cutting lists into batches bounded by bound variables or by encoded size.
- `JobSchedule`: the catch-up loop that finds a job's next fire time.
- `ExecutionLog`: execution log tables, the inserts, the latest-row and failed-count queries.
- `Executor`: scheduling, success and failure callbacks, rescheduling, the in-memory cache.
- `Lifecycle`: whole runs of the executor against a per-job automaton; rebuilding the cache.
- `Processor`: recovery of jobs after a restart.
- `FireTimes`: when jobs fire: the times in cache, schedule and log over whole runs.
- `HttpExecutor`: grouping by url, attempts under the retry loop.
- `JobQueue`, `RangeScan`: sharing id ranges over nodes, and fetching a node's range.
- `PeerSelection`, `FanIn`, `FanInPeers`, `FanInElection`: choosing peers, the three-phase fetch of their logs, what
  becomes of a peer after each step, and what an election leaves of it.
- `Snapshot`, `Recovery`, `RecoveryRuns`: the snapshot format, applying entries, rebuilding state from snapshot
  and log, and whole runs of commits, restarts and recoveries.
- `LocalRows`, `RestartCounts`: how long a locally logged row lives, and what restarts do to the fail counts of jobs.
- `WorkerPool`, `AsyncTask`: the dispatcher with its workers, and task subscribers.
- `Collections`: facts about sequences and sets shared by these.

Conventions. Instants are integers (nanoseconds). A cron schedule is any function that moves time
forward; `Ticking` says so for every job. One clock reading serves one handler. Map iteration
order, random numbers, HTTP outcomes, repository outcomes and notification order are arbitrary
inputs. Each handler, or each peer of a fan-in task, is one atomic step. SQL statements are
their meaning on tables held as sequences or maps. The digest of an execution is the tuple it is
computed from.

Where the code does something other than its comments or names suggest, the code is modelled and
the exact condition is proved:

- A batch insert of more than 3640 jobs dates rows from the wrong job (`NextTimesRightIff`).
- After a success or failure `ScheduleJobs` caches one version and logs the next (`ScheduledVersionAgreesIff`).
- On a single node the rebuilt fail count is doubled (`RebuiltFromLog`, `RebuildAgreesIff`); with rows present
  `m` times it is `m` times over (`RebuiltFromCopies`).
- After a loss of the cache the next version is counted from the activation the log implies, not from the one that
  was scheduled; the fire time is the same exactly if the version's start is past (`LossKeepsFireTimeIff`).
- A node or queue version numbered zero takes a missing log row for one of its own (`UnseenIsHandedOn`).
- Every HTTP response counts as accepted, whatever its status (`OnlySilenceIsRetried`).
- A batch advances a job by one version for every pattern of replies only if the job enters it
  without counted failures (`OneVersionPerBatchIff`).
- The range scan misses the last id when whole batches end just before it (`FetchedCovers`). The lookup behind it
  also returns the row before the inserted ones, and all rows are folded to the least bounds: a call is fetched
  whole exactly if it made one share, no earlier row ends lower, and the scan does not stop short (`CallFetchedIff`).
- The payload limit holds exactly with room for five items (`PayloadLimitIff`).
- A tick asks each new peer twice (`FreshAskedTwice`). Completed peers outlive an election: the gate then opens
  exactly if every other peer has completed at any time (`OldCompletionsReopen`, `GateAfterElectionIff`). A response
  to a request that cannot be closed ends the task for all peers behind it (`AfterRequest`).
- Recovery ends the process exactly if a local row belongs to a job that the logged entries together, applied or
  not, no longer leave in place (`RecoverySucceedsIff`, `EveryRecoveryIsExact`; `LaggingRecoveryFails` is a run).
- A restart goes back to the last snapshot written (`RestartForgetsSince`), and a recovery on an empty log then finds
  its rows twice (`RecoveryAfterRestartDoubles`). After `n` restarts they are there 2^n times (`CyclesMultiply`),
  and a rebuilt fail count is that many times too high (`RestartsMultiplyFailCounts`).
- Without a snapshot a restart applies the log again to the tables it has made (`RestartWithoutSnapshot`,
  `ReapplyingShows`).
- A snapshot that opens but does not decode is used as an empty one (`UndecodableSnapshotForgets`, `ShortFileForgets`).
- The reader may take bytes past the end of a cut-off file (`TruncatedBody`, `EmptyFile`). These two speak of the
  reader alone: Raft's file snapshot store compares a checksum on opening, so that such a file normally counts as not
  opening and is passed over.
- The notification listener ends for good when a task's end overtakes another notification of the same task
  (`ListenerSurvivesIff`, `QuickTaskEndsListener`).

The assumptions on a database system can be met: `Recovery.CounterIsValid` and `RecoveryRuns.RowFilerWrites` give
systems that meet them.

## Model

| member | source | states |
|---|---|---|
| `Batcher.Batch` | pkg/utils/batcher.go:12-40 | the batches are the consecutive chunks of at most floor(32766 / columns) items, for every input including the empty one |
| `Batcher.ChunksPartition` | pkg/utils/batcher.go:12-40 | concatenating the chunks gives the input back; none is empty for a non-empty input, none exceeds the size |
| `Batcher.BatchRespectsLimit` | pkg/utils/batcher.go:12-40 | rows times columns stays within the variable limit exactly when a single row does |
| `Batcher.BatchesAreFull` | pkg/utils/batcher.go:12-40 | every batch but the last is as long as it can be: one row more would exceed the variable limit |
| `Batcher.BatchByBytes` | pkg/utils/batcher.go:42-82 | panics exactly on empty data or an item count of zero; otherwise returns the chunks of the count's magnitude |
| `Batcher.CutEvery` | pkg/utils/batcher.go:56-79 | the modulo-driven flush loop yields the same consecutive chunks for positive and negative counts |
| `Batcher.PayloadsWithinLimit` | pkg/utils/batcher.go:42-82 | when the first item is the longest and five such items fit, every encoded batch stays within the limit |
| `Batcher.PayloadLimitIff` | pkg/utils/batcher.go:42-82 | for equal items filling a batch, the limit holds if and only if five items fit |
| `JobSchedule.GetNextExecutionTime` | pkg/models/job.go:62-90 | the loop terminates and returns the first activation not before now, counted from the last execution, or from the creation of a job that never ran |
| `JobSchedule.NextTimeIsFirst` | pkg/models/job.go:62-90 | an activation is before now exactly if the loop skips it |
| `JobSchedule.NoActivationSkipped` | pkg/models/job.go:82-89 | no activation at or after now is earlier than the result |
| `JobSchedule.StepsMonotone` | pkg/models/job.go:82-89 | the result is monotone in now |
| `JobSchedule.RestartAgrees` | pkg/models/job.go:82-89 | restarting from any activation already passed gives the same result |
| `JobSchedule.CatchUpComposes` | pkg/models/job.go:82-89 | catching up at two moments equals catching up at the later one |
| `JobSchedule.NextTimeIsNext` | pkg/models/job.go:82-89 | the result is the next activation exactly when now lies in the gap before it |
| `JobSchedule.NextTimeMovesOn` | pkg/models/job.go:82-89 | the result is beyond the start exactly when the start has passed |
| `JobSchedule.FiresAlikeIff` | pkg/models/job.go:82-89 | counting on from the next activation or from an earlier result differs exactly while the start is not past |
| `ExecutionLog.Tables.BatchInsert` | pkg/repository/job_execution/job_executions.go:66-167 | appends one row per job in order, with the next time each row really gets |
| `ExecutionLog.NextTimesRightIff` | pkg/repository/job_execution/job_executions.go:93-118 | the stored next times are right for every list of a length if and only if it fits one batch |
| `ExecutionLog.Tables.LogInRaft` | pkg/repository/job_execution/job_executions.go:473-504 | appends one committed row per job with its caught-up next time |
| `ExecutionLog.Tables.GetLastExecutionLogForJobIds` | pkg/repository/job_execution/job_executions.go:169-296 | for exactly the ids that have rows, a row greatest by version and then state |
| `ExecutionLog.Tables.CountLastFailedExecutionLogs` | pkg/repository/job_execution/job_executions.go:298-331 | counts the failed rows of a job, node and version over both tables |
| `ExecutionLog.CountFailedOfNode` | pkg/repository/job_execution/job_executions.go:298-331 | only the node's own rows count: the failed ones of the job and version among them |
| `Executor.JobExecutor.ScheduleOne` | pkg/service/executor/executor.go:155-284 | the branch on the last log row decides schedule entry, execution id and cache entry |
| `Executor.JobExecutor.ScheduleJobs` | pkg/service/executor/executor.go:142-314 | plans every job from its latest row and logs one Scheduled row each at the version computed afterwards |
| `Executor.JobExecutor.AddJobSchedule` | pkg/service/executor/executor.go:326-337 | the job is scheduled at its caught-up time and no other entry changes |
| `Executor.JobExecutor.CreateInMemExecutionsForJobsIfNotExist` | pkg/service/executor/executor.go:466-497 | exactly the missing entries are rebuilt from the latest rows and the failed count |
| `Executor.JobExecutor.RescheduleJobs` | pkg/service/executor/executor.go:396-464 | retries stay, the others move to their next version and get one Scheduled row |
| `Executor.JobExecutor.HandleJobs` | pkg/service/executor/executor.go:561-617 | a callback rebuilds, logs the outcome at the cached version, and reschedules |
| `Lifecycle.EveryRunFollowsTheAutomaton` | pkg/service/executor/executor.go:396-464 | in every run each version has one Scheduled row, none lies above the current one, and earlier ones are closed by one success after at most RetryMax failures or by RetryMax + 1 failures; the cache agrees |
| `Lifecycle.CallbackPreserves` | pkg/service/executor/executor.go:561-617 | a callback on distinct jobs, with any cache entries missing, moves each job one step of the automaton and no other job |
| `Lifecycle.FirstPreserves` | pkg/service/executor/executor.go:155-184 | a first schedule starts each job at version 1 with no failures |
| `Lifecycle.LastRowOfTracked` | pkg/repository/job_execution/job_executions.go:169-296 | the greatest row is the current version's, failed exactly if a failure was counted |
| `Lifecycle.RebuiltFromCopies` | pkg/service/executor/executor.go:466-497 | if the tables hold a job's rows m times each, the rebuilt version is right and the fail count m times the failures, so that it agrees iff m is 1 or nothing failed |
| `Lifecycle.RebuiltFromLog` | pkg/service/executor/executor.go:466-497 | the rebuilt version is right, the fail count once over in a cluster and twice over on a single node |
| `Lifecycle.RebuildAgreesIff` | pkg/service/executor/executor.go:466-497 | after any run, dropping and rebuilding an entry gives the counters back if and only if in a cluster or without failures |
| `Lifecycle.CallbackReschedules` | pkg/service/executor/executor.go:404-447 | a retry keeps its schedule entry; a job that moves on fires at its cached time, later than the last execution exactly if that was due |
| `Lifecycle.RebuiltFiresAlikeIff` | pkg/service/executor/executor.go:466-497 | an entry rebuilt from the logged next time leads a later callback to the fire time the cached entry would iff the execution counted from is past by then |
| `FireTimes.FirstFires` | pkg/service/executor/executor.go:155-184 | a job without a log row is scheduled for the first activation since its creation that is not past; cache, schedule, log row and execution id agree on it |
| `FireTimes.EveryRunKeepsTime` | pkg/service/executor/executor.go:396-497 | in every run each version is counted from the execution of the one before, or after a loss of the cache from the activation the log implies; its cache entry, schedule entry, rows and execution id agree with that start and the time due |
| `FireTimes.ScheduledAtFirstDue` | pkg/service/executor/executor.go:404-447 | in every run a scheduled job fires at the first activation of its version that was not past when it was scheduled |
| `FireTimes.NextCountedFrom` | pkg/service/executor/executor.go:404-447 | when a version ends, the schedule entry, its execution id and all rows of the next version are counted from the execution that ended |
| `FireTimes.LossKeepsFireTimeIff` | pkg/service/executor/executor.go:466-497 | if the cache is lost before the callback that ends a version, the next start is the activation after the last execution in the log, and the fire time is that of the run without the loss iff the version's start is past |
| `FireTimes.LossHappens` | pkg/service/executor/executor.go:466-497 | for every cluster node and job there are such runs, with and without the loss |
| `Processor.RecoverRange` | pkg/service/processor/processor.go:131-192 | quick jobs are scheduled in place, the others go through ScheduleJobs, in the state the quick ones left |
| `Processor.RecoveredIsScheduledIff` | pkg/service/processor/processor.go:149-192 | after a restart a job of the range is scheduled iff it has no log row, or its last row is of this node or this queue version |
| `Processor.QuickIsScheduled` | pkg/service/processor/processor.go:178-187 | a waiting job of ours that is not overdue is on the schedule as its last row left it, for the first activation from there not past |
| `Processor.OthersAreSkipped` | pkg/service/processor/processor.go:158-161 | a job is left alone iff its last row is another node's, of another queue version |
| `Processor.OverdueIsHandedOn` | pkg/service/processor/processor.go:163-187 | an overdue job of ours, or one with an outcome, is handed to ScheduleJobs as its last row left it; any other is scheduled in place |
| `Processor.UnseenIsHandedOn` | pkg/service/processor/processor.go:149-187 | a job without a row is handed on as it is, and handled twice iff the node or the queue version is numbered zero |
| `Processor.QuickRecoveryExact` | pkg/service/processor/processor.go:149-187 | a waiting job is recovered quickly exactly before its next activation, with its execution id, and hits it exactly if the last one has passed |
| `Processor.ScheduleRestartExact` | pkg/service/executor/executor.go:190-215 | a restart reschedules a waiting job for the stored next time exactly if it falls between the two activations; id and version are then those of the row |
| `Processor.ScheduledVersionAgreesIff` | pkg/service/executor/executor.go:289-307 | cached and logged version agree if and only if the job never ran or still waits |
| `Processor.RestartKeepsIdIff` | pkg/service/executor/executor.go:193-202 | a waiting job keeps its execution id iff its new fire time is under half a minute past the stored one |
| `Processor.RestartAfterOutcome` | pkg/service/executor/executor.go:217-283 | after a success or failure the job fires at the first activation from the stored next time that is not past |
| `Processor.PlannedFromRow` | pkg/service/executor/executor.go:190-283 | a job with a last row is counted from its last execution if it waits and from its next one otherwise; fire time, version, counts and execution id follow |
| `HttpExecutor.GroupByUrl` | pkg/service/executor/executors/http_post.go:40-49 | each group is the sub-list of pending jobs with that url, in order |
| `HttpExecutor.PayloadsConserve` | pkg/service/executor/executors/http_post.go:39-98 | over grouping and cutting, each pending job reaches its own url as often as it is pending and no other |
| `HttpExecutor.GroupsInOrder` | pkg/service/executor/executors/http_post.go:39-98 | grouping two lists one after the other is grouping both, so that a group keeps the order of its jobs |
| `HttpExecutor.OnlySilenceIsRetried` | pkg/service/executor/executors/http_post.go:79-91 | attempts go on exactly while no response comes; a response of any status ends them |
| `HttpExecutor.Attempt` | pkg/service/executor/executors/http_post.go:56-98 | the reply selects the callback run on the whole batch, and whether the attempt failed |
| `HttpExecutor.RunBatch` | pkg/utils/controllers.go:78-94 | the retry loop makes the reference number of attempts, each one callback, and fails as the last did |
| `HttpExecutor.FailuresCarry` | pkg/service/executor/executor.go:404-447 | n failures count up fail count and version as digits in base RetryMax + 1 |
| `HttpExecutor.OneVersionPerBatchIff` | pkg/utils/controllers.go:78-94 | every pattern of replies advances a job by exactly one version if and only if it enters with fail count 0 |
| `HttpExecutor.BatchFollowsReplies` | pkg/service/executor/executors/http_post.go:56-98 | on the node's real cache and log the callbacks of a batch take each job where its replies say |
| `HttpExecutor.BatchAdvancesOnce` | pkg/service/executor/executors/http_post.go:56-98 | at most RetryMax + 1 attempts, each job one version on with one new Scheduled row, others untouched |
| `JobQueue.AssignJobRangeToServers` | pkg/service/queue/queue.go:175-215 | one lower/upper pair per used slot, at most one slot per server, being the tiles of the range |
| `JobQueue.SharesEven` | pkg/service/queue/queue.go:175-215 | with n workers every share but the last takes the n-th part of the distance and the last no more; two workers or more share any range of more than one id |
| `JobQueue.EnoughServers` | pkg/service/queue/queue.go:175-215 | n shares of floor(D / n) + 1 ids exceed D, so the loop never wraps to an occupied slot |
| `JobQueue.TilesPartition` | pkg/service/queue/queue.go:175-215 | the tiles follow each other from the lowest to the highest id |
| `JobQueue.PartitionCovers` | pkg/service/queue/queue.go:175-215 | every id of the range lies in exactly one part and no other id in any |
| `JobQueue.Queue.AddServers` | pkg/service/queue/queue.go:62-69 | the given servers' counters become zero, the others stay |
| `JobQueue.Queue.RemoveServers` | pkg/service/queue/queue.go:71-78 | exactly the given servers disappear |
| `JobQueue.Queue.GetNextServerToQueue` | pkg/service/queue/queue.go:157-173 | a least-loaded server other than the leader, whatever the map order |
| `JobQueue.Queue.QueueJobs` | pkg/service/queue/queue.go:80-155 | records the shares of this call's smallest to largest id, evenly cut over the workers, nothing without jobs or leadership, and leaves no bounds behind |
| `JobQueue.CallIsPartition` | pkg/service/queue/queue.go:121-155 | the logged ranges of a cluster-mode call are consecutive from its smallest to its largest id |
| `JobQueue.GreedyAccounts` | pkg/service/queue/queue.go:139-173 | counters plus number of logs equal the ids the logs stand for, and the leader's counter stays zero |
| `JobQueue.PartitionCounts` | pkg/service/queue/queue.go:175-215 | the logs of a range stand for exactly its ids, from lowest to highest |
| `JobQueue.CallsAccount` | pkg/service/queue/queue.go:121-155 | over any calls since a reset, counters plus logs add up to the ids from smallest to largest of every call |
| `JobQueue.GreedyIsFair` | pkg/service/queue/queue.go:139-173 | any two workers' counters differ by at most the widest range handed out |
| `JobQueue.CallsAreFair` | pkg/service/queue/queue.go:121-173 | over any calls since a reset, two workers' counters differ by at most the widest n-th part of a call |
| `JobQueue.GreedyAvoidsLeader` | pkg/service/queue/queue.go:157-173 | with a worker present no range goes to the leader |
| `RangeScan.FetchRanges` | pkg/service/executor/executor.go:106-139 | the loop terminates with the scanned ranges of the pair of bounds |
| `RangeScan.FetchedCovers` | pkg/service/executor/executor.go:106-139 | the fetches are consecutive and short enough, and reach an id if and only if it is in the range and not the last id missed |
| `RangeScan.FoldBounds` | pkg/service/executor/executor.go:88-104 | several rows are folded to the least lower and the least upper bound |
| `RangeScan.LookedAfterInsert` | pkg/repository/job_queue/job_queues.go:172-220 | the lookup after an insert returns the inserted rows and the one before them |
| `RangeScan.FoldedBoundsIff` | pkg/service/executor/executor.go:88-104 | the folded bounds are the call's at the lower end iff no earlier row starts lower, at the upper end iff it made one share and no earlier row ends lower |
| `RangeScan.CallFetchedIff` | pkg/service/executor/executor.go:88-140 | all ids of a call are fetched iff its last id is reached and the scan does not stop short of it |
| `RangeScan.EarlierRowHidesTheCall` | pkg/repository/job_queue/job_queues.go:188-188 | the failing input: one share 100..200 after a row 1..50 is fetched as 1..50 |
| `PeerSelection.GetNodeServerAddressWithRaftAddress` | pkg/utils/misc.go:162-173 | the address of the first replica with that Raft address, or the empty one |
| `PeerSelection.AddressIsFirst` | pkg/utils/misc.go:162-173 | the address found is that of the first replica with the Raft address |
| `PeerSelection.Shuffle` | pkg/service/node/node.go:497-508 | the in-place exchange loop computes the reference shuffle for every sequence of random numbers |
| `PeerSelection.ShufflePermutes` | pkg/service/node/node.go:497-508 | the shuffle is a permutation |
| `PeerSelection.NoPeerStays` | pkg/service/node/node.go:501-507 | whatever is drawn, no peer ends where it started |
| `PeerSelection.GetRandomFanInPeerHTTPAddresses` | pkg/service/node/node.go:478-520 | exactly the smaller of limit and candidates, distinct, none excluded, never the node itself |
| `FanIn.Node.SelectRandomPeersToFanIn` | pkg/service/node/node.go:569-589 | a fresh fan-in is stored and returned for each selected address |
| `FanIn.SelectionOverwritesNothing` | pkg/service/node/node.go:569-589 | fan-ins under way stay as they are |
| `FanIn.Node.FanInLocalDataFromPeers` | pkg/service/node/node.go:603-651 | one tick hands each phase the copies in its state, in the order the map is walked |
| `FanIn.FreshAskedTwice` | pkg/service/node/node.go:610-640 | a newly selected peer appears exactly twice in the first phase |
| `FanInPeers.EveryPeerHandedOn` | pkg/service/node/node.go:610-640 | a tick hands every peer in the map to the phase that its state calls for |
| `FanInPeers.AfterRequest` | pkg/service/node/node_http_client.go:36-71 | a granted request moves its peer on with the id it got; any other outcome makes the peer a candidate again; no other peer is touched |
| `FanInPeers.AfterCollect` | pkg/service/node/node_http_client.go:73-127 | a fetch that returns logs moves its peer on with them, one never sent changes nothing, any other outcome makes the peer a candidate again |
| `FanInPeers.AfterCommit` | pkg/service/node/node.go:659-676 | a committed peer is a candidate again, and its completion is on its way |
| `FanInPeers.AfterComplete` | pkg/service/node/node.go:433-445 | a completion is taken once and marks its peer with what it returned |
| `FanInPeers.TickSelectsAll` | pkg/service/node/node.go:569-589 | a tick with room for all candidates selects every one of them |
| `FanIn.Node.FetchUncommittedLogsFromPeersPhase1` | pkg/service/node/node_http_client.go:36-71 | each outcome stores the request id or deletes the entry; a close error abandons the rest |
| `FanIn.Node.FetchUncommittedLogsFromPeersPhase2` | pkg/service/node/node_http_client.go:73-127 | each outcome stores the logs, deletes the entry, or leaves it when no request was made |
| `FanIn.Node.CommitFetchedUnCommittedLogs` | pkg/service/node/node.go:659-676 | every copy with logs is inserted, every entry deleted, every copy sent on, in order |
| `FanIn.Node.HandleCompletedPeerFanIn` | pkg/service/node/node.go:433-445 | the peer is marked and writes open when the count is the replicas but one |
| `FanIn.Node.HandleRaftLeadershipChanges` | pkg/service/node/node.go:338-387 | writes stop; a single-node leader opens them at once |
| `FanIn.RequestsUninterrupted` | pkg/service/node/node_http_client.go:36-71 | the protocol's request steps, run without interruption, are the method's loop |
| `FanIn.CollectsUninterrupted` | pkg/service/node/node_http_client.go:73-127 | the same for the second phase |
| `FanIn.CommitsUninterrupted` | pkg/service/node/node.go:659-676 | the same for the third phase, with what is inserted and sent |
| `FanIn.EveryStateKeeps` | pkg/service/node/node.go:591-676 | the invariant over fan-ins, in-flight copies, finished and completed peers, histories and gate holds in every state of every run |
| `FanIn.IdsComeFromTheirPeer` | pkg/service/node/node_http_client.go:73-127 | in every run a peer is only asked for ids it issued, and only logs it returned for such an id are inserted |
| `FanIn.CompletedWereHanded` | pkg/service/node/node.go:659-676 | a completed peer returned the logs kept for it, and they were handed to the insert unless empty |
| `FanIn.WritesNeedEveryPeer` | pkg/service/node/node.go:433-445 | in a cluster writes are open only while every other replica has completed |
| `FanIn.AllOthersIff` | pkg/service/node/node.go:433-445 | the count test holds if and only if all other replicas have completed |
| `FanInElection.OldCompletionsReopen` | pkg/service/node/node.go:433-445 | after a re-election a completion opens writes iff every other peer has completed before or since |
| `FanInElection.CompletedAccumulates` | pkg/service/node/node.go:433-445 | in every run the completed peers of a state are those of any earlier state and those completed between |
| `FanInElection.GateAfterElectionIff` | pkg/service/node/node.go:338-445 | when writes open in the leadership begun by an election, all other replicas have completed since it iff none had completed only before |
| `FanInElection.GateReopensEarly` | pkg/service/node/node.go:338-445 | a concrete run: elected, both peers completed, leadership lost and won back, and writes reopen with one of two peers completed since |
| `Snapshot.DecodeEncode` | pkg/utils/misc.go:57-67 | decoding undoes little-endian encoding for every number that fits |
| `Snapshot.EncodeDecode` | pkg/utils/misc.go:57-67 | encoding undoes decoding for every byte string |
| `Snapshot.LowBytesFirst` | pkg/utils/misc.go:57-67 | the low bytes come first: what follows n bytes counts 256^n |
| `Snapshot.Persist` | pkg/fsm/fsm_snapshot.go:23-82 | succeeds exactly if no sink operation fails, with marker, length and body written and the sink closed; else cancels |
| `Snapshot.BytesFromSnapshot` | pkg/utils/misc.go:102-160 | with 64-bit wrap-around and slicing up to the capacity, the result is the declared reading of the file |
| `Snapshot.PersistRoundTrip` | pkg/fsm/fsm_snapshot.go:23-82 | reading back what was persisted returns the image, whatever the spare capacity holds |
| `Snapshot.PlainRoundTrip` | pkg/utils/misc.go:132-159 | the older uncompressed form is read back too |
| `Snapshot.TruncatedPlain` | pkg/utils/misc.go:132-159 | a cut-off file of the older form is an error, however much is missing |
| `Snapshot.FormsAreDisjoint` | pkg/utils/misc.go:114-130 | the two forms never begin alike |
| `Snapshot.TruncatedBody` | pkg/utils/misc.go:134-149 | a cut-off body is noticed exactly if the gap exceeds the spare capacity |
| `Snapshot.EmptyFile` | pkg/utils/misc.go:102-159 | an empty file over cleared memory reads as no database |
| `Recovery.DataStore.Execute` | pkg/fsm/fsm_actions.go:150-231 | a refused command changes nothing; a done one replaces the tables and cascades to local rows |
| `Recovery.CascadeKeeps` | pkg/db/db.go:251-253 | a cascade keeps exactly the rows of the jobs that are left, under their ids and in their order |
| `Recovery.Store.ApplyRaftLog` | pkg/fsm/fsm_actions.go:101-148 | configuration and undecodable entries change nothing; a message is sent exactly for a successful command with a known action and an open channel |
| `Recovery.Store.ApplyBatch` | pkg/fsm/fsm_store.go:127-144 | database, answers and messages are those of applying the entries one after the other |
| `Recovery.ApplyInBatches` | pkg/fsm/fsm_store.go:115-144 | however a list of entries is cut into batches, the outcome is the same |
| `Recovery.AppliedIsFold` | pkg/fsm/fsm_store.go:115-144 | applying a list of entries leaves the fold of what they hold |
| `Recovery.EveryEntryAnswered` | pkg/fsm/fsm_actions.go:101-231 | every entry is answered as the tables before it say: nothing for a configuration, the numbers of the result for a command done, a failure otherwise |
| `Recovery.MessagesMatchAnswers` | pkg/fsm/fsm_actions.go:121-145 | the messages sent are those of the entries answered with success whose action asks for one, with targets and numbers, in order |
| `Recovery.UnansweredChangesNothing` | pkg/fsm/fsm_actions.go:101-231 | an entry not answered with success leaves no trace in database or messages, then or later |
| `Recovery.DataStore.GetExecutionLogs` | pkg/shared_repo/shared_repo.go:36-171 | returns every row of the table once, in the order of ids |
| `Recovery.DataStore.InsertExecutionLogs` | pkg/shared_repo/shared_repo.go:177-255 | succeeds exactly if every row's job exists, and then appends all rows |
| `Recovery.InsertAppends` | pkg/shared_repo/shared_repo.go:177-255 | inserted rows follow the existing ones and overwrite none |
| `Recovery.Store.Restore` | pkg/fsm/fsm_store.go:152-186 | the main database becomes the image of a decoded snapshot and otherwise stays |
| `Recovery.Store.ChooseSnapshot` | pkg/fsm/fsm_store.go:252-279 | the first snapshot that opens is used, decoded or not |
| `Recovery.Store.ReplayLog` | pkg/fsm/fsm_store.go:318-341 | entries past the snapshot are applied in order without messages; a missing one ends the process |
| `Recovery.Store.RecoverRaftState` | pkg/fsm/fsm_store.go:237-383 | on success one new snapshot of the rebuilt state and an empty log, on failure nothing changed, and no message ever |
| `Recovery.ReplayFrom` | pkg/fsm/fsm_store.go:318-341 | from any tables, replay fails iff the log starts too late and otherwise ends in the fold of the later entries |
| `Recovery.ReplayIsFold` | pkg/fsm/fsm_store.go:318-341 | from a sound state replay reaches the fold of the history |
| `Recovery.ReplayKeepsRows` | pkg/fsm/fsm_store.go:318-341 | replay keeps exactly the snapshot's rows whose jobs survive every replayed entry, in order |
| `Recovery.ReplayTerm` | pkg/fsm/fsm_store.go:318-341 | replay ends at the term of the last entry in the log, or of the snapshot |
| `Recovery.RecoveryIsFold` | pkg/fsm/fsm_store.go:237-383 | from a sound snapshot recovery succeeds iff the log reaches back to it and every local row's job is still there; then the tables are the fold, and the rows those of the snapshot whose jobs survive followed by the local ones |
| `Recovery.NewSnapOk` | pkg/fsm/fsm_store.go:359-369 | the new snapshot's bytes read back as the state it was written from |
| `Recovery.UndecodableSnapshotForgets` | pkg/fsm/fsm_store.go:261-275 | for every system, a first opening snapshot that does not decode leaves the fold of the entries past its index alone, and the empty tables if the log is empty |
| `Recovery.ForgettingShows` | pkg/fsm/fsm_store.go:261-275 | where every command counts, that result is wrong iff the snapshot's index is positive |
| `Recovery.ShortFileForgets` | pkg/fsm/fsm_store.go:261-275 | a failing input: a file that ends behind its length loses the one applied command without an error |
| `RecoveryRuns.RecoverySucceedsIff` | pkg/fsm/fsm_store.go:237-383 | under the invariant recovery succeeds iff no local row's job is deleted by the whole history, and then rebuilds the whole fold, the surviving rows of the newest snapshot and the local rows |
| `RecoveryRuns.CaughtUpRecovers` | pkg/fsm/fsm_store.go:237-383 | a node that has applied all it logged, to a database not restarted without a snapshot, recovers |
| `RecoveryRuns.EveryRecoveryIsExact` | pkg/fsm/fsm_store.go:237-383 | after any run of appends, applications, local rows, snapshots, compactions, restarts and recoveries, every snapshot decodes to its prefix's fold, and recovery yields the whole fold, with exactly the surviving rows, iff no local row's job is gone |
| `RecoveryRuns.LaggingRecoveryFails` | pkg/fsm/fsm_store.go:343-348 | the failing run: a job created, applied and logged for, its deletion in the log only, a restart before the first snapshot, and recovery ends the process |
| `LocalRows.LoggedRowSurvivesIff` | pkg/fsm/fsm_actions.go:150-231 | in every run a logged row is there at a later step before the next restart iff no entry applied in between left tables without its job, and no other row takes its id |
| `LocalRows.RowStaysIff` | pkg/fsm/fsm_actions.go:150-231 | the same for any row of any state of a run |
| `RecoveryRuns.RestartForgetsSince` | pkg/fsm/fsm_store.go:152-186 | in every run a restart puts the main database back to what the last snapshot or recovery wrote, whatever was appended, applied, logged, compacted or deleted since |
| `RecoveryRuns.RecoveryAfterRestartDoubles` | pkg/fsm/fsm_store.go:343-348 | with an empty log, a recovery after a restart finds every remaining local row twice |
| `RecoveryRuns.CyclesMultiply` | pkg/fsm/fsm_store.go:237-383 | restarting and recovering n times on an empty log doubles the list of local rows n times, so that each is there 2^n times |
| `RecoveryRuns.RowIsDoubled` | pkg/fsm/fsm_store.go:237-383 | for every system that can write the two databases, the run of a row, a snapshot, a restart, a recovery and a restart ends with the row twice |
| `RecoveryRuns.RestartWithoutSnapshot` | pkg/fsm/fsm_store.go:196-228 | for every system, after a restart without a snapshot the first n entries are applied to the fold of all entries applied before |
| `RecoveryRuns.ReapplyingShows` | pkg/fsm/fsm_store.go:196-228 | where every command counts, that is the fold of the first n entries iff none had been applied |
| `RecoveryRuns.MessagesOfApplied` | pkg/fsm/fsm_actions.go:101-148 | in every run, from any state whose database is not one restarted without a snapshot and until the next restart, the messages sent are those of the entries applied meanwhile, in order and each once; recoveries send none |
| `RecoveryRuns.EntryIsRecovered` | pkg/fsm/fsm_store.go:237-383 | for every system that can write the result, an entry only logged is in the main database after a recovery and a restart |
| `RestartCounts.RestartsMultiplyFailCounts` | pkg/service/executor/executor.go:466-497 | after n restarts with recovery the rebuilt version is right and the fail count 2^n times the failures, once more on a single node; it agrees iff nothing failed, or in a cluster before any restart |
| `WorkerPool.EveryRunKeeps` | pkg/utils/dispatcher.go:25-77 | in every interleaving each item is in exactly one place, each worker in one state, each idle worker's channel in the pool or claimed once |
| `WorkerPool.OldestIsTaken` | pkg/utils/dispatcher.go:34-46 | in every run the dispatcher takes the item that was submitted first of those queued |
| `WorkerPool.NothingBlocks` | pkg/utils/worker.go:24-36 | at most maxWorkers items run, the pool never overfills, registering and delivering never block |
| `WorkerPool.RunsAreFinite` | pkg/utils/dispatcher.go:34-46 | without new submissions every run is bounded by the work left |
| `WorkerPool.StuckIff` | pkg/utils/dispatcher.go:34-46 | no step is possible if and only if all work is done and every worker waits, or there are no workers |
| `AsyncTask.AsyncTaskService.AddTasks` | pkg/service/async_task/async_task.go:65-104 | an inserted task is stored under its id and found by its request id |
| `AsyncTask.AsyncTaskService.UpdateTasksById` | pkg/service/async_task/async_task.go:106-139 | the stored state changes; it is announced only if the repository took it |
| `AsyncTask.AsyncTaskService.UpdateTasksByRequestId` | pkg/service/async_task/async_task.go:141-181 | the same by request id, with the output |
| `AsyncTask.AsyncTaskService.AddSubscriber` | pkg/service/async_task/async_task.go:183-208 | a known task's subscriber gets the number after the last one given, and is kept under it |
| `AsyncTask.AsyncTaskService.DeleteSubscriber` | pkg/service/async_task/async_task.go:270-284 | exactly that subscriber is removed |
| `AsyncTask.AsyncTaskService.GetTaskBlocking` | pkg/service/async_task/async_task.go:210-237 | a filled channel for a success, none for a failure, a subscription otherwise |
| `AsyncTask.AsyncTaskService.Notified` | pkg/service/async_task/async_task.go:306-326 | one turn tells each current subscriber once, and ends the loop where the notified task no longer exists |
| `AsyncTask.NumbersIncrease` | pkg/service/async_task/async_task.go:183-208 | in every run a task's subscriber numbers strictly increase and are never reused |
| `AsyncTask.ToldAtMostOnce` | pkg/service/async_task/async_task.go:302-332 | no subscriber is ever told twice |
| `AsyncTask.NeverToldAfterRemoval` | pkg/service/async_task/async_task.go:270-284 | a removed subscriber is not told from then on |
| `AsyncTask.EverySubscriberAccounted` | pkg/service/async_task/async_task.go:183-332 | in every run each subscriber ever added was removed, was told, or is still to be told |
| `AsyncTask.FirstNotificationTells` | pkg/service/async_task/async_task.go:302-332 | the first notification of a task after a subscription tells that subscriber exactly once, unless it was removed in between, and then not |
| `AsyncTask.TaskShowsLastWrite` | pkg/service/async_task/async_task.go:65-181 | as long as a task is kept, it is what the last event that wrote it made of it |
| `AsyncTask.NotificationsConserved` | pkg/service/async_task/async_task.go:106-332 | in every run each stored update is announced once, and each announcement is delivered once or still on its way |
| `AsyncTask.SendNeverBlocks` | pkg/service/async_task/async_task.go:216-229 | whoever is told was never told before, so the one-message channel has room |
| `AsyncTask.QuickTaskEndsListener` | pkg/service/async_task/async_task.go:302-332 | a concrete run: a task started and ended before the listener's first turn ends the listener if its end is delivered first |
| `AsyncTask.ListenerSurvivesIff` | pkg/service/async_task/async_task.go:302-332 | the listener survives every delivery order if and only if no task's end is pending together with another notification of it |
| `AsyncTask.AwaitedRunsKeepListening` | pkg/service/async_task/async_task.go:302-332 | if a task is never updated while one of its notifications is pending, the listener never ends |

## Left out

- HTTP handlers, middlewares, the command line, configuration and secrets: wiring without state of its own.
- Raft itself, boltdb, gzip, protobuf and JSON: abstract functions; gzip is any pair where expanding undoes compressing.
- SQL text: statements are their effect on tables; a command is any function on the replicated tables.
- Project, credential and job repositories: simple record keeping.
- Time zones and the cron grammar: one function per job id; schedules without a next activation are not modelled, and a job whose spec does not parse is not either.
- Collecting due jobs on a ticker and the debounced flush before execution: no liveness is claimed for them.
- Data races: handlers are atomic steps, and one clock reading serves a handler.
- Batcher.BatchByBytes: the item count is the exact quotient; float64 rounding of it is not modelled.
- JobQueue.Queue.QueueJobs: ids above 2^53 are not modelled, since bounds pass through float64 in the source and are taken as exact.
- RangeScan.FoldBounds: the same bound on ids.
- Lifecycle.EveryRunFollowsTheAutomaton: runs begin with a first schedule of each job, because `ScheduleJobs` on a finished job caches another version than it logs (`ScheduledVersionAgreesIff`); a single node does not drop its cache in them, because rebuilding doubles the count (`RebuildAgreesIff`).
- FireTimes.EveryRunKeepsTime: the runs of `EveryRunFollowsTheAutomaton`, with inserts that fit one batch, since a longer one dates rows from other jobs (`NextTimesRightIff`), with jobs created on a real date, and with callbacks for jobs as they were scheduled.
- RecoveryRuns.EveryRecoveryIsExact: snapshot files are not damaged in these runs, for which see `RecoveryIsFold` and `UndecodableSnapshotForgets`; no snapshot is taken of a database that a restart without any snapshot left with entries to apply again, for which see `RestartWithoutSnapshot`; what is written can be written, since no file holds more than 2^64 bytes; and Raft does not replace log entries that were never committed.
- Recovery.Store.Restore: after an image of length zero the source opens a database without tables, the model one with empty tables.
- ExecutionLog.Tables.BatchInsert: a failed transaction, which drops its batch and the remaining ones with a log line, is not modelled.
- ExecutionLog.Tables.LogInRaft: a failed Raft write, which the source ignores, is taken as applied.
- FanIn.Node.HandleRaftLeadershipChanges: resetting the queue's servers, stopping the workers' jobs and inserting the leader's own uncommitted logs are not part of it.
- PeerSelection.GetRandomFanInPeerHTTPAddresses: cluster members have distinct addresses.
- Errors of opening, closing or deleting local files during recovery: the process ends there in the source.
- Async-task rows in fan-in and recovery: the node never wires their repository, and reading them for recovery returns nothing.
- Raft servers missing from the configured replicas: leadership handling ends the process for them, so a tick sees listed servers only.
- Queue inserts of more than 6553 rows, which are split into several commands, each looked up on its own.
- Whether the Raft insert of fetched logs succeeds.
- Cancellation of the dispatcher, and effectors that never return or send on a channel nobody reads.
- The clean-up of uncommitted logs after a commit, which has an empty body in the source.
