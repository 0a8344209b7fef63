# A verified model of kperf

kperf generates load against a Kubernetes apiserver: runners schedule weighted random requests, record
metrics, upload their results to a server, and the server publishes one summary over all runners. This project
models the parts of it whose correctness is not visible in any single function, and proves them for every
input, every interleaving and every reachable state.

`dafny verify dfyconfig.toml` checks the whole project.

Concurrent code is modelled as a state machine: one label per atomic step of one goroutine, process or
machine, `Enabled` and `Apply` for its guard and effect, `Runs` for a sequence of steps. Failures, crashes and
lost messages are labels like any other. In-place code is modelled by classes, arrays and loops proved
against functions, about which the properties are then proved.

| file | what it models |
|---|---|
| `Scheduler.dfy` | `Schedule`, `Run` and `Stop`: workers, unbuffered channel, limiter, context, metrics, POST/DELETE names |
| `Cache.dfy` | the shared FIFO of object names |
| `RandomChoice.dfy` | weighted choice of a request, random payloads |
| `MetricKeys.dfy` | decimal printing, object names, masked URLs, the number of metric keys |
| `Percentiles.dfy`, `ErrorStats.dfy`, `Observations.dfy` | percentile tables, error statistics, and what any report has to say about raw observations |
| `Aggregation.dfy`, `GroupSummary.dfy` | the metric object, the aggregate and reports of a runner, the summary of all groups |
| `LocalStore.dfy`, `Upload.dfy` | the result store, and the upload protocol between runner script and server |
| `JobWatch.dfy` | waiting for a job by get, watch, retry and reset: what it returns, what it asks for, and what it can miss of an append-only history |
| `Readiness.dfy`, `ReadinessProgress.dfy` | from finished jobs to the published summary, the end-to-end theorem, and when it can be reached |
| `HelmValues.dfy`, `HelmHeap.dfy` | deep merge of Helm values, on trees and on maps that may be shared |
| `CiliumLoader.dfy` | the Cilium loader: generator, bounded channel, retrying workers, error group |
| `NodePools.dfy` | creating, deleting and listing node pools over Helm releases |
| `Sums.dfy`, `Ints.dfy`, `Strings.dfy`, `Options.dfy` | sums over process states, fixed-width integers and rounding, text before a slash, an option type |

Where the code does not do what one would expect, the model does what the code does. Each such place has a
run that shows it and the exact condition under which it does not happen:

| what happens | shown by | exactly unless |
|---|---|---|
| a DELETE that fails at the limiter loses its name for good | `NameIsLost`, `LimiterFailureLosesName` | `LosesNamesExactly` |
| a POST answered with HTTP/2 NO_ERROR is a success in the metrics and a failure for the name cache | `CacheAndMetricsDisagree` | `AgreeExactly`, `AlwaysAgreeExactly` |
| `Result.Total` is the requested total, not the number of recorded requests | `InterruptedAtOnce` | `TotalIsRecordedExactly` |
| after an expired watch the job is replayed as Added, whose status is not looked at, and its completion is missed | `LostCompletion`, `NeverReturns` | `ResetExact` |
| all jobs are finished and the summary cannot become ready | `FinishedButStuck` | `PublishExactly`, `PublishWhenFinished` |
| a job with a re-created pod counts as finished while a runner is at work | `RecreatedPodIsMissed` | `TerminatedExactly` |
| when the name of a live temporary file is reused, a commit publishes another writer's file | `NameReuseBreaksCommit` | `LinearizesExactly` |
| merging values is not associative | `NotAssociative` | `AssociativeExactly` |
| merging without copies lets a later applier write into the maps of an earlier one | `CapturedMapChanges`, `LaterApplierWritesEarlier` | `HarmlessMeans` |
| an applier that shares a map with the client's values can change them | `ClientValuesChange`, `InitValuesWritesClient` | `StagesOnHeap` |
| nodes are left without their controller | `GetErrorOrphansNodes`, `OverlapOrphansNodes` | `SafeExactly` |
| a live pool is not listed | `LifecyclePoolIsHidden` | `ListingIsExact` |
| a live pool is replaced when another one is created | `LifecyclePoolIsReplaced` | `KeptByOthersExactly` |
| a choice with a zero sum of shares, which validation allows, panics | `RandomPick` | `RandomPick` |

The limiter can also fail before the deadline, when the next token would come after it. So a dropped request
means that the context is dead or that a worker is about to cancel it (`Conservation`).

## Model

| member | source | states |
|---|---|---|
| `Scheduler.Conservation` | request/schedule.go:58-138 | in every reachable state, requests sent = latencies + failures + in progress + dropped at the limiter; drops are at most the clients and only with a deadline or a cancellable caller |
| `Scheduler.FinalAccount` | request/schedule.go:135-146 | when Schedule returns nothing is in progress: every request sent is recorded or dropped, and without deadline and cancellation the recorded ones are the total |
| `Scheduler.TotalIsRecordedExactly` | request/schedule.go:141-146 | Result.Total is the number of recorded requests in every run iff there is neither deadline nor cancelling caller |
| `Scheduler.InterruptedAtOnce` | request/schedule.go:129-138 | a complete run that is interrupted before its first request and records nothing |
| `Scheduler.DeadlockFree` | request/schedule.go:62-73 | every reachable state that is not final has an enabled step other than a cancellation |
| `Scheduler.NoSendAfterClose` | request/random.go:136-142 | no continuation of a state with a closed channel contains a send |
| `Scheduler.NothingAdmittedAfterDone` | request/schedule.go:65-73 | once the context is dead, only requests that the limiter had let in before are executed |
| `Scheduler.DroppedWhileLive` | request/schedule.go:66-72 | with a deadline, a reachable state in which the limiter has failed while the context is live |
| `Scheduler.BoundedRunTerminates` | request/random.go:87-106 | a run with a total has at most Measure more steps from any reachable state |
| `Scheduler.DrainsAfterDone` | request/schedule.go:65-73 | once the context is dead, at most nine steps per client and two more, with or without a total |
| `Scheduler.CanFinish` | request/schedule.go:127-138 | with a total, a deadline or a cancelling caller, some run leads from every reachable state to the return of Schedule |
| `Scheduler.NeverFinishes` | request/random.go:92-105 | with none of the three, no reachable state is final |
| `Scheduler.NameOwnership` | request/random.go:459-552 | every name has at most one POST fate and at most one place among cached, under DELETE, lost, deleted; never two DELETEs of one name in flight |
| `Scheduler.CacheSize` | request/random.go:533-552 | cache size = created - deleted - under DELETE - lost at the limiter |
| `Scheduler.DeletesInOrder` | request/random.go:474-487 | over every run and interleaving, DELETEs are built for names in the order in which they entered the cache, and the rest is cached in that order |
| `Scheduler.DeleteDraws` | request/random.go:470-474 | with names cached, the draws that delete are exactly those below 1000 times the ratio; otherwise the next new name is posted |
| `Scheduler.DeleteShare` | request/random.go:470-474 | of the thousand draws, 1000 times the ratio, rounded up, delete |
| `Scheduler.RatioExtremes` | request/random.go:470-474 | with names cached, a ratio of one always deletes and a ratio of zero never does, whatever is drawn |
| `Scheduler.PickableExactly` | request/random.go:113-133 | an entry can be received iff some draw of the weighted choice selects it |
| `Scheduler.FatesAreAnswers` | request/random.go:533-552 | over every run, how often a name counts as created, failed, deleted or lost is how often its requests were answered so, or not sent |
| `Scheduler.MetricsAreAnswers` | request/schedule.go:74-111 | over every run, latencies and failures, recorded or about to be, are the numbers of requests that returned so; NO_ERROR counts as a latency |
| `Scheduler.AnyAnswer` | request/schedule.go:98-111 | a run for every outcome of a POST, and what metrics and cache then say |
| `Scheduler.RetiredForever` | request/random.go:533-552 | a deleted or lost name is never cached or under DELETE again, in any continuation |
| `Scheduler.LimiterFailureLosesName` | request/schedule.go:66-72 | the name popped for a DELETE whose limiter wait fails stays created, undeleted and out of the cache in every continuation |
| `Scheduler.NameIsLost` | request/schedule.go:66-72 | for every interruptible deployment with more than one request, and each of its entries with a positive share that can create and delete, a reachable state in which a name created for that entry is lost |
| `Scheduler.LosesNamesExactly` | request/random.go:470-487 | no run loses a name iff nothing can interrupt it, or no entry with a positive share both creates and deletes, or the total is one |
| `Scheduler.SuccessGap` | request/schedule.go:98-111 | over every run, successes in the metrics = successes known to the caches + those of other requests + POSTs and DELETEs answered with NO_ERROR |
| `Scheduler.AgreeExactly` | request/random.go:533-552 | metrics and caches agree over a run iff no POST or DELETE in it was answered with NO_ERROR |
| `Scheduler.AlwaysAgreeExactly` | request/random.go:533-552 | they agree over every run iff no entry with a positive share can create |
| `Scheduler.CacheAndMetricsDisagree` | request/schedule.go:98-111 | for every deployment and entry with a positive share that can create, a run after which the metrics count a success for a POST the cache counts as failed |
| `Scheduler.OwnedStep` | request/random.go:533-552 | every step of every goroutine keeps both ownership equations of every name |
| `NameCache.Cache.constructor` | request/cache.go:17-21 | an empty cache with an empty history |
| `NameCache.Cache.Pop` | request/cache.go:25-38 | hands out the oldest name not handed out yet, or none iff empty; names out so far followed by cached names are the names pushed |
| `NameCache.Cache.Push` | request/cache.go:41-47 | appends; the first-in first-out history is kept |
| `NameCache.Cache.Len` | request/cache.go:50-54 | names pushed minus names handed out |
| `RandomChoice.RandomPick` | request/random.go:113-133 | panics iff the shares sum to zero; otherwise picks the entry whose interval of draws holds the draw; the last panic is unreachable |
| `RandomChoice.PickIsExact` | request/random.go:113-133 | exactly shares[i] of the draws select entry i and no draw selects two |
| `RandomChoice.FillFrom` | request/random.go:641-650 | appends the accepted letters of one buffer, up to the end of the output |
| `RandomChoice.Sample` | request/random.go:636-653 | for any alphabet and buffer size the result is the first n accepted letters of the stream, whatever the chunks; fails iff the whole buffers of the stream hold fewer |
| `RandomChoice.RandomPayload` | request/random.go:618-654 | the first n accepted letters of the stream; empty for n <= 0 |
| `RandomChoice.AlphabetIsAlnum` | request/random.go:622 | the letters are a-z, A-Z and 0-9, each once |
| `RandomChoice.LetterIsUniform` | request/random.go:622-626 | each of the 62 letters comes from exactly four accepted byte values |
| `Decimal.RoundTrip` | request/random.go:501 | parsing undoes decimal printing |
| `MetricKeys.NamesDistinct` | request/random.go:499-501 | equal object names come from equal timestamps and counters, so names of one builder never repeat |
| `MetricKeys.MaskHidesSuffix` | request/requester.go:43-56 | whatever follows the last slash does not change the key of a DELETE, PATCH or PUT |
| `MetricKeys.MaskKeepsDir` | request/requester.go:43-56 | the key of a request for d/name is its verb and d/:name |
| `MetricKeys.DirsApart` | request/requester.go:43-56 | requests for objects in different directories have different keys |
| `MetricKeys.BaseInjective` | request/random.go:460-468 | different resources have different paths |
| `MetricKeys.KeysApart` | request/random.go:400-427 | entries that create and delete, or patch, different resources share no key |
| `MetricKeys.KeyIgnoresDraw` | request/random.go:400-427 | every request of an entry has one of the keys the entry determines without any draw |
| `MetricKeys.DeleteTellsObject` | request/random.go:474-523 | a DELETE is built iff drawn so, and DELETE requests for different objects have different paths |
| `MetricKeys.AllKeysBounded` | request/random.go:459-523 | one key per entry, two for POST/DELETE entries, over any list of entries |
| `MetricKeys.AllKeysTight` | request/random.go:459-523 | the bound is reached by entries that share no keys |
| `MetricKeys.KeysBounded` | metrics/request.go:43-54 | a run of any length produces at most that many keys |
| `Percentiles.SortOfPermutation` | metrics/utils.go:33 | sorting forgets the order of arrival |
| `Percentiles.PercentileIsNearestRank` | metrics/utils.go:34-40 | the index is in range and the value read is the nearest-rank order statistic, by counting |
| `Percentiles.NearestRankUnique` | metrics/utils.go:34-40 | there is only one such value |
| `Percentiles.TableIsCorrect` | metrics/utils.go:28-41 | six rows for 0, 0.5, 0.9, 0.95, 0.99 and 1, each the nearest rank of its percentile, values never decreasing |
| `Percentiles.TableOfPermutation` | metrics/utils.go:23-42 | the table depends on the bag of latencies only |
| `Percentiles.BuildPercentileLatencies` | metrics/utils.go:23-42 | computes the table of the old contents, empty for none, and leaves the slice sorted in place |
| `ErrorStats.BuildErrorStatsGroupByType` | metrics/utils.go:45-59 | for every key that occurs, its number of occurrences as an int32 |
| `ErrorStats.SameKey` | metrics/utils.go:49-55 | two errors are counted together iff they have the same type and, for HTTP, the same code, otherwise the same message |
| `ErrorStats.CounterIsCount` | metrics/utils.go:56 | the int32 counter is the count whenever the count fits |
| `ErrorStats.MergeErrorStat` | runner/utils.go:168-172 | key-wise int32 addition, for any iteration order |
| `ErrorStats.MergeIsConcat` | runner/utils.go:120-122 | merging two groupings equals grouping the concatenated errors, wrap-around included |
| `ResponseMetrics.ResponseMetric.constructor` | metrics/request.go:35-40 | no observations |
| `ResponseMetrics.ResponseMetric.ObserveLatency` | metrics/request.go:43-54 | the fields stay what the observation history, extended by this latency, says |
| `ResponseMetrics.Classify` | metrics/request.go:65-89 | method, URL, time and duration are kept; HTTP iff there is a code, HTTP/2 iff none and an HTTP/2 error, connection iff neither and a connection error; the message is that of the class, or the text of an unknown error |
| `ResponseMetrics.ResponseMetric.ObserveFailure` | metrics/request.go:57-91 | the same for an error, recorded with the first class that fits; nil is ignored |
| `ResponseMetrics.ResponseMetric.ObserveReceivedBytes` | metrics/request.go:94-96 | the same for bytes, as an int64 |
| `ResponseMetrics.ResponseMetric.Gather` | metrics/request.go:99-131 | errors in order, bytes, and per key exactly the observed latencies, in slices shared with nobody |
| `Observations.BagIsAll` | cmd/kperf/commands/runner/runner.go:327-334 | latencies gathered over all keys, in any order, are all observed latencies |
| `Observations.BytesAreSum` | metrics/request.go:94-96 | the int64 total is the sum of the received bytes if that fits, and always congruent to it modulo 2^64 |
| `Observations.HoldsAdd` | cmd/kperf/commands/runner/runner.go:274-279 | appending key by key holds exactly the observations of both parts |
| `RunnerReport.AggregateResults` | cmd/kperf/commands/runner/runner.go:259-288 | the aggregate is the sum of the results and shares no slice with them |
| `RunnerReport.AppendAll` | cmd/kperf/commands/runner/runner.go:273-279 | key by key in any order, appending to slices of its own and writing none of the given ones |
| `RunnerReport.BuildRunnerMetricReport` | cmd/kperf/commands/runner/runner.go:317-347 | totals, statistics, overall and per-key tables of the old contents; the slices are left sorted, which is what raw data shows |
| `RunnerReport.PrintMultiSpecResults` | cmd/kperf/commands/runner/runner.go:291-314 | every report, also the aggregated one built last, is about the contents before the call: sorting one spec changes neither other specs nor the aggregate |
| `RunnerReport.ReportSpecs` | cmd/kperf/commands/runner/runner.go:232-257 | per-spec reports and an aggregated report over the sum of the results and of the durations |
| `RunnerReport.SumAllDescribes` | cmd/kperf/commands/runner/runner.go:259-288 | the aggregate of the specs describes all observations of all specs |
| `RunnerReport.ReportIsCorrect` | cmd/kperf/commands/runner/runner.go:317-347 | a report says what a direct computation from the raw observations would, bytes as their integer sum if it fits; with raw data it carries them |
| `RunnerReport.SumAllTotal` | cmd/kperf/commands/runner/runner.go:281-284 | the total of the aggregate is the sum of the totals of the specs |
| `RunnerReport.RunnerIsCorrect` | cmd/kperf/commands/runner/runner.go:232-347 | each spec report is right about its own observations, the aggregated one about all; its total and its duration are the sums over the specs |
| `GroupSummary.BuildRunnerGroupSummary` | runner/utils.go:62-156 | the summary of the merged reports that were found, for every outcome of each listing and of each single read |
| `GroupSummary.AbsorbGroup` | runner/utils.go:79-134 | one group's pods: unreadable and undecodable blobs are skipped, the count of latencies is kept |
| `GroupSummary.BuildTables` | runner/utils.go:137-154 | per-key tables and the overall table, for any iteration order |
| `GroupSummary.LongestDuration` | runner/utils.go:124-132 | the duration of the summary is the longest of the reports found, or zero |
| `GroupSummary.EmptyAddsNothing` | runner/utils.go:88-102 | a multi-spec blob without specs is read as an empty report and adds nothing |
| `GroupSummary.HierarchicalEqualsFlat` | runner/utils.go:104-156 | the summary of raw-data reports equals the direct computation from all their observations; its statistics are those of its own error list |
| `GroupSummary.WroteMatches` | runner/utils.go:86-102 | the blob of a runner, in either format, decodes to a report about all observations of all its specs |
| `GroupSummary.AnySplit` | runner/utils.go:62-156 | for every split of observations into specs, runners and groups, the summary equals the direct computation from the raw observations of the runners listed and read |
| `LocalStore.Store.constructor` | runner/localstore/store.go:28-47 | an empty store |
| `LocalStore.Store.OpenWriter` | runner/localstore/store.go:53-64 | an open writer on a fresh empty file, or none and no change if the file cannot be created |
| `LocalStore.Store.OpenReader` | runner/localstore/store.go:67-88 | a reader on the file the ref names; none iff there is no such ref, or stat or open fails |
| `LocalStore.ReaderIsStable` | runner/utils.go:175-183 | an open reader goes on returning the committed bytes over every continuation, also after the ref is deleted and committed anew |
| `LocalStore.Store.Delete` | runner/localstore/store.go:91-104 | removes the ref and only it; succeeds on a missing ref |
| `LocalStore.Writer.Write` | runner/localstore/writer.go:27-29 | extends the writer's own file by what arrived, which may be a part |
| `LocalStore.Writer.Close` | runner/localstore/writer.go:32-40 | closed, temporary name gone unless its removal fails; harmless after a commit |
| `LocalStore.Writer.Commit` | runner/localstore/writer.go:43-63 | the code and new files as specified for every combination of failing system calls; closed afterwards |
| `LocalStore.CommitIsExact` | runner/localstore/writer.go:43-63 | success only on an absent ref, which then reads as what this writer wrote; any other code changes nothing visible |
| `LocalStore.OthersInvisible` | runner/localstore/store.go:53-104 | no operation but Commit and Delete changes what any reader sees |
| `LocalStore.NothingLeftBehind` | runner/localstore/writer.go:32-63 | over every interleaving without failing removals and crashes, the temporary files are exactly those of open writers |
| `LocalStore.CanReplace` | runner/localstore/store.go:91-104 | after a restart in any state, a ref can be deleted and committed anew with any value, without touching others |
| `LocalStore.InvStep` | runner/localstore/writer.go:27-63 | no operation makes two writers share a file, or leaves a committed file writable |
| `LocalStore.WriteOnce` | runner/localstore/writer.go:43-63 | over every interleaving a committed value stays until its ref is deleted |
| `LocalStore.CodeIsVerdict` | runner/localstore/writer.go:43-63 | a commit succeeds iff its writer is open, no call fails and nobody has committed the ref |
| `LocalStore.Linearizes` | runner/localstore/store.go:53-104 | over every interleaving, what readers see and every code a committer gets are those of a write-once map that knows no files |
| `LocalStore.NameReuseBreaksCommit` | runner/localstore/store.go:54 | with reused temporary names, a run after which a ref holds bytes its writer did not write |
| `LocalStore.LinearizesExactly` | runner/localstore/store.go:53-64 | the store is a write-once map over all runs iff names of live temporary files are not reused |
| `Upload.ExactlyOnce` | scripts/run_runner.sh:15-38 | at most one commit per runner; what is stored is its complete body; exit 0 means it is stored |
| `Upload.StoredForever` | runner/server.go:127-172 | a stored body is unchanged by any continuation of retries, losses, partial bodies and restarts |
| `Upload.InvStep` | runner/server.go:127-172 | every step of scripts, handlers, network and server keeps stored bodies complete and committed once, answers 201 and 409 backed by the store, and drops nothing stored |
| `Upload.CanSucceed` | scripts/run_runner.sh:15-38 | from every reachable state a script that has not exited can still exit with 0 |
| `Upload.ExitsExactly` | scripts/run_runner.sh:20-37 | over every run a script exits with 0 iff it was told 201 or 409, with 1 iff its pod was killed or it was told 404, and otherwise goes on |
| `Upload.GivesUpOnlyIf` | runner/server.go:127-149 | a runner's result is given up only if its pod is killed or the server does not know a runner |
| `Upload.RetryCanSucceed` | scripts/run_runner.sh:33-36 | after any other answer, such as 500 for a commit whose fsync failed, the script can still exit with 0 |
| `Upload.CommitAnswers` | runner/server.go:158-171 | after a complete body, 201 iff this commit stores it, 409 iff it was stored and neither fsync nor stat fails, 500 otherwise |
| `Upload.KnownCodes` | runner/server.go:127-172 | handlers answer 201, 404, 409 or 500 and nothing else |
| `Upload.FinishCleans` | runner/server.go:156 | the deferred Close of a handler that has answered removes its writer and its temporary file |
| `Upload.CanBeTold` | runner/server.go:127-172 | a script in its loop can be told 404 and 500, and 201 or 409 depending on whether its result is stored |
| `JobWatch.WaitForJob` | runner/group/handler.go:314-354 | the loop computes the meaning of the event list: outcome and last seen version |
| `JobWatch.ScanEnds` | runner/group/handler.go:314-354 | that is decided by the first closed channel, error, cancellation or finished Modified; the last version seen is that of the last event before it that has one |
| `JobWatch.ScanOpen` | runner/group/handler.go:314-354 | without such an event the watch stays open |
| `JobWatch.Wait` | runner/group/handler.go:235-311 | the loop computes the meaning of get and watch attempts, and the version each watch is started at |
| `JobWatch.WaitExactly` | runner/group/handler.go:263-311 | an error iff, after attempts that are all transient, the context ends, a watch cannot start, or one ends with a fatal error; nil iff one sees the job finish; a closed, expired or unavailable watch is tried again |
| `JobWatch.AskedExactly` | runner/group/handler.go:270-300 | an attempt is made iff all before it were transient; the first starts at the version of Get, each later one at the last version seen, or without a version after an expiry |
| `JobWatch.HonestMeans` | runner/group/handler.go:270-291 | the assumption on the apiserver is about exactly the watches and versions that Wait asks for |
| `JobWatch.ScanRange` | runner/group/handler.go:314-354 | a watch from a version reports a later finished version, or moves past unfinished versions only |
| `JobWatch.ScanReplay` | runner/group/handler.go:340-351 | a watch without a version reports only completions after the replayed version |
| `JobWatch.WaitSound` | runner/group/handler.go:235-311 | nil is returned only if some version of the job is finished, resets included |
| `JobWatch.NoCompletionLost` | runner/group/handler.go:260-311 | without a reset, no version at or before the last seen one is finished |
| `JobWatch.DrainExact` | runner/group/handler.go:314-354 | a watch that delivers the rest of the history reports a completion iff there is one after its start |
| `JobWatch.DrainReturns` | runner/group/handler.go:263-311 | without a reset, and after watches that have all ended, one more watch that drains the history of a finished job makes Wait return nil |
| `JobWatch.WaitLosesNothing` | runner/group/handler.go:238-311 | from the Get of an unfinished version on, without a reset: no finished version is passed, and a next watch that drains the history of a finished job makes Wait return nil |
| `JobWatch.DeliverReplay` | runner/group/handler.go:340-351 | a watch without a version can end the wait if a version after the replayed one is finished |
| `JobWatch.ResetExact` | runner/group/handler.go:294-297 | after a reset, a watch that drains the history of a finished job makes Wait return nil iff the replayed version is not the last |
| `JobWatch.NeverReturns` | runner/group/handler.go:294-297 | once a reset replays the last version, Wait never returns nil, whatever happens next |
| `JobWatch.LostCompletion` | runner/group/handler.go:294-297 | a concrete finished job whose wait returns nil in no continuation |
| `Readiness.WaitedMeansTerminated` | runner/group/handler.go:235-311 | when the wait for a job without re-created pods has returned, every pod of it has terminated |
| `Readiness.JobsStep` | runner/group/handler.go:235-311 | over every step of controllers, waiters and scripts, no version of a job counts more successes or failures than its pods have had, and a waiter has returned only if a version is finished |
| `Waiters.WaiterRefinesWait` | runner/server_runnergroup.go:47-60 | over every run without a restart, each waiter of the server stands where Wait stands after the attempts of that run, and watches from the version Wait would ask for |
| `Waiters.ReturnedExactly` | runner/server_runnergroup.go:47-60 | a waiter has returned iff Wait returns nil on those attempts |
| `ReadinessProgress.TerminatedExactly` | runner/group/handler.go:520-522 | a returned wait means that all pods have terminated, in every run, iff the job has no more pods than completions |
| `ReadinessProgress.RecreatedPodIsMissed` | runner/group/handler.go:363-369 | with a re-created pod, a reachable state in which the wait has returned and a runner is still at work |
| `Readiness.ReadyReport` | runner/server_runnergroup.go:47-66 | when the channel is closed the report is set, its entries are complete bodies, and they are exactly what the listings and reads found |
| `Readiness.SuccessesAccounted` | runner/utils.go:70-84 | without re-created pods, a succeeded runner is in the report as often as it was listed, minus failed reads |
| `Readiness.EverySuccessOnce` | runner/utils.go:70-84 | with complete listings and no failed read, every succeeded runner exactly once |
| `Readiness.ReportIsStable` | runner/server.go:101-124 | every later 200 of the same server process returns the same report |
| `Readiness.AnswersExactly` | runner/server.go:101-124 | 404 iff the request does not wait and nothing is ready; only the report once ready and not cancelled; only a timeout while waiting |
| `Readiness.RestartWaitsAgain` | runner/server_runnergroup.go:47-66 | after a restart nothing is summarised or published before every job was got anew |
| `Readiness.RestartDropsUploads` | runner/server.go:127-172 | an upload that was going on when the server restarted is never answered, in any continuation |
| `ReadinessProgress.PublishExactly` | runner/group/handler.go:235-311 | without a restart and without a further version of any job, the summary can become ready iff the waits are over or every waiter has a finished version still to see |
| `ReadinessProgress.PublishWhenFinished` | runner/group/handler.go:294-297 | if all jobs are finished, iff no waiter is past the last version of its job, or waits to have it replayed |
| `ReadinessProgress.FinishedButStuck` | runner/group/handler.go:294-297 | for every job without re-created pods, a reachable state in which its runners have exited, it is finished, and the summary can no longer become ready |
| `ReadinessProgress.CanPublish` | runner/server_runnergroup.go:47-66 | from every reachable state, also with a waiter past the last version, the summary can become ready without another restart and with at most one further version per job, every runner that had not exited having succeeded |
| `ReadinessProgress.AllCanSucceed` | runner/server_runnergroup.go:47-66 | for every deployment a reachable ready state in which every runner has succeeded |
| `EndToEnd.AllWritten` | runner/utils.go:86-102 | what the reads of all groups returned was written by the runners read, spec by spec |
| `EndToEnd.PublishedReport` | runner/server_runnergroup.go:62-65 | the report computed from all listings and reads, failed ones included, equals the direct computation from the raw observations of the runners read, among them every succeeded one that was listed and read exactly once |
| `Values.OverridesMeans` | helmcli/release.go:63-89 | overriding a path is binding it or having a non-map at a proper prefix |
| `Values.MergeKeepsFrom` | helmcli/release.go:63-89 | every leaf of the source is in the result |
| `Values.MergeKeepsTo` | helmcli/release.go:63-89 | a leaf of the target survives iff the source does not override its path |
| `Values.MergeAddsNothing` | helmcli/release.go:63-89 | every leaf of the result is a leaf of one of the two |
| `Values.MergeTwice` | helmcli/release.go:63-89 | applying the same values twice equals applying them once |
| `Values.CoveredMeans` | helmcli/release.go:63-89 | merging into a tree is without trace of the tree iff the source has all its keys at all levels |
| `Values.AssociativeExactly` | helmcli/release.go:63-89 | two merges can be regrouped iff no scalar stands between a map and a map that does not cover it |
| `Values.NotAssociative` | helmcli/release.go:63-89 | three trees for which they cannot |
| `Values.WithinMeans` | helmcli/release.go:63-89 | merging changes nothing iff the target has every value of the source already |
| `Values.HarmlessMeans` | helmcli/release.go:66-68 | exactly when merging without copies leaves the captured maps as they were |
| `Values.NotHarmless` | helmcli/release.go:66-68 | three trees for which it does not |
| `ValuesOnHeap.ApplyValues` | helmcli/release.go:63-89 | for any sharing and any key order: the target becomes the merge in place, and every other map at its path changes exactly where it shares a map with the target |
| `ValuesOnHeap.EraseMerge` | helmcli/release.go:63-89 | the effect on the target, identities forgotten, is the merge of the two trees |
| `ValuesOnHeap.AfterApart` | helmcli/release.go:63-89 | a map that shares nothing with the target is not written |
| `ValuesOnHeap.QuietMeans` | helmcli/release.go:63-89 | a merge does not write a map iff, wherever that map shares a map with the target, the source brings nothing new |
| `ValuesOnHeap.Unmarshal` | helmcli/release.go:218-229 | new maps for a tree, each at one path |
| `ValuesOnHeap.EncodeMeans` | helmcli/release.go:218-222 | encoding a map gives its tree |
| `ValuesOnHeap.CopyValues` | helmcli/release.go:218-229 | an equal tree of new maps |
| `ValuesOnHeap.RunAppliers` | helmcli/release.go:120-124 | what becomes of every root, sharing or not, when the appliers up to the first failing one are folded in; fails iff an applier fails |
| `ValuesOnHeap.FoldKeeps` | helmcli/release.go:120-124 | a map that shares nothing with target and appliers survives the fold, whatever they share among themselves |
| `ValuesOnHeap.StagesExactly` | helmcli/release.go:120-124 | a map is as it was after each of the appliers iff at no stage an applier brings anything new to a map it shares with the target |
| `ValuesOnHeap.StagesOnHeap` | helmcli/release.go:120-124 | the same for every root of a heap, whatever is shared |
| `ValuesOnHeap.AfterCoherent` | helmcli/release.go:63-89 | a merge keeps the shapes of two maps in step: what is one map before is one map after |
| `ValuesOnHeap.FoldMeans` | helmcli/release.go:120-124 | without sharing the fold is the fold of the merges of the trees |
| `ValuesOnHeap.CopyAndRun` | helmcli/release.go:112-124 | the exact effect on the copy and on every map there was, for any sharing and any failing applier; the copy is an equal tree that shares nothing |
| `ValuesOnHeap.ReleaseCli.New` | helmcli/release.go:106-146 | the same; chart defaults that share nothing with the appliers are unchanged, also on failure; if the appliers share nothing, the client's values are the fold of the merges |
| `ValuesOnHeap.ReleaseCli.InitValues` | helmcli/release.go:204-216 | the same for the client's own values and the values of a deployment |
| `ValuesOnHeap.LaterApplierWritesEarlier` | helmcli/release.go:66-68 | what the maps captured by an applier hold after a later one; they are as they were iff the later one brings nothing new wherever the target had no map of its own |
| `ValuesOnHeap.CapturedMapChanges` | helmcli/release.go:66-68 | a run of two appliers after which the map captured by the first has changed |
| `ValuesOnHeap.SharedMapIsWritten` | helmcli/release.go:120-124 | a scalar, a shared map and a third map folded under one key merge the third into whatever shares the second, for all maps |
| `ValuesOnHeap.NewSharesApplier` | helmcli/release.go:66-68 | the client made for a chart without values holds the very map of its applier |
| `ValuesOnHeap.InitValuesWritesClient` | helmcli/release.go:204-216 | on a client that shares a map with an applier, a scalar, that map and a third map applied under one key merge the third into the client's own values, which change iff it brings anything new |
| `ValuesOnHeap.ClientValuesChange` | helmcli/release.go:204-216 | a client made and then initialised whose own values end up changed |
| `CiliumLoader.Conservation` | contrib/cmd/runkperf/commands/bench/cilium_cr_list.go:131-217 | every generated task is in exactly one place among queued, being applied, applied, given up; the queue never exceeds its capacity; the generator fails only before its last task |
| `CiliumLoader.SuccessIsComplete` | contrib/cmd/runkperf/commands/bench/cilium_cr_list.go:131-217 | a nil result means every task applied exactly once and none given up |
| `CiliumLoader.GivenUpExactly` | contrib/cmd/runkperf/commands/bench/cilium_cr_list.go:151-164 | over every run a task fails at most the allowed number of times, is given up iff it has failed that often, and is applied iff an attempt succeeded |
| `CiliumLoader.ErrorExactly` | contrib/cmd/runkperf/commands/bench/cilium_cr_list.go:162-164 | unless the caller cancels, the result is an error iff some task was given up |
| `CiliumLoader.ErrorExactlyOver` | contrib/cmd/runkperf/commands/bench/cilium_cr_list.go:151-164 | ... iff every allowed attempt at some task failed |
| `CiliumLoader.KperfRetries` | contrib/cmd/runkperf/commands/bench/cilium_cr_list.go:151-164 | as called, a task is given up at its fifth failure and not before |
| `CiliumLoader.LoadCanFail` | contrib/cmd/runkperf/commands/bench/cilium_cr_list.go:151-164 | for every load with a task, a complete run that fails by itself |
| `CiliumLoader.CancelCanFail` | contrib/cmd/runkperf/commands/bench/cilium_cr_list.go:166-180 | a complete run that fails because its caller cancels |
| `CiliumLoader.KperfLoads` | contrib/cmd/runkperf/commands/bench/cilium_cr_list.go:137-212 | with 50 workers: at most 100 queued, and nil means numCID + numCEP applied |
| `CiliumLoader.DeadlockFree` | contrib/cmd/runkperf/commands/bench/cilium_cr_list.go:140-208 | whatever has failed, some goroutine can go on until all have returned |
| `CiliumLoader.CanFinish` | contrib/cmd/runkperf/commands/bench/cilium_cr_list.go:140-212 | from every reachable state, after any failure, all goroutines can still exit without the caller cancelling |
| `CiliumLoader.RunTerminates` | contrib/cmd/runkperf/commands/bench/cilium_cr_list.go:140-208 | every run has at most Measure more steps |
| `NodePools.NamesApart` | virtualcluster/nodes_common.go:92-118 | node and controller names of valid pools never collide, nor do two pools' controllers |
| `NodePools.ValidatesMeans` | virtualcluster/nodes_common.go:90-110 | accepted iff count, CPU, memory and pods are positive and the name is neither empty nor ends in -controller |
| `NodePools.ListNodepools` | virtualcluster/nodes_list.go:28-37 | the releases without controllers and lifecycle releases, in order |
| `NodePools.SkippedMeans` | virtualcluster/nodes_list.go:31-34 | skipped iff the name ends in -controller or begins with lifecycle- |
| `NodePools.ListedCounts` | virtualcluster/nodes_list.go:28-37 | every other release is listed as often as it occurs |
| `NodePools.ListedExactly` | virtualcluster/nodes_list.go:28-37 | in every run a release is listed iff it is a pool's nodes and its name has no lifecycle- prefix |
| `NodePools.ListingIsExact` | virtualcluster/nodes_list.go:28-37 | the listing is every live pool once and nothing else iff no live pool has a lifecycle- name |
| `NodePools.LifecyclePoolIsHidden` | virtualcluster/nodes_list.go:32-34 | a reachable state with a live pool that the listing skips |
| `NodePools.InvStep` | virtualcluster/nodes_create.go:38-128 | every action, failure or crash of every client keeps nodes with their controller and what each client relies on |
| `NodePools.NeverWithoutController` | virtualcluster/nodes_create.go:38-128 | over every run of creates and deletes no nodes exist without their controller, given an accurate check and no overlap on a pool |
| `NodePools.LastStepDelivers` | virtualcluster/nodes_delete.go:17-41 | the last action of a successful create leaves both releases, of a successful delete or cleanup neither |
| `NodePools.CrashLeaks` | virtualcluster/nodes_create.go:68-74 | a reachable state in which a killed create has left a controller without nodes |
| `NodePools.GetErrorOrphansNodes` | virtualcluster/nodes_create.go:54-74 | if errors of Get count as absence, a run that leaves nodes without controller |
| `NodePools.OverlapOrphansNodes` | virtualcluster/nodes_create.go:64-97 | if operations on one pool overlap, another one |
| `NodePools.SafeExactly` | virtualcluster/nodes_create.go:38-128 | safety of all runs iff accurate check and no overlap |
| `NodePools.AloneIsARun` | virtualcluster/nodes_create.go:38-128 | a call with nobody else at work is one of the runs |
| `NodePools.AloneDelivers` | virtualcluster/nodes_create.go:54-97 | undisturbed, a create without faults leaves both releases and both lifecycle releases, one whose nodes fail leaves neither of the two, a delete leaves neither |
| `NodePools.Cluster.CreateNodepool` | virtualcluster/nodes_create.go:38-98 | the releases after every combination of failing actions; succeeds iff valid, not found and no install fails, and then both releases are there |
| `NodePools.Cluster.DeleteNodepool` | virtualcluster/nodes_delete.go:17-41 | nodes first, then the controller, stopping at the first error; succeeds iff the name is valid and neither removal fails, and then both are gone |

## Left out

- Time: deadlines, backoff, rate limits and sleeps are events that may happen whenever their guard allows; nothing is said about when.
- Floating point: latencies and percentiles are exact reals, so the rounding of `ceil(n * p)` in float64 is not modelled.
- Fairness: termination is shown by measures and enabled steps, assuming that every request and every apply attempt returns.
- `Schedule` with concurrent `Run` and `Stop`: only the sequential use in `Schedule` is modelled.
- `Upload.ExactlyOnce`: assumes unique pod names, and takes as body the bytes curl sends, which are the result file without its newlines.
- `Readiness.EverySuccessOnce`: a failed pod listing drops its whole group and a failed read drops its runner, as in the code; hence the two assumptions.
- `EndToEnd.PublishedReport`: JSON is a given decoding function; result files are assumed to be what the runner writes with raw data, as its script asks for.
- `Readiness.SuccessesAccounted`: assumes that no pod is re-created, which the job asks for but does not ensure; `RecreatedPodIsMissed` shows what happens otherwise.
- `GroupSummary.BuildRunnerGroupSummary`: durations are numbers; printing and parsing them is not modelled, and an unparsable one counts as zero.
- `JobWatch.NoCompletionLost`: assumes that a watch delivers all later versions in order, and that the version first read was not preceded by a finished one.
- `ReadinessProgress.CanPublish`: a further version of a finished job is one that says the same again; errors that make a wait give up are not steps.
- `ValuesOnHeap.CopyValues`: the JSON round trip keeps trees equal; that it retypes numbers, and fails on values JSON cannot hold, is not modelled.
- `ValuesOnHeap.ApplyValues`: maps are shared at one and the same path only, which holds for maps that come from YAML or JSON and stays true; a map placed inside itself is not covered.
- `ValuesOnHeap.RunAppliers`: an applier is the tree it merges in; parsing of `a.b=c` strings and YAML is not modelled.
- `ValuesOnHeap.StagesExactly`: is about every stage of the fold; a later applier can restore what an earlier one wrote, so for the end alone only the exact effect is given (`CopyAndRun`).
- `MetricKeys.MaskHidesSuffix`: request paths are clean, so the cleaning in path.Join is not modelled.
- `ResponseMetrics.Classify`: takes what the three classifiers say about an error; the classifiers themselves depend on library error types.
- `ResponseMetrics.ResponseMetric.ObserveFailure`: the same.
- `NodePools.InvStep`: Helm actions are atomic, so a client that dies inside one, or a rollback that fails, is not modelled.
- `CiliumLoader.DeadlockFree`: progress reports on the timer are not steps.
- `Percentiles.BuildPercentileLatencies`: `sort.Float64s` is a library routine, represented by insertion sort.
- `MetricKeys.BaseInjective`, `MetricKeys.KeysApart`: about group, version, namespace and resource names without slashes, as Kubernetes has them.
- `MetricKeys.KeyIgnoresDraw`: the scheme and host of the URL, which do not vary, are left out.
- REST calls, port forwarding, kubectl and Helm actions themselves: external, present as steps that succeed or fail.
- Command-line flags, rendering, logging, manifests, configmap and daemonset creation, batch node pool commands, deployment of runner groups: only easy members.
