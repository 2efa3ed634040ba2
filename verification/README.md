# Verified model of the backup service

A Dafny model of the parts of the backup service that carry state or arithmetic, with proofs about them.
`dafny verify dfyconfig.toml` checks everything.

## What is modelled

**The job protocol** (`JobProtocol`, `JobSafety`, `AckEarned`, `Drain`, `Grpc`, `Histories`, `Worker`,
`Enqueue`). Enqueue handlers, the RabbitMQ queue, any number of workers and the `backups` table form one labelled
transition system. Faults are steps of it: an RPC may fail with or without its effect, the computation may
fail, a worker may die with deliveries in any phase. The worker's code and the enqueue handler are imperative
Dafny over a shared cluster object; their contracts say that whatever they do, interleaved with whatever the
others do, is a run of that system, and which of its steps are their own. What is proved about runs therefore
holds for the code. Results: messages
are conserved, no published job is dropped, only an untimely PATCH strands a row in `running`, an ack is
always earned, rows show only four (status, size) pairs until they are patched, and the system drains once
requests stop, unless rows of jobs were deleted. Runs from the empty system lead to each of the two failures.

**The entropy calculator** (`RealArithmetic`, `Logarithm`, `Entropy`, `EntropyLevels`, `SyntheticData`,
`SyntheticAnalysis`). The histogram and summation loops refine a specification over the reals. The logarithm
is any function that turns products into sums and stays below `x - 1`; nothing else about it is assumed.
Gibbs' inequality then gives the bounds, with their equality cases, and the classifier's thresholds become
exact limits on the number of different bytes.

**The cache in front of the table** (`Backups`, `SourcePaths`, `Listing`, `RemoteConfig`, `Cache`, `Handlers`,
`Answers`, `RowHistory`, `Transparency`, `Exposure`, `ClientView`, `Staleness`, `HandlerSteps`). What each request
is answered is stated field by field, and the table after any run is told from the history of writes alone. With
handlers taken as atomic, the service with its cache is compared with the service without one: when requests to
come can tell the two apart, which lost invalidations, gRPC writes and changes of the settings make it so, and
what may differ. With handlers taken step by step, the age of any cached answer is bounded, and the bound is
shown to be attained.

**The rate limiter** (`RateLimiter`, `LimiterRuns`). One tenant's counter in isolation, all tenants interleaved,
and a bound on what any stretch of time admits, wherever it falls across the windows.

## Where code and documentation differ

The model follows the code.

- `crates/backup-service/src/middleware/rate_limit.rs:1` announces a sliding window kept in Redis. The code is a
  fixed window in memory. `LimiterRuns.SlidingBound` says what that guarantees for every sliding interval.
- `crates/backup-worker/README.md:21` has a message acked or rejected by success or failure. The code requeues a
  failed job without limit, so a job whose row is deleted circulates for ever
  (`AckEarned.OrphanIsAckedIffPastCheck`), and the system then never comes to rest (`Drain.RestIffClear`).
- `docs/apollo-config-updater.md:37` calls limit and offset part of the list cache's key. The key holds the tenant
  only, and after a change of the limit a stored list is served cut short (`Exposure.ListKeyOmitsLimit`).
  `Exposure.ReconfigurationIsSeenIff` says exactly which changes of the settings show.
- The Retry-After of a rejection (`crates/backup-service/src/middleware/rate_limit.rs:115-119`) holds good only while
  the window is not made longer (`LimiterRuns.RetryAfterSuffices`, `LimiterRuns.LongerWindowOutlastsRetryAfter`).
- `docs/apollo-config-updater.md:8` puts the first fetch after the first interval; a Tokio interval ticks at once.
  Nothing here depends on it.
- `proto/backup.proto:21` foresees failed results. The worker reports only completed ones.

## Assumptions

- Ids are never reused. RabbitMQ loses no message and returns unacknowledged ones when a worker's connection
  closes. An RPC's effect, if any, lands before its message is back in the queue.
- The JSON of a job decodes to that job, and bodies that do not decode come only from other publishers.
- Rows with equal `created_at` keep one fixed order among themselves.
- Requests reach the limiter's lock in order of the clock readings taken under it.
- Each handler publishes only the job it read itself.
- A shutdown that runs into its 30 seconds shows as a delivery whose remaining calls are lost, which the worker's
  code then meets like any other loss.

## Model

| member | source | states |
|---|---|---|
| JobSafety.RunKeepsInvariant | crates/backup-worker/src/main.rs:90-138 | In every state of every run each published message is in exactly one of queued, in flight, acked, dropped; a worker has at most one delivery in hand; jobs agree with their rows |
| JobSafety.PublishedJobSurvives | crates/backup-common/src/worker.rs:76-94 | A message made by publish_job stays decodable and is alive or acked, never dropped, in any continuation of any run |
| JobSafety.StepKeepsJobs | crates/backup-worker/src/main.rs:100-107 | Only messages that do not decode are thrown away; only jobs are worked on or acked |
| JobSafety.StepKeepsFaithful | crates/backup-service/src/handlers/backups.rs:297-325 | Every job, queued or about to be, carries the tenant, path and flag of its row as long as the row exists |
| JobSafety.NoRowIsStuck | crates/backup-worker/src/main.rs:145-187 | Along any run, every running row always had a live message that will still report on it, through duplicates, crashes, deletes and RPCs that applied but failed, exactly if no client patched to running a row for which no message was awaited |
| JobSafety.RowGetsStuck | crates/backup-service/src/handlers/backups.rs:177-211 | From any reachable state, create and PATCH to running of a new backup lead to a running row that no message will report on |
| JobSafety.StepKeepsNoStuckRows | crates/backup-service/src/grpc.rs:28-82 | Any single step other than a PATCH to running keeps every running row awaited |
| JobSafety.PatchToRunning | crates/backup-service/src/handlers/backups.rs:177-211 | A PATCH to running strands a row exactly when no message for it is still awaited |
| JobSafety.RowStates | migrations/001_create_backups.sql:7-9 | In every PATCH-free run rows show only (pending, 0), (running, 0), (running, 1048576), (completed, 1048576) |
| JobSafety.JobsBalance | crates/backup-service/src/handlers/backups.rs:292-336 | Over any run, the jobs that handlers picked up from rows are exactly those published, those given up and those still held |
| Worker.Cluster.PublishJob | crates/backup-common/src/worker.rs:76-94 | The job's message goes to the end of the log and into the queue, as one step of the protocol |
| AckEarned.AckIsEarned | crates/backup-worker/src/main.rs:111-124 | Every ack of every run was preceded, within the same delivery, by a status update that hit an existing row and then by a successful report |
| AckEarned.OrphanForever | crates/backup-service/src/grpc.rs:43-45 | A job whose row is gone before its existence check stays queued or in flight in every continuation |
| AckEarned.OrphanIsAckedIffPastCheck | crates/backup-worker/src/main.rs:149-184 | For a job without a row some continuation acks it exactly if its delivery is past the existence check |
| AckEarned.JobGetsOrphaned | crates/backup-service/src/handlers/backups.rs:214-336 | From any reachable state, create, enqueue and delete of a new backup lead to a live job without a row that is not past the check |
| AckEarned.FailuresAreReachable | crates/backup-service/src/handlers/backups.rs:177-336 | Both a stranded row and an orphaned job are reached in runs from the empty system |
| Drain.ProgressLowers | crates/backup-worker/src/main.rs:90-138 | Every ordinary step strictly lowers the phases left over all messages |
| Drain.DisturbanceIsBounded | crates/backup-worker/src/main.rs:116-123 | A failure, crash or new worker raises them at most to a capacity that no internal step changes |
| Drain.RunLengthIsBounded | crates/backup-worker/src/main.rs:90-138 | From a state in which the row of every job on its way exists, a run without new requests has at most as many steps as phases left plus, per disturbance, the capacity |
| Drain.DrainCompletes | crates/backup-worker/src/main.rs:90-138 | From such a state, a run without new requests that ends with a worker connected and that no ordinary step can extend ends with nothing queued or in flight and every awaited row completed |
| Drain.RestIffClear | crates/backup-service/src/grpc.rs:43-45 | With or without workers connected, the system can come to rest exactly if every job on its way has its row or is past the check for it |
| Grpc.BackupProcessorService.UpdateStatus | crates/backup-service/src/grpc.rs:28-53 | Which error for an unparsable id, a missing row, an inadmissible status; otherwise that row and no other gets the status and the time |
| Grpc.BackupProcessorService.ReportResult | crates/backup-service/src/grpc.rs:55-113 | Completed sets status and size, anything else sets failed; succeeds even if the row is gone; warns exactly of a completed result that is flagged |
| Worker.Cluster.CallUpdateStatus | crates/backup-worker/src/main.rs:149-154 | The call is the protocol's step for each way it can end; the worker goes on exactly if it was answered and the row existed |
| Worker.Cluster.CallReportResult | crates/backup-worker/src/main.rs:175-184 | The call is the protocol's step for each way it can end |
| Worker.AnalyzeJob | crates/backup-worker/src/main.rs:156-171 | The reported size; the entropy of the repeated path, between 0 and 8; flagged exactly from 7.5, never for an ASCII path |
| Histories.ReportIsHonest | crates/backup-worker/src/main.rs:156-184 | What a worker has to report: the job's id, completed, 1048576 bytes, the entropy of 8192 bytes of the job's own path, in [0, 8], flagged exactly from 7.5 and never for ASCII; the path's own entropy if its length divides 4096 |
| Worker.ProcessAndReport | crates/backup-worker/src/main.rs:145-187 | Interleaved with anything, the worker's own steps are just mark and report, up to the first that fails, with the given times; it succeeds exactly if nothing failed and the row was found; what it reported is that report |
| Worker.HandlingIs | crates/backup-worker/src/main.rs:99-125 | Step by step, what each way of handling a delivery consists of: acked only after mark and report, requeued after the call that failed, rejected if it does not decode |
| Worker.HandleDelivery | crates/backup-worker/src/main.rs:99-125 | The worker's own steps, in order, are exactly those of one of these ways, and every report among them is true |
| Worker.RunWorker | crates/backup-worker/src/main.rs:74-142 | All the worker does is what its turns account for, each turn one delivery or nothing; it turns to no message after the stream has ended, the flag has gone up or an ack or nack has failed, and stops for nothing else |
| Worker.RunProcess | crates/backup-worker/src/main.rs:45-72 | A worker process connects, does just what its loop accounts for, and disconnects with nothing left in its hands |
| Enqueue.EnqueueBackup | crates/backup-service/src/handlers/backups.rs:292-336 | Which error comes when, and all that the handler does: read the row, then publish the job made from it, with its validated path, or give it up; it is published on success and when the publication landed yet came back as an error |
| Entropy.ComputeShannonEntropy | crates/backup-common/src/ffi/c_src/entropy.c:9-29 | The two loops compute the sum of -p log2 p over the bytes that occur, and zero for no data |
| Entropy.CountsAddUp | crates/backup-common/src/ffi/c_src/entropy.c:14-17 | The histogram's counts add up to the length |
| Entropy.GibbsTerm | crates/backup-common/src/ffi/c_src/entropy.c:21-26 | One term against k equal shares, with the case of equality |
| Entropy.EntropyAtMostLogDistinct | crates/backup-common/src/ffi.rs:13-19 | The entropy of data with k different bytes is at most log2 k, and equal to it exactly if they occur equally often |
| Entropy.EntropyIsZeroIff | crates/backup-common/src/ffi.rs:13-19 | The entropy is never negative, and zero exactly for at most one byte value |
| EntropyLevels.LevelOfFewBytes | crates/backup-common/src/ffi.rs:37-48 | Entropy lies in [0, 8]; at most 15, 90, 181 different bytes cap the level at Low, at Normal, below suspicious |
| EntropyLevels.ThresholdsAreSharp | crates/backup-common/src/ffi.rs:37-48 | Each of the three caps fails as soon as there is one byte more |
| SyntheticAnalysis.AsciiIsNeverSuspicious | crates/backup-service/src/handlers/backups.rs:263-279 | No ASCII path is ever flagged, however much of its repetition is analysed |
| SyntheticAnalysis.CycledAt | crates/backup-worker/src/main.rs:156 | The i-th byte of the repeated path is the path's byte at i modulo its length |
| SyntheticAnalysis.CycledCount | crates/backup-worker/src/main.rs:156 | q full repetitions and r more bytes hold each byte q times as often as the path, plus its occurrences in the first r |
| SyntheticAnalysis.SameVerdict | crates/backup-service/src/handlers/backups.rs:263-267 | If the path's length divides 4096, the endpoint and the worker find the entropy of the path itself |
| SourcePaths.ValidateSourcePath | crates/backup-service/src/handlers/backups.rs:338-349 | A path passes exactly if it is absolute and free of `..`; exactly when each of the three errors comes |
| Backups.ParseStatus | migrations/001_create_backups.sql:8-9 | The texts the table admits are exactly those of the four statuses |
| Listing.InOrderIsSorted | crates/backup-service/src/handlers/backups.rs:135-149 | The list is newest first, without repetition, as long as the set it lists |
| Listing.PagingIsComplete | crates/backup-service/src/handlers/backups.rs:85-158 | Page after page yields each matching row exactly once in list order, and total is their number |
| Listing.TotalsAddUp | crates/backup-service/src/handlers/backups.rs:124-133 | The four per-status totals add up to the unfiltered one; any other text finds nothing |
| Cache.CacheLayer.GetBackup | crates/backup-service/src/cache.rs:71-76 | A hit needs a connection, a working command and an entry not yet expired |
| Cache.CacheLayer.SetBackup | crates/backup-service/src/cache.rs:78-87 | Stores the row under its id until ttl seconds from now; a ttl of zero stores nothing |
| Cache.CacheLayer.InvalidateBackup | crates/backup-service/src/cache.rs:89-95 | Removes that entry and no other, if the command gets through |
| Cache.CacheLayer.SetTenantBackups | crates/backup-service/src/cache.rs:106-116 | The same for a tenant's list |
| Answers.CreateAnswer | crates/backup-service/src/handlers/backups.rs:12-46 | Created, with every field of the row, exactly if the path is non-empty, starts with byte 47, has no two bytes 46 in a row, and the id is new; otherwise nothing changes and the answer names the reason |
| Answers.GetAnswer | crates/backup-service/src/handlers/backups.rs:49-77 | From an agreeing cache, the caller's own row, or not found |
| Answers.ListAnswer | crates/backup-service/src/handlers/backups.rs:80-174 | From an agreeing cache: limit brought into 1 to 100, offset to 0 or more; item i is the (offset + i)-th of the tenant's rows with that status, newest first, as many as there are up to the limit; total is the number of them all |
| Answers.ListIsClamped | crates/backup-service/src/handlers/backups.rs:85-86 | Whatever the cache holds, the limit and offset in the answer are the nearest admissible ones |
| Answers.UpdateAnswer | crates/backup-service/src/handlers/backups.rs:177-211 | On the caller's own row, status and size change if given, the update time always, nothing else ever; otherwise not found and nothing changes |
| Answers.RemoveAnswer | crates/backup-service/src/handlers/backups.rs:214-237 | The caller's own row goes, and no other |
| Answers.MissFills | crates/backup-service/src/handlers/backups.rs:54-76 | A read stores its row for ttl seconds exactly if it was no hit and found one, and Redis takes it |
| Answers.ListMissFills | crates/backup-service/src/handlers/backups.rs:94-168 | A list is stored exactly on a miss of an unfiltered request for the configured page |
| Answers.WriteDrops | crates/backup-service/src/handlers/backups.rs:40-233 | A write that changes the table deletes the row's entry, unless the row is new, and the tenant's list, as far as Redis is reached, and no other entry |
| RowHistory.LastWriterWins | crates/backup-service/src/handlers/backups.rs:12-237 | After any run of requests and gRPC writes a row is there exactly if the last event to create or delete it created it, and each of its fields is what was last written to it |
| RowHistory.PathsStayGood | crates/backup-service/src/handlers/backups.rs:338-349 | No run holds a row whose path is empty, relative or contains `..` |
| RowHistory.ProtocolWritesAlike | crates/backup-service/src/grpc.rs:28-89 | Every step of the job protocol changes the rows just as the request or gRPC call that it stands for |
| RowHistory.RequestsAreSteps | crates/backup-service/src/handlers/backups.rs:12-237 | A writing request succeeds exactly if its protocol step is enabled, with the same effect on the rows |
| Handlers.BackupService.CreateBackup | crates/backup-service/src/handlers/backups.rs:12-46 | Response, table and cache after the request, errors included |
| Handlers.BackupService.GetBackup | crates/backup-service/src/handlers/backups.rs:49-77 | Response and cache after the request: an entry of another tenant is passed over |
| Handlers.BackupService.ListBackups | crates/backup-service/src/handlers/backups.rs:80-174 | Response and cache after the request: the list cache serves and stores only the configured page |
| Handlers.BackupService.UpdateBackup | crates/backup-service/src/handlers/backups.rs:177-211 | Response, table and cache after the request |
| Handlers.BackupService.DeleteBackup | crates/backup-service/src/handlers/backups.rs:214-237 | Response, table and cache after the request |
| Handlers.BackupService.AnalyzeBackup | crates/backup-service/src/handlers/backups.rs:242-287 | The entropy of the repeated path of the row in the table, between 0 and 8; flagged exactly from 7.5, never for ASCII |
| Transparency.ServeAgrees | crates/backup-service/src/handlers/backups.rs:12-237 | One request keeps cache and table in agreement, as far as entries are alive, and is answered accordingly, in both strengths of agreement |
| Transparency.InvisibleIffAgrees | crates/backup-service/src/handlers/backups.rs:40-233 | With effective invalidations every run from now on, its clock never turning back, is answered as without a cache, whatever expires, exactly if all entries alive now agree with the table |
| ClientView.Lifecycle | crates/backup-service/tests/api_tests.rs:108-190 | Create, read, patch, read, delete, read answer as promised, field by field, with the cache in between |
| Transparency.OnlyProgressLags | crates/backup-service/src/grpc.rs:35-89 | With gRPC writes in between, ids, order, total and the fixed fields of rows are always right; only status, size and update time lag |
| Exposure.RpcIsSeenIffShown | crates/backup-service/src/grpc.rs:35-72 | A gRPC write makes the cache visible in some later run exactly when it changes a row that an entry still alive shows |
| Exposure.LostInvalidationIsSeenIffOverlooked | crates/backup-service/src/cache.rs:89-124 | A create, PATCH or delete with either deletion lost, both or none makes the cache visible in some later run exactly when an entry outlives the change: its own entry after a changing PATCH or a delete, the list after a create or delete, the list after a PATCH of a row on its page |
| ClientView.TenantsAreIsolated | crates/backup-service/src/handlers/backups.rs:54-103 | In no run, whatever fails in Redis, is a tenant shown a row of another |
| Exposure.ReconfigurationIsSeenIff | crates/backup-service/src/handlers/backups.rs:94-103 | New ttl, list limit and list offset make the cache visible in some later run exactly if a client can ask for the new page and some tenant with a list alive has a different page there |
| Exposure.PagesEqualIff | crates/backup-service/src/handlers/backups.rs:113-158 | Two pages of a list of n different entries are equal exactly if both lie past its end, or they start together and are of one limit or both reach the end |
| Exposure.ListKeyOmitsLimit | crates/backup-service/src/cache.rs:97-116 | A run that gets there: after the configured limit is raised, the stored list still answers, with too few rows |
| Staleness.BackupStaleness | crates/backup-service/src/handlers/backups.rs:54-76 | Over all interleavings a cached row was exactly the table's less than the longest ttl plus the longest fill delay ago |
| Staleness.ListStaleness | crates/backup-service/src/handlers/backups.rs:94-166 | The same for the items and the total of a cached list, which may stem from two moments |
| Staleness.MissStaleness | crates/backup-service/src/handlers/backups.rs:60-76 | A row answered on a miss is no older than the handler's own delay |
| Staleness.BoundIsTight | crates/backup-service/src/cache.rs:78-87 | For every ttl and delay some run attains the bound to the tick |
| HandlerSteps.ServeIsARun | crates/backup-service/src/handlers/backups.rs:12-237 | Each handler, uninterrupted, is a run of the steps whose interleavings the staleness bounds are about, with the same table and cache at the end |
| RateLimiter.InMemoryRateLimiter.CheckAndIncrement | crates/backup-service/src/middleware/rate_limit.rs:42-70 | The tenant's new counter and the decision; no other counter changes |
| RateLimiter.RateLimitMiddleware | crates/backup-service/src/middleware/rate_limit.rs:83-127 | No claims, no limit; otherwise headers on admission and Retry-After on rejection |
| LimiterRuns.RunRequests | crates/backup-service/src/middleware/rate_limit.rs:42-70 | The limiter at work on any run of requests gives the decisions of the specification that the other results are about |
| LimiterRuns.TenantsAreIndependent | crates/backup-service/src/middleware/rate_limit.rs:47-69 | In any interleaved run, under any configurations, a tenant sees exactly what it would see alone |
| LimiterRuns.FreshWindowShape | crates/backup-service/src/middleware/rate_limit.rs:54-69 | A window answers max - 1, ..., 1, 0 and then rejects |
| LimiterRuns.NextIsAdmittedIff | crates/backup-service/src/middleware/rate_limit.rs:49-69 | After any run under any configurations, the next request is admitted exactly if its limit is positive and window_secs times 10^9 ns have passed since the window opened, or the window has room; and with what is left |
| LimiterRuns.RetryAfterSuffices | crates/backup-service/src/middleware/rate_limit.rs:98-119 | After any run, a tenant that waits as many seconds as the reply to its latest request advises is admitted next with a full quota, provided the window has not been made longer |
| LimiterRuns.LongerWindowOutlastsRetryAfter | crates/backup-service/src/middleware/rate_limit.rs:52-56 | Without that proviso it fails: told to come back after 1 s, a tenant is rejected then because the window was raised to 60 s |
| LimiterRuns.SlidingBound | crates/backup-service/src/middleware/rate_limit.rs:47-68 | Any interval admits to a tenant at most the larger of two numbers: ceil(length / window) full quotas, and ceil((length - 1) / window) of them plus max - 1; so at most 2 * max - 1 in a window's length |
| LimiterRuns.SlotsIsCeiling | crates/backup-service/src/middleware/rate_limit.rs:49-56 | The number of windows used in that bound is the length over the window, rounded up |
| LimiterRuns.SlidingBoundIsTight | crates/backup-service/src/middleware/rate_limit.rs:53-61 | For every limit, window and length of interval some time-ordered run of constant configuration is admitted exactly that often |
| LimiterRuns.LargestLimitRules | crates/backup-service/src/middleware/rate_limit.rs:58-61 | One window admits at most the largest limit it sees, however the configuration changes meanwhile |
| RemoteConfig.AppConfig.ApplyUpdate | crates/backup-service/src/apollo/merge.rs:24-43 | Present fields are written, nested ones included, all others kept |
| RemoteConfig.AppConfig.RunUpdaterLoop | crates/backup-service/src/apollo/fetch.rs:29-48 | Successes are merged in order, failures change nothing |
| RemoteConfig.AppConfig.RunOneUpdate | crates/backup-service/src/apollo/fetch.rs:51-62 | Says whether the fetch succeeded, and merges exactly then |
| RemoteConfig.FieldsAfterFetches | crates/backup-service/src/apollo/merge.rs:25-43 | After any fetches each updatable field has its last present value or its start value, and all others are unchanged |
| RemoteConfig.RunIsOneUpdate | crates/backup-service/src/apollo/fetch.rs:36-47 | Any sequence of fetches has the effect of one right-biased merged update |
| RemoteConfig.ThenIsMonoid | crates/backup-service/src/apollo/merge.rs:24-43 | Merging updates is associative, and the empty update is its identity |
| RemoteConfig.IdleUpdate | crates/backup-service/src/apollo/merge.rs:25-42 | An update changes no configuration exactly if it carries no field |

## Left out

- Floating-point rounding in the entropy code: the model computes over the reals with an ideal logarithm.
- Overflow of the limiter's counter and of the histogram's `unsigned long`: naturals here.
- Overflow of `i64` sizes and totals: unbounded integers here.
- Failing SQL statements, other than a primary-key collision and a violated CHECK: they change nothing and answer with an error.
- A list handler's two SELECTs as separate steps appear in `Staleness` only; `Handlers` takes each handler as atomic.
- PostgreSQL, Redis, RabbitMQ, JSON and JWT internals: each is represented by the short contract stated above.
- HTTP routing, authentication, telemetry, metrics and health probes: no state that the modelled parts depend on.
- Worker.Cluster.Interleave: its body does nothing; only its contract, which allows any steps of others, is used.
- Worker.Cluster.InterleaveHolding: likewise.
- Staleness.BackupStaleness: is proved for runs that start with an empty cache.
- Worker.RunProcess: does not count the 30 seconds that a shutdown waits for the worker; see the assumptions.
- JobSafety.NoRowIsStuck: promises somebody who may still report, not that the report arrives; `Drain` covers that once requests stop.
- RPC effects that land after their message has been redelivered, and publications lost without an error.
