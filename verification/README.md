# Stackly: a verified model of its coordination core

Stackly is a Go server that scans web sites for the technologies they use. This project models
the parts of it that coordinate goroutines, keep bounded state over time, or transform data, and
proves what they guarantee on every input, every run and every interleaving. It is written for
Dafny 4.11; `dafny verify dfyconfig.toml` checks the whole project.

| component | files | form |
|---|---|---|
| job queue and worker pool | `ScanEvents`, `JobTable`, `QueueProtocol`, `QueueTheorems`, `QueueProgress`, `QueueOutcomes`, `JobQueue` | transition system, and the queue object |
| event hub | `HubProtocol`, `HubTheorems`, `Hub` | transition system, and the hub object |
| queue and hub together | `LiveProgress`, `PublishPanic` | product of the two transition systems |
| scheduler | `SchedulerProtocol`, `SchedulerTheorems`, `SchedulerProgress`, `Scheduler`, `Webhook` | transition system, tick and retry loops |
| schedule store | `SaveLoop`, `WebhookSecrets`, `ScheduleStore` | transition systems, and objects that keep the program's aliasing |
| rate limit and monthly quota | `TokenBucket`, `Calendar`, `Quota` | objects over real and civil time |
| result cache | `CacheModel`, `Cache` | transition system beside its reference map, and the object |
| report escaping | `PercentEscape` | loop, with the decoder of section 2.1 of RFC 3986 as its inverse |
| scanner loops | `ExchangeSort`, `SortStability`, `ContactPages`, `Emails`, `ScriptScan` | loops against reference definitions |

The transition systems interleave the program's critical sections, channel operations and
publish operations. The objects implement those critical sections; both sides are tied to the
same relations (`JobTable.CleanedTo`, `JobTable.AdmissionLeaves`, `QueueProtocol.RunningRecord`,
`QueueProtocol.FinalRecord`, `SaveLoop.Apply`, `CacheModel.EvictedTo`, `CacheModel.Live`,
`Sequences.LastN`), so a theorem about all runs speaks of what the methods do. `Runs` and
`Sequences` hold what the components share. Lemmas that end in `IsAStep` say that what a method
leaves is what a step of the transition system leaves, and lemmas that end in `Means` say in plain
terms what a definition accepts.

## Where the code differs from what one would expect

Each of these is kept as the code has it, with the exact condition proved.

- A full channel leaves a job pending for good: an accepted job can still be finished exactly
  when the channel had room at its Enqueue (`FinishableIffChannelHadRoom`). At most 900 jobs are
  lost that way, and the queue never closes for good (`AtMostNineHundredStranded`,
  `QueueNeverClosesForGood`).
- A job answered from the cache publishes no terminal event
  (`TerminalStatusFollowsTerminalEvent`, `ClientGetsTheTerminalEventIff`).
- The last client to leave drops the job's replay buffer. A client that connects with replay gets
  the terminal event of a scanned job exactly when some event came after the last drop
  (`ClientGetsTheTerminalEventIff`); one that connects to a finished job after its last client
  left waits in vain (`LatecomerGetsNothing`).
- Publish sends after it has released the lock, so it can hit a channel that Unsubscribe has
  closed (`PublishCanPanic`), exactly when a send is still owed at the close
  (`CloseIsSafeIffNothingIsOwed`).
- A tick that works from a stale list can start a schedule twice within its interval
  (`StaleSnapshotStartsEarly`), exactly when the schedule has run before and its NextRun lies in
  the future at the claim (`ClaimIsSafeIffStillDue`; manual runs and interval changes of this
  schedule aside, and whatever happens to others).
- Updates and deletions of schedules do not wake the saver (`DeletionCanStayUnsaved`). A comment
  says that a failed save is tried again on the next tick; the code waits for the next mark
  (`FailedSaveIsNotRetried`, `WhatEndsRest`). At rest, all changes are on disk exactly when the
  last snapshot was written and no update or deletion came after it (`AllOnDiskAtRestIff`).
- The comment on nextMonthStart says that the server's zone is ignored; the code reads local
  calendar fields. In every month the quota holds exactly where the zone is not west of UTC
  (`GregorianQuotaEnforcedIff`); west of it, reservations are unlimited for as long as the server
  is still in the previous month (`StaleWindowIsUnlimited`). The dual fails on the other side: a
  refusal means that the month granted its quota exactly where the zone is not east of UTC
  (`DenialsAreFairIff`).
- Responses are redacted through the stored pointer, so a webhook secret is erased by the very
  request that sets it. A delivery is signed exactly when it is sent between the store and the
  redaction, or after a restart from a file that was saved in between (`SignedIff`).
- The comment on normalizeURL mentions fragments and host case; the code strips trailing slashes
  only (`SameKeyIff`).
- The cache forgets unexpired entries when it overflows: where no two keys share an instant, an
  unexpired key is still there exactly when fewer than 5000 others were stored since
  (`KeyAgreesIff`).
- After a restart, a cached entry can be missing at its exact expiry instant, and only there
  (`RestartChangesOnlyTheExpiryInstant`).
- The exchange sort is not stable (`NotStable`), yet its head is the leftmost best element. A pass
  keeps the order of equals exactly when no element jumps over an equal one
  (`PassKeepsOrderIff`); the whole sort does if nothing that follows two equals outranks them
  (`RankKeepsOrder`). Of the two contact pages returned, the second is the leftmost of the next
  best score exactly when fewer than two candidates of that score precede the first
  (`SecondPageIsLeftmostIff`).

## Model

| member | source | states |
|---|---|---|
| QueueProtocol.NextKeepsInv | internal/queue/queue.go:97-135 | every step of every Enqueue, worker and clean-up keeps the queue's invariant: each job is in exactly one place and has published exactly what that place allows |
| QueueTheorems.EventsFollowTheProtocol | internal/queue/queue.go:222-309 | in every reachable state a job's events are a prefix of one of the three complete traces, "pending" first, progress rising strictly, terminal event unique and last |
| QueueOutcomes.EveryOutcomeIsOpen | internal/queue/queue.go:222-309 | from every reachable state, every queued job can still end in each way: cache hit, failed scan, or success with 0, 1 or 2 e-mail events, having published exactly that trace with the matching record |
| QueueTheorems.TerminalStatusFollowsTerminalEvent | internal/queue/queue.go:238-298 | a terminal status is preceded by the matching terminal event, except after a cache hit, where no terminal event exists |
| QueueTheorems.JobConservation | internal/queue/queue.go:97-135 | the table is the disjoint union of queued, held, stranded and retained finished jobs, each queued or held job once, so the four counts add up to its size, never above 1000 |
| QueueTheorems.StatusFollowsThePlace | internal/queue/queue.go:205-226 | a pending job is queued, stranded or just received by a worker, a running one is held by a worker that has marked it, a finished one is nowhere else |
| QueueTheorems.FinishingWasRunning | internal/queue/queue.go:222-309 | a step that finishes a job finds it running: no status is skipped |
| QueueTheorems.RunAdvances | internal/queue/queue.go:205-309 | along any run statuses only move forward, finished records never change, published events only grow, and a job is stranded from its creation or never |
| QueueTheorems.StatusOnlyMovesForward | internal/queue/queue.go:222-298 | along any run a status moves only from pending through running to completed or failed, where the record stays as it is |
| QueueTheorems.DequeueIsFifo | internal/queue/queue.go:205-219 | jobs are received in the order in which they were sent, none lost and none repeated |
| QueueProgress.FinishableIffChannelHadRoom | internal/queue/queue.go:118-123 | from any later state some continuation finishes an accepted job exactly when the channel had room at its Enqueue; otherwise the job stays pending in the table with only its first event, forever |
| QueueProgress.AtMostNineHundredStranded | internal/queue/queue.go:101-123 | in every reachable state at most 900 jobs are stranded, since each was left beside a full channel in a table of at most 1000 |
| QueueProgress.NineHundredCanBeStranded | internal/queue/queue.go:97-123 | the bound is reached by a run from any initial state |
| QueueProgress.NoneStrandedAtTheLimit | internal/queue/queue.go:101-123 | once 900 jobs are stranded, every job admitted later enters the channel |
| QueueProgress.QueueNeverClosesForGood | internal/queue/queue.go:97-123 | from every reachable state some continuation admits a job and sends it |
| QueueProgress.RunOut | internal/queue/queue.go:222-309 | a busy worker can be run to the end of its job, from whatever phase, leaving table and channel as they were |
| QueueProgress.IdleWorkerReceives | internal/queue/queue.go:208-217 | an idle worker can take the head of the channel whoever holds the lock |
| QueueTheorems.PublishersAreSerial | internal/queue/queue.go:127-132 | for one job a Publish starts only when no other Publish for it is still sending |
| ScanEvents.PrefixIsWellOrdered | internal/scanner/scanner.go:176-297 | every prefix of a complete trace has strictly rising progress, at most one terminal event, at its end, and at most eight events |
| JobTable.CleanupDropsOnlyFinished | internal/queue/queue.go:360-386 | a clean-up drops only finished jobs, at most one of them unexpired, and that one is no younger than any finished job kept |
| JobTable.CleanupInPlainTerms | internal/queue/queue.go:360-386 | jobs that ended and were created over 24 hours ago go; if a thousand or more stay, an oldest of those that ended goes too; no pending or running job ever goes |
| JobTable.CleanupMakesRoom | internal/queue/queue.go:370-385 | a clean-up of a full table makes room exactly when the table holds a finished job |
| JobTable.RejectedIffFullOfLiveJobs | internal/queue/queue.go:101-107 | admission fails exactly when the table is full and holds no finished job, and never lets it exceed capacity |
| JobQueue.JobQueue.DropExpired | internal/queue/queue.go:361-368 | the first loop deletes exactly the jobs that ended and were created over 24 hours ago, whatever the iteration order |
| JobQueue.JobQueue.FindOldest | internal/queue/queue.go:372-381 | the second loop finds an oldest finished job, or there is none |
| JobQueue.JobQueue.CleanupLocked | internal/queue/queue.go:360-386 | the table after it is the one of the clean-up in plain terms, and surviving jobs are the same objects |
| JobQueue.JobQueue.Admit | internal/queue/queue.go:101-107 | false exactly when the table is full of unfinished jobs, and then, or with room, the table is untouched |
| JobQueue.JobQueue.Enqueue | internal/queue/queue.go:97-135 | ErrQueueFull exactly when full of unfinished jobs, changing nothing; otherwise a fresh pending job enters the table, and the channel unless that is full |
| JobQueue.JobQueue.MarkRunning | internal/queue/queue.go:223-227 | the job's record and the table become what the protocol's running step makes of them |
| JobQueue.JobQueue.Finish | internal/queue/queue.go:240-298 | on each of the three ways out of processJob, the record and the table become what the protocol's finishing step makes of them |
| JobQueue.EnqueueIsAStep | internal/queue/queue.go:97-123 | the table and channel that an accepted Enqueue leaves are those of a step of the protocol |
| JobQueue.CleanupIsAStep | internal/queue/queue.go:101-107 | the table that a rejected Enqueue or the periodic clean-up leaves is that of a step of the protocol |
| JobQueue.MarkingIsAStep | internal/queue/queue.go:223-227 | the worker's first critical section on the object is a step of the protocol |
| JobQueue.FinishingIsAStep | internal/queue/queue.go:280-298 | so is its last one, once it has published what it had to |
| JobQueue.JobQueue.ListJobs | internal/queue/queue.go:145-168 | the jobs, each once, newest first, cut to a positive limit; no job left out is newer than one listed |
| HubProtocol.NextKeepsInv | internal/ws/hub.go:81-148 | every interleaving of Publish, its sends, Subscribe, Unsubscribe and closing keeps the hub's invariant |
| HubProtocol.SerialNextKeepsInv | internal/ws/hub.go:123-148 | when Publish calls do not overlap, every step keeps each subscriber's history in publication order |
| HubTheorems.ReplayIsTheRecentWindow | internal/ws/hub.go:128-134 | the replay buffer is the last min(32, n) of the n events since it was last dropped |
| HubTheorems.NewSubscriberGetsTheReplay | internal/ws/hub.go:92-100 | a new subscriber with replay finds the whole buffer in its channel, nothing dropped |
| HubTheorems.EachEventEntersAtMostOnce | internal/ws/hub.go:135-147 | no event enters a subscriber's channel twice, as replay or live, although sends run outside the lock |
| HubTheorems.NothingPublishedLaterArrives | internal/ws/hub.go:107-118 | a Publish that starts after an Unsubscribe never touches that channel, nor owes it a send |
| HubTheorems.CloseIsSafeIffNothingIsOwed | internal/ws/hub.go:107-118 | after a close, a send on the closed channel is reachable exactly when some Publish still owed that subscriber a send |
| PublishPanic.PublishCanPanic | internal/ws/hub.go:142-147 | in the whole system a client that connects once its job is announced and leaves while the worker publishes makes that Publish send on a closed channel |
| HubTheorems.SerialDeliveryIsInOrder | internal/ws/hub.go:123-148 | without overlapping Publish calls a channel's history is in order, and gap-free from its first tag unless the channel filled |
| Hub.Hub.Subscribe | internal/ws/hub.go:81-103 | the subscriber is added for its job only and starts with that job's replay buffer |
| Hub.Hub.Unsubscribe | internal/ws/hub.go:107-118 | the subscriber is removed and closed, and the last one out drops the replay buffer of its job only |
| Hub.Hub.Record | internal/ws/hub.go:128-140 | the critical section of Publish: the replay buffer becomes its last 32 events, recipients are the job's subscribers |
| Hub.Hub.SendAll | internal/ws/hub.go:142-147 | the sends after the lock is released, whatever happened since: they panic exactly when a recipient's channel is closed, and otherwise each recipient is offered the event once |
| Hub.Hub.Publish | internal/ws/hub.go:123-148 | with nothing in between, each subscriber of the job is offered the event once, full channels drop it, other jobs are untouched and nothing panics |
| Hub.SubscribeIsAStep | internal/ws/hub.go:87-101 | what Subscribe does to a job's subscribers, channels and replay buffer is a step of the protocol |
| Hub.UnsubscribeIsAStep | internal/ws/hub.go:108-116 | so is the critical section of Unsubscribe |
| Hub.CloseIsAStep | internal/ws/hub.go:157-164 | so is closing the channel of a subscriber that has left |
| Hub.RecordIsAStep | internal/ws/hub.go:128-140 | so is the critical section of Publish, after which sends are owed to the live subscribers |
| Hub.SendIsAStep | internal/ws/hub.go:142-147 | so is each send: a channel of 32 drops the event, a closed one panics |
| Hub.EndingAndReadingAreSteps | internal/ws/hub.go:142-148 | a Publish that has made its sends ends, and a client reads its channel from the front, in any state |
| LiveProgress.ClientSeesTheJobsEvents | internal/queue/queue.go:97-309 | for every interleaving of queue and hub, a client's channel history is a contiguous stretch of the job's published events: none lost, repeated or reordered |
| LiveProgress.JoinerSeesEverythingSince | internal/ws/hub.go:78-103 | a client that connects with replay has, at every later moment, the job's events from the last drop of the replay buffer on; without replay, from its arrival on |
| LiveProgress.ClientGetsTheTerminalEventIff | internal/queue/queue.go:238-298 | a client subscribed when a scanned job is finished has received its terminal event, last, exactly when some event came after the last drop of the buffer before it connected; none after a cache hit |
| LiveProgress.LatecomerGetsNothing | internal/ws/hub.go:107-118 | once the last client of a finished job has left, whoever connects later never receives anything |
| SchedulerProtocol.NextKeepsInv | internal/scheduler/scheduler.go:94-157 | every step of the ticker, the runs, the dispatches and the API keeps: one run per in-flight schedule, no claim of a schedule in flight, active dispatches within taken slots |
| SchedulerTheorems.AtMostOneRunPerSchedule | internal/scheduler/scheduler.go:94-110 | at most one run per schedule although test and claim are separate steps, and at most ten active dispatches |
| SchedulerTheorems.NextRunIsAnIntervalOn | internal/scheduler/store.go:21-32 | between its runs, a schedule's NextRun is 3600, 86400 or 604800 seconds after its last start, unknown intervals counting as days |
| SchedulerProgress.TickStartsIff | internal/scheduler/store_api.go:168-177 | left to itself, a resting ticker can start a run of a schedule exactly when it is stored, enabled, not due in the future and not in flight |
| SchedulerProgress.SpawnedRunCanComplete | internal/scheduler/scheduler.go:108-157 | from every reachable state a spawned run can complete: NextRun advanced, the webhook's dispatch active, the schedule no longer in flight |
| SchedulerProgress.OrphanedRunEnds | internal/scheduler/scheduler.go:109-114 | a run whose schedule was deleted ends at once |
| SchedulerProgress.ApiCallsAreSteps | internal/scheduler/store_api.go:86-133 | schedules can be added, changed and deleted at any moment |
| SchedulerTheorems.StartsAreAnIntervalApart | internal/scheduler/scheduler.go:116-122 | if each claim of a schedule is made while it is due, and nobody runs it by hand or changes its interval, its starts are a full interval apart, whatever happens to others |
| SchedulerTheorems.AtomicTicksSpaceTheRuns | internal/scheduler/scheduler.go:94-122 | with atomic ticks, successive starts of a schedule that nobody runs by hand and whose interval nobody changes are a full interval apart |
| SchedulerTheorems.ClaimIsSafeIffStillDue | internal/scheduler/scheduler.go:95-102 | for a schedule that nobody runs by hand and whose interval nobody changes, a claim can lead to an early start exactly when it is still stored, has run before, and its NextRun lies in the future at the claim |
| SchedulerTheorems.StaleSnapshotStartsEarly | internal/scheduler/scheduler.go:95-122 | a concrete run in which an hourly schedule starts twice within thirty seconds |
| Scheduler.Scheduler.Tick | internal/scheduler/scheduler.go:94-104 | a run is spawned for exactly the due schedules not in flight, once each, in list order |
| Webhook.SleptIsGeometric | internal/scheduler/scheduler.go:229-255 | the pauses before n POSTs add up to (3^(n-1) - 1) / 2 seconds |
| Webhook.Dispatch | internal/scheduler/scheduler.go:200-256 | exactly one log record, whose attempt is the number of POSTs and whose status is that of the last POST; posting stops at the first delivery or after three |
| SaveLoop.NextKeepsInv | internal/scheduler/store_api.go:40-133 | every step of mutators, saver and Close keeps: memory and disk are what their changes make of the loaded content, and a marked change no snapshot has held has a save on its way |
| SaveLoop.ChangeIsAStep | internal/scheduler/store_api.go:86-133 | any change of the store is a step in any state, and insertions and log records will mark |
| SaveLoop.ComingSaveCanComplete | internal/scheduler/store_api.go:50-73 | whenever a save is coming, it can bring the whole memory to the disk |
| SaveLoop.CloseCanFlush | internal/scheduler/store_api.go:40-46 | from any state Close can bring the whole memory to the disk |
| SaveLoop.NoLostWakeUp | internal/scheduler/store_api.go:50-101 | whether saves succeed or fail, an insertion or log record newer than the last snapshot has a token queued, a saver about to snapshot or a caller about to mark, unless Close took over |
| SaveLoop.MarkedOffDiskAtRestIff | internal/scheduler/store_api.go:63-68 | at rest, an insertion or log record is off disk exactly when the writes that held it failed |
| SaveLoop.AllOnDiskAtRestIff | internal/scheduler/store_api.go:50-81 | at rest, all changes are on disk exactly when no write since has failed and no update or deletion came after the last snapshot; then disk equals memory |
| SaveLoop.FailedSaveIsNotRetried | internal/scheduler/store_api.go:63-68 | from any settled state, a marked change whose write fails leads to a settled state with that change off disk |
| SaveLoop.WhatEndsRest | internal/scheduler/store_api.go:50-73 | only a marked change or the saver's stop ends a settled state |
| SaveLoop.DeletionCanStayUnsaved | internal/scheduler/store_api.go:112-133 | from any settled state a deletion leads to another settled state whose disk still has the schedule |
| SaveLoop.NextSaveCoversEverything | internal/scheduler/store_api.go:63-68 | every change, marked or not, is on disk from the next successful save on |
| SaveLoop.CloseFlushes | internal/scheduler/store_api.go:40-46 | after a successful Close and no further change, disk equals memory |
| SaveLoop.LogIsTheLastHundred | internal/scheduler/store_api.go:182-196 | over any run of changes the log is the last 100 records ever written |
| ScheduleStore.Store.LogDelivery | internal/scheduler/store_api.go:182-196 | the store's content changes as the save loop's log record says, and the store is marked |
| ScheduleStore.Store.RecentDeliveries | internal/scheduler/store_api.go:199-210 | the newest n records, newest first; all of them for a non-positive or too large n |
| ScheduleStore.Store.AddSchedule | internal/scheduler/store_api.go:96-100 | the caller's own object is stored, the content changes as the save loop's insertion says, and the store is marked |
| ScheduleStore.Store.AdvanceNextRun | internal/scheduler/scheduler.go:119-122 | writing NextRun through the stored pointer is one unmarked update of the store's content |
| ScheduleStore.Store.DeleteSchedule | internal/scheduler/store_api.go:125-133 | the content changes as the save loop's deletion says, unmarked, and the answer says whether the schedule existed |
| ScheduleStore.RedactSchedule | internal/api/schedules.go:350-355 | the secret is erased and remembered only as a flag |
| ScheduleStore.ApplyPatch | internal/api/schedules.go:209-226 | each field given is set and each other field kept, unknown intervals are ignored, and the flag follows the secret |
| ScheduleStore.HandlePost | internal/api/schedules.go:123-137 | what the store holds afterwards is the redacted record, so the schedule claims a secret and has none |
| ScheduleStore.HandleGet | internal/api/schedules.go:182-185 | reading a schedule is an update of the store that redacts this one record |
| ScheduleStore.HandlePatch | internal/api/schedules.go:209-232 | the store's record becomes the patched one, redacted: unknown intervals are ignored, absent fields kept, and the secret just set is gone |
| ScheduleStore.RedactedChangesAddNoSecret | internal/api/schedules.go:123-232 | what completed requests write keeps a store without secrets without secrets |
| WebhookSecrets.SignedIff | internal/api/schedules.go:123-231 | over all interleavings of requests, deliveries, saves and restarts, a delivery is signed exactly when its read falls between the store of a secret and the next redaction or overwrite, or follows a restart that loaded a file saved in such a stretch |
| WebhookSecrets.DiskHoldsSecretIff | internal/scheduler/store.go:117-137 | the file holds a secret exactly when the last save found one in memory |
| WebhookSecrets.WindowIsOwed | internal/api/schedules.go:209-231 | throughout such a stretch some handler still has to redact |
| WebhookSecrets.SignedOnlyWhileOwed | internal/scheduler/scheduler.go:270-274 | a schedule created by a request signs only while a request on it is between store and redaction, and so does a loaded one if no save of that schedule fell in between |
| WebhookSecrets.RedactionErases | internal/api/schedules.go:350-355 | a redaction erases the secret of the object its handler holds |
| WebhookSecrets.PatchOpensAWindow | internal/api/schedules.go:222-231 | a PATCH with a secret opens a window on the stored schedule, in any state |
| WebhookSecrets.ReadingOwesARedaction | internal/api/schedules.go:183-185 | a GET, or a PATCH without a secret, stores nothing and will redact |
| WebhookSecrets.DeletionLeavesTheObject | internal/scheduler/store_api.go:125-133 | a deleted schedule is gone from table and file, while its object lives on |
| WebhookSecrets.DirtyFileSigns | internal/scheduler/store.go:88-112 | a save inside that stretch and a restart leave a schedule that signs with no request under way |
| TokenBucket.Auth.Allow | internal/auth/auth.go:689-714 | decision and new bucket of the caller's key by the refill rule; no other bucket changes |
| TokenBucket.LazyRefillIsExact | internal/auth/auth.go:700-707 | refilling at two times is refilling once at the later one |
| TokenBucket.WindowBound | internal/auth/auth.go:689-714 | from any bucket, the calls allowed in [s, e] number at most rate + (e - s) / window * rate |
| TokenBucket.AllowedWithinCounts | internal/auth/auth.go:689-714 | that count is the number of calls allowed in the interval |
| TokenBucket.BurstIsCut | internal/auth/auth.go:693-713 | of a burst at one instant on a new key exactly the first rate calls are allowed |
| TokenBucket.LimiterWindowBound | internal/auth/auth.go:689-714 | the same bound for one key of a limiter that serves any mix of keys |
| TokenBucket.DeniedCallsLeaveNoTrace | internal/auth/auth.go:700-713 | deleting any denied calls from a run leaves all other decisions unchanged |
| TokenBucket.SpacedCallerIsNeverDenied | internal/auth/auth.go:700-713 | for rate at least 1, calls spaced window / rate apart are all allowed |
| TokenBucket.KeysAreIndependent | internal/auth/auth.go:693-698 | a key's decisions are those of its own calls alone |
| Calendar.MonthLength | internal/auth/auth.go:357-359 | each month starts where the previous one ends, across leap Februaries and December |
| Calendar.MonthsInPlainNumbers | internal/auth/auth.go:357-359 | the month lengths in nanoseconds, with the leap years of the Gregorian calendar |
| Calendar.UnixEpoch | internal/auth/auth.go:357-359 | January 1970 begins 719528 days after the epoch of the model |
| Calendar.DecemberRollsOver | internal/auth/auth.go:357-359 | month 13 is January of the next year |
| Calendar.NextMonthByFields | internal/auth/auth.go:357-359 | adding one to the month field names the start of the following month |
| Quota.Store.MaybeResetLocked | internal/auth/auth.go:345-352 | counter and reset instant change exactly when the period is unset or over |
| Quota.Store.Quota | internal/auth/auth.go:287-305 | a read resets a period that is over and reserves nothing |
| Quota.Store.CheckAndIncrementQuota | internal/auth/auth.go:310-341 | a slot is reserved exactly when the account, reset if due, is under its limit or admin; used, limit, remaining and reset are reported in plain numbers; other accounts unchanged |
| Quota.ResetIsNotAfterNowIff | internal/auth/auth.go:354-359 | the computed reset instant is not after now exactly when the UTC month is later than the local one |
| Quota.PeriodGrantsAtMostTheQuota | internal/auth/auth.go:310-352 | a period that no reset instant falls into grants at most the quota |
| Quota.GrantedWithinCounts | internal/auth/auth.go:310-341 | the grants of a period are counted as the calls granted in it |
| Quota.StaleWindowIs | internal/auth/auth.go:357-359 | the stretch of a UTC month in which the server's calendar is still in an earlier month lasts exactly as long as its zone is behind UTC |
| Quota.StaleWindowIsUnlimited | internal/auth/auth.go:345-359 | in that stretch any number of reservations, at any instants and of any tier, are all granted |
| Quota.QuotaEnforcedIff | internal/auth/auth.go:310-359 | for every single month: no run from a fresh account exceeds the quota in it exactly when the zone offset is not negative |
| Quota.GregorianQuotaEnforcedIff | internal/auth/auth.go:76-81 | the same for every month of the Gregorian calendar |
| Quota.DenialsAreFairIff | internal/auth/auth.go:310-359 | for every single month: in all runs from a fresh account a refusal in it means that it granted the quota, exactly when the zone offset is not positive |
| Quota.GregorianQuotaIsExactIff | internal/auth/auth.go:310-359 | so a month means the quota, no more and no less, exactly on a server at UTC |
| CacheModel.NextKeepsInv | internal/cache/cache.go:51-242 | every Set, Get, Clear, clean-up and restart keeps: entries are latest entries, at most 5000, lost ones are the oldest, and disk agrees on what is unexpired |
| CacheModel.HitIsTheLastSet | internal/cache/cache.go:51-98 | a hit was preceded by a Set of its key since the last Clear, carries that Set's value and times, and is within its TTL; the size is at most 5000 |
| CacheModel.LastSetIsAnswered | internal/cache/cache.go:51-98 | a Get answers with what the last Set stored until its TTL is over, while fewer than 5000 others were stored since |
| CacheModel.RecentKeyAgrees | internal/cache/cache.go:51-126 | a key answers as in the unbounded map whenever fewer than 5000 others were stored at or after its latest Set, but for an exact expiry instant after a restart |
| CacheModel.KeyAgreesIff | internal/cache/cache.go:88-126 | where no two keys share an instant, that condition is exact for an unexpired key |
| CacheModel.CacheAgreesWithUnboundedMap | internal/cache/cache.go:51-126 | while the unbounded map holds at most 5000 unexpired keys, every key answers as in it, but for an exact expiry instant after a restart |
| CacheModel.EvictionTakesAnOldest | internal/cache/cache.go:101-126 | eviction drops at most one unexpired entry, no younger than any that stays |
| CacheModel.RestartChangesOnlyTheExpiryInstant | internal/cache/cache.go:198-242 | a Get after a restart differs from the one without exactly when load and Get both fall on the expiry instant |
| Cache.SameKeyIff | internal/cache/cache.go:245-260 | two URLs share a normal form exactly when they differ in trailing slashes only |
| Cache.NormalizeURL | internal/cache/cache.go:253-260 | the loop computes the normal form |
| Cache.Cache.Get | internal/cache/cache.go:51-68 | the answer of the lookup, with exactly one counter raised by one |
| Cache.Cache.RemoveExpired | internal/cache/cache.go:183-190 | exactly the expired entries go, and their number is counted |
| Cache.Cache.FindOldest | internal/cache/cache.go:112-121 | the loop finds an entry no younger than any other |
| Cache.Cache.EvictOldest | internal/cache/cache.go:101-126 | the entries after it are ones that the eviction relation allows |
| Cache.Cache.Set | internal/cache/cache.go:71-98 | store, evict when over capacity, and persist what is unexpired |
| Cache.SetIsAStep | internal/cache/cache.go:71-98 | the entries and file that Set leaves are those of the model's Set of the same value |
| Cache.GetIsAStep | internal/cache/cache.go:51-68 | Get leaves entries and file as they are |
| Cache.ClearIsAStep | internal/cache/cache.go:167-176 | Clear leaves what the model's Clear leaves |
| Cache.NewCacheIsARestart | internal/cache/cache.go:222-242 | a new process on the same file is the model's restart |
| Cache.Cache.CleanupExpired | internal/cache/cache.go:179-195 | the unexpired entries stay, and disk is rewritten exactly when something went |
| Cache.CleanupIsAStep | internal/cache/cache.go:179-195 | CleanupExpired leaves what the model's clean-up leaves |
| PercentEscape.EscapeForDataURL | internal/report/pdf.go:67-86 | the loop computes the byte-wise escape |
| PercentEscape.RoundTrip | internal/report/pdf.go:67-93 | decoding by section 2.1 of RFC 3986 returns every byte string |
| PercentEscape.EscapeIsInjective | internal/report/pdf.go:67-93 | different strings have different escapes |
| PercentEscape.EscapeDistributes | internal/report/pdf.go:73-84 | escaping a concatenation concatenates the escapes |
| PercentEscape.EscapeIsSafe | internal/report/pdf.go:73-93 | only printable ASCII without quote, hash and question mark, every percent sign starts an escape in upper-case hex, length between n and 3n |
| PercentEscape.PlainTextStays | internal/report/pdf.go:81-82 | text of safe bytes without a percent sign is not changed |
| ExchangeSort.Sort | internal/queue/queue.go:154-161 | the nested loops compute the ranking in place |
| ExchangeSort.RankIsSortedPermutation | internal/scanner/contact.go:114-121 | the ranking is a descending permutation whose head is the leftmost best element |
| ExchangeSort.CutKeepsTheBest | internal/queue/queue.go:163-165 | no element cut off the ranking outranks one that is kept |
| ExchangeSort.PassIs | internal/queue/queue.go:155-161 | one pass in closed form: each element that outranks all before it sends the previous such element to its own place, the last goes to the front, the rest stays |
| SortStability.PassKeepsOrderIff | internal/scanner/contact.go:115-121 | a pass keeps the order of equals exactly when no element equal to an overtaken one lies between it and the element that overtakes it |
| SortStability.FromIsInjective | internal/scanner/contact.go:115-121 | the closed form moves positions one to one, so it tracks each element through a pass |
| SortStability.RankKeepsOrder | internal/scanner/contact.go:114-121 | the whole sort keeps the order of equals if nothing that follows two equals outranks them |
| SortStability.SecondIsLeftmostIff | internal/scanner/contact.go:114-121 | the second element of the ranking is the leftmost of the next best exactly when fewer than two of that rank precede the best |
| SortStability.NotStable | internal/scanner/contact.go:114-121 | elements of equal rank can change places |
| SortStability.OrderCanReturn | internal/scanner/contact.go:114-121 | that condition is not needed: a later pass can undo an earlier jump |
| ContactPages.FindContactPages | internal/scanner/contact.go:64-131 | the loops return the URLs of the top pages, in order |
| ContactPages.CandidatesAre | internal/scanner/contact.go:64-112 | candidates are distinct, each scored by its first eligible link, and no eligible link is missed |
| ContactPages.EligibleMeans | internal/scanner/contact.go:69-103 | a link counts exactly when it has one of the five prefixes, stays on the host, and mentions a keyword or a fragment |
| ContactPages.ScoreMeans | internal/scanner/contact.go:78-90 | a keyword in the text is worth 2 points, a fragment in the address 5 |
| ContactPages.AddressOutranksText | internal/scanner/contact.go:42-44 | if a candidate with an address match is left out, every page returned has one |
| ContactPages.TopPagesAreTheBest | internal/scanner/contact.go:114-131 | at most two distinct same-host pages, the first the leftmost of the highest score, none left out outranking one returned |
| ContactPages.SecondPageIsLeftmostIff | internal/scanner/contact.go:114-131 | the second page is the leftmost of the next best score exactly when fewer than two candidates of that score precede the first page's |
| Emails.WalkJsonForEmails | internal/scanner/email.go:126-157 | the recursive loops compute the walk |
| Emails.WalkYields | internal/scanner/email.go:126-157 | the walk finds exactly the strings with an at sign that stand under an e-mail key not nested below another |
| Emails.WalkIgnoresFieldOrder | internal/scanner/email.go:129-150 | what is found does not depend on the iteration order of any object |
| Emails.ExtractEmails | internal/scanner/email.go:19-47 | the result is strictly increasing and consists of the 20 smallest accepted addresses |
| Emails.AcceptedMeans | internal/scanner/email.go:22-29 | accepted are the finds, lowered and trimmed, that are valid and no noise |
| Emails.ValidMeans | internal/scanner/email.go:207-219 | valid means 5 to 254 bytes, something before the first at sign, and a dot after it |
| Emails.NoiseMeans | internal/scanner/email.go:223-249 | noise means a listed word anywhere, or an image suffix after the first at sign |
| StringOrder.LessMeans | internal/scanner/email.go:41-41 | the sort order is that of the first difference, a beginning coming before what it begins |
| Emails.ResultIsDetermined | internal/scanner/email.go:37-46 | that description has only one solution |
| Emails.ExtractionIgnoresFieldOrder | internal/scanner/email.go:19-47 | pages whose JSON documents, however many, differ in field order only give the same result |
| ScriptScan.BlocksAreTheElements | internal/scanner/enrich.go:526-545 | the blocks are the successive earliest script elements, and no complete one is left after the last |
| ScriptScan.ElementsAreUnique | internal/scanner/enrich.go:526-545 | a page has only one such list |
| ScriptScan.TurnAdvances | internal/scanner/enrich.go:527-545 | each turn of the loop moves on by at least 16 characters and stays in the page |
| ScriptScan.ScriptBytes | internal/scanner/enrich.go:525-545 | the two counters are the numbers of positions of the page inside script elements without and with " src=" in them, and with nine characters a block fit in the page |
| ScriptScan.BytesArePositions | internal/scanner/enrich.go:537-543 | the sizes added up are the positions covered |
| Text.ContainsMeans | internal/scanner/enrich.go:537-537 | a text contains another exactly when it is something, the other, and something |

## Left out

Simplifications of what is modelled:

- Job, schedule and delivery ids are abstract and fresh; cache keys are the normal forms themselves, so SHA-256 and random ids are taken to be collision-free.
- The protocols name jobs and schedules by id and keep their records in an `objects` map that outlives the table, as a Go pointer does; the job's URL, result, duration, user agent and start time are not modelled, nor are an event's message, technologies, error text and timestamp.
- The hub protocol is the slice of one job; slices share nothing but the lock.
- The progress callback is taken to be installed before the workers start, as cmd/server/main.go does; stopping the queue and closing its channel are not modelled.
- The clock reading, the listing and the filter at the start of a tick are one step; a save's snapshot and write are one step, and so is a redaction.
- SortStability.RankKeepsOrder: gives a condition that suffices for the whole sort, because one that is also needed would have to follow every intermediate list; for one pass, and for the two elements that the contact pages use, the condition is exact.
- TokenBucket.Auth.Allow: tokens and seconds are reals, so floating-point rounding is not modelled.
- Quota.QuotaEnforcedIff: the zone is a fixed offset in whole seconds, so daylight-saving changes are not modelled.
- Cache.Cache.Set: persistence is configured and writes succeed; a failed write and a cache without a file are not modelled.
- The e-mail model takes lower-casing and trimming as arbitrary functions and field names in lower case; how Unicode case mapping works is not modelled.
- ScheduleStore.HandlePatch: owner checks, JSON decoding and webhook URL validation happen before the modelled part and are not modelled.
- Races of the Go memory model (cache counters under a read lock, merged e-mail lists) are taken as atomic accesses.

Not modelled, as foreign calls or as parts that would add only easy members:

- Browser navigation, DNS, RDAP, TLS and HTTP requests, webhook bodies and signatures: their outcomes are inputs.
- The regular expressions of the e-mail and contact extractors: what they match is an input.
- JSON encoding, file formats, atomic rename and the loading of the schedule file: disk is a value.
- URL and address validation, JWT verification, HTTP routing and handlers, metrics, report HTML, the web UI and the browser extension.
- The WebSocket read and write pumps: a client takes events from its channel at any time.
- Technology detection, pattern matching and implied technologies; queue and cache statistics; the byte reader and the payload truncation of the webhook.
