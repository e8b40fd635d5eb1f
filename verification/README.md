# Verified model of the Eve Industry Planner back end

The project models the five parts of the repository whose correctness depends on whole runs, and
proves what those runs guarantee. `dafny verify dfyconfig.toml` checks everything.

| file | part of the repository |
|---|---|
| PageQueue.dfy, PageQueueLaws.dfy, PageQueueVarying.dfy, PageQueueSync.dfy | the paged work queue `FetchAllPages` (legacy/shared/requests) |
| TokenWindow.dfy, LimiterLaws.dfy, WindowBound.dfy, LimiterDirectory.dfy, EsiClient.dfy | the ESI rate-limited client (internal/core/esi) |
| RefreshProtocol.dfy, RefreshHistory.dfy, RefreshRun.dfy | the refresh of system indexes and adjusted prices: Redis lock, ETag, JetStream message |
| OneTimeJobs.dfy, OneTimeHistory.dfy, TaskScheduler.dfy | the one-time jobs of the scheduler service |
| MarketPipeline.dfy | the channel pipeline of the market-price endpoint |
| Options.dfy | the optional value the other modules share |

Sequential code keeps its form (classes, loops, fields updated in place) and is proved against
functions; concurrent code is a state machine whose runs are arbitrary sequences of its events, so a
statement about `End(start, events)` is about every reachable state. Every outcome of the network,
Redis, NATS, gocron and the clock is arbitrary unless an assumption is named below.

## Main results

- **Paged queue.** The consumer's loop ends for every pattern of failures and all page counts below a
  bound (`Turns`, `StepDescends`). With n pages in every response the queue never exceeds
  (n^2 - 3n + 4) / 2, reaches that without failures, and so some network makes the consumer block on
  its own channel exactly when n >= 16 (`NeverBlocksIff`). If the responses may disagree and none
  reports more than n >= 2 pages, the longest possible queue is exactly P(0) + ... + P(n - 2), where
  P(u) is the largest product of numbers with the sum u, and 11 pages are the most that never block
  (`QueueStaysBelowWorst`, `WorstIsReached`, `NeverBlocksVaryingIff`). The two-thread machine with the
  WaitGroup refines the sequential one; one of its interleavings deadlocks exactly if the sequential
  queue outgrows the channel (`DeadlockIffPeakTooHigh`).
- **Rate limiter.** Admission on the pruned log equals a decision over the full history
  (`AdmitsExactly`): told in plain nanoseconds and tokens, a check is refused until the last usable
  Retry-After has passed, and from then on the tokens alone decide (`CheckDecides`,
  `RetryAfterBlocks`). With k requests in flight any 15 minutes hold at most limit - 2 + 5k locally
  recorded tokens, plus those of responses that were charged to the limiter after a check on another
  one, as at group discovery; some run reaches that sum (`WindowBounded`, `BoundIsReached`).
- **Refresh.** At most one refresher can write exactly if the context does not outlive the lock
  (`OneWriterIff`), and a stored ETag vouches for its items in every run exactly if that holds or no
  version with an ETag shares an item with an earlier one (`ETagSoundIff`). Hence a 304 means that every
  listed item is stored at exactly the current version (`NotModifiedMeansCurrent`), and an Ack under the
  lock means that all items, the ETag if there is one and, unless it was a 304, the refresh time are
  stored and stay so (`AckMeansStored`). The lock is there exactly if a SetNX took effect within its
  life and no Del followed (`LockHeldIff`); Redis holds what the last writes wrote (`StoreIsAsWritten`);
  and a refresher that gets the lock and is left alone completes (`RefreshCanComplete`). One run is told
  by what the server, Redis and the message said: it acknowledges exactly after a 304, or a complete 200
  of which every item, the ETag and the time were saved (`RefreshSystemIndexes`).
- **One-time jobs.** No job runs twice over any run with overlapping handlers, crashes, failed saves
  and failed deletes (`NoJobRunsTwice`), what runs is what was asked for and not before its time (`RunsAsAsked`), and a
  job that was saved is not lost as long as restarts succeed before it is due (`NoJobLost`); the three
  stores stay in step, and an error-free restore is exact.
- **Market prices.** No thread ever waits for a full buffer, no run is infinite or stuck, and every
  schedule reports every ID exactly if none of the IDs is in Redis (`AllReportedIff`).

## What the code does and its comments do not say

- The parameters of page 1 are the caller's own map, so the previous ETag of page 1 is written into it
  and copied into the request of every other page; pages without an ETag of their own send page 1's
  (`EveryFetchCarries`). It is sent as a query parameter.
- Usage reported by X-Ratelimit-Remaining and X-Ratelimit-Used is overwritten by the next cleanup, and
  such responses are not logged, although the comment says that the server knows best: it never
  influences a later check (`ServerUsageForgotten`, `ReportedUsageNeverCounts`).
- A group that is really named "default" is split over two limiter objects as soon as a second path,
  which has named no other group, names it (`DefaultSplitIff`, `DefaultIsSplit`).
- A response that names another group than the one its request was checked in is charged to a limiter
  that never admitted it (`ChargedElsewhereIff`); with a limit of 2 and one request at a time, one such
  response doubles what 15 minutes can hold (`BoundIsReached`).
- The 60 s cap of `NackWithBackoff` is never reached: the longest delay is 8 s (`BackoffNeverCapped`).
- The market-price collector may spend a turn on a closed channel and then reports fewer results
  (`AllReportedIff`).

## Assumptions

- A clock reading is a parameter. Where a result needs a clock that does not go back, it says so.
- Each Redis call is atomic and takes no effect after its context has expired; it may report an error
  although it took effect. The server's version only grows, versions carry distinct ETags, and a 304
  answers an ETag that matches (section 15.4.5 of RFC 9110).
- Job IDs are fresh, gocron removes a job when asked and does not fire it before it is due nor between
  its creation and its entry in the scheduler's map (cmd/scheduler/handler.go:174-184), a job's handler
  finishes before the same job's next tick unless the process crashes, and a scan returns every key
  once. Handlers of different jobs may overlap in any way.

## Model

| member | source | states |
|---|---|---|
| PageQueue.FetchAllPages | legacy/shared/requests/requests.go:20-92 | the loop terminates for every bounded network; it blocks for ever exactly if the queue of the specified run outgrows the channel, and otherwise returns that run's items and ETags |
| PageQueue.HandleRequest | legacy/shared/requests/requests.go:45-83 | one turn of the consumer changes queue, completed pages, parameters, items and ETags as one specified step does, or blocks exactly if that step overfills the channel |
| PageQueue.SendOpenPages | legacy/shared/requests/requests.go:73-80 | the page loop appends one fresh request for each page 2..last that was never dequeued, in order, or blocks exactly if they do not all fit |
| PageQueue.UnmarkedAscends | legacy/shared/requests/requests.go:74-75 | the pages to queue are exactly those from 2 to the reported count that were not dequeued before, each once and in ascending order |
| PageQueue.StepDescends | legacy/shared/requests/requests.go:45-83 | whatever the network answers, a turn lowers the rank (unmarked pages, whether the queue holds one, its position or the retries left) |
| PageQueueLaws.FinalRecorded | legacy/shared/requests/requests.go:56-80 | results are determined by the fetch history, and every failed fetch is matched by one fetch, made or queued, at the next retry level |
| PageQueueLaws.EveryFetchCarries | legacy/shared/requests/requests.go:36-54 | every fetch of a page sends its own previous ETag, and a page without one sends page 1's, because page 1's parameters alias the caller's map |
| PageQueueLaws.EveryFetchSends | legacy/shared/requests/requests.go:48-54 | key by key: every fetch of a page p >= 2 asks for p in decimal, the ETag is as above, and all other parameters are what the caller passed |
| PageQueueLaws.NoNumberMeansOnePage | legacy/shared/requests/requests.go:109-127 | if no response has a number in X-Pages, only page 1 is fetched, until it succeeds or four times, and the items are its body |
| PageQueueLaws.EveryPageAccountedFor | legacy/shared/requests/requests.go:56-80 | afterwards either page 1 failed four times and nothing else was fetched, or each page 1..n has the ETag of its last success or failed all four attempts of each of its requests, and no other page has an ETag |
| PageQueueLaws.QueueStaysBelow | legacy/shared/requests/requests.go:24-80 | for every failure pattern the queue length stays within (n^2 - 3n + 4) / 2 |
| PageQueueLaws.QueueReachesMost | legacy/shared/requests/requests.go:24-80 | without failures it reaches exactly that length |
| PageQueueLaws.NeverBlocksIff | legacy/shared/requests/requests.go:24-80 | if all responses report the same count, no failure pattern makes the consumer block on its own channel if and only if there are at most 15 pages |
| PageQueueVarying.StepClimbs | legacy/shared/requests/requests.go:48-80 | whatever is reported and whatever fails, pages are dequeued for the first time in the order 1, 2, 3, and so on |
| PageQueueVarying.PotentialFalls | legacy/shared/requests/requests.go:48-80 | no turn raises what the queue and the unknown pages can lead to, for any page count up to n and any failure |
| PageQueueVarying.QueueStaysBelowWorst | legacy/shared/requests/requests.go:24-80 | with page counts that vary up to n and any failures the queue length stays within P(0) + ... + P(n - 2), or 1 if n = 1, P(u) being the largest product of numbers with the sum u |
| PageQueueVarying.WorstIsReached | legacy/shared/requests/requests.go:24-80 | for every n some responses with at most n pages make the queue exactly that long |
| PageQueueVarying.NeverBlocksVaryingIff | legacy/shared/requests/requests.go:24-80 | if responses may disagree, none of them can make the consumer block on its own channel if and only if they report at most 11 pages |
| PageQueueLaws.FetchOrder | legacy/shared/requests/requests.go:48-80 | without failures the pages are fetched in the order 1..n, 3..n, 4..n, and so on up to n |
| PageQueueLaws.FetchCounts | legacy/shared/requests/requests.go:48-80 | so page p >= 2 is fetched p - 1 times, and there are 1 + n(n-1)/2 fetches |
| PageQueueLaws.ItemsInFetchOrder | legacy/shared/requests/requests.go:70-80 | and the items are the page bodies concatenated in that order |
| PageQueueSync.StepRefines | legacy/shared/requests/requests.go:34-89 | every step of either thread leaves the abstract sequential state alone, except the fetch, which is exactly one sequential turn |
| PageQueueSync.SafeClose | legacy/shared/requests/requests.go:34-91 | in every interleaving the WaitGroup counts queued and in-process requests, a closed channel is empty and never sent to, and what the caller returns is final and equals the sequential result |
| PageQueueSync.StepTerminates | legacy/shared/requests/requests.go:34-91 | every step of every interleaving lowers a rank, so no run is infinite |
| PageQueueSync.StuckOnlyWhenFull | legacy/shared/requests/requests.go:34-91 | some thread can move unless both have ended or the consumer sends to a full channel |
| PageQueueSync.DeadlockIffPeakTooHigh | legacy/shared/requests/requests.go:24-91 | some interleaving deadlocks exactly if the sequential queue outgrows the channel; never for constant n <= 15, always for n >= 16 without failures |
| TokenWindow.Cost | internal/core/esi/rate_limited_client.go:319-332 | a response costs 0 to 5 tokens: 5 exactly for a status of 400 to 499, 1 exactly for 300 to 399, 0 exactly from 500 on, and 2 otherwise |
| TokenWindow.PlayRefines | internal/core/esi/rate_limited_client.go:335-371 | over every run of checks and responses the pruned log agrees with the full history in every window that ends at the latest cleanup or later |
| TokenWindow.AdmitsExactly | internal/core/esi/rate_limited_client.go:566-652 | a request is admitted exactly if no retry-after deadline is ahead and the tokens recorded in the last 15 minutes of the full history leave room for the estimate |
| LimiterLaws.CheckDecides | internal/core/esi/rate_limited_client.go:566-652 | what every check says, from the operations before it: admitted or refused, why, with which usage, limit and retry time, in nanoseconds and tokens |
| LimiterLaws.RetryAfterBlocks | internal/core/esi/rate_limited_client.go:507-523 | a 429 blocks every check for its Retry-After in seconds, or 15 minutes if it has none, until the next 429 with a usable one; then the tokens alone decide |
| LimiterLaws.ShortageSays | internal/core/esi/rate_limited_client.go:598-641 | a refusal for lack of tokens names the instant at which the earliest counted response is 15 minutes old, and is retryable exactly if that is ahead and less than five minutes away |
| LimiterLaws.UsageAfterResponse | internal/core/esi/rate_limited_client.go:443-505 | after a response the limiter shows the usage the server reports, if it can be read, or what has been counted |
| TokenWindow.ServerUsageForgotten | internal/core/esi/rate_limited_client.go:460-487 | responses that differ only in the reported usage lead to the same limiter after the next cleanup |
| TokenWindow.ReportedUsageNeverCounts | internal/core/esi/rate_limited_client.go:460-487 | after any response that reports usage, an exhausted bucket included, the next check admits exactly by the deadline and by what had been recorded before it |
| TokenWindow.RetryAfterIsSound | internal/core/esi/rate_limited_client.go:598-641 | until the reported RetryAfter every further check with the same estimate is refused, whatever happens on the limiter, unless its limit is raised |
| TokenWindow.RetryAfterFreesOldest | internal/core/esi/rate_limited_client.go:604-621 | at that instant an oldest entry has left the window; with an empty log the refusal is retryable only if ten minutes pass between two clock readings |
| WindowBound.WindowBounded | internal/core/esi/rate_limited_client.go:376-505 | with at most k requests between check and recording, every 15 minutes hold at most limit - 2 + 5k recorded tokens and what was recorded in them for requests checked on another limiter, even with stale and reordered time stamps |
| WindowBound.BoundIsReached | internal/core/esi/rate_limited_client.go:376-505 | for every limit >= 2, k >= 1 and any number of failed requests checked on another limiter some run records exactly that many |
| LimiterDirectory.LookupFindsCharged | internal/core/esi/rate_limited_client.go:395-441 | after a response that names a group, the lookup of its path returns the limiter charged, exactly unless the path was moved to another group meanwhile |
| LimiterDirectory.ChargesNamedGroup | internal/core/esi/rate_limited_client.go:395-412 | the limiter charged is the one of the group named, exactly unless the group "default" is split over two objects |
| LimiterDirectory.ChargedElsewhereIff | internal/core/esi/rate_limited_client.go:395-441 | a response is charged to another limiter than the one that admitted its request exactly if it names a group that this limiter does not stand for, and the group is not split |
| LimiterDirectory.DefaultSplitIff | internal/core/esi/rate_limited_client.go:197-441 | after any sequence of responses, one that names "default" is charged to the client's default limiter instead of the group's exactly if its path has named no other group and another path was the first to name "default" |
| LimiterDirectory.DefaultIsSplit | internal/core/esi/rate_limited_client.go:197-441 | after one response naming "default", two paths that name it are charged to two different objects |
| LimiterDirectory.LookupFollowsHeaders | internal/core/esi/rate_limited_client.go:197-296 | after any sequence of responses a path is on the limiter of the group named last, and on the default limiter only while it named none but "default"; every mapped path has a limiter |
| EsiClient.GroupLimiter.constructor | internal/core/esi/rate_limited_client.go:113-122 | a new limiter has an empty log and no deadline |
| EsiClient.GroupLimiter.CleanupOldConsumptions | internal/core/esi/rate_limited_client.go:335-371 | the loop keeps exactly the entries inside the window, in order, and sets the usage to their total |
| EsiClient.GroupLimiter.OldestConsumption | internal/core/esi/rate_limited_client.go:604-612 | the loop finds the earliest time in the log |
| EsiClient.GroupLimiter.CanMakeRequest | internal/core/esi/rate_limited_client.go:566-652 | the verdict, its RetryAfter and its classification are as specified, and with a clock that does not go back it admits exactly by the full history |
| EsiClient.GroupLimiter.Charge | internal/core/esi/rate_limited_client.go:443-523 | a response changes limit, usage, log and deadline as specified and extends the history |
| EsiClient.ESIClient.constructor | internal/core/esi/rate_limited_client.go:112-161 | a new client knows no group and has a default limiter with 1000 tokens |
| EsiClient.ESIClient.GetLimiterForPath | internal/core/esi/rate_limited_client.go:197-223 | returns the limiter of the path's group, or the default one for an unknown path |
| EsiClient.ESIClient.GetOrCreateGroupLimiter | internal/core/esi/rate_limited_client.go:227-296 | maps the path, keeps all existing limiter objects, and creates a fresh one only for a new group |
| EsiClient.ESIClient.SettleLimiter | internal/core/esi/rate_limited_client.go:385-441 | chooses the limiter as the directory says; filed under its name, distinct from the others and the default |
| EsiClient.ESIClient.UpdateFromHeaders | internal/core/esi/rate_limited_client.go:375-562 | charges exactly the limiter chosen and leaves every other limiter object unchanged |
| EsiClient.ESIClient.DoRequest | internal/core/esi/rate_limited_client.go:851-1034 | a request is refused exactly by the verdict on the limiter its path is looked up in; a refused or failed one records nothing; a response extends the history of the limiter the directory routes it to, and no other; a 429 is an error that is retryable exactly if Retry-After is a number |
| RefreshProtocol.OneWriterIff | internal/core/redis/redis.go:165-178 | in every run at most one refresher can write, if and only if the context does not outlive the lock, as 15 s do not outlive 300 s |
| RefreshProtocol.ReleaseDeletesOwnLock | internal/core/redis/redis.go:174-176 | in every run a Del that can take effect meets the unexpired lock of the refresher that sends it |
| RefreshHistory.LockHeldIff | internal/core/redis/redis.go:165-178 | an unexpired lock is there exactly if some SetNX took effect within the lock's life and no Del took effect after it |
| RefreshHistory.LockHeldIffOwn | internal/core/redis/redis.go:165-178 | if the context does not outlive the lock, only the owner's own Del counts |
| RefreshHistory.ReleaseFrees | internal/core/redis/redis.go:165-178 | after a Del that took effect the next refresher gets the lock at once and is not told that it is taken |
| RefreshHistory.StoreIsAsWritten | internal/core/redis/redis.go:60-178 | every item, the ETag and the refresh time are what the last write that took effect wrote |
| RefreshHistory.CrashIsFinal | internal/tasks/esi/refreshSystemIndexes.go:52-87 | a refresher that has crashed does nothing any more |
| RefreshHistory.ExpiredOnlyFails | internal/tasks/esi/refreshSystemIndexes.go:53-54 | once its context has expired a refresher can only be told of failures, and changes nothing in Redis |
| RefreshHistory.RefreshCanComplete | internal/tasks/esi/refreshSystemIndexes.go:52-281 | from every reachable state whose lock is free a new refresher can store the current version, its ETag and the time, and release the lock |
| RefreshHistory.TimesOfTheCode | internal/tasks/esi/refreshSystemIndexes.go:53-68 | with 15 s and 300 s: one writer, which writes within 15 s of its begin, a lock gone after 300 s, and a sound ETag |
| RefreshProtocol.ETagVouches | internal/tasks/esi/refreshSystemIndexes.go:89-257 | in every reachable state each item of the stored ETag's version is stored from that version or later, so is each item of a finished refresh, and neither items nor ETag ever go back |
| RefreshProtocol.NotModifiedMeansCurrent | internal/tasks/esi/refreshSystemIndexes.go:220-238 | when a 304 arrives, every item the server lists is stored at exactly its current version |
| RefreshProtocol.StaleOverwrite | internal/core/redis/redis.go:165-178 | if the context outlives the lock, any two versions that share an item have a run that leaves the old value under the new ETag |
| RefreshProtocol.ETagSoundIff | internal/tasks/esi/refreshSystemIndexes.go:53-257 | the stored ETag vouches for its items in every run if and only if the context does not outlive the lock or no version with an ETag shares an item with an earlier one |
| RefreshRun.NackWithBackoff | internal/core/nats/nats.go:91-105 | makes exactly one call: Term from the fifth delivery on, else NakWithDelay with the backoff of the delivery count |
| RefreshRun.BackoffNeverCapped | internal/core/nats/nats.go:88-105 | the delays are 1, 2, 4 and 8 s and the fifth delivery terminates, so the cap of 60 s is never reached |
| RefreshRun.Session.AcquireRefreshLock | internal/core/redis/redis.go:165-178 | reports a lock exactly if SetNX took it, an error exactly if SetNX failed, and neither if the lock was held |
| RefreshRun.Session.SaveETag | internal/core/redis/redis.go:79-84 | an empty ETag is a successful save without a write; any other is saved if it says so |
| RefreshRun.Request | internal/tasks/esi/refreshSystemIndexes.go:314-371 | one to four attempts of which all but the last were transport errors; the last one decides, and is a transport error only if it is the fourth |
| RefreshRun.PersistItems | internal/tasks/esi/refreshSystemIndexes.go:109-123 | every item before the cut is saved in order until a save fails or something panics; heartbeats are at least five seconds apart |
| RefreshRun.StreamItems | internal/tasks/esi/refreshSystemIndexes.go:289-451 | the last attempt, its body and the saves decide: success exactly for a 304 or a complete 200 of which every item was saved, a rate-limit error exactly for one, an error or a panic otherwise; the operations are those, and the message sees nothing but heartbeats |
| RefreshRun.RefreshUnderLock | internal/tasks/esi/refreshSystemIndexes.go:89-281 | the report of the run decides the disposition: an Ack exactly for a 304 or when everything streamed, the ETag and the time were saved; NakWithDelay with the server's wait for a retryable rate limit; otherwise the backoff of the delivery count |
| RefreshRun.RefreshSystemIndexes | internal/tasks/esi/refreshSystemIndexes.go:52-281 | the same for the whole run; one disposition and no heartbeat after it (two only after a failed NakWithDelay); without the lock an Ack and no write; with it the release is last, and a panic in the stream disposes of nothing but still releases; the operations follow the protocol |
| RefreshRun.ReleaseComesLast | internal/tasks/esi/refreshSystemIndexes.go:87-281 | nothing follows the release, and it follows the end of the work |
| RefreshRun.Deliver | cmd/worker/subscriber.go:82-118 | a delivered message gets exactly one disposition, a Nak exactly if the pool does not take the task or the task panics, and a task that panics has released its lock last |
| RefreshRun.PhaseFollowsOps | internal/tasks/esi/refreshSystemIndexes.go:52-281 | inside the system a refresher that has not crashed is in the phase its own operations lead to |
| RefreshRun.AckMeansStored | internal/tasks/esi/refreshSystemIndexes.go:220-272 | in every system run an Ack under the lock implies that all items of its version are stored at that version or later, that the ETag is of that version or later unless the response carried none, and, unless it was a 304, that the refresh time is not before the start of the run; then and ever after |
| OneTimeJobs.ScheduleSucceedsIff | cmd/scheduler/handler.go:127-201 | a job is accepted exactly if its type may be requested and has a handler and gocron takes it, whatever Redis says; otherwise nothing changes |
| OneTimeJobs.ScheduledJob | cmd/scheduler/handler.go:127-201 | an accepted job is due at the time asked for, or five seconds from now if that has passed, carries what was asked for, its record agrees with it to the millisecond, and nothing else changes |
| OneTimeJobs.ScheduleKeepsInStep | cmd/scheduler/handler.go:127-201 | scheduling keeps tracked IDs and gocron jobs in one-to-one correspondence and every record under its ID |
| OneTimeJobs.RemoveKeepsInStep | cmd/scheduler/handler.go:204-221 | removal takes the job out of the map and gocron, out of Redis exactly if the delete takes effect, nothing else, and keeps the stores in step |
| OneTimeJobs.RestoreKeepsInStep | cmd/scheduler/handler.go:249-333 | after any number of keys and any failures the stores are in step, only restorable entries are tracked, faithfully, and a key is never altered before its turn |
| OneTimeJobs.RestoreIsExact | cmd/scheduler/handler.go:249-333 | without errors the tracked IDs, the keys left in Redis, and the well-formed entries with a future time, a handler and a requestable type are the same; each job is faithful to its entry, and no entry is changed but for a time that passes meanwhile |
| OneTimeRuns.NoJobRunsTwice | cmd/scheduler/handler.go:139-333 | over every run of requests, overlapping firings, crashes and restores no job ID is executed twice and the stores stay in step |
| OneTimeHistory.ExecutionsAreFirings | cmd/scheduler/handler.go:156-171 | what has been executed is what the firings of the run started, in order |
| OneTimeHistory.RunsAsAsked | cmd/scheduler/handler.go:127-333 | whatever is executed under an accepted ID, also after restarts, has the type and data asked for and is not a millisecond early |
| OneTimeHistory.NoJobLost | cmd/scheduler/handler.go:127-333 | an accepted and saved job survives crashes: while restarts succeed before its time, it has run, or waits in Redis, or is in gocron and can be started when due |
| TaskScheduling.TaskScheduler.constructor | cmd/scheduler/handler.go:54-70 | a new scheduler tracks nothing and leaves Redis alone |
| TaskScheduling.TaskScheduler.ScheduleOneTimeJob | cmd/scheduler/handler.go:127-201 | for an acceptable type exactly one NewJob with the delay, and if that succeeds exactly one Set of the record under the ID; the stores change as specified by the results of these calls |
| TaskScheduling.TaskScheduler.RemoveOneTimeJob | cmd/scheduler/handler.go:204-221 | one RemoveJob of a tracked job and one Del; the stores change as specified by their results and stay in step |
| TaskScheduling.TaskScheduler.RestoreOne | cmd/scheduler/handler.go:278-329 | one turn of the restore loop for every kind of entry: one Get, then the NewJob and Set of an entry that is still due or the Del of any other, with the stores changed by the results |
| TaskScheduling.TaskScheduler.RestoreOneTimeJobs | cmd/scheduler/handler.go:249-333 | the loop makes the calls of each turn in order, restores as their results say, counts what it restored and discarded, keeps the stores in step and tracks only restorable entries |
| TaskScheduling.TaskScheduler.ProcessScheduleRequest | cmd/scheduler/handler.go:422-486 | a readable future request with a handler makes the calls of scheduling and is acknowledged exactly if gocron takes the job; an unreadable one is refused, others are acknowledged and dropped without any call; a fresh job ID keeps the stores in step |
| MarketPipeline.NextKeepsInv | legacy/apiServer/endpoints/marketPrices.go:62-175 | every event of every thread keeps slots, channels, handler and collector consistent |
| MarketPipeline.PipelineSafe | legacy/apiServer/endpoints/marketPrices.go:47-175 | in every reachable state a sender finds less than one entry per ID in its buffer, at most five workers fetch, each ID is on exactly the channel it belongs on, no ID is reported twice, and no more are lost than were found |
| MarketPipeline.NeverStuck | legacy/apiServer/endpoints/marketPrices.go:47-175 | some thread can move until the collector has had its turn for every ID |
| MarketPipeline.StepDescends | legacy/apiServer/endpoints/marketPrices.go:47-175 | every step uses up one of a bounded number, so every run ends |
| MarketPipeline.SomeScheduleLoses | legacy/apiServer/endpoints/marketPrices.go:158-175 | as soon as one ID is in Redis some schedule reports fewer results than IDs |
| MarketPipeline.AllReportedIff | legacy/apiServer/endpoints/marketPrices.go:158-175 | every schedule reports every ID if and only if none of the IDs is in Redis |

## Left out

- HTTP transport, gzip, JSON decoding and the connections to NATS, Redis and Mongo: arbitrary outcomes take their place.
- The one-per-second ticker of `FetchAllPages` and `golang.org/x/time/rate`: they only delay.
- `Do`, which has the state effects of `DoRequest`, and the test mode, logs, metrics and `parseCacheSeconds`.
- `AddGroupLimiter`, which replaces a limiter object by hand, and the per-path discovery mutex.
- Concurrency inside one limiter check: a check is one atomic step, while recordings may be late, stale and reordered.
- 64-bit overflow of very large page counts, header numbers and durations.
- The sleeps between attempts of `StreamIndustrySystems`, and the values of its items beyond the version they come from.
- EsiClient.ESIClient.DoRequest: the client handles one request at a time; LimiterDirectory.LookupFindsCharged states what a concurrent move of the path changes.
- RefreshRun.Deliver: a panic strikes while the response is decoded or an item is saved, not elsewhere in the task, and the redelivery by JetStream is not modelled.
- TaskScheduling.TaskScheduler.RestoreOneTimeJobs: the cursor loop of the scan is one step that returns all keys, and a scheduler without a Redis client is not modelled.
- The market-price pipeline, the two-thread view of the page queue and the competing refreshers are state machines on values, one step per channel, lock or store operation: goroutines have no sequential form. The models leave out data races on variables outside those operations.
- Cron jobs, the fetch loops that read messages, and duplicate job IDs chosen by clients.
- Averaging and rounding of prices, ID validation, middleware, authentication, web sockets, configuration and deployment.
