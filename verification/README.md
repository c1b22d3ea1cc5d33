# Verified model of the link shortener

This project models the parts of the link shortener whose behaviour comes from the way its
pieces interleave, and proves what those pieces promise together:

- **Redirects over a cached table** (`Domain`, `LinkTable`, `ClickLog`, `Repository`, `Cache`,
  `Redirect`, `Service`, `Writes`, then `Coarse`, `Staleness`, `Traps`). Postgres is the truth,
  Redis holds snapshots and "not found" markers with an expiry. `Coarse` makes every operation
  one step and shows that a lookup answers as the table would, with exactly three exceptions.
  `Staleness` makes every Redis and Postgres call a step of its own, with a history of all
  committed versions, and bounds how old an answer can be.
- **Click ingestion** (`Pipeline`, `Analytics`, `Ingest`, `Notifier`, `Overshoot`, `Excess`). A bounded
  queue, N workers with a reused batch buffer each, transactional flushing, shutdown. `Overshoot`
  runs the pipeline and the redirect cache in one machine and bounds how far a click limit can be
  passed; `Excess` builds the runs that attain the bound.
- **The sliding-window limiter** (`Limiter`): a trimmed, expiring log against the full history.
- **Webhook delivery** (`Dispatcher`, `Backoff`, `DeadLetter`): jobs moving between queue, sender,
  retry timer and outcome; 64-bit shift arithmetic; the dead-letter counter.
- **Short codes** (`Shortcode`, `Service`), **tenants** (`Isolation`), **the demo janitor** (`Demo`)
  and **the statistics queries** (`Stats`).

Code that changes things in place is a class or a loop here too: `Repository.Postgres`,
`Cache.LinkCache`, `Redirect.RedirectService`, `Service.LinkService`, `Pipeline.Worker`,
`Analytics.Pipeline`, `Limiter.RateLimiter`, `DeadLetter.WebhookRepository`,
`Dispatcher.Dispatcher`, `Demo.LinkJanitor`, `Shortcode.Generator`. Each method is proved against
a function on values, and the state machines run those same functions.

Conventions. Ids stand for UUIDs and are fresh when generated. There is one clock; instants and
durations are integers (milliseconds in the limiter, nanoseconds in the backoff, microseconds in
the statistics). A Redis key is gone from its expiry instant on. A single SQL statement, a
transaction and the limiter's script are each atomic. Outside outcomes are parameters or steps of a
machine: whether Redis answers each read, write and invalidation, whether a batch or a sweep commits,
whether a POST succeeds, what the random source returns, which worker moves next. What is not such a
parameter is listed under "Left out". The ranges that
internal/config/config.go:246-266 enforces are preconditions where needed; positive backoff limits,
which it does not check, are stated where needed.

## Where the obvious claim is false

The code is modelled as it is. Where a natural claim about it fails, the model holds both an
example of the failure and the exact condition or bound:

- docs/DESIGN.md:45-50 says mutations keep the cache fresh. Creation does not clear a marker left by
  an earlier miss (`Traps.NewLinkHidden`), the purge does not clear a snapshot
  (`Traps.PurgedLinkLingers`), an invalidation that Redis refuses is logged and forgotten
  (`Traps.RefusedDeleteLingers`), and a reader that was slower than a writer can undo the writer's
  invalidation (`Traps.SlowReaderOutlivesInvalidate`). `Coarse.EveryLookupRefines` says exactly when a
  lookup differs from the table and for how long, with each operation one step;
  `Staleness.GoesStaleIff` says exactly from which states a slow reader can still bring a stale entry
  back, and `Staleness.StaleEntriesAreSlowReads` for how long that is served.
- docs/DESIGN.md:57-65 bounds the overshoot of a click limit by the flush interval. The bound proved
  is in clicks, and includes those dropped, rejected or lost and those served while a refused
  invalidation is outstanding (`Overshoot.ClickLimitOvershoot`). It is attained for every limit and
  pool (`Excess.BoundIsAttained`), and without its last term there is none (`Excess.NoBoundOnceRefused`).
- A click can be left behind at shutdown: exactly when some `Enqueue` is between its check and its
  send (`Ingest.StrandsIffSenderInFlight`).
- So can an event and a job of the webhook dispatcher: exactly when some `Dispatch`, or the resolver or
  a timer, is between its check and its send (`Dispatcher.EventStrandsIff`, `Dispatcher.JobStrandsIff`,
  in a state that `Dispatcher.HeldBack` reaches). And after quit a queued event is still resolved but
  its jobs are silently discarded (`Dispatcher.Dispatcher.Resolve`).
- A dead-lettered webhook can come back (`DeadLetter.LateSuccessRevives`), and only in one way
  (`DeadLetter.ReactivationNeedsSuccess`).
- The shifted delay can wrap round to a small positive one (`Backoff.WrapCanBite`);
  `Backoff.CapIsIdealIff` says at which attempts it is right.
- `Retry-After` is cut to whole seconds, so a client that obeys it may be refused once more
  (`Limiter.ObedientClientRefused`), exactly when something was cut off (`Limiter.HeaderSuffices`).
- Generated codes are not compared with the reserved words; whether that matters depends on the
  configured length (`Shortcode.GeneratedMayBeReserved`).

## Model

| member | source | states |
|---|---|---|
| Coarse.EveryLookupRefines | internal/service/redirect.go:58-104 | after any run of creates, updates, deletes, flushes, purges, evictions, lookups and ticks, with Redis free to refuse any invalidation, Resolve answers as a lookup that never uses the cache, if and only if no marker hides a newer link, no snapshot outlives a purged row and no snapshot has fallen behind since its invalidation was refused; the exceptions are NotFound within negTTL of the link's creation, Gone within ttl of the purge, and within ttl of the refusal; but for the last what it serves is live and active in the table with the same target |
| Coarse.ResolveRefines | internal/service/redirect.go:58-104 | the same for one lookup in any state that satisfies the cache invariant |
| Coarse.SnapshotKeeps | internal/service/link.go:246-280 | a snapshot whose code a commit does not owe an invalidation still agrees with its row, or lost it to the purge after expiry |
| Coarse.RefusedKeeps | internal/service/link.go:273-280 | a snapshot whose invalidation was refused, now or before, stays marked with the first refusal, and its id is never given to another row |
| Coarse.MarkerKeeps | internal/service/link.go:147-162 | a marker is never younger than a live row of its code, whatever is committed |
| Coarse.CountersAndCodesAlwaysRight | internal/repository/click.go:47-81 | after any run click_count is the number of the link's rows in clicks, every click's link exists, and live codes are unique |
| Coarse.DeletedIsNotFound | internal/service/link.go:260-270 | after an owned link is deleted and its invalidation goes through, the next lookup of its code is not found |
| Traps.NewLinkHidden | internal/service/link.go:147-162 | from any state with a free, uncached code, a lookup then a create of that code leaves a live link that answers 404 |
| Traps.PurgedLinkLingers | internal/repository/link.go:161-171 | a lookup, a wait and a sweep leave a code that the table does not know answering Gone |
| Traps.RefusedDeleteLingers | internal/service/link.go:273-280 | after a retargeting update whose invalidation Redis refuses, a lookup still serves the old target |
| Traps.SlowReaderOutlivesInvalidate | internal/service/redirect.go:80-96 | a reader that loads before a retargeting commit and sets after its successful invalidation leaves an entry with the old target, stale for every version since |
| Staleness.HitIsRecent | internal/repository/link_cache.go:53-87 | under every interleaving a hit answers what the live row was at some instant less than the entry's TTL plus its reader's read-to-Set delay ago |
| Staleness.MissIsOwnRead | internal/service/redirect.go:80-96 | a miss answers with the live row of the instant it read the table |
| Staleness.StaleEntriesAreSlowReads | internal/service/link.go:246-268 | an entry stale with respect to a commit was read before it, is served for less than TTL plus delay after it, and if that commit's invalidation of the code went through was set after the invalidation |
| Staleness.GoesStaleIff | internal/service/redirect.go:80-96 | some continuation leaves a code stale with respect to a commit iff its entry is already stale or some reader holds a row for it that no version since the commit had; with no entry, as after a successful invalidation, iff such a slow reader exists |
| Cache.LinkCache.Get | internal/repository/link_cache.go:53-75 | a miss, an error or an authoritative answer, as the visible entry says; an expired key is a miss |
| Cache.LinkCache.Set | internal/repository/link_cache.go:78-87 | stores the snapshot until now + ttl, or nothing if Redis is down, and touches no other code |
| Cache.LinkCache.SetNegative | internal/repository/link_cache.go:90-95 | stores the marker until now + negTTL, or nothing if Redis is down |
| Cache.LinkCache.Invalidate | internal/repository/link_cache.go:98-103 | removes that code's key and no other |
| Cache.CacheKeyInjective | internal/repository/link_cache.go:34 | different codes never share a key |
| Cache.SnapshotRoundTrip | internal/repository/link_cache.go:105-137 | a snapshot loses only the timestamps, and a live link's snapshot is active exactly when the link is |
| Cache.ReadAfterWrite | internal/repository/link_cache.go:53-103 | a write is read back until its expiry and is a miss from then on, a delete is a miss, no other code is affected |
| Redirect.RedirectService.ResolveCode | internal/service/redirect.go:58-77 | the answer and the cache afterwards, with every combination of failing calls; a table that does not answer is an error and leaves the cache alone; exactly one of hit and miss observed |
| Redirect.RedirectService.LoadFromDb | internal/service/redirect.go:80-96 | backfills the snapshot or the marker, and answers from the table whether or not that write succeeds |
| Domain.InactiveStaysInactive | internal/domain/link.go:31-43 | time alone never makes an inactive link active |
| Domain.ActiveIff | internal/domain/link.go:31-43 | a link is active until just before its expiry, below its limit and while not deleted |
| Repository.Postgres.IndexIsScan | migrations/000003_links.up.sql:23 | the partial unique index finds exactly what a scan of the live rows finds, and live codes are unique |
| Repository.Postgres.Create | internal/repository/link.go:42-57 | succeeds iff no live row has the code and then adds the row with the given columns, a zero count and the current time; a conflict changes nothing; the index stays exact |
| Repository.Postgres.GetByIDForTenant | internal/repository/link.go:60-72 | finds a row iff it is live and the tenant's own |
| Repository.Postgres.GetByCode | internal/repository/link.go:76-88 | the live row of that code by a scan of the table, read through the index |
| Repository.Postgres.Update | internal/repository/link.go:120-140 | not found iff the row is not the tenant's own live one, a conflict iff another live row has the code; otherwise exactly the five columns and updated_at change |
| Repository.Postgres.SoftDelete | internal/repository/link.go:143-155 | sets deleted_at and updated_at of the tenant's own live row, after which no live row has its code; otherwise not found and nothing changes |
| Repository.Postgres.PurgeExpired | internal/repository/link.go:161-171 | removes exactly the tenant's rows with an expiry or deletion time before the cutoff and exactly their clicks, and reports how many rows |
| Repository.Postgres.RecordBatch | internal/repository/click.go:36-87 | all of the batch or none of it: the batch is appended, each counter raised by its share, no other column but updated_at moves; fails iff a statement fails or a link is gone; reports exactly the codes of the batch's links that are then exhausted |
| Repository.Tally | internal/repository/click.go:47-55 | the counts map holds each link's exact number of clicks, and only links of the batch |
| Repository.Increment | internal/repository/click.go:61-81 | in whatever order the map is walked every counter gets its share once; the no-rows branch cannot be reached |
| ClickLog.PurgeKeepsCounts | migrations/000004_clicks.up.sql:7 | the cascading delete keeps every remaining counter equal to the link's remaining rows |
| ClickLog.BatchKeepsCounts | internal/repository/click.go:36-87 | a batch, written or failed, keeps every counter equal to the link's rows |
| ClickLog.ExhaustedByIsExhausted | internal/repository/click.go:78-80 | the links reported are those of the batch that are exhausted once it is written |
| ClickLog.CountIsPositions | internal/repository/click.go:47-55 | a link's count is the number of positions in the log with its id |
| ClickLog.CascadeKeeps | migrations/000004_clicks.up.sql:7 | the cascade keeps every click of a remaining link as often as it was there and no other |
| Writes.ApplyKeepsSound | internal/repository/link.go:42-171 | every commit keeps live codes unique and counters equal to rows |
| Writes.RowAfter | internal/service/link.go:203-257 | no commit changes a row's id, tenant, code or creation time, revives it, or lowers its count |
| Service.LinkService.CreateLink | internal/service/link.go:124-163 | validation first, then alias or generated code; one row stored column by column as requested, or nothing; one announcement iff a row was created |
| Service.LinkService.AllocateGeneratedCode | internal/service/link.go:167-184 | the retry loop against the recursive specification of allocation |
| Service.AllocationOutcome | internal/service/link.go:167-184 | inserts the first free code among at most max draws; code-exhausted iff all of them collide; any failure leaves the table alone |
| Service.CreateAddsOneRow | internal/service/link.go:124-163 | on success the new row has the requested tenant, target, status, limit and capped expiry, the alias or one of the draws as its code, and that code was free; invalid iff the request or alias is; an alias conflicts iff a live row has it; exhausted iff all of the first max(1, maxCollision) draws collide |
| Service.LinkService.UpdateLink | internal/service/link.go:203-257 | succeeds iff the row is the tenant's own live one and each supplied field is valid; then that row alone changes, to what was asked for, and its cache entry is dropped iff Redis answered |
| Service.UpdateRewritesOneRow | internal/service/link.go:203-257 | a patch that validates never conflicts and changes exactly that row |
| Service.PatchLaws | internal/service/link.go:203-257 | succeeds iff each supplied field is valid; each supplied target, status, limit and expiry is stored as given, or capped for the demo tenant; what is not supplied stays, clearing clears, the same patch twice at one instant is the patch once |
| Writes.ApplyKeepsServable | internal/service/link.go:288-328 | through every commit each row keeps a 301 or 302 and, if limited, a limit of at least one |
| Service.LinkService.DeleteLink | internal/service/link.go:260-270 | the tenant's own live row gets its deletion time and no live row has its code any more; its cache entry is dropped iff Redis answered; otherwise not found and nothing changes |
| Pipeline.Worker.Work | internal/analytics/pipeline.go:134-174 | over a worker's whole life its RecordBatch calls, joined, are the clicks it received in order, none lost or repeated, 1 to batchSize each |
| Pipeline.Worker.Append | internal/analytics/pipeline.go:150-157 | one more click, flushed at batchSize; slices already handed out keep their contents |
| Pipeline.Worker.Serve | internal/analytics/pipeline.go:148-157 | clicks received and ticks in any order: nothing lost, and nothing unflushed right after a tick |
| Pipeline.Worker.Flush | internal/analytics/pipeline.go:142-148 | an empty batch flushes nothing; otherwise a fresh copy goes out and reusing the buffer never changes an earlier one |
| Analytics.Pipeline.Enqueue | internal/analytics/pipeline.go:109-130 | accepted iff open and not full, with the counters; agrees with the pool's check and send |
| Analytics.Pipeline.Flush | internal/analytics/pipeline.go:177-204 | tables as the transaction left them, one event per link with its tenant and the count written, the cache entries of exactly the exhausted links dropped except where Redis refuses; nothing after a failed batch |
| Ingest.NothingLostSilently | internal/analytics/pipeline.go:109-204 | in every reachable state of N workers sent = queue + batches + written + lost as multisets, offered = pending + sent + dropped + rejected, and every RecordBatch call gets 1 to batchSize clicks |
| Ingest.DrainIsComplete | internal/analytics/pipeline.go:208-227 | with no sender in flight when quit closes, once the workers are gone queue and batches are empty and sent = written + lost |
| Ingest.DrainProgress | internal/analytics/pipeline.go:158-171 | after quit each worker step but a tick lowers a measure and no step raises it |
| Ingest.NoDeadlock | internal/analytics/pipeline.go:158-171 | until all workers are gone one of those steps is enabled |
| Ingest.StrandsIffSenderInFlight | internal/analytics/pipeline.go:110-116 | some schedule leaves a click in the queue for good iff a sender is between its check and its send when quit closes |
| Notifier.Aggregate | internal/webhook/notifier.go:46-57 | per link the exact number of clicks in the batch and the tenant of its first click |
| Notifier.FirstTenantIs | internal/webhook/notifier.go:46-57 | the tenant of a link's event is that of its first click in the batch |
| Notifier.ClicksFlushed | internal/webhook/notifier.go:41-70 | one event per link of the batch, with the count RecordBatch adds to that link |
| Notifier.CountsAddUp | internal/webhook/notifier.go:41-70 | the counts of distinct links that cover a batch add up to its size |
| Overshoot.ClickLimitOvershoot | internal/analytics/pipeline.go:109-204 | when a link with limit M is served, its serves so far number at most M + BufferSize + Workers * (BatchSize - 1) + its dropped, rejected and lost clicks + its clicks served while a refused invalidation of its code was outstanding |
| Overshoot.KeptEntryCovers | internal/service/redirect.go:58-77 | a serve keeps, for each cached snapshot that would still serve, the number of serves of its link within that bound |
| Excess.BoundIsAttained | internal/analytics/pipeline.go:134-204 | for every limit and valid pool a run with nothing dropped, lost or refused serves a link exactly M + BufferSize + Workers * (BatchSize - 1) times |
| Excess.NoBoundOnceRefused | internal/analytics/pipeline.go:197-203 | for every limit and every number a run with refused invalidations and nothing dropped or lost serves the link more often than that |
| Overshoot.ServesAccounted | internal/analytics/pipeline.go:109-204 | every serve was written, or is inside the bounded pipeline, or is among the uncounted |
| Overshoot.ServedIsInTable | internal/service/redirect.go:99-104 | a served link's row is in the table, live under that code, active, with the same limit, unless it came from a snapshot left behind by a refused invalidation, less than ttl ago |
| Limiter.RateLimiter.Allow | internal/repository/ratelimit.go:22-45 | one evaluation of the script on one key: trim, count, conditional add, expiry; other keys untouched |
| Limiter.DecidesAsFullHistory | internal/repository/ratelimit.go:29-36 | after any run a request is admitted iff fewer than limit admissions of the unbounded history lie in (now - window, now], and remaining counts the rest |
| Limiter.NoWindowOverfull | internal/repository/ratelimit.go:29-36 | no half-open window of that length ever holds more than limit admissions |
| Limiter.ExpiryIsInvisible | internal/repository/ratelimit.go:34 | whether the key's own expiry has struck changes neither the reply nor the log |
| Limiter.DenialIsFull | internal/repository/ratelimit.go:37-45 | on a denial the log is not empty and the retry is exactly the time until its oldest entry leaves: the nil and negative branches are never taken |
| Limiter.RetryIsTight | internal/repository/ratelimit.go:37-45 | 1 <= retry <= window; every later request before now + retry is denied and the first at or after it admitted |
| Limiter.RateLimit | internal/middleware/ratelimit.go:24-54 | lets the request through without a tenant or a backend; otherwise follows the limiter and sets the header |
| Limiter.HeaderBounds | internal/middleware/ratelimit.go:43-48 | the delay-seconds of section 10.2.3 of RFC 9110 are at least 1, long only for retry times under a second, and less than a second short |
| Limiter.HeaderSuffices | internal/middleware/ratelimit.go:43-48 | a client that comes back after exactly Retry-After seconds is admitted iff the retry time was at most a second or whole seconds |
| Limiter.ObedientClientRefused | internal/middleware/ratelimit.go:43-48 | for limit 1 and every window over a second that is not whole seconds, a client that obeys the header is refused again |
| Dispatcher.EveryJobIsSomewhere | internal/webhook/dispatcher.go:145-237 | in every reachable state each job is at exactly one place, once; it has had at most maxRetries + 1 POSTs; failed for good means exactly that many and none through, succeeded exactly one that went through |
| Dispatcher.OutcomesAreFinal | internal/webhook/dispatcher.go:206-237 | a job that succeeded, failed, was dropped or was abandoned never moves again |
| Dispatcher.StepMoves | internal/webhook/dispatcher.go:145-237 | each step moves at most one existing job, and exactly there: a failed POST with attempts left waits for its retry, one without is failed for good, an offer is queued iff there is room |
| Dispatcher.LossesAreExplained | internal/webhook/dispatcher.go:169-181 | a job is dropped only by an offer to a full queue and abandoned only after quit |
| Dispatcher.StepsRunOut | internal/webhook/dispatcher.go:125-237 | with no new events each step brings an event nearer to being resolved or lowers a measure over jobs, attempts left and goroutines |
| Dispatcher.EndState | internal/webhook/dispatcher.go:131-141 | when nothing can move nothing is on its way; a job still queued, or an event, is there after quit with no sender, or no resolver, left |
| Dispatcher.JobStrandsIff | internal/webhook/dispatcher.go:169-201 | some schedule after quit leaves a job queued with every sender gone iff, as quit closes, the resolver or a timer is between enqueueJob's check and its send |
| Dispatcher.EventStrandsIff | internal/webhook/dispatcher.go:109-143 | some schedule after quit leaves an event queued with the resolver gone iff, as quit closes, a Dispatch is between its check and its send |
| Dispatcher.HeldBack | internal/webhook/dispatcher.go:101-181 | a run from the start to a state where both hold |
| Dispatcher.Dispatcher.Dispatch | internal/webhook/dispatcher.go:101-122 | never blocks: the two selects in turn, accepted iff open and not full, dropped and counted when full; agrees with the machine's check and send, which others may come between |
| Dispatcher.Dispatcher.Resolve | internal/webhook/dispatcher.go:145-166 | one job per subscriber in order while there is room, the rest dropped; after quit exactly those jobs silently discarded |
| Dispatcher.Dispatcher.EnqueueJob | internal/webhook/dispatcher.go:169-181 | the two selects: discarded after quit, queued if there is room, else dropped and counted |
| Dispatcher.Dispatcher.Deliver | internal/webhook/dispatcher.go:206-237 | success clears the counter; a failure below maxRetries schedules exactly one retry with the next attempt number and a delay in the jitter range, and records nothing; a failure at maxRetries is recorded; bookkeeping that Postgres refuses changes nothing |
| Backoff.Delay | internal/webhook/dispatcher.go:269-277 | the delay lies in [floor(c/2), c] with 0 < c <= max, for every base and attempt |
| Backoff.ShlIsWrap | internal/webhook/dispatcher.go:270 | the shift is multiplication by a power of two in wrapping 64-bit arithmetic, also for 64 and more |
| Backoff.WrapIsCongruent | internal/webhook/dispatcher.go:270 | wrapping gives the int64 congruent modulo 2^64 |
| Backoff.CapIsIdealIff | internal/webhook/dispatcher.go:269-277 | c = min(base * 2^attempt, max) iff the product fits, or wrapped to something the guard throws away or that max covers |
| Backoff.CapIsIdealForAllAttempts | internal/webhook/dispatcher.go:269-277 | if the odd part of base times max fits in 63 bits, c is that minimum at every attempt |
| Backoff.CapIsIdealWhenProductFits | internal/webhook/dispatcher.go:269-277 | in particular when base * max fits |
| Backoff.DefaultsAreIdeal | internal/webhook/dispatcher.go:65-83 | one second and five minutes are such a configuration |
| Backoff.WrapCanBite | internal/webhook/dispatcher.go:270-272 | a configuration whose third delay is 4 ns instead of the maximum |
| DeadLetter.WebhookRepository.RecordSuccess | internal/repository/webhook.go:122-128 | clears that webhook's counter and nothing else |
| DeadLetter.WebhookRepository.RecordFailure | internal/repository/webhook.go:133-150 | one more failure, active iff below the threshold, disabling time set at or above it; not found changes nothing |
| DeadLetter.TraceState | internal/repository/webhook.go:122-150 | after any trace the counter is the number of failures since the last success; active iff that number was below the threshold at the latest failure; active implies below the threshold; inactive implies a disabling time |
| DeadLetter.DisabledAtThreshold | internal/repository/webhook.go:133-150 | a webhook goes inactive exactly on the failure that brings the streak to the threshold, at that time |
| DeadLetter.ReactivationNeedsSuccess | internal/repository/webhook.go:122-150 | a disabled webhook is active again only after a success followed by a failure |
| DeadLetter.LateSuccessRevives | internal/repository/webhook.go:122-150 | from any trace that left it disabled, a success and a failure make a webhook active again iff the threshold is above one, with its old disabling time still set |
| DeadLetter.FailuresDisable | internal/repository/webhook.go:133-150 | any run of at least threshold failures and nothing else leaves the webhook disabled |
| Shortcode.Generator.Generate | internal/shortcode/shortcode.go:52-74 | the first length accepted bytes of the reads joined together, mapped through the alphabet; a failed read fails it |
| Shortcode.Fill | internal/shortcode/shortcode.go:62-72 | one buffer's accepted bytes appended until the code is full |
| Shortcode.BoundariesDoNotMatter | internal/shortcode/shortcode.go:52-74 | only the concatenation of the reads matters, not where the buffers end |
| Shortcode.PreimagesAreExact | internal/shortcode/shortcode.go:52-74 | the set built character by character is exactly the set of accepted byte strings that map to the code |
| Shortcode.Uniform | internal/shortcode/shortcode.go:52-74 | every base62 string of length n has exactly 4^n accepted preimages |
| Shortcode.AlphabetIsDigits | internal/shortcode/shortcode.go:14-20 | the alphabet has 62 distinct characters in the order digits, upper case, lower case |
| Shortcode.ValidAliasIff | internal/shortcode/shortcode.go:81-87 | an alias is 3 to 64 letters, digits, underscores and dashes and no reserved word |
| Shortcode.GeneratedMayBeReserved | internal/service/link.go:167-184 | for the configurable lengths 4 to 16 a generated code can be one that aliases may not be iff the length is 5 to 8 |
| Isolation.Noninterference | internal/repository/link.go:42-171 | deleting all of one tenant's calls from any run in which it tries codes of its own leaves every response to the others, and every row of theirs, unchanged |
| Isolation.OthersCall | internal/service/link.go:124-270 | any other tenant's call answers and writes the same with or without that tenant's rows |
| Isolation.OwnCall | internal/repository/link.go:42-171 | a tenant's call leaves all rows of others alone |
| Isolation.NewestFirstIsOrdered | internal/repository/link.go:91-115 | the enumeration a page is cut from has all the given rows, each once, newest first |
| Isolation.PageIs | internal/service/link.go:192-200 | a page holds the tenant's own live rows, newest first, as many as are left after the offset up to the limit, which is 50 outside 1 to 100 |
| Isolation.PagesContinue | internal/repository/link.go:91-97 | one page starts where the one before it stopped |
| Demo.LinkJanitor.SweepOnce | internal/service/janitor.go:58-70 | purges the demo tenant with the cutoff now - retention; a failed purge changes nothing |
| Demo.LinkJanitor.Run | internal/service/janitor.go:44-56 | sweeps at once and then on every tick, failed sweeps skipped |
| Demo.SweptIs | internal/service/janitor.go:44-70 | after any turns exactly the rows remain, unchanged, that no successful turn, the first one included, found expired or deleted before its cutoff |
| Demo.DemoStaysBounded | internal/service/link.go:242-246 | every demo link expires within maxTTL of its last service write; after a sweep at t every demo row left was written at or after t - retention - maxTTL; exactly the demo tenant's rows past the cutoff are removed |
| Demo.ClampIsEarliest | internal/service/link.go:90-99 | the cap gives the earlier of the request and now + maxTTL |
| Stats.SeriesForLink | internal/repository/click.go:91-113 | points in strictly increasing time, each a bucket start with the total of the window's part in that bucket, adding up to the window's total; the same without any other tenant's or link's clicks |
| Stats.TotalIsPositions | internal/repository/click.go:116-126 | the total is the number of clicks of that tenant and link at or after from and before to |
| Stats.OthersDoNotCount | internal/repository/click.go:91-153 | without all other tenants' and links' clicks a window selects the same clicks in the same order |
| Stats.WholeSeriesIsClickCount | internal/repository/click.go:91-113 | the series of a window that covers all of a link's clicks adds up to its click_count |
| Stats.DayIsSumOfItsHours | internal/repository/click.go:92-97 | each UTC day's count is the sum of its hours' counts on the same snapshot, also before the epoch |
| Stats.LabelQuery | internal/repository/click.go:130-153 | at most limit labels with exact counts, in decreasing order, dominating every label left out, adding up to at most the total and to all of it below the limit; the same without any other tenant's or link's clicks |
| Stats.LabelCounts | internal/repository/click.go:157-170 | a label's count is the number of clicks that show it |
| Stats.LabelIs | internal/repository/click.go:157-170 | each query shows its own column, an empty one under a name of its own |
| Stats.TenantOverview | internal/repository/click.go:173-205 | exact totals; with the foreign key the join loses no click, so the busiest codes add up to at most the total |
| Stats.OverviewCounts | internal/repository/click.go:173-205 | the overview counts exactly the tenant's clicks, and under a code exactly those on links that have it |
| Stats.GroupCounts | internal/repository/click.go:94-97 | grouping gives each key one row, and for any selection of keys the rows add up to the entries selected |
| Stats.OrderBySums | internal/repository/click.go:139-141 | ordering permutes the rows and changes no total |

## Left out

- Handlers, DTOs, JSON decoding, health probes, logging, metrics, the console and the deployment scripts.
- URL validation is a verdict that comes with the request; SHA-256, HMAC, UUID and JSON codecs are the identity on the values here.
- enrich (user agent, country, IP hashing) of a click before it is batched: clicks are the enriched ones.
- Transport failures of Postgres in the link CRUD calls, which return an error and change nothing; they are modelled for redirects, batches and the janitor.
- The machine widths of click_count (64-bit) and failure_count (32-bit).
- The `enqueued` counter as other goroutines see it: it is raised after the send, so conservation counts sends.
- Deadlines: flush, resolve and shutdown timeouts end in the same outcomes as any other failure, and shutdown is followed to its end.
- ListActiveForEvent: the dispatcher's lookup is a list of distinct webhooks given to Resolve; a failed lookup is the empty list.
- Dispatcher: a queue size of zero, where a Go channel hands over only to a waiting receiver; the results on what shutdown strands take it to be at least one, with at least one sender.
- Which sender posts which job: senders are interchangeable, and timers may fire at any time after they are set.
- Isolation.Noninterference: the order of a page's links with equal creation times is some fixed one, and the clicks table is not part of the two runs.
- Isolated fields under two concurrent PATCHes of one link: read-modify-write is not guarded, so no such claim is made.
- Staleness: a Set or Delete reaches Redis in one step with its TTL; two processes' calls interleave between steps only.
- Stats.SeriesForLink: buckets are those of the UTC time zone; a database session in another zone truncates differently.
- Stats.LabelQuery: equal counts are ordered by character code, where the database uses its collation.
- Repository.Postgres.RecordBatch: the order in which the counts map is walked is arbitrary, so the codes it reports come in arbitrary order.
- API keys, users, event de-duplication, webhook signatures: single-branch or single-loop facts.
