# CogniGate gateway: a verified model

CogniGate is a multi-tenant gateway in front of model providers. This project models
the parts of it whose correctness depends on state that outlives one request: the
circuit breaker and the dispatch cascade over it, the provider key pools, admission
control, the response cache, usage delivery to the analytics service, and model
resolution with the catalog, quotas and paging around it.

How the model is arranged:

- What the source updates in place is a class with the same fields, and each of its
  methods is proved against a function of the old state. A method that runs under one
  lock is one step.
- What the system promises is proved about every sequence of those steps: every
  interleaving of requests, late reports, lost answers, expiries, flushes and clock
  readings, with no bound on their number.
- A clock reading, an upstream answer, a provider's model list and a delivery attempt's
  outcome are arbitrary inputs the theorems quantify over. Clocks do not go back where a
  theorem says `Monotone`.
- Integers are unbounded, except the round-robin cursor, which wraps at 2^64. Rate-limit
  time and tokens, and quota amounts, are reals.

| module | what it holds |
|---|---|
| `Breakers` | closed / open / half-open entries, sliding failure window, single probe |
| `KeyPool` | round robin over a provider's keys, Retry-After cooldowns |
| `Dispatch` | one request's walk over candidates and keys |
| `ProbeProtocol` | any number of requests interleaved over one breaker |
| `RateLimit` | token bucket, minute window and sweep |
| `Sweeping` | exactly when a sweep can be noticed |
| `Permits` | per-key concurrency permits and their hand-over to a stream writer |
| `LruCache`, `LruRuns`, `CompletionCache` | the byte-bounded LRU, what it holds after any run, and what a hit may return |
| `UsageDelivery` | queue, retry, late duplicates, idempotent receiver |
| `Catalog`, `Resolve` | snapshots and change events, aliases, chains, the health report |
| `Quota` | slots, the verdict, announcements |
| `Paging` | cursor paging over a list that changes |
| `Sorting`, `Names`, `Wrappers` | shared definitions |

Where a property turned out not to hold of the code as written, the model keeps the code
and states exactly when it does hold:

- A dispatch that was admitted as the recovery probe and leaves by an exit that reports
  nothing (provider unusable, no adapter, unparseable body, request-caused 4xx, oversize
  response) leaves its breaker key half-open. `ProbeProtocol.SilentProbeSticks` gives such a
  run for each of those exits, `ProbeProtocol.StuckIffProbeLeftUnreported` says exactly which
  runs end so, and `ProbeProtocol.RecoverableIffNotStuck` that a key can be admitted again if
  and only if it is not stuck.
- The sweep of idle rate-limit entries uses the refill time of the tenant that triggered
  it. It drops only entries that make no difference if and only if that refill time covers
  the swept tenant's own, or the swept tenant's minute is tight: rpm at most 60 rps, rpm - 1
  at most what the caller's refill time regains, and 2 rpm - 1 at most what that or a minute
  regains (`Sweeping.DropsOnlyIdleIffHarmless`, for all limits). Where the tenant has no
  minute ceiling, or rpm is at least burst, the same condition decides whether any answer
  ever changes (`Sweeping.SweepUnseenIffHarmless`). Where rpm is below burst the condition is
  enough for that and not always needed: a tenant with 2 rpm at most burst and rpm at most
  60 rps sees no sweep whatever it drops (`Sweeping.SpaciousSeesNoSweep`).
- Round robin stays fair across the wrap of its cursor if and only if the pool size divides
  2^64 (`KeyPool.FairThroughWrapIffDivides`).
- A quota crossing is remembered per scope, window and unit. Announcements rise whatever the
  levels if and only if no window returns after another (`Quota.AlwaysRiseIffNoReturn`), and
  a key's own cap shares its memory with the tenant's cap on the same window and unit
  (`Quota.SharedMemorySwallows`).
- A cacheable request resolves twice, for its cache key and inside its dispatch, and what is
  stored is compared by name only. An answer served by a fallback is kept out of the cache if
  and only if both resolutions named the same primary; `CompletionCache.FallbackReplayed` is
  the run in which they do not.

The agreement of the health report with routing rests on two things the admin plane and the
store see to, one rule per match and no empty chain; `Resolve.EmptyRuleWouldDisagree` says
what a rule without a chain, which cannot be stored, would do.

## Model

| member | source | states |
|---|---|---|
| `Breakers.Breaker.constructor` | gateway/internal/routing/breaker.go:114-132 | each setting that is valid is kept and each that is not gets its default, so every breaker has a usable threshold, window and cool-off |
| `Breakers.Breaker.Transition` | gateway/internal/routing/breaker.go:307-319 | the entry moves, closing clears the probing flag, and the hook hears of it exactly when the state changes |
| `Breakers.Breaker.Allow` | gateway/internal/routing/breaker.go:164-196 | the answer, the new entry and the hook call, for keys with and without an entry |
| `Breakers.Breaker.State` | gateway/internal/routing/breaker.go:199-213 | a cooled-off open entry reads half-open, an unknown key closed |
| `Breakers.Breaker.Snapshot` | gateway/internal/routing/breaker.go:227-247 | exactly the keys `State` does not call closed, with its state, and for open ones the end of the cool-off |
| `Breakers.Breaker.Success` | gateway/internal/routing/breaker.go:252-265 | closes the entry and clears failures and flag, whatever state it was in; a key without an entry gets none |
| `Breakers.Breaker.Failure` | gateway/internal/routing/breaker.go:271-304 | a probe's failure reopens; otherwise the in-place pruning loop keeps exactly the failures in the window, and a closed entry opens at the threshold |
| `Breakers.StepView` | gateway/internal/routing/breaker.go:164-304 | helper: an event moves its own key's entry only, and an absent entry behaves as a closed one without history |
| `Breakers.HalfOpenIffProbing` | gateway/internal/routing/breaker.go:180-192 | in every run an entry is half-open exactly when its probing flag is set |
| `Breakers.ProbesAreSeparatedByAReport` | gateway/internal/routing/breaker.go:164-304 | between two probe admissions of a key there is a report for it |
| `Breakers.AdmissionInsideCoolOffNeedsSuccess` | gateway/internal/routing/breaker.go:164-196 | an admission inside a cool-off implies a success arrived since the entry opened |
| `Breakers.CoolOffRunsFromTheFailure` | gateway/internal/routing/breaker.go:271-304 | the cool-off runs from the failure that opened the key, the first or a failed probe's: within it nothing is admitted unless a success arrives |
| `Breakers.FirstQuestionAfterCoolOffIsAdmitted` | gateway/internal/routing/breaker.go:176-185 | the first question at or after its end is admitted, whatever late failures were reported meanwhile |
| `Breakers.SuccessIsFollowedByAdmission` | gateway/internal/routing/breaker.go:252-265 | a success, however late, is followed by admission until the next failure |
| `Breakers.NeverFailedIsAdmitted` | gateway/internal/routing/breaker.go:164-174 | a key that never failed is always admitted |
| `Breakers.ListenerIsRight` | gateway/internal/routing/breaker.go:307-319 | following the hook's calls, a listener always knows every key's stored state |
| `Breakers.ReportedStateDecidesAllow` | gateway/internal/routing/breaker.go:164-247 | the reported state and whether a probe is out decide what `Allow` answers, and `until` is the first admitting moment |
| `Breakers.PrunedListIsWindowedLog` | gateway/internal/routing/breaker.go:252-304 | while closed, the pruned list is the complete log of failures since the last success cut to the window, and shorter than the threshold |
| `Breakers.OpensExactlyAtThreshold` | gateway/internal/routing/breaker.go:284-304 | a closed entry opens on exactly the failure that, with the failures reported within the window since the last success, makes up the threshold |
| `Breakers.LogCountsRecent` | gateway/internal/routing/breaker.go:289-297 | the windowed log is as long as there are failure events of the key after the cutoff with no success since |
| `Breakers.SplitUndoesKey` | gateway/internal/routing/breaker.go:143-159 | splitting undoes joining when tenant and provider hold no slash, whatever the model id holds |
| `KeyPool.RotationKeepsEveryKey` | gateway/internal/routing/dispatch.go:124-129 | helper: the order walked is a permutation of the pool |
| `KeyPool.RoundRobinIsFair` | gateway/internal/routing/dispatch.go:119-129 | over any number of turns two positions are started at equally often, give or take one, short of the cursor's wrap |
| `KeyPool.FairThroughWrapIffDivides` | gateway/internal/routing/dispatch.go:119-123 | fairness holds for all runs, wrap included, if and only if the pool size divides 2^64 |
| `Dispatch.CursorCountsTurns` | gateway/internal/routing/dispatch.go:119-122 | however requests to other providers interleave, iterating the cursor update leaves a pool's cursor where it started plus its own turns, modulo 2^64 |
| `Dispatch.RequestsSpreadFairly` | gateway/internal/routing/dispatch.go:113-130 | so the requests to a provider start at any two positions of its pool equally often, give or take one |
| `KeyPool.ParkedIffLatestDeadlineAhead` | gateway/internal/routing/dispatch.go:134-172 | however it was pruned, the map calls a key parked exactly when the latest deadline ever reported for it is in the future |
| `KeyPool.LatestIsReportedAndLast` | gateway/internal/routing/dispatch.go:134-141 | helper: that deadline is one that was reported, and none reported is later |
| `KeyPool.ReadingForgetsTheExpired` | gateway/internal/routing/dispatch.go:158-167 | reading a pool leaves none of its expired entries behind and touches nothing else |
| `KeyPool.UnparkedInOrder` | gateway/internal/routing/dispatch.go:156-167 | helper: the ready keys keep the order of the pool |
| `KeyPool.CoolingKeyWalkedOnlyWhenAllCool` | gateway/internal/routing/dispatch.go:149-172 | a key of the pool is walked exactly when it is not cooling or the whole pool is |
| `Dispatch.Dispatcher.KeyOrder` | gateway/internal/routing/dispatch.go:113-130 | the pool rotated to the cursor, which advances by one modulo 2^64; a single key or a failover pool is left alone |
| `Dispatch.RoundRobinOrder` | gateway/internal/routing/dispatch.go:119-129 | the keys in the pool's order from the cursor on, round to just before it |
| `Dispatch.FailoverStartsAtTheFirst` | gateway/internal/routing/dispatch.go:114-117 | helper: a failover pool, or one of a single key, always starts at its first |
| `Dispatch.Dispatcher.CoolKey` | gateway/internal/routing/dispatch.go:134-141 | the later of two deadlines stands |
| `Dispatch.Dispatcher.ReadyKeys` | gateway/internal/routing/dispatch.go:149-172 | the unparked keys in order, or all of them when none is; expired entries of this pool are forgotten and no others |
| `Dispatch.Dispatcher.CallKey` | gateway/internal/routing/dispatch.go:350-400 | one upstream call: its verdict, what the attempt records, and the key parked exactly when a 429 carried a positive Retry-After |
| `Dispatch.StatusDecides` | gateway/internal/provider/provider.go:159-175 | helper: a 2xx serves, a 429 tries the next key, any other 4xx ends the request, everything else cascades |
| `Dispatch.WalkEndsByItsLastAnswer` | gateway/internal/routing/dispatch.go:359-405 | from the answers alone: too large or a blamed request ends it, a response without failure serves, everything else cascades, an unreachable upstream included; every answer before the last was a 429 |
| `Dispatch.OutcomeMeans` | gateway/internal/routing/dispatch.go:244-307 | a request is rejected only for an unparseable body or such an answer, served only by a response without failure, and given up only when every candidate was skipped, unusable or cascaded |
| `Dispatch.LeftWithoutACall` | gateway/internal/routing/dispatch.go:245-275 | which candidates are left without a call, each from the provider's own fields |
| `Dispatch.AttemptRecordsTheLastAnswer` | gateway/internal/routing/dispatch.go:348-372 | an attempt records the last response's status and failure, or that none was reached |
| `Dispatch.AttemptWithoutACall` | gateway/internal/routing/dispatch.go:246-266 | helper: the attempts of candidates left without a call |
| `Dispatch.VisitTellsTheBreaker` | gateway/internal/routing/dispatch.go:285-301 | helper: one question per visit, one success when it served, one failure when it cascaded, nothing otherwise |
| `Dispatch.BreakerKeyIsTheCandidates` | gateway/internal/routing/resolve.go:43-43 | two candidates share a breaker entry exactly when tenant, provider and model agree |
| `Dispatch.RetryAfterParks` | gateway/internal/routing/dispatch.go:177-194 | a 429 that asks for n seconds, or until a date, keeps its key out of the walk for that long |
| `Dispatch.OnlyRetryAfterParks` | gateway/internal/routing/dispatch.go:383-396 | no other answer parks a key |
| `Dispatch.Dispatcher.TryCandidate` | gateway/internal/routing/dispatch.go:341-406 | ready keys are tried in order while the answer is 429; the candidate is given up as rate limited only after all of them |
| `Dispatch.Dispatcher.VisitOne` | gateway/internal/routing/dispatch.go:244-302 | each way of leaving a candidate has exactly one cause; those before the key walk make no upstream call |
| `Dispatch.Dispatcher.AskUpstream` | gateway/internal/routing/dispatch.go:277-301 | serving reports one success, cascading one failure, and a failure the request caused reports nothing |
| `Dispatch.Dispatcher.Dispatch` | gateway/internal/routing/dispatch.go:227-307 | the visits are one per candidate for a prefix of the list (all of it on exhaustion), each sound from the world the ones before left; depth is attempts minus one; breaker, cooldowns and cursors end as the visits say |
| `Dispatch.CascadingEnds` | gateway/internal/routing/dispatch.go:277-307 | how a cascade that stopped or ran out concludes |
| `Dispatch.AttemptPerVisit` | gateway/internal/routing/dispatch.go:242-302 | helper: every visit leaves one attempt, except the unparseable body that ends the request |
| `Dispatch.ProbeReleasedIffReported` | gateway/internal/routing/dispatch.go:244-302 | a visit admitted as the probe leaves its key half-open exactly when its exit reports nothing |
| `Dispatch.AbandonedProbeSkipsForever` | gateway/internal/routing/dispatch.go:244-248 | with the probe gone, every visit of that key by every later request is skipped without an upstream call, and the entry never moves |
| `Dispatch.TraceIsABreakerRun` | gateway/internal/routing/dispatch.go:244-302 | a request moves the breaker by one question per visit and one report per visit that served or cascaded, so the breaker's theorems apply |
| `ProbeProtocol.ProbeInFlightOrAbandoned` | gateway/internal/routing/dispatch.go:244-302 | in every interleaving a half-open key has its prober in flight or was abandoned by it |
| `ProbeProtocol.StuckIffProbeLeftUnreported` | gateway/internal/routing/dispatch.go:244-302 | a run leaves a key stuck exactly when its prober left in silence, nobody reported on the key since, and nobody is busy with it; other silent exits do no harm |
| `ProbeProtocol.SilentProbeSticks` | gateway/internal/routing/dispatch.go:250-289 | for every configuration, key and silent exit, a run from the start that ends with the key stuck |
| `ProbeProtocol.ReportingRunsNeverStick` | gateway/internal/routing/dispatch.go:285-301 | when every request leaves by a reporting exit, no key is ever stuck |
| `ProbeProtocol.StuckIsAbsorbing` | gateway/internal/routing/breaker.go:186-192 | a stuck key stays stuck and admits nobody through every continuation |
| `ProbeProtocol.RecoverableIffNotStuck` | gateway/internal/routing/breaker.go:164-196 | some later continuation is admitted if and only if the key is not stuck |
| `ProbeProtocol.DispatchIsARun` | gateway/internal/routing/dispatch.go:244-302 | what `Dispatch` promises of its visits makes them a run of one request in this protocol, with the same breaker entries and nothing left in flight |
| `RateLimit.RateLimiter.Take` | gateway/internal/server/limits.go:322-384 | the answer and all entries after one take; a tenant with neither ceiling is always admitted |
| `RateLimit.NeitherCeiling` | gateway/internal/server/limits.go:323-327 | helper: a tenant with neither ceiling is always admitted and leaves no entry |
| `RateLimit.RateLimiter.Fetch` | gateway/internal/server/limits.go:332-352 | an entry is created full, or refilled to at most burst with an expired minute restarted; creating one past 4096 sweeps |
| `RateLimit.RateLimiter.Spend` | gateway/internal/server/limits.go:354-383 | both ceilings are measured before either is charged, and a refusal charges nothing |
| `RateLimit.RateLimiter.Sweep` | gateway/internal/server/limits.go:391-401 | exactly the entries idle for the caller's refill time and past their minute are dropped |
| `RateLimit.RunOk` | gateway/internal/server/limits.go:322-384 | every run keeps tokens within the burst, the count within rpm, and count + tokens within burst + rps times the age of the minute |
| `RateLimit.MinuteNeverBinds` | gateway/internal/config/config.go:354-358 | with rpm at least 60 rps + burst the minute window refuses nothing in any run, whatever is swept |
| `RateLimit.BucketRateBound` | gateway/internal/server/limits.go:340-379 | admissions over any interval are at most burst + rps times its length, for a limiter that keeps its entries |
| `RateLimit.MinuteRateBound` | gateway/internal/server/limits.go:347-382 | admissions in any span under a minute are at most twice rpm, whatever is swept |
| `RateLimit.GainIsProduct` | gateway/internal/server/limits.go:342-342 | helper: the refill the bounds speak of is elapsed time times rps |
| `RateLimit.RetryAgainstDue` | gateway/internal/server/limits.go:354-374 | a refused entry is refused again exactly until it is due, and being refused does not move that moment |
| `RateLimit.WaitIsExact` | gateway/internal/server/limits.go:340-383 | with no admission in between, a retry succeeds if and only if it comes at least the returned wait later, for a limiter that keeps its entries |
| `Sweeping.DropsOnlyIdleIffHarmless` | gateway/internal/server/limits.go:391-401 | for all limits of the swept tenant and of the sweeping one: in every run only idle entries are dropped if and only if the refill time is covered or the minute is tight |
| `Sweeping.SweepUnseenIffHarmless` | gateway/internal/server/limits.go:332-401 | without a minute ceiling, or with rpm at least burst: no run changes an answer if and only if the same condition holds |
| `Sweeping.HarmfulEntry` | gateway/internal/server/limits.go:322-401 | whenever the condition fails, takes that leave an entry which may be swept though it is not idle: in one window, two, or as many as it takes |
| `Sweeping.HarmShows` | gateway/internal/server/limits.go:332-401 | such an entry is dropped by a run that fills the limiter past 4096, and the tenant is then admitted where it should have been refused |
| `Sweeping.UncoveredSweepChangesAnAnswer` | gateway/internal/server/limits.go:391-401 | one such run, for one request per second beside tenants with a minute ceiling only |
| `Sweeping.TightMinuteNeedsNoCover` | gateway/internal/server/limits.go:391-401 | limits whose refill time is not covered and which no sweep harms |
| `Sweeping.SpaciousSeesNoSweep` | gateway/internal/server/limits.go:322-401 | with rpm at most 60 rps and 2 rpm at most burst, no run's sweeps change an answer, idle entries or not |
| `Sweeping.UnseenThoughNotIdle` | gateway/internal/server/limits.go:391-401 | limits of that kind, and a run that drops an entry of theirs that is not idle |
| `Sweeping.RunNearFull` | gateway/internal/server/limits.go:322-384 | every run keeps the bucket of a tenant whose rpm is within 60 rps and within burst near full |
| `Sweeping.SweepIsUnobservable` | gateway/internal/server/limits.go:332-352 | when only idle entries of a tenant are dropped, it gets every answer of a limiter that never sweeps |
| `Sweeping.BurstIsAdmitted` | gateway/internal/server/limits.go:334-383 | a tenant that has not taken yet is let through as often at once as its burst and its minute allow |
| `Sweeping.DropNeedsACrowd` | gateway/internal/server/limits.go:334-339 | nothing is swept while there are fewer than 4096 entries |
| `Sweeping.SweptRateBound` | gateway/internal/server/limits.go:322-401 | with harmless sweeps the limiter admits at most burst + rps times T over any interval of length T |
| `Sweeping.SweptWaitIsExact` | gateway/internal/server/limits.go:322-401 | with harmless sweeps a retry after a refusal succeeds if and only if it waited as told |
| `Permits.ConcurrencyLimiter.Acquire` | gateway/internal/server/middleware.go:311-323 | a permit is given exactly when fewer than the limit are counted, and only then is the counter raised |
| `Permits.ConcurrencyLimiter.Release` | gateway/internal/server/middleware.go:324-337 | the first call lowers the counter, dropping it at the last permit; later calls change nothing |
| `Permits.Slot.Take` | gateway/internal/server/limits.go:255-258 | the permit passes to the caller, and the slot remembers it |
| `Permits.Slot.ReleaseUnlessAdopted` | gateway/internal/server/limits.go:260-264 | the middleware gives the permit back exactly when nobody adopted it |
| `Permits.CountersAreOutstandingPermits` | gateway/internal/server/middleware.go:311-338 | in every interleaving a counter is the number of permits outstanding, absent when there are none, and arrival succeeds exactly below the limit |
| `Permits.ReleasedOnceByItsOwner` | gateway/internal/server/limits.go:229-264 | a permit has been given back once when its owner, middleware or stream writer, is finished, and never before |
| `LruCache.Cache.Get` | gateway/internal/cache/cache.go:83-101 | an unexpired entry is answered and promoted, an expired one removed; the indexes stay in agreement |
| `LruCache.Cache.Put` | gateway/internal/cache/cache.go:109-146 | a refused entry changes nothing; an accepted one replaces its key, goes to the front, and the tail is evicted to the bound |
| `LruCache.Cache.Flush` | gateway/internal/cache/cache.go:151-167 | exactly the tenant's entries go, and their number is returned |
| `LruCache.Cache.RemoveElement` | gateway/internal/cache/cache.go:170-181 | one element leaves item map, recency list, tenant index and byte count alike |
| `LruCache.Cache.Evict` | gateway/internal/cache/cache.go:139-145 | evicting from the back leaves what `Fit` says and restores the byte bound |
| `LruCache.FitIsLongest` | gateway/internal/cache/cache.go:139-145 | what is kept is the longest most-recently-used prefix within the bound |
| `LruCache.PutKeepsTheNewEntry` | gateway/internal/config/config.go:529-531 | with the entry limit within the byte limit an accepted entry is always kept, at the front |
| `LruRuns.KeptInOrderOfUse` | gateway/internal/cache/cache.go:83-181 | after every run of gets, puts and flushes the list is strictly in order of last use, a use being a hit or an accepted put |
| `LruRuns.LastUseMeans` | gateway/internal/cache/cache.go:83-146 | helper: the last use is a hit or an accepted put of the key, and none came later |
| `LruRuns.EvictedWasUsedBeforeKept` | gateway/internal/cache/cache.go:139-145 | whatever a put evicts was used before everything it keeps |
| `LruRuns.HeldIsTheLastStored` | gateway/internal/cache/cache.go:109-146 | what is held under a key is what its last accepted put stored, with its size and expiry, and its tenant was not flushed since |
| `LruRuns.FetchAnswers` | gateway/internal/cache/cache.go:83-101 | a get answers exactly what is held under its key with time left |
| `LruRuns.GoesOnlyBy` | gateway/internal/cache/cache.go:83-181 | an entry goes only when fetched too late, stored anew, flushed with its tenant, or pushed out by a put for which there is not room for all |
| `LruRuns.GoesBy` | gateway/internal/cache/cache.go:83-167 | a late fetch and a flush do drop it |
| `CompletionCache.Completions.Begin` | gateway/internal/server/chat.go:220-237 | the lookup half of a completion: what it answers, what it does to the cache, what it carries to the store |
| `CompletionCache.Completions.Conclude` | gateway/internal/server/chat.go:247-260 | the store half: nothing is stored unless the served candidate is the one the key names |
| `CompletionCache.KeyDeterminesRequest` | gateway/internal/cache/cache.go:209-244 | equal keys come from the same tenant, provider/model and canonical request |
| `CompletionCache.SameKeyIffSameRequest` | gateway/internal/cache/cache.go:193-244 | two requests share a key exactly when tenant and provider/model agree and the bodies agree in every field but user, metadata and stream_options |
| `CompletionCache.ServedByDeterminesCandidate` | gateway/internal/cache/cache.go:39-39 | helper: the served-by name determines provider and model when provider names hold no slash |
| `CompletionCache.CachedHasOrigin` | gateway/internal/server/chat.go:247-260 | every cached item was stored by a dispatch for an earlier lookup, with no flush of its tenant since |
| `CompletionCache.HitIsThePrimarysOwnRecentAnswer` | gateway/internal/server/chat.go:220-286 | over every run a hit is the body a dispatch returned for the same tenant and a body that agrees in every field but user, metadata and stream_options, from the candidate resolution now names as primary, less than its TTL ago, no flush since; it was served at depth 0 if and only if the dispatch's own resolution named the lookup's primary |
| `CompletionCache.FallbackReplayed` | gateway/internal/server/chat.go:229-258 | when the route changes between the two resolutions of one request, an answer served at depth 1 is stored and replayed |
| `UsageDelivery.UsageTable.Check` | analytics/src/main/java/com/cognigate/controller/UsageController.java:52-67 | refused when malformed, done when held, and otherwise to be inserted |
| `UsageDelivery.UsageTable.Save` | analytics/src/main/java/com/cognigate/entity/UsageMetric.java:33-34 | the unique constraint refuses a second row for a request id |
| `UsageDelivery.UsageTable.Recheck` | analytics/src/main/java/com/cognigate/controller/UsageController.java:70-77 | a refused insert is done when the id is held by then, and an error otherwise |
| `UsageDelivery.UsageTable.Record` | analytics/src/main/java/com/cognigate/controller/UsageController.java:50-79 | 400 when malformed, 200 when held, 201 exactly when stored by this call, an error otherwise; a success leaves the row |
| `UsageDelivery.Telemetry.Record` | gateway/internal/obs/telemetry.go:102-111 | the record is queued, or counted as dropped when the queue is full |
| `UsageDelivery.Telemetry.Deliver` | gateway/internal/obs/telemetry.go:189-233 | retries only inconclusive attempts, waiting by the backoff, and reports success exactly when the last attempt was accepted |
| `UsageDelivery.Telemetry.Drain` | gateway/internal/obs/telemetry.go:149-168 | one attempt per queued record; the failures are counted as dropped |
| `UsageDelivery.BackoffBounded` | gateway/internal/obs/telemetry.go:219-231 | helper: waits never shrink and never exceed the ceiling |
| `UsageDelivery.BackoffDoubles` | gateway/internal/obs/telemetry.go:190-231 | helper: half a second doubled per attempt, at most half a minute |
| `UsageDelivery.AnswerDecides` | gateway/internal/obs/telemetry.go:200-231 | by the status alone: success acknowledges; while running a 5xx, 408, 429 or 3xx keeps the record and any other refusal drops it; while draining anything but success loses it |
| `UsageDelivery.NothingElseIsLost` | gateway/internal/obs/telemetry.go:102-231 | before shutdown a record is lost only to a full queue or a 4xx other than 408 and 429 |
| `UsageDelivery.QueueIsBounded` | gateway/internal/obs/telemetry.go:102-111 | the queue never holds more than its capacity |
| `UsageDelivery.RoomMeansQueued` | gateway/internal/obs/telemetry.go:102-111 | helper: a record offered to a queue with room joins it at the end |
| `UsageDelivery.NextKeepsInv` | gateway/internal/obs/telemetry.go:102-233 | every step of either side keeps conservation, uniqueness, queue order, and that a success has its row |
| `UsageDelivery.EveryRecordIsAccountedFor` | gateway/internal/obs/telemetry.go:102-233 | submitted = acknowledged + dropped + lost in the drain so far + queued + in hand, in every run |
| `UsageDelivery.NoRequestHasTwoRows` | analytics/src/main/java/com/cognigate/controller/UsageController.java:65-77 | no request id ever has two rows, whatever lands late or races |
| `UsageDelivery.AcknowledgedHasOneRow` | analytics/src/main/java/com/cognigate/controller/UsageController.java:65-79 | an acknowledged record has exactly one row, the record itself |
| `UsageDelivery.AcknowledgedInQueueOrder` | gateway/internal/obs/telemetry.go:126-141 | of two acknowledged records the one queued first was acknowledged and stored first |
| `Catalog.MergeModel` | gateway/internal/catalog/catalog.go:329-351 | a model, at the operator's price where there is one, claims its plain and its qualified id, and keeps each one nobody claimed before |
| `Catalog.Poll` | gateway/internal/catalog/catalog.go:292-374 | ids look up to their first claimant, listed entries are sorted by provider and id, and the poll fails exactly when nothing was listed and something failed |
| `Catalog.ListedLooksUpToItself` | gateway/internal/catalog/catalog.go:329-351 | helper: listed ids are unique and each looks up to its own entry |
| `Catalog.LooksUpToTheFirstOffer` | gateway/internal/catalog/catalog.go:311-351 | each id looks up to the first polled provider in the tenant's order that offers it, with that model's figures, the operator's price where set and the provider's name |
| `Catalog.LooksUpIffOffered` | gateway/internal/catalog/catalog.go:311-351 | an id looks up to something exactly when a polled provider offers it |
| `Catalog.Diff` | gateway/internal/catalog/catalog.go:393-413 | exactly the ids gained and the ids lost, each sorted |
| `Catalog.TenantCatalog.GetNow` | gateway/internal/catalog/catalog.go:192-202 | a current snapshot is served as it is; the call fails only with no snapshot and a failed poll |
| `Catalog.TenantCatalog.Reload` | gateway/internal/catalog/catalog.go:230-250 | a failed poll marks the held snapshot stale; a good one replaces it and announces a change exactly when ids came or went |
| `Catalog.TenantCatalog.Invalidate` | gateway/internal/catalog/catalog.go:255-260 | the snapshot is forgotten and nothing announced |
| `Catalog.ChangesReplayToTheCatalog` | gateway/internal/catalog/catalog.go:230-250 | once a snapshot exists there is one after every call, and replaying the announced changes over its ids gives the current ids |
| `Catalog.StaleServesLastGood` | gateway/internal/catalog/catalog.go:230-250 | whatever failed since, the models served are the last good poll's |
| `Resolve.ModelIsTheUpstreamName` | gateway/internal/routing/resolve.go:224-232 | a qualified id is cut back to the model name, and a slash-free one is left alone |
| `Resolve.ResolveAlias` | gateway/internal/routing/resolve.go:159-222 | a listed pin wins outright; otherwise the filtered and ranked entries in the alias's order |
| `Resolve.RankProviders` | gateway/internal/routing/resolve.go:181-192 | the rank table gives each provider its last place in the preference, unlisted ones after all listed |
| `Resolve.AliasEntriesAreSorted` | gateway/internal/routing/resolve.go:159-222 | an alias stands for exactly the entries that meet it, each once, in a strict order |
| `Resolve.AliasEntriesMeaning` | gateway/internal/routing/resolve.go:159-222 | exactly the entries with every capability and a large enough or unknown window, each once; preferred providers first, then dearer for best and cheaper for cheapest, balanced or none, then by id |
| `Resolve.PinWins` | gateway/internal/routing/resolve.go:160-163 | helper: a listed pin stands for itself alone |
| `Resolve.ReferenceMeans` | gateway/internal/routing/resolve.go:146-154 | helper: an alias hides a model of its name, and a candidate carries its entry's provider and model |
| `Resolve.ServedByIsProviderAndModel` | gateway/internal/routing/resolve.go:49-49 | helper: two candidates are served by the same thing exactly when provider and model agree |
| `Sorting.StrLessIsLexicographic` | gateway/internal/routing/resolve.go:214-214 | helper: ids compare at the first place they differ |
| `Resolve.AliasIgnoresCatalogOrder` | gateway/internal/routing/resolve.go:194-222 | the expansion does not depend on the order the catalog lists its models in |
| `Resolve.ResolveRequest` | gateway/internal/routing/resolve.go:72-126 | the candidates, which of the two not-found errors, or the failure of the catalog or the store |
| `Resolve.WhichNotFound` | gateway/internal/routing/resolve.go:119-124 | when nothing resolves, the name of an alias gets its own error |
| `Resolve.FindChain` | gateway/internal/routing/resolve.go:130-141 | the first matching route with a non-empty chain, otherwise the requested name alone |
| `Resolve.Walk` | gateway/internal/routing/resolve.go:101-117 | one unserved candidate per chain position up to the depth, as the plan says |
| `Resolve.PlansAreGood` | gateway/internal/routing/resolve.go:101-117 | candidates are distinct, at most the depth, from strictly increasing positions, each the first of its position's alternatives not served before; short of the depth no position that could add one is passed over |
| `Resolve.DiagnoseAlias` | gateway/internal/routing/diagnose.go:107-129 | what the alias resolves to, and whether it is unresolvable or serving past a lost pin |
| `Resolve.DiagnoseRoute` | gateway/internal/routing/diagnose.go:131-163 | the first live position, unresolvable when there is none, duplicate when two neighbours coincide |
| `Resolve.ValidateChain` | gateway/internal/routing/resolve.go:254-263 | a chain is accepted exactly when it names each model once |
| `Resolve.PutRoute` | gateway/internal/server/admin.go:1049-1075 | a rule is refused exactly for an empty match, an empty or too long chain or a repeated model; what is stored keeps one rule per match and a chain in each |
| `Resolve.UpsertRoute` | gateway/internal/store/memory.go:447-470 | the rule of the same match is replaced, or the rule appended, and no other rule changes |
| `Resolve.StoredRuleIsTheOnePicked` | gateway/internal/routing/resolve.go:130-141 | routing follows every stored rule's own chain |
| `Resolve.RuleReportAgreesWithRouting` | gateway/internal/routing/diagnose.go:131-163 | every stored rule is reported unresolvable exactly when resolution fails, and otherwise names the primary resolution picks |
| `Resolve.EmptyRuleWouldDisagree` | gateway/internal/routing/resolve.go:135-140 | a rule without a chain, which the admin plane refuses, would be reported unresolvable though routing answers exactly when the name itself resolves |
| `Resolve.AliasReportAgreesWithRouting` | gateway/internal/routing/diagnose.go:107-129 | the report on every stored alias no rule redirects names the primary a request for it gets, and is unresolvable exactly when the request is |
| `Quota.MoreUseIsNoBetter` | gateway/internal/server/quota.go:429-440 | helper: using more never improves a slot, for any cap and threshold |
| `Quota.SlotsAreMeasured` | gateway/internal/server/quota.go:391-424 | helper: every slot of a quota carries the level of its own figures, a sensible threshold and its window's start |
| `Quota.WorstIsMaximum` | gateway/internal/server/quota.go:442-458 | the folded state is the highest of the slots |
| `Quota.VerdictMeans` | gateway/internal/server/quota.go:266-278 | blocked exactly when some cap is used up; warned exactly when none is and some soft threshold is passed |
| `Quota.SlotsMirrorCaps` | gateway/internal/server/quota.go:391-424 | helper: one slot for each cap that is set, in order, with its figures and its soft threshold when it is a percentage |
| `Quota.Verdict` | gateway/internal/server/quota.go:266-278 | the state is the worst slot's; the binding slot is the first of the latest-resetting among the worst |
| `Quota.KeySlotsNeverImprove` | gateway/internal/server/quota.go:302-332 | adding the key's slots never improves the verdict |
| `Quota.UsagePage` | gateway/internal/server/data.go:286-330 | the state shown is the same fold over all slots, cost rows hidden or not; unlimited slots and hidden cost are the only rows left out |
| `Quota.ShownMeans` | gateway/internal/server/data.go:286-330 | helper: a row for every slot with a cap, but for cost where cost is hidden |
| `Quota.QuotaCache.ShouldAnnounce` | gateway/internal/server/quota.go:237-254 | a state is announced exactly when it is a rise its window was not told of, and remembered then |
| `Quota.QuotaCache.Compute` | gateway/internal/server/quota.go:260-298 | verdict, binding slot, the crossings announced and the memory left |
| `Quota.QuotaCache.Invalidate` | gateway/internal/server/quota.go:224-233 | the verdicts of scopes that begin with the tenant's prefix are forgotten, announcements are not |
| `Quota.PrefixIsTheTenant` | gateway/internal/server/quota.go:224-233 | that prefix selects all of the tenant's scopes and none of another's |
| `Quota.ScopeIsTenantAndKey` | gateway/internal/server/quota.go:67-67 | helper: a scope is one tenant's one key |
| `Quota.MemoryIsPerScopeWindowAndUnit` | gateway/internal/server/quota.go:241-241 | helper: what is remembered together is one scope's one window and unit |
| `Quota.EvaluationIsARunOfAsks` | gateway/internal/server/quota.go:291-296 | an evaluation leaves the memory its questions leave, and emits exactly those announced |
| `Quota.SlotCrossesIffAnnounced` | gateway/internal/server/quota.go:291-296 | slot by slot, a crossing is emitted exactly when that question is announced |
| `Quota.EmissionsRise` | gateway/internal/server/quota.go:224-298 | over any run of evaluations and admin changes in which no window returns, what is emitted for one scope, window, unit and period rises strictly |
| `Quota.AtMostTwoPerWindow` | gateway/internal/server/quota.go:224-298 | over the same runs, at most two crossings are emitted per scope, window, unit and period |
| `Quota.AlwaysRiseIffNoReturn` | gateway/internal/server/quota.go:247-251 | announcements rise for every assignment of levels if and only if no window of a slot returns after another |
| `Quota.ReturningWindowRepeats` | gateway/internal/server/quota.go:247-251 | a window that returns can be announced again at the same level |
| `Quota.SharedMemorySwallows` | gateway/internal/server/quota.go:241-253 | after any slots of an evaluation, a slot is announced exactly when it would have been anyway and is strictly worse than each that shares its window and unit |
| `Paging.Paginate` | gateway/internal/server/page.go:58-83 | the items after the cursor up to the limit, whether more follow, and a refusal of an unknown cursor |
| `Paging.FirstPage` | gateway/internal/server/page.go:58-82 | helper: without a cursor, the first items up to the limit |
| `Paging.PageBehind` | gateway/internal/server/page.go:58-82 | with a cursor, exactly the items behind the first of that id up to the limit, and more exactly when some are left |
| `Paging.RefusedIffUnknown` | gateway/internal/server/page.go:70-74 | helper: refused exactly when no item has that id |
| `Paging.FollowAll` | gateway/internal/server/page.go:47-83 | following cursors over an unchanged list ends and concatenates to the whole list |
| `Paging.CursorsAdvance` | gateway/internal/server/page.go:58-83 | over an order-stable list that changes between pages, cursors only move forward |
| `Paging.PresentThroughoutReturnedOnce` | gateway/internal/server/page.go:47-83 | an item whose id is present throughout is returned by exactly one page, once, whatever is inserted, deleted or edited |

## Left out

- HTTP handlers, Fiber and fasthttp plumbing, headers, TLS, logging and metrics series: wrappers without an invariant of their own.
- `relaySSE`, provider adapters and JSON parsing: an upstream call is an arbitrary classified answer, a request body a map of fields.
- SHA-256 and the JSON encoder: taken as injective functions in `CompletionCache`; HMAC signing and key minting are not modelled.
- Admin handlers, the in-memory store, request capture, webhook events, the conformance suite: map bookkeeping, or weaker versions of properties proved here.
- Rounding of float64 and truncation of durations to nanoseconds: amounts and rate-limit time are reals, so a wait may differ from the source's by under a nanosecond.
- Integer widths other than the round-robin cursor's: durations and counters do not overflow.
- Calendar arithmetic of quota periods: window starts and resets are given integers, and starts that never go back never return.
- Tenant overrides that narrow the deployment's limits: each tenant's limits are given and fixed over a run.
- The catalog's age report and per-tenant locking; whether a request is eligible for caching: an ineligible one has no primary in `CompletionCache`.
- The quota cache's expiry and its sharing of concurrent evaluations: every evaluation recomputes.
- `Dispatch.Dispatcher.Dispatch`: the candidates are given rather than resolved in the call, an attempt's latency and error text are not recorded, and the attempts of a rejected request are dropped as the source drops them.
- `UsageDelivery.Telemetry.Deliver`: shutdown is a parameter that ends the waiting after some attempt; a sender that is never stopped and never answered is a run of `UsageDelivery.Next` of any length instead.
- `UsageDelivery.UsageTable.Check`: blank means empty or ASCII white space.
- `UsageDelivery.UsageTable.Record`: blank means empty or ASCII white space; every refused insert is a constraint violation, and other database failures are the `Crash` step of the protocol.
- `UsageDelivery.AcknowledgedInQueueOrder`: request ids are distinct, as the gateway mints them.
- `Resolve.ResolveAlias`: capability names are compared after lowering ASCII letters only, not by Unicode folding, and the library's stable sort is a function.
- `Resolve.ResolveRequest`: the depth is at least one, as the constructor ensures.
- `Resolve.PutRoute`: the match and the chain are taken after trimming, and the chain after blank entries are dropped.
- `Catalog.MergeModel`: the price table is a function of provider kind and model id, folding of case and space included, and the output price is not carried.
- `Catalog.Poll`: the texts of the providers' errors are not kept, only that some poll failed; a store that cannot list providers is a failed poll.
- `Quota.UsagePage`: a row carries the slot's exact figures; the coarsened consumption and the remainder shown to the tenant are not modelled.
- `Sweeping.SweepUnseenIffHarmless`: for a tenant whose rpm is at least 1 and below its burst, the two sufficient conditions are stated in `Sweeping.SweepIsUnobservable` and `Sweeping.SpaciousSeesNoSweep`, and no equivalence: a dropped entry that is not idle need not show there, as `Sweeping.UnseenThoughNotIdle` shows.
- `Resolve.DiagnoseRoute`: the final sort of the report by name is not modelled.
- `LruCache.Cache.Put`: the linked list is a sequence, so moving an element costs nothing and element identity is its key; string lengths stand for byte lengths.
- `Paging.Paginate`: the cursor and the limit are taken after parsing and trimming; ids are taken to be trimmed and non-empty.
