# LLMGateway control plane, verified in Dafny

The gateway stands between API clients and a set of model servers. This project models the stateful part of
it, the code that decides whether a request is admitted, who serves it, and what is relayed and counted, and
proves properties of that model over every input, every run, or every interleaving of steps.

| file | models | main result |
|---|---|---|
| `StreamRelay.dfy` | the streaming relay: producer, four-slot channel, consumer | `RelayIsPassthrough`, `RelayCanFinish`, `CallbacksFireOnce`, `ProducerNeverWedges` |
| `LineReader.dfy` | reassembling lines from a buffered reader | `ReadLine`, `ItemsRebuildInput` |
| `Glob.dfy` | model-name patterns of allow and deny lists | `MatchPattern` decides the declarative meaning |
| `RateLimiter.dfy` | per-key minute and day windows with a background sweep | `VerdictsExact`, `AdmissionBounds`, `SweepsUnobservable`, `MinuteBoundIsTight` |
| `Quota.dfy` | daily and monthly usage counters | `CountersExact`, `VerdictsExact` |
| `RequestQueue.dfy` | the bounded wait list of a scope, in atomic steps | `QueueBounds`, `FullExactly`, `WaitersExactly` |
| `Admission.dfy` | `admit` and its release stack, interleaved | `NothingLeaks`, `QuiescentIsEmpty`, `ReservationsExact` |
| `AdmissionCaps.dfy` | what the concurrency and monthly limits amount to | `GrantsExactly`, `ConcurrencyCap`, `MonthlyCap`, `MonthlyCapIsTight`, `EveryRequestCanEnd` |
| `Balancer.dfy` | choosing a backend | `FairShares`, `RoundRobinShares` |
| `Backend.dfy`, `Slots.dfy` | health state machine, concurrency slots, one worker call | `StatusIsLastDecisive`, `SlotsExact`, `PicksExactly`, `CallWorker` |
| `Aliases.dfy` | model alias chains | `ResolveAlias`, `IdempotentExactly` |
| `KeyIndex.dfy` | API keys and the index by key hash | `APIKeyByRaw`, `RotateThenLookUp` |
| `KeyRotation.dfy` | rotations and updates of a key that overlap | `RightExactly`, `SerialRotations`, `DeleteLastsExactly` |
| `ProbeRegistry.dfy` | the registry of health probe loops | `ClosedOnce`, `NoOrphanLoops` |
| `ProbeReconciliation.dfy` | probe loops against stored backends | `ReconciledExactly`, `CallersReconcile`, `UndisturbedRescan` |
| `ProbeAdmin.dfy` | start, create, patch and delete as callers of the registry | `OperationsReconcile` |
| `ProbeTargets.dfy` | which backend object a loop probes | `TargetsExactly` |
| `RequestLog.dfy` | the in-memory request log | `QueryRequests`, `QueriesRebuildLog`, `StatsConserve` |
| `Orchestrator.dfy` | worker selection and the multi-step workflow | `RunConductor`, `RunsAreBounded`, `SpentIsBilled`, `Handle` |

`Counting.dfy` and `Options.dfy` hold shared definitions. `dafny verify dfyconfig.toml` checks everything.

Concurrent code is a step machine: `Enabled` and `Apply` give the atomic steps, `Possible` and `Final` the runs, an
invariant is kept by each step, and the theorems speak of the final state of every possible run; for each machine they
also say when a step can be taken and that what was begun can be brought to its end. Code that updates an
object in place is a class whose methods are proved against functions of the old state; the theorems are about those functions.

Where a property one would expect is false of the code, the model follows the code, gives a failing run, and states when it holds:

* Maintenance mode is documented to persist until cleared (`internal/store/store.go:84-85`). Probes that reach their
  threshold end it: `MaintenanceEndsByProbe`, and exactly when in `MaintenanceLastsExactly`.
* The per-minute window is documented as rolling (`internal/ratelimit/ratelimit.go:22-24`). It is a fixed window that
  starts with its first use, so a minute can hold twice the limit, and no more: `MinuteBoundIsTight`, `AdmissionBounds`. A minute
  inside which no window starts stays within the limit: `QuietMinutes`.
* `admit` is documented as atomic (`internal/handlers/handlers.go:707-709`). The monthly check and its accounting are separate,
  so the counter can pass the limit: `MonthlyCapOvershoots`, by how much at most in `MonthlyCap`, and that this much is
  reached for every limit in `MonthlyCapIsTight`.
* A rejection gives back every place it took but not the limiter's count: `ReservationKept`. When all is done the
  limiter has counted exactly the admissions if and only if nobody was turned away after it: `ReservationsMatchExactly`.
* A caller can be turned away as "full" while nobody waits: `FullWithNobodyWaiting`, and exactly when in `FullExactly`.
* Resolving an alias twice can go further than once: `LongChainsAreNotIdempotent`; exactly when, by the result in
  `IdempotentExactly` and by the input in `NotIdempotentExactly`.
* Per-group error counts can fall short of the error total: `ErrorTotalsDisagree`, and exactly when in
  `ErrorTotalsAgreeExactly`. A backend that answers 101 is such a case: the client library hands that status on, and it is
  logged as it is (`internal/handlers/handlers.go:474`, `internal/handlers/handlers.go:603`).
* A rescan is documented to leave the loops of the stored backends (`internal/backend/health.go:132-134`). With an old view
  of the store it stops the loop of a backend added meanwhile, `StaleRescanStopsNewLoop`, and an add that is overtaken by
  a delete leaves a loop behind, `LateSpawnOutlivesDelete`. Exactly when loops and store agree is in `ReconciledExactly`,
  what callers must do for it in `CallersReconcile`, that every run of creates, patches and deletes made one after
  another does it in `OperationsReconcile`, and a rescan alone in `UndisturbedRescan`.
* A backend created over a stored one is meant to be probed from then on (`internal/admin/admin.go:424-428`), but the loop
  goes on with the old object: `CreateOverLoaded`, and exactly when a loop probes the stored object in `TargetsExactly`.
* The verifier is described as a different model (`internal/orchestrator/conductor.go:21`). It has a different worker id,
  and an eligible worker with another model can be passed over: `OtherModelPassedOver`, and exactly when the models
  differ in `OtherModelExactly`.
* Storing a key can leave the hash index wrong: `CreateOverTakenId`. It stays right exactly when no other key has the
  hash, and the key stored under the id so far, if any, has the same hash or none: `UpsertAPIKey`, `CreateAPIKey`, `RotateAPIKey`.
* A rotation is documented to end the old key at once (`internal/admin/admin_keys.go:159-160`). When it overlaps with
  another rotation or an update of the key, a hash the key no longer has can stay in the index: `OverlappingRotations`,
  `UpdateDuringRotation`; exactly when in `RightExactly`, and never when they are made one at a time, `SerialRotations`.
* A deleted key can come back with its raw key, even then: `DeleteUndone`. A delete lasts exactly when no rotation or
  update of the key was under way: `DeleteLastsExactly`.

## Model

| member | source | states |
|---|---|---|
| `StreamRelay.RelayIsPassthrough` | internal/proxy/stream.go:55-153 | In every interleaving, with the client's context cancelled at any point, the client holds a prefix of upstream however the relay ends; while the consumer runs, written + channel + in hand + unread is exactly upstream; at a clean end, and at any reported end of a request that was not cancelled, the client holds all of it; the closed channel is never what ends the relay |
| `StreamRelay.RelayCanFinish` | internal/proxy/stream.go:62-150 | Progress: from wherever a run has got with the consumer running and the context not cancelled, reads, sends and receives alone bring the relay to upstream's own end with every upstream byte written |
| `StreamRelay.RelayUnblocked` | internal/proxy/stream.go:62-152 | In every reachable state: a queued item can be received, or drained once the consumer is gone; the producer waits only while exactly four items are queued; a running consumer can be ended by a silence, by a cancelled context and by a write that fails after any part of the line |
| `StreamRelay.CallbacksFireOnce` | internal/proxy/stream.go:110-138 | In every interleaving the usage callback fires at most once, exactly when a delivered chunk carries usage and with the first such; the first-token callback fires at most once, exactly when a delivered chunk, or the line whose write failed, has content; the captured chunks concatenate to what the client got, but for a part of a line whose write failed |
| `StreamRelay.ProducerNeverWedges` | internal/proxy/stream.go:62-90 | For n upstream bytes the producer takes at most 2n+2 steps in any interleaving, and after the consumer has returned it is never blocked |
| `StreamRelay.StepKeeps` | internal/proxy/stream.go:66-152 | Every producer, consumer and drain step keeps byte conservation, the order of the channel, the callback counts and the four-slot bound |
| `StreamRelay.PopConserves` | internal/proxy/stream.go:106-120 | Taking the head of the channel and writing it keeps the upstream bytes in order; if it was the last item everything has been written, unless it reports a cancelled read |
| `StreamRelay.AbortKeeps` | internal/proxy/stream.go:62-79 | A read that is cut short by the closed body or the cancelled context keeps byte conservation |
| `StreamRelay.ReceiveAndFailKeeps` | internal/proxy/stream.go:117-119 | A write that fails part way still leaves the client with a prefix of upstream |
| `StreamRelay.ProducerBounded` | internal/proxy/stream.go:66-82 | The steps the producer has taken plus a bound on those it may still take never exceed the initial bound |
| `LineReader.ReadLine` | internal/proxy/stream.go:159-180 | For every buffer size and input: exactly the bytes through the next newline, or the remainder with the error; the reader keeps what follows |
| `LineReader.LineAssembled` | internal/proxy/stream.go:162-178 | Full buffers without a newline followed by a chunk that ends in the first newline make up the next line |
| `LineReader.ItemsRebuildInput` | internal/proxy/stream.go:156-180 | What repeated calls return concatenates to the input; every item but the last is one complete line, the last has no newline and carries the error |
| `LineReader.ReadAll` | internal/proxy/stream.go:66-82 | The producer's loop ends with the input used up, having read exactly its lines |
| `Glob.MatchPattern` | internal/store/store.go:301-339 | True exactly when the pattern is non-empty and the value matches it with every star standing for any string |
| `Glob.SplitKeepsMeaning` | internal/store/store.go:311-311 | Matching a pattern is matching its pieces: the first as prefix, the last as suffix, the others anywhere between in order |
| `Glob.LeftmostSuffices` | internal/store/store.go:320-330 | Placing the next piece at its leftmost occurrence never misses a match |
| `Glob.Index` | internal/store/store.go:325-325 | The leftmost occurrence, or -1 exactly when there is none |
| `RateLimiter.AdmissionBounds` | internal/ratelimit/ratelimit.go:46-124 | With constant limits, non-decreasing times and sweeps anywhere: every half-open minute admits at most 2·rpm and every UTC day at most the daily limit |
| `RateLimiter.VerdictsExact` | internal/ratelimit/ratelimit.go:97-124 | For every run with non-decreasing times, swept at whatever points: a check is admitted exactly when each positive limit exceeds what it limits, counted over the events: the key's admissions and added tokens since its window began, and since the UTC day began; otherwise the first limit reached, in the code's order, is named |
| `RateLimiter.CountersExact` | internal/ratelimit/ratelimit.go:46-146 | The four counters a call works on are the key's admissions and added tokens since its window began and since the UTC day began; a window begins with the first touch and with each touch a minute or more after the last beginning |
| `RateLimiter.StatsExact` | internal/ratelimit/ratelimit.go:139-146 | Every answer to a query, from the events before it |
| `RateLimiter.RollHolds` | internal/ratelimit/ratelimit.go:78-90 | Rolling a bucket keeps its counters exact for its new window and day |
| `RateLimiter.QuietMinutes` | internal/ratelimit/ratelimit.go:46-124 | With constant limits, non-decreasing times and sweeps anywhere: a minute strictly inside which no window of the key starts admits at most rpm |
| `RateLimiter.SweepsUnobservable` | internal/ratelimit/ratelimit.go:58-90 | Two runs of the same calls, swept at whatever points, give the same answers to every check and every stats query |
| `RateLimiter.SimulationStep` | internal/ratelimit/ratelimit.go:58-90 | A swept table and an unswept one answer every call alike and stay related, a missing bucket standing for an idle one |
| `RateLimiter.MinuteBoundIsTight` | internal/ratelimit/ratelimit.go:22-24 | For every positive limit some run admits exactly twice the limit within one minute |
| `RateLimiter.AdmitKeepsWindow` | internal/ratelimit/ratelimit.go:102-124 | An admission under the limit keeps: the counter is the admissions of its window, the minute before had at most rpm, every minute at most 2·rpm |
| `RateLimiter.AdmitKeepsDay` | internal/ratelimit/ratelimit.go:102-124 | An admission under the daily limit keeps the day counter exact and every UTC day within the limit |
| `RateLimiter.UtcDayStart` | internal/ratelimit/ratelimit.go:92-95 | The day boundary at or before a time, less than a day away |
| `RateLimiter.Limiter.constructor` | internal/ratelimit/ratelimit.go:40-44 | Starts with an empty table |
| `RateLimiter.Limiter.Get` | internal/ratelimit/ratelimit.go:46-56 | Finds or creates the key's bucket and touches no other; rolled, it is the bucket the run model works on |
| `RateLimiter.Limiter.CheckAndReserve` | internal/ratelimit/ratelimit.go:102-124 | Refines the run model's check, whose verdict and counters are given by the events before it in `VerdictsExact` and `CountersExact`: same verdict, same new table |
| `RateLimiter.Limiter.AddTokens` | internal/ratelimit/ratelimit.go:127-137 | Refines the run model's token step |
| `RateLimiter.Limiter.Stats` | internal/ratelimit/ratelimit.go:140-146 | Refines the run model's query, whose answer `StatsExact` gives: same counters, same new table |
| `RateLimiter.Limiter.Sweep` | internal/ratelimit/ratelimit.go:58-76 | Whatever the iteration order, removes exactly the buckets whose window began more than five minutes ago and whose day counters are zero |
| `Quota.CountersExact` | internal/quota/quota.go:28-107 | For every run with non-decreasing times, the counters a call sees are exactly the requests and tokens of that key in the current UTC day and in the current month |
| `Quota.VerdictsExact` | internal/quota/quota.go:28-48 | For every run with non-decreasing times: no limit is named exactly when none that is set is reached by the key's requests and tokens of the day and of the month, counted over the events; otherwise the first, in the order day requests, month requests, day tokens, month tokens |
| `Quota.UsedExact` | internal/quota/quota.go:50-71 | What a key used in a period is the number of its requests and the sum of its positive token amounts there |
| `Quota.ReplayExact` | internal/quota/quota.go:50-107 | Every stored bucket holds exactly what its key used in the day and in the month it was last rolled to |
| `Quota.RollKeepsExact` | internal/quota/quota.go:95-107 | Rolling to a later day keeps both counters exact, month boundaries included |
| `Quota.RollIsDayChange` | internal/quota/quota.go:95-107 | The day counters are cleared exactly when the UTC day differs, the month counters exactly when the month differs |
| `Quota.Manager.constructor` | internal/quota/quota.go:24-26 | Starts with no bucket |
| `Quota.Manager.Fetch` | internal/quota/quota.go:82-93 | Finds or creates the key's bucket, rolled to now, and touches no other |
| `Quota.Manager.Check` | internal/quota/quota.go:28-48 | The verdict on the rolled counters, which `VerdictsExact` gives from the events; no counter is raised |
| `Quota.Manager.AddRequest` | internal/quota/quota.go:50-58 | Refines the run model's request step |
| `Quota.Manager.AddTokens` | internal/quota/quota.go:60-71 | Refines the run model's token step; nothing happens for zero or fewer tokens |
| `Quota.Manager.Usage` | internal/quota/quota.go:73-80 | Reports the rolled counters |
| `RequestQueue.QueueBounds` | internal/queue/queue.go:74-91 | In every interleaving of increment, check, wait and decrement: at most maxConc callers own a place, at most maxSize are past the check and not returned, the pending counter is the callers between increment and decrement, and an owner can always release |
| `RequestQueue.WaitersExactly` | internal/queue/queue.go:81-90 | After every run a waiter can be let in exactly while fewer than maxConc callers own a place, and can give up at any time |
| `RequestQueue.EveryCallerCanLeave` | internal/queue/queue.go:74-91 | No caller is stuck: after every run each caller can return and give back its place by its own steps alone |
| `RequestQueue.FullExactly` | internal/queue/queue.go:76-80 | An arriving caller is turned away exactly when there is a size bound and that many callers are pending, and waits otherwise; maxSize callers really are in the queue exactly when that many are pending without those turned away or certain to be |
| `RequestQueue.FullWithNobodyWaiting` | internal/queue/queue.go:76-80 | A run in which a caller is turned away with no waiter and a free semaphore |
| `RequestQueue.ScopeConfig` | internal/queue/queue.go:36-69 | A scope has the configured size bound and concurrency where they are positive, else 1000 and 64 |
| `RequestQueue.StepKeeps` | internal/queue/queue.go:74-91 | Each atomic step of acquire and release keeps both counters exact and both bounds |
| `Admission.NothingLeaks` | internal/handlers/handlers.go:710-810 | In every interleaving of admissions and releases: each key's concurrency count is its live limited holders and no zero entry is kept; each scope's occupancy is its live holders; a finished request holds no place, rejected or not; the quota manager was told once of each keyed admission and of nothing else; the limiter has counted exactly the requests that passed it |
| `Admission.ReservationsExact` | internal/handlers/handlers.go:746-800 | In every interleaving the limiter's count of a key is its admitted requests, those still on their way, and those turned away by a later check |
| `Admission.ReservationsMatchExactly` | internal/handlers/handlers.go:746-800 | When all requests have finished, the limiter has counted exactly the admissions if and only if no request of the key was turned away after the limiter |
| `Admission.ReservationKept` | internal/handlers/handlers.go:778-786 | A run in which a client of a key with a concurrency limit leaves during its delay: the place it took is given back, nothing was admitted, and the limiter's count stays |
| `Admission.QuiescentIsEmpty` | internal/handlers/handlers.go:712-716 | When every request has finished, the concurrency map is empty and no queue place is taken |
| `Admission.StepKeeps` | internal/handlers/handlers.go:710-810 | Each check, rejection, release and accounting step keeps every count equal to what the live requests hold |
| `Admission.ReleaseBalances` | internal/handlers/handlers.go:712-716 | Running the last pushed release gives back exactly the one place it was pushed for |
| `AdmissionCaps.ConcurrencyCap` | internal/handlers/handlers.go:766-776 | With unchanged settings a limited key never has more live holders than its limit |
| `AdmissionCaps.GrantsExactly` | internal/handlers/handlers.go:766-803 | After every run, a request at the concurrency check can pass exactly when its key has no limit or fewer live holders than the limit, and can be turned away exactly otherwise; one at the queue can get a place exactly when there is no queue or its scope has one free |
| `AdmissionCaps.ConcurrencyCapIsReached` | internal/handlers/handlers.go:766-776 | For every positive limit some run has exactly that many live holders |
| `AdmissionCaps.EveryRequestCanEnd` | internal/handlers/handlers.go:710-810 | No request waits for another: after every run each request can be brought to its end by its own steps alone, whatever the others hold |
| `AdmissionCaps.MonthExact` | internal/handlers/handlers.go:805-808 | Over every run, a new month and a run within it, the monthly counter is the number of requests of the key admitted in that last part |
| `AdmissionCaps.MonthlyGrantsExactly` | internal/handlers/handlers.go:756-764 | The monthly check can let a request pass exactly when its key has no monthly limit or fewer requests than that were admitted since the month began |
| `AdmissionCaps.MonthlyCap` | internal/handlers/handlers.go:756-808 | With at most m of a key's requests ever between check and accounting, the monthly counter stays at most limit + m - 1, so one at a time it never passes the limit |
| `AdmissionCaps.MonthlyCapIsTight` | internal/handlers/handlers.go:756-808 | For every positive limit and m, some run with at most m in between brings the counter to exactly limit + m - 1 |
| `AdmissionCaps.MonthlyCapOvershoots` | internal/handlers/handlers.go:756-808 | Two interleaved requests bring a limit of one to a count of two |
| `Admission.Concurrency.constructor` | internal/ratelimit/ratelimit.go:155-157 | Starts empty |
| `Admission.Concurrency.Acquire` | internal/ratelimit/ratelimit.go:161-172 | Granted exactly when there is no limit or the key has fewer places taken than the limit; a granted limited place adds one to that key and to no other; refines the map step of the run model |
| `Admission.Concurrency.Release` | internal/ratelimit/ratelimit.go:177-189 | Takes one from a limited key that has any, and from no other; the last release removes the entry; refines the map step of the run model |
| `Balancer.FairShares` | internal/balancer/balancer.go:147-178 | Over n = laps·W + rest consecutive turns a candidate of weight w out of W is picked at least laps·w and at most laps·w + min(w, rest) times: exactly w times in W turns, and never with weight 0 |
| `Balancer.RoundRobinShares` | internal/balancer/balancer.go:73-75 | Over n = laps·len + rest turns each candidate is picked laps or laps + 1 times, exactly laps if rest is 0 |
| `Balancer.ChosenIsUnique` | internal/balancer/balancer.go:162-176 | A counter value gives the turn to at most one candidate |
| `Balancer.AnyLap` | internal/balancer/balancer.go:162-176 | Any W consecutive counter values, wherever they start, hit a weight interval exactly as often as it is wide |
| `Balancer.Distribution` | internal/balancer/balancer_test.go:9-32 | A run of n weighted calls on one list gets the turns of consecutive counter values and gives every candidate its exact share |
| `Balancer.EvenDistribution` | internal/balancer/balancer_test.go:34-50 | A run of n plain round robin calls goes through the candidates in turn and gives each the same number of turns, but for one |
| `Balancer.Balancer.constructor` | internal/balancer/balancer.go:32-37 | No counter and no assignment yet |
| `Balancer.Balancer.Tick` | internal/balancer/balancer.go:39-49 | Hands out the model's counter value and advances only that counter, wrapping at 64 bits |
| `Balancer.Balancer.ChooseWeightedRR` | internal/balancer/balancer.go:147-178 | The turn goes to the candidate whose weight interval holds the counter, and uses up one value; without weight the first candidate, and no value is used |
| `Balancer.Balancer.ChooseSticky` | internal/balancer/balancer.go:113-132 | A key keeps its backend while that is a candidate, with nothing else changed; otherwise it gets one by weight and keeps that |
| `Balancer.Balancer.Choose` | internal/balancer/balancer.go:59-85 | Nothing exactly from nothing; a single candidate uses up no turn; otherwise what the policy promises, and only that policy's state changes |
| `Balancer.ChooseLeast` | internal/balancer/balancer.go:134-145 | The first candidate with the fewest active requests |
| `Balancer.ChooseLeastLatency` | internal/balancer/balancer.go:87-100 | The first candidate with the lowest positive latency, or the first candidate if none has one |
| `Balancer.StickyKeysApart` | internal/balancer/balancer.go:117-117 | Two model and key pairs share an assignment only if a model name contains the separator |
| `BackendState.StatusIsLastDecisive` | internal/store/store.go:73-139 | For every history the status is the effect of the last decisive event, a probe being decisive exactly when its unbroken run reaches the threshold; the two streaks are never both positive |
| `BackendState.MaintenanceLastsExactly` | internal/store/store.go:84-139 | A backend is in maintenance exactly when the last decisive event switched it on |
| `BackendState.MaintenanceEndsByProbe` | internal/store/store.go:84-139 | With default thresholds one success before and one after the switch end maintenance |
| `BackendState.TrailIsRun` | internal/store/store.go:114-127 | The streak counted step by step reaches n exactly when the history ends in an unbroken run with n such events |
| `BackendState.StreaksAreTrails` | internal/store/store.go:114-127 | The stored streaks are the lengths of the trailing runs of the history |
| `BackendState.InForce` | internal/store/store.go:104-113 | The configured thresholds where they are positive, else three failures and two successes |
| `BackendState.Backend.constructor` | internal/store/store.go:386-405 | A configured backend starts unknown, with no streak and no request, and a non-negative weight |
| `BackendState.Backend.RecordHealthCheck` | internal/store/store.go:98-139 | Refines one probe step of the history model, and reports a change exactly when the status changed |
| `BackendState.Backend.MarkDegraded` | internal/store/store.go:73-82 | Refines the soft-failure step of the history model |
| `BackendState.Backend.MarkMaintenance` | internal/store/store.go:86-96 | Refines the maintenance steps of the history model |
| `BackendState.Backend.AcquireSlot` | internal/store/store.go:141-150 | Granted exactly when there is no limit or fewer requests are active than it; refines the slot step of the interleaving model |
| `BackendState.Backend.ReleaseSlot` | internal/store/store.go:152-161 | Gives back one slot if any is taken, and counts an error exactly on failure; refines the release step of the interleaving model |
| `BackendState.FilterRoutable` | internal/store/store.go:540-566 | In the given order, exactly the backends that are enabled, have a weight and a free slot, are not unhealthy, disabled or in maintenance, and are degraded only if that is allowed |
| `BackendState.TakeSlot` | internal/orchestrator/worker.go:76-89 | The first of three picks that is not a full backend decides: its slot is taken, or no backend was routable; no other backend changes |
| `BackendState.CallWorker` | internal/orchestrator/worker.go:73-175 | On every exit path all slots are back; the call counts once on the backend that granted it, as an error exactly when no status from 200 to 299 came; which outcome is reported is fixed by the picks and the reply, and completed means such a status, a readable body and a choice |
| `Slots.SlotsExact` | internal/store/store.go:141-161 | In every interleaving of direct requests and worker calls, active is the requests that hold a slot and at most a positive capacity, total is the grants, errors the failed ones, and errors + active is at most total |
| `Slots.PicksExactly` | internal/handlers/handlers.go:382-401 | After every run, a pick gets a slot exactly when the backend has no capacity limit or fewer holders than it; a refused pick costs one attempt, the last one the request; a holder can finish either way |
| `Slots.RefusalsExactly` | internal/handlers/handlers.go:390-400 | A request with n attempts survives exactly n - 1 refusals of a full backend, and the next one turns it away |
| `Slots.AllSlotsReturn` | internal/handlers/handlers.go:382-476 | Once no request holds a slot every backend has zero active, and total is successes plus errors |
| `Slots.StepKeeps` | internal/handlers/handlers.go:382-476 | Each pick, refused pick and release keeps all three counters of every backend exact |
| `Aliases.ResolveAlias` | internal/store/store.go:601-626 | For every table, cyclic or not: the name at the first hop that is not an enabled alias, repeats a name, or is the eighth; the forwarded name is the caller's own exactly when the first alias says so |
| `Aliases.StopFrom` | internal/store/store.go:608-621 | The walk stops within eight hops, at the first hop that meets a stopping condition |
| `Aliases.IdempotentExactly` | internal/store/store.go:601-626 | Resolving the result again changes nothing exactly when it is not an enabled alias or lies on a cycle of at most eight |
| `Aliases.NotIdempotentExactly` | internal/store/store.go:601-626 | On the input: a second resolution goes further exactly when the walk meets nine different enabled aliases and the ninth does not come back within eight more hops |
| `Aliases.ShortPathsAreIdempotent` | internal/store/store.go:601-626 | In particular whenever the walk does not meet nine different enabled aliases |
| `Aliases.LongChainsAreNotIdempotent` | internal/store/store.go:604-608 | Every straight chain of nine or more aliases stops at the eighth name, and a second resolution leaves it |
| `Aliases.CycleStopsAtHome` | internal/store/store.go:613-615 | From an alias on a cycle of at most eight the walk goes round once and stops where it began |
| `KeyIndex.Store.constructor` | internal/store/store.go:351-360 | An empty store has a right index |
| `KeyIndex.Store.APIKeyByRaw` | internal/store/store.go:670-676 | Finds a key exactly when a linear search of the stored keys by hash does, and then the only one |
| `KeyIndex.Store.Put` | internal/store/store.go:690-693 | Enters the key under its id, and under its hash if it has one, and nothing else |
| `KeyIndex.Store.UpsertAPIKey` | internal/store/store.go:678-694 | For any key, stored or new, with a raw key or without: settles id and hash and stores it; the index stays right exactly when a stored key keeps its id, no other key has the hash, and the key stored under the id so far, if any, has the same hash or none |
| `KeyIndex.Store.StoredFits` | internal/store/store.go:690-693 | With a right index a stored key is never in its own way, so re-storing it keeps the index right |
| `KeyIndex.Store.DeleteAPIKey` | internal/store/store.go:696-703 | Removes the key, keeps the index right, and no stored key has the old hash |
| `KeyIndex.Store.CreateAPIKey` | internal/admin/admin.go:788-835 | Adds one key; the index stays right exactly when no other key has the hash, and one already stored under the id has the same hash or none |
| `KeyIndex.CreateOverTakenId` | internal/admin/admin.go:788-835 | In any store, creating a key over a taken id with another raw key replaces it, and leaves the first raw key in the index, pointing at the replaced key, although no stored key has its hash |
| `KeyIndex.Store.SetAPIKeyEnabled` | internal/admin/admin_keys.go:141-157 | Flips that key and nothing else, keeping the index right; an unknown id changes nothing |
| `KeyIndex.Store.Retire` | internal/admin/admin_keys.go:179-182 | Takes a key out of both maps before its hash is cleared, keeping the index right |
| `KeyIndex.Store.RotateAPIKey` | internal/admin/admin_keys.go:159-191 | The key gets the new hash and keeps its state; the index stays right exactly when no other key has the new hash, and one stored under the new id, if that changes, has it or none |
| `KeyIndex.Store.HashesAreUnique` | internal/store/store.go:690-693 | With a right index no two stored keys share a hash |
| `KeyIndex.APIKey.TakeRaw` | internal/store/store.go:681-689 | The id ends up the given one, else the stored prefix, else the first eight bytes of the raw key, if it has as many; so does an empty prefix |
| `KeyIndex.OldKeyIsGone` | internal/admin/admin_keys.go:159-191 | After rotating to a different raw key no stored key has the previous hash |
| `KeyIndex.RotateThenLookUp` | internal/admin/admin_keys.go:159-191 | Rotate, then look up: the index is right, holds the new hash and not the previous one; the previous raw key finds nothing, the new one finds the rotated key |
| `KeyRotation.RightExactly` | internal/admin/admin_keys.go:159-191 | In every interleaving of rotations, updates and deletes of a key, the index lists it exactly under its own hash at the end if and only if no rotation overwrote a hash while it was listed |
| `KeyRotation.StaleForever` | internal/store/store.go:690-703 | Once the index lists the key under a hash it no longer has, it does so for good |
| `KeyRotation.SerialRotations` | internal/admin/admin_keys.go:141-191 | If no rotation or update of the key begins while another is under way, the index lists the key exactly under its hash if it is stored, deletes at any time included |
| `KeyRotation.EveryCallerCanReturn` | internal/admin/admin_keys.go:141-191 | From every state each caller can return by its own steps alone, a rotation in three and an update in one, and so leaves the key stored; a rotation also with its own hash, listed |
| `KeyRotation.DeleteLastsExactly` | internal/store/store.go:696-703 | In every interleaving a deleted key stays out of the store exactly when nothing stores it again, and, once all callers have returned, exactly when no rotation or update was under way at the delete |
| `KeyRotation.DeleteUndone` | internal/admin/admin_keys.go:141-157 | A run with calls one at a time in which an update puts a deleted key back, raw key and all |
| `KeyRotation.OverlappingRotations` | internal/admin/admin_keys.go:179-183 | A run of two rotations after which the raw key of the first still finds the key, which has the hash of the second |
| `KeyRotation.UpdateDuringRotation` | internal/admin/admin_keys.go:149-183 | A run of a rotation and an update after which the raw key from before the rotation still finds the key |
| `ProbeRegistry.ClosedOnce` | internal/backend/health.go:91-155 | In every interleaving of start, add, remove and rescan no stop channel is closed twice, and each one ever made is registered for its backend, claimed by exactly one closer, or closed |
| `ProbeRegistry.NoOrphanLoops` | internal/backend/health.go:91-155 | When all callers have returned, every loop still running is the registered one of its backend |
| `ProbeRegistry.NoLoopsBeforeStart` | internal/backend/health.go:109-117 | In every run in which the checker is not started, no loop is ever made |
| `ProbeRegistry.EveryCallerCanReturn` | internal/backend/health.go:79-155 | No caller is stuck: after every run each caller can return, with every channel it claimed closed, by its own steps alone |
| `ProbeReconciliation.LoopAfterStep` | internal/backend/health.go:94-151 | A step leaves a backend with a loop exactly when it registers one, or there was one and the step is neither a removal of that backend nor a sweep that did not see it |
| `ProbeReconciliation.ReconciledExactly` | internal/backend/health.go:79-155 | In every interleaving the loops are those of the stored backends if and only if, for each backend, a registration that nothing undid later matches a store that no delete undid later |
| `ProbeReconciliation.OrderlyRunsReconcile` | internal/backend/health.go:132-155 | When all callers have returned, loops and store agree, provided for each stored backend a loop was asked for while it was stored and nothing took it later, and for each other backend a loop was never registered, or its removal asked for while it was not stored and nothing registered one later |
| `ProbeReconciliation.CallersReconcile` | internal/backend/health.go:107-155 | The same on calls alone: loops and store agree if for each stored backend a loop was asked for with no removal under way and no call set out to remove it later, and the mirror image for each other backend |
| `ProbeReconciliation.NothingTakesFrom` | internal/backend/health.go:119-151 | With no removal of a backend under way and none setting out, no step takes its loop |
| `ProbeReconciliation.NothingRegistersFrom` | internal/backend/health.go:91-141 | With no add of a backend under way and none setting out, no step registers a loop of it |
| `ProbeAdmin.CreateSettles` | internal/admin/admin.go:423-429 | Every run that goes on after a run that met the callers' conditions, with no caller at work, by the steps of a create, meets them too, for every backend |
| `ProbeAdmin.PatchSettles` | internal/admin/admin.go:517-523 | So by the steps of a patch that restarts the loop, although it takes the loop of a backend that stays stored |
| `ProbeAdmin.QuietPatchSettles` | internal/admin/admin.go:517-520 | So by a patch that does not |
| `ProbeAdmin.DeleteSettles` | internal/admin/admin.go:532-541 | So by the steps of a delete |
| `ProbeAdmin.StartIsCalm` | internal/backend/health.go:79-89 | Every run that stores the configured backends and then starts the checker, to the end, meets the callers' conditions |
| `ProbeAdmin.OperationsReconcile` | internal/admin/admin.go:423-541 | Every run that starts on any loaded store and then carries out creates, patches and deletes to their ends, in any order and number, leaves exactly the loops of the backends left in the store, which are those the operations leave |
| `ProbeAdmin.SomeRunCarriesOut` | internal/admin/admin.go:423-541 | There is such a run for every loaded store and all operations |
| `ProbeTargets.TargetAfterStep` | internal/backend/health.go:94-105 | In every interleaving a loop probes the object it was registered with until it is taken |
| `ProbeTargets.TargetsExactly` | internal/admin/admin.go:409-541 | In every run of operations one after another, the loop of a stored backend probes the stored object if and only if no create over the stored id has come since it was stored anew or its loop restarted |
| `ProbeTargets.CreateOverLoaded` | internal/admin/admin.go:423-429 | A run in which a backend is created again and its loop goes on with the old object |
| `ProbeReconciliation.AddArrives` | internal/backend/health.go:109-141 | An add, start or rescan on a started checker gets to register each backend on its list before it returns, whatever happens in between |
| `ProbeReconciliation.RemovalArrives` | internal/backend/health.go:120-151 | A removal, or a rescan that did not see a backend, gets to take its loop before it returns |
| `ProbeReconciliation.UndisturbedRescan` | internal/backend/health.go:135-155 | From any state of a started checker, the steps of one rescan with no step of another caller in between end with exactly the loops of the stored backends |
| `ProbeReconciliation.StaleRescanStopsNewLoop` | internal/backend/health.go:132-155 | A run in which a stored backend ends up with no loop although every caller has returned |
| `ProbeReconciliation.LateSpawnOutlivesDelete` | internal/backend/health.go:109-130 | A run in which a deleted backend keeps its loop although every caller has returned |
| `ProbeRegistry.StepKeeps` | internal/backend/health.go:91-155 | Each step keeps every channel in exactly one place |
| `ProbeRegistry.ClaimKeeps` | internal/backend/health.go:143-151 | Taking channels out of the map hands each to exactly one closer |
| `ProbeRegistry.HealthChecker.constructor` | internal/backend/health.go:42-57 | Not started, no loop |
| `ProbeRegistry.HealthChecker.Spawn` | internal/backend/health.go:94-105 | Registers a new channel exactly when the backend has none |
| `ProbeRegistry.HealthChecker.AddBackend` | internal/backend/health.go:109-117 | The same on a started checker; before the start nothing happens |
| `ProbeRegistry.HealthChecker.RemoveBackend` | internal/backend/health.go:120-130 | Unregisters and closes that loop's channel, or changes nothing |
| `ProbeRegistry.HealthChecker.AddAll` | internal/backend/health.go:136-141 | On a started checker every stored backend gets a loop, and loops that exist keep their channel |
| `ProbeRegistry.HealthChecker.TakeStale` | internal/backend/health.go:142-151 | Whatever the iteration order, takes out exactly the loops that were not seen and hands over their channels, each once |
| `ProbeRegistry.HealthChecker.Rescan` | internal/backend/health.go:135-155 | Undisturbed on a started checker: the loops are exactly those of the stored backends, survivors keep their channel, newcomers get a new one, and exactly the channels of the departed are closed, each once |
| `RequestLog.Memory.constructor` | internal/logstore/logstore.go:136-141 | An empty log with a positive bound |
| `RequestLog.Memory.AppendRequest` | internal/logstore/logstore.go:143-159 | The log stays a suffix of everything appended, within its bound; the record is added at the end, and only when the bound is passed are the oldest tenth, at least one, dropped |
| `RequestLog.Memory.CollectNewest` | internal/logstore/logstore.go:172-180 | Stopping early still gives the newest matches in order, as many as wanted |
| `RequestLog.Memory.QueryRequests` | internal/logstore/logstore.go:161-189 | Exactly the asked-for page of the matching records, newest first: from the offset on, or from the start if it is negative, as many as the limit, or 200 unless that is from 1 to 1000 |
| `RequestLog.QueriesRebuildLog` | internal/logstore/logstore.go:161-189 | For every log and query with a limit from 1 to 1000: the answers at the offsets 0, limit, 2·limit and so on make up the matching records newest first, nothing twice and nothing skipped, and all of them in the end |
| `RequestLog.OddQueries` | internal/logstore/logstore.go:164-171 | Any other limit answers as 200 does, and a negative offset as 0 does |
| `RequestLog.NewestExactly` | internal/logstore/logstore.go:172-180 | The matches are the records at strictly falling places, exactly those places whose record passes the query |
| `RequestLog.MatchesExactly` | internal/logstore/logstore.go:309-344 | A record matches exactly when each of the eleven criteria is unset or met, both ends of the period included |
| `RequestLog.PagesRebuildLog` | internal/logstore/logstore.go:161-189 | The first n pages concatenate to the first n·limit matches, nothing twice and nothing skipped |
| `RequestLog.AllPagesAreTheLog` | internal/logstore/logstore.go:161-189 | Enough pages concatenate to the whole filtered log |
| `RequestLog.Memory.StatsSince` | internal/logstore/logstore.go:191-249 | The one pass gives each total and each breakdown as its own fold over the records of the window |
| `RequestLog.StatsConserve` | internal/logstore/logstore.go:191-249 | For every log: models, backends and keys each add up to the same requests, errors and tokens; requests and tokens are the grand totals, and the error total exceeds the errors by exactly the records with a status below 200; success + error is the total; addresses add up to exactly the records with one |
| `RequestLog.GroupsAddUp` | internal/logstore/logstore.go:214-246 | A breakdown adds up to the records it covers, whatever they are grouped by |
| `RequestLog.GroupExact` | internal/logstore/logstore.go:214-246 | Each entry of a breakdown is the count, errors and tokens of exactly its own records, whatever the records are grouped by; the four breakdowns are instances |
| `RequestLog.TallyExact` | internal/logstore/logstore.go:200-246 | A tally, and so each entry and each total, counts its records, counts those with a status of 400 or more, and adds up their tokens |
| `RequestLog.ErrorTotalsAgreeExactly` | internal/logstore/logstore.go:205-219 | Per-model errors add up to the error total exactly when no record of the window has a status below 200, and fall short of it exactly otherwise |
| `RequestLog.LowStatusIsMissed` | internal/logstore/logstore.go:205-219 | Any such record makes the sum over models smaller than the error total |
| `RequestLog.ErrorTotalsDisagree` | internal/logstore/logstore.go:205-219 | For every record with such a status, a log of it alone on which the two differ |
| `RequestLog.SumTakes` | internal/logstore/logstore.go:214-246 | The sum over a breakdown does not depend on the order of its groups |
| `Orchestrator.EligibleWorkers` | internal/orchestrator/orchestrator.go:198-216 | In pool order, exactly the workers without a secret level or with one not below the request's; a negative level is never above it |
| `Orchestrator.PickBest` | internal/orchestrator/orchestrator.go:221-247 | The first worker with the highest score above the floor among those not excluded, or none exactly if there is no such score |
| `Orchestrator.ChosenAreBest` | internal/orchestrator/orchestrator.go:221-247 | No eligible worker outdoes the one chosen for a task in strength, a half if not given, less cost times the penalty, with one point for declaring the task; nor the chosen verifier without the cost |
| `Orchestrator.SelectSolver` | internal/orchestrator/conductor.go:56-59 | The best worker for the task, else the strongest, and always an eligible one |
| `Orchestrator.SelectThinker` | internal/orchestrator/conductor.go:64-67 | The best worker for reasoning, else the solver |
| `Orchestrator.SelectVerifier` | internal/orchestrator/conductor.go:148-168 | A worker with another id than the producer exactly when there is one, and then the best of those; else the producer |
| `Orchestrator.BuildStepMessages` | internal/orchestrator/conductor.go:186-199 | One system message with the prompt and the blocks in order, then the conversation unchanged |
| `Orchestrator.PromptShowsBlocks` | internal/orchestrator/conductor.go:186-199 | A system message is its prompt followed by the blocks in order, each whole and under its tag |
| `Orchestrator.PlannerParams` | internal/orchestrator/conductor.go:204-210 | Any token cap that remains is the caller's and at least 512; nothing else is lost |
| `Orchestrator.Step` | internal/orchestrator/conductor.go:43-54 | One call added; if answered it is recorded with the next number and its usage added, if not nothing is charged; what the call saw obeys the access list |
| `Orchestrator.Think` | internal/orchestrator/conductor.go:61-78 | One thinker call that sees only the conversation; no plan exactly when it got no answer |
| `Orchestrator.Draft` | internal/orchestrator/conductor.go:80-92 | One solver call that sees the conversation and a non-empty plan; no draft exactly when it got no answer |
| `Orchestrator.Review` | internal/orchestrator/conductor.go:94-114 | One verifier call that sees the conversation and the draft but not the plan; without an answer the critique is empty |
| `Orchestrator.Synthesize` | internal/orchestrator/conductor.go:116-131 | One call of the drafting worker that sees draft and critique; its answer is the content, else the draft is |
| `Orchestrator.ReviewAndSynthesize` | internal/orchestrator/conductor.go:94-134 | Neither stage can fail the run; the synthesizer is called exactly when there is a critique |
| `Orchestrator.RunConductor` | internal/orchestrator/conductor.go:24-142 | For every pool, budget and pattern of failures: the planned stages in order, all of them unless a mandatory call failed or there was no critique; each call staffed and parameterised by role and shown only what its access list allows; each field of the usage is the sum of that field over the answered calls, and the steps are those calls, on failure too |
| `Orchestrator.RunsAreBounded` | internal/orchestrator/conductor.go:24-142 | At most the budget in calls, failed ones included, and at most four; steps numbered from one in stage order, each stage at most once; each field of the usage is the sum of that field over the answered calls; only eligible workers |
| `Orchestrator.SpentIsBilled` | internal/orchestrator/conductor.go:50-53 | Prompt, completion, total and reasoning tokens are each the sum of that field over the answered calls |
| `Orchestrator.TraceExactly` | internal/orchestrator/conductor.go:43-49 | The recorded steps are the answered calls, one each and in order, with the worker that was called and the backend and latency of its answer |
| `Orchestrator.PlannedIsLongest` | internal/orchestrator/conductor.go:30-39 | A budget pays for the longest workflow with a solver, with verifier and synthesizer together or not at all, that fits it, and there is no other of that length |
| `Orchestrator.AccessIsLimited` | internal/orchestrator/conductor.go:61-131 | A thinker's prompt depends on no text so far, a solver's on the plan alone, a verifier's on the draft alone, a synthesizer's on draft and critique alone |
| `Orchestrator.PlannedFits` | internal/orchestrator/conductor.go:30-39 | Whatever the budget, the stages it buys fit in it |
| `Orchestrator.CrossChecked` | internal/orchestrator/conductor.go:94-114 | In every run the verifier's id differs from the drafting worker's exactly when some eligible worker has another id |
| `Orchestrator.StepsNumbered` | internal/orchestrator/conductor.go:43-49 | The trace numbers the answered calls 1, 2, 3 and so on |
| `Orchestrator.TraceOrdered` | internal/orchestrator/conductor.go:43-49 | The trace keeps the order of the stages |
| `Orchestrator.OtherModelExactly` | internal/orchestrator/conductor.go:144-168 | In every run the verifier's model differs from the drafting worker's exactly when the best of the workers with another id has another model; if workers with different ids never share a model, exactly when some eligible worker has another id |
| `Orchestrator.OtherModelPassedOver` | internal/orchestrator/conductor.go:144-168 | A pool with a worker of another model in which, whatever the task, the first worker drafts and every verifier that may be picked has the same model |
| `Orchestrator.BestIsUnique` | internal/orchestrator/orchestrator.go:221-247 | Pool, exclusion and score leave at most one best worker |
| `Orchestrator.Single` | internal/orchestrator/orchestrator.go:177-196 | One call with the conversation as it is; no result exactly when it got no answer, else its text, usage and one step |
| `Orchestrator.Conduct` | internal/orchestrator/orchestrator.go:151-164 | A workflow run's result is handed back, with its usage, even when the run failed |
| `Orchestrator.Handle` | internal/orchestrator/orchestrator.go:137-174 | Every worker reached is configured and admits the secret level; which requests are refused, conducted or routed, and to whom, is fixed exactly; what comes back is charged, field by field, the sums over the answered calls |

## Left out

- HTTP forwarding, headers, TLS, timeouts of calls: a backend or worker call is an outcome chosen by the environment.
- JSON and YAML handling, request parsing and the capability checks.
- The Redis limiter and the SQL log stores, whose semantics lie in external engines; audit log queries would repeat the request log's.
- The random and hash balancing policies, client address extraction, sessions and permissions, metrics, notifications: no hard property.
- Task classification: task and confidence are inputs of `Handle`. Case folding is an arbitrary function and the role prompts stand for fixed texts.
- Usage and content parsing of a stream line are arbitrary functions of the line; the idle timer may fire at any moment.
- `deny` and `allow` list traversal around the glob: a plain loop over patterns.
- Limiter and quota calls take one timestamp each, times never go back, and a limiter call is atomic with respect to the sweep (the source drops the table lock before it takes the bucket lock, `internal/ratelimit/ratelimit.go:103-104`).
- Counters other than the round-robin counter are unbounded; overflow at 64 bits is not modelled.
- Round-robin fairness is for a fixed candidate list and a counter that does not wrap; the calls of a run are the only users of the counter.
- Inside `Admission` a request the limiter passes is counted once and for all, its windows being in `RateLimiter`; the limiter's and the token quota's verdicts are free, a new month is a step of its own that clears the monthly counters, and taking a queue place is one step; the steps inside it are in `RequestQueue`, the month roll in `Quota`.
- Thresholds, capacities and limits that change while a run is under way; latency, error text and time stamps of a backend.
- The final `return` of weighted round robin (`internal/balancer/balancer.go:177`) and the last cut of a log page (`internal/logstore/logstore.go:185-187`) are proved unreachable.
- Scores are reals, and strengths must lie above the selection floor of -10^18; below it the source has no strongest worker.
- `KeyRotation`: one key, whose raw keys are all different; the data race on the object's fields is taken as one write after another.
- `KeyIndex.Store`: the keyed hash is idealised as injective and never empty; overlapping rotations are in `KeyRotation`; a key's policy fields are not modelled, so patching a key is the same as flipping it.
- ProbeRegistry.HealthChecker.Rescan: speaks of a rescan that runs undisturbed; interleavings are in `ClosedOnce` and `ReconciledExactly`.
