# Velo, modelled and proved in Dafny

Velo is a gateway in front of LLM backends. This project models the parts of it that hold state or do exact
arithmetic, and proves what they promise for every input, every run and every interleaving:

- **Micro-batching scheduler** (`Scheduler.dfy`, `SchedulerSafety.dfy`, `SchedulerLiveness.dfy`, `SchedulerWindow.dfy`,
  `SchedulerLoad.dfy`): submitters, batcher, wait timer, worker slots and `Stop` as a transition system. A run is a list of
  steps, so a lemma about all runs covers every interleaving and every choice `select` may make. `Scheduler.Enabled` and
  `Scheduler.Apply` are the transitions.
- **Rate limiters** (`TokenBucket.dfy`, `MemoryLimiter.dfy`, `RedisScript.dfy`, `VirtualClock.dfy`, `ClockSkew.dfy`,
  `RedisLimiter.dfy`, `Outages.dfy`, `OutageWindows.dfy`, `OutageRuns.dfy`): the lazy bucket, per key, against the definition
  that checks every window of time; the Redis script under any clocks and expiries, as the same limiter on a virtual clock;
  replicas that share one Redis and fall back to their own buckets, their scripts, lost replies and fallbacks interleaved
  freely. Tokens are integers: tokens times the clock's ticks per second.
- **Router** (`Selection.dfy`, `RoundRobin.dfy`, `Failover.dfy`, `RetryLoop.dfy`, `Router.dfy`, `RouterRuns.dfy`): weighted
  power of two choices and turns, the retry loop in a pool that others change under it, in-flight counts carried by response
  bodies, and the health counter over interleaved runs.
- **Semantic cache** (`MemoryStore.dfy`, `Fifo.dfy`, `Text.dfy`, `Tokenizer.dfy`, `Embedder.dfy`, `Cache.dfy`): eviction against
  the whole history, the nearest-neighbour scan, the hashing embedder, and the prompt text they are fed.
- **Event streams** (`Json.dfy`, `Chunks.dfy`, `Sse.dfy`, `Streams.dfy`, `Interruptions.dfy`, `MockTokens.dfy`): the live producer,
  the gateway's line reader and its replay of a cached answer, with the JSON they print and parse (RFC 8259, section 7 for the
  escapes) and the lines they are cut into (WHATWG HTML Standard, section 9.2.6), whole or stopped anywhere.
- **Lock-free maximum** (`MockBackend.dfy`): the compare-and-swap loop of the mock backend.

Objects the program updates in place are classes whose methods are proved against specification functions; the lemmas are
about those functions. Where goroutines interleave, the model is a step relation instead. Random draws, clocks, network
outcomes and the square root are parameters, so every statement holds for all of them.

Where code and comments disagree the model follows the code, and lemmas say when the comment holds:

- Batches of one model: exactly when the batch size is 1 (`NeverMixesIffNoBatching`).
- `Submit` never looks at the stop signal, so an accepted job can stay queued for good; it is served exactly when it was
  accepted before the batcher returned (`ServedIffAcceptedBeforeExit`, `OrphanedJob`).
- "MaxWait since the first job arrived": the window runs from the pull, any time later (`LateWindow`); the two agree on a
  batch exactly when its first job was pulled as it arrived (`WindowRunsFromPull`), and on all runs exactly when no batch
  ever waits (`DocumentedWindowIff`).
- Exclusion in the retry loop is by name; `New` does not reject duplicate names (`CompleteIffNamesDistinct`).
- `failures` counts request failures too, so "consecutive checks" is the rule exactly at a threshold of at most 1
  (`DocumentedRuleIff`, with the run `DownAfterOneProbe`).
- "FIFO" eviction: exactly when all that is evicted is strictly older than all that is kept (`FifoIff`, `FifoThroughoutIff`,
  with the run `SecondEvicted`).
- The one-hour expiry is invisible exactly while an hour of refill covers the burst (`ExpiryInvisibleIff`; a burst of at most
  3600 times the rate always is, `HourSuffices`). Replicas whose clocks differ by anything mint tokens (`SkewBoundIff`, with
  the runs of `SkewMintsTokens`). The bound on a cluster in windows of time needs both that burst and scripts that run in the
  millisecond of their stamp (`OutageBoundIff`): late scripts in stamp order cost the refill of the delay (`DelayedBound`,
  paid in `DelayIsPaid`), scripts that overtake one another have no bound (`OvertakingAdmitsAny`).
- A replayed answer loses its line breaks and runs of blanks (`ReplayNormalises`).
- "Store in cache after a successful full stream": whatever was assembled is stored, so a part can be, exactly for answers of
  two tokens or more (`NeverStoresPartIff`, with the run `PartStoredDespiteError`).

`dafny verify dfyconfig.toml` checks everything.

## Model

| member | source | states |
|---|---|---|
| `Scheduler.New` | internal/scheduler/scheduler.go:101-125 | each usable knob is kept, each unusable one replaced by its default: batches of 1, 25 ms, 1024 places, 8 workers |
| `SchedulerSafety.NothingLostOrReordered` | internal/scheduler/scheduler.go:138-258 | in every reachable state the accepted jobs are, in order, those handed to workers, the unsent rest of the flushed batch, the current batch and the queue; none twice; flushed batches cut a prefix of the accepted sequence, each of size 1 to MaxBatchSize, and a time flush comes no sooner than MaxWait after its first job was pulled |
| `SchedulerSafety.BoundedLoad` | internal/scheduler/scheduler.go:144-152 | at most Workers dispatches hold a slot; accepted and unfinished jobs fit in queue, one batch and the slots; accepted plus rejected is submitted |
| `SchedulerSafety.ShedExactlyWhenFull` | internal/scheduler/scheduler.go:144-151 | a job is rejected exactly when the queue holds its capacity, and then the queue and the accepted jobs stay as they are |
| `SchedulerSafety.CompletedOnce` | internal/scheduler/scheduler.go:235-258 | Done is closed at most once, exactly for jobs handed over and no longer running, and then exactly one of Err and Response is set: Err by a call that failed, Response by one that returned |
| `SchedulerSafety.OutcomeIsTheCalls` | internal/scheduler/scheduler.go:245-256 | after any run Err is a given error exactly when the job's call failed with it, and Response a given response exactly when the call returned it |
| `SchedulerSafety.InvStep` | internal/scheduler/scheduler.go:158-258 | every step of every goroutine keeps the whole invariant: order, flush cuts, numbering, bounds, slots, timer, completion, exit record |
| `SchedulerSafety.InvAlways` | internal/scheduler/scheduler.go:158-258 | the invariant holds along every run |
| `SchedulerSafety.OrderedStep` | internal/scheduler/scheduler.go:138-258 | no step loses, duplicates or reorders a job |
| `SchedulerSafety.FlushesCutStep` | internal/scheduler/scheduler.go:172-195 | after every step the flushed batches joined are what was handed over or waits in dispatchBatch |
| `SchedulerSafety.TimerSoundStep` | internal/scheduler/scheduler.go:199-219 | after every step a waiting batch has its own deadline running or ticked |
| `SchedulerLoad.BoundsReached` | internal/scheduler/scheduler.go:144-258 | for every configuration a run reaches all bounds at once: Workers dispatches, a full batch held back, a full queue, and the next job shed |
| `SchedulerLiveness.NoStaleTick` | internal/scheduler/scheduler.go:199-219 | whenever a batch waits, the batcher is at its select and the timer runs for exactly the first pull plus MaxWait, or that very tick is pending |
| `SchedulerLiveness.TickedBatchGoesOut` | internal/scheduler/scheduler.go:185-221 | once its tick is pending, a batch is flushed within MaxBatchSize minus its size batcher steps, whichever ready case is chosen |
| `SchedulerLiveness.TickedBatchNotStuck` | internal/scheduler/scheduler.go:217-219 | receiving that tick is always possible and flushes the batch |
| `SchedulerLiveness.SystemStepsUseUpWork` | internal/scheduler/scheduler.go:185-258 | every batcher, timer and worker step decreases a measure of the work left |
| `SchedulerLiveness.DrainTerminates` | internal/scheduler/scheduler.go:185-258 | without submissions the system takes at most as many steps as work was left, with no fairness assumed |
| `SchedulerLiveness.StoppedRest` | internal/scheduler/scheduler.go:133-136 | after Stop the system can only be at rest with the batcher returned and all workers done |
| `SchedulerLiveness.StopDrainsEverything` | internal/scheduler/scheduler.go:188-198 | stopped before the batcher returned, every run without submissions that comes to rest has handed over all accepted jobs in order and completed each exactly once |
| `SchedulerLiveness.ServedIffAcceptedBeforeExit` | internal/scheduler/scheduler.go:140-152 | once the batcher has returned and workers are done, an accepted job was served if and only if it was accepted before the return; later ones stay queued |
| `SchedulerLiveness.OrphanedJob` | internal/scheduler/scheduler.go:140-152 | a run in which a job is accepted and nothing can ever serve it |
| `SchedulerLiveness.NeverMixesIffNoBatching` | internal/scheduler/scheduler.go:161-164 | batches of one model only, as the comment has it, hold on all runs exactly when MaxBatchSize is at most 1 |
| `SchedulerWindow.WindowRunsFromPull` | internal/scheduler/scheduler.go:154-157 | in every reachable state a waiting batch's deadline is MaxWait after the pull of its first job, never before MaxWait after its arrival, and then exactly when it was pulled as it arrived |
| `SchedulerWindow.LateWindow` | internal/scheduler/scheduler.go:199-211 | for every configuration that batches and every delay there is a run whose deadline is that much later than documented |
| `SchedulerWindow.DocumentedWindowIff` | internal/scheduler/scheduler.go:154-157 | the documented window holds on all runs if and only if MaxBatchSize is at most 1 |
| `SchedulerWindow.DeadlineNeverMoves` | internal/scheduler/scheduler.go:199-211 | on any run without a flush the deadline of a waiting batch stays the one its first job set, whatever joins |
| `SchedulerWindow.NoEarlyTimeFlush` | internal/scheduler/scheduler.go:217-219 | on every run a batch flushed for time is flushed when its first job is MaxWait old at least |
| `SchedulerWindow.StopFlushesOnce` | internal/scheduler/scheduler.go:188-198 | flushes by size and time come before the stop; after it one last batch, then the queue job by job |
| `TokenBucket.Config.Effective` | internal/ratelimit/limiter.go:37-46 | configured knobs are kept, unset ones become 10 per second and a burst of twice the rate |
| `TokenBucket.LevelIsLeastHeadroom` | internal/ratelimit/memory.go:39-48 | the O(1) level is the minimum over all earlier calls of what the window from that call still allows |
| `TokenBucket.LazyIsEveryWindow` | internal/ratelimit/memory.go:26-50 | on nondecreasing times the lazy bucket decides every call as the check of every window does |
| `TokenBucket.WindowBound` | internal/ratelimit/memory.go:39-48 | any stretch of calls is granted at most burst plus rps times its duration |
| `TokenBucket.TimeWindowBound` | internal/ratelimit/memory.go:39-48 | so is any window of time |
| `TokenBucket.KeysAreIndependent` | internal/ratelimit/memory.go:33-38 | each key's bucket and decisions are those of the run restricted to that key |
| `MemoryLimiter.MemoryLimiter.Allow` | internal/ratelimit/memory.go:26-50 | the empty key is an error that changes nothing; otherwise the map and the answer are those of the specification |
| `MemoryLimiter.KeyWindowBound` | internal/ratelimit/memory.go:26-50 | whatever the other keys do, one key gets the every-window decisions and at most burst plus rps times T |
| `RedisLimiter.RedisServer.EvalAllow` | internal/ratelimit/redis.go:23-48 | the script updates one hash and answers as the specification, expiry included |
| `RedisScript.ExpiryHarmless` | internal/ratelimit/redis.go:29-46 | when an hour of refill covers the burst, hash and never-expiring bucket agree on state and on every decision |
| `RedisScript.ExpiryRefillsTooMuch` | internal/ratelimit/redis.go:46 | with a larger burst, a burst, an idle hour and a burst are granted in full by the expiring hash, not by the plain bucket |
| `RedisScript.ExpiryInvisibleIff` | internal/ratelimit/redis.go:20-48 | on one clock the script decides all runs as the bucket that never expires if and only if the refill of the time after which a key is gone, an hour and a millisecond, covers the burst |
| `RedisScript.HourSuffices` | internal/ratelimit/redis.go:46 | a burst of at most 3600 times the rate is covered |
| `VirtualClock.ScriptIsEveryWindow` | internal/ratelimit/redis.go:24-47 | for every configuration, any stamps, any server clock and any expiries, the script is the every-window limiter on a virtual clock that moves forward with the stamps and, at an expiry, far enough to fill the bucket |
| `VirtualClock.SpanBound` | internal/ratelimit/redis.go:24-47 | so any stretch of calls is granted at most burst plus the refill of that clock's move |
| `VirtualClock.SkewedClocks` | internal/ratelimit/redis.go:36-45 | with arbitrary clocks and no expiry the script is the every-window limiter on the sum of the forward clock moves |
| `VirtualClock.SkewedTotal` | internal/ratelimit/redis.go:36-45 | so it grants at most burst plus the refill of all forward moves |
| `ClockSkew.SkewMintsTokens` | internal/ratelimit/redis.go:45 | for every configuration and clock difference other than zero, runs within one instant of the server are granted any number of requests, because the stamp is overwritten when the clock goes back |
| `ClockSkew.SkewBoundIff` | internal/ratelimit/redis.go:36-45 | the wall-clock window bound holds on all runs without expiry whose stamps are the server's time or d off it, if and only if d is 0 |
| `RedisLimiter.RedisLimiter.Allow` | internal/ratelimit/redis.go:76-89 | the shared hash and the fallback bucket move as specified for an answer, a lost reply and an unreachable server, each step at its own clock reading |
| `RedisLimiter.UnansweredIsMemory` | internal/ratelimit/redis.go:83-87 | a replica that gets no reply decides every call as the limiter in memory, whether its scripts ran or not |
| `RedisLimiter.AnsweredIsScript` | internal/ratelimit/redis.go:82-88 | a replica that gets every reply decides every call as the script, and its fallback stays unused |
| `RedisLimiter.AllowIsItsEvents` | internal/ratelimit/redis.go:76-89 | a call is its events: a script run, a fallback asked, or one after the other, the last deciding |
| `RedisLimiter.KeyAlone` | internal/ratelimit/redis.go:76-89 | in a cluster every key of the shared store and of each fallback evolves as if alone |
| `RedisLimiter.KeyDecidesAlone` | internal/ratelimit/redis.go:76-89 | each key's decisions are those of the run restricted to that key |
| `Outages.AdmissionsSplit` | internal/ratelimit/redis.go:83-88 | every admission came from the shared bucket or from exactly one replica's fallback |
| `Outages.RedisPays` | internal/ratelimit/redis.go:82-88 | admissions by Redis are paid by the shared bucket, and are all it granted when no reply was lost |
| `Outages.FallbackPays` | internal/ratelimit/redis.go:83-87 | admissions by a fallback are exactly what its bucket granted |
| `Outages.OutageBound` | internal/ratelimit/redis.go:53-89 | for every configuration, any failures, clocks and orders of arrival, N replicas admit at most (N+1)(burst + rps T) requests of a key over any stretch of the run in which the shared bucket's virtual clock and each fallback's clock move by at most T |
| `OutageWindows.DelayedBound` | internal/ratelimit/redis.go:53-89 | on one clock, with scripts in stamp order at most D late and the refill of an hour less D covering the burst, any window of T admits at most (N+1)(burst + rps T) + rps D |
| `OutageWindows.WindowKept` | internal/ratelimit/redis.go:53-89 | with scripts run in the millisecond of their stamp and an hour of refill covering the burst, any window of T admits at most (N+1)(burst + rps T) |
| `OutageRuns.DelayIsPaid` | internal/ratelimit/redis.go:81-82 | for any k tokens the delay refills, up to a burst, a run without overtaking admits both bursts and k more at one instant |
| `OutageRuns.OvertakingAdmitsAny` | internal/ratelimit/redis.go:81-82 | when scripts may run a millisecond or more after their stamp in any order, runs on one clock admit any number of requests within one instant |
| `OutageRuns.CyclesAdmit` | internal/ratelimit/redis.go:46 | when an hour of refill does not cover the burst, n idle hours with outages admit a burst of the shared bucket each hour beside all the fallback refills, to within a token |
| `OutageRuns.OutageExceeds` | internal/ratelimit/redis.go:46 | so one replica exceeds the window bound |
| `OutageRuns.OutageBoundIff` | internal/ratelimit/redis.go:23-89 | on one clock, for scripts at most `delay` milliseconds behind their stamp, the window bound holds for all runs, keys, windows and N if and only if delay is 0 and an hour of refill covers the burst |
| `Selection.NeverTheSoleMaximum` | internal/router/router.go:174-188 | with two or more candidates the picked one has a peer at least as loaded |
| `Selection.LeadNeverGrows` | internal/router/router.go:174-188 | over any run of picks without completions the lead of the most loaded candidate never exceeds max(initial lead, 1) |
| `Selection.ChosenStretch` | internal/router/router.go:191-207 | a draw below the total picks the one backend whose stretch of running totals holds it; the last return is never reached |
| `Selection.DrawsPerBackend` | internal/router/router.go:191-207 | exactly Weight_i of the draws pick backend i |
| `Selection.PairsPerBackend` | internal/router/router.go:170-189 | with equal loads exactly Weight_i * total of the total^2 pairs of draws pick backend i |
| `Selection.PairsByLoad` | internal/router/router.go:170-189 | for any loads, how many of the total^2 pairs of draws pick backend i: Weight_i times the weight of the others no less loaded, Weight_i times the weight of the more loaded, and the squares of repeated draws |
| `Selection.TwoChoicesRule` | internal/router/router.go:174-188 | both draws count: the pick is one of the two candidates drawn, the less loaded, the first on a tie; a repeated draw stands for its candidate and the first other one |
| `Selection.PickOfTwo` | internal/router/router.go:142-189 | so is pick's, with two or more candidates |
| `RoundRobin.AllInTurn` | internal/router/router.go:163-169 | by round robin the picks from an unchanging pool fall to the candidates in turn, from the index on |
| `RoundRobin.EachOncePerRound` | internal/router/router.go:163-169 | any as many such picks in a row as there are candidates choose each exactly once |
| `Selection.Pick` | internal/router/router.go:142-189 | a pick is never an excluded name, is unhealthy only if every healthy name is excluded, and fails only if all names are |
| `Failover.PickIsSound` | internal/router/router.go:142-189 | pick, on any pool and with any draws, meets what the retry loop relies on |
| `Failover.FailureIff` | internal/router/router.go:118-129 | a call fails exactly if it breaks or its status is 500 to 599, with an error that names which |
| `Failover.NeverTwice` | internal/router/router.go:73-96 | Do never calls a name twice nor makes more calls than attempts, whatever happens to health and load meanwhile |
| `Failover.StopsAtSuccess` | internal/router/router.go:86-96 | every call but a successful last one broke or met a status of 500 to 599; any other status is returned at once, from the backend that gave it; an error is that of the last call |
| `Failover.HealthyFirst` | internal/router/router.go:142-162 | with health fixed, an unhealthy backend is called only after every healthy name was |
| `Failover.FailoverComplete` | internal/router/router.go:73-101 | with distinct names and an attempt each, an error means every backend was called once and failed |
| `Failover.CompleteIffNamesDistinct` | internal/router/router.go:78-85 | that holds on all runs if and only if the names are distinct |
| `Failover.NoBackendUnreachable` | internal/router/router.go:97-99 | with a backend configured Do makes a call, and its error is that of its last call, never "no healthy backends" |
| `Router.Backend.constructor` | internal/router/backend.go:30-49 | a backend starts healthy and idle, with weight at least one |
| `Router.Backend.MarkFailure` | internal/router/backend.go:54-59 | one more failure, and its time |
| `Router.Backend.MarkSuccess` | internal/router/backend.go:61-65 | failures reset |
| `Router.Backend.RecordHealth` | internal/router/health.go:56-76 | the up and down transitions and the counter |
| `Router.CountingBody.Close` | internal/router/router.go:222-237 | the first Close gives the slot back, resets failures, closes the inner body and returns its error; later ones do nothing and return none |
| `Router.CancelOnClose.Close` | internal/scheduler/scheduler.go:260-272 | every Close is passed on with its error and the context is cancelled once |
| `Router.ClosedOnce` | internal/router/router.go:228-237 | any positive number of closes of a doubly wrapped body settles each effect exactly once |
| `Router.Router.WeightedPick` | internal/router/router.go:191-207 | the subtracting loop returns what the running totals say |
| `Router.ChosenUnique` | internal/router/router.go:200-206 | an index at which the loop can stop is the index the running totals choose |
| `Router.Router.PickBackend` | internal/router/router.go:142-189 | the imperative pick computes the specification; the round-robin index advances exactly when it is used |
| `Router.Router.DoOnce` | internal/router/router.go:103-137 | a broken call or a status of 500 to 599 leaves the in-flight count as it was, any other status leaves one more and a body that owes it |
| `Router.Router.Do` | internal/router/router.go:73-101 | calls, result and the pool left behind are those of the specification, for any changes others make to the pool between attempts, any draws and any replies; the first reply that is neither broken nor 500 to 599 is what is returned |
| `RetryLoop.LoopIsDo` | internal/router/router.go:80-100 | the loop's fold over its turns is the recursive definition the failover lemmas are about |
| `RetryLoop.DoFailsOver` | internal/router/router.go:73-101 | what Do ends with, others changing the pool under it: at most one call an attempt, no name twice, and with distinct names and an attempt each an error means every backend was called once and broke or met a 5xx |
| `RetryLoop.DoStopsRight` | internal/router/router.go:80-101 | the same of what Do ends with, others changing the pool under it |
| `RetryLoop.DoOwnsOneSlot` | internal/router/router.go:103-137 | when Do is over every in-flight count has moved by what others did before the turns the loop met, that is its calls and a last pick that found nobody, plus one on the server of a success |
| `RetryLoop.DoPrefersHealthy` | internal/router/router.go:142-162 | with health fixed meanwhile, Do calls an unhealthy backend only after every healthy name |
| `RetryLoop.QuietDoFailures` | internal/router/router.go:90-92 | with no one else about, failures grow by one for each failed call and by nothing else |
| `RetryLoop.BumpAllCounts` | internal/router/router.go:90-92 | that is, each backend's by the number of its failed calls |
| `RouterRuns.InFlightConserved` | internal/router/router.go:103-137 | in every interleaving a backend's in-flight count is its pending calls plus its open bodies, so never negative |
| `RouterRuns.UnhealthyExactlyWhen` | internal/router/health.go:56-76 | a backend is unhealthy exactly when, since its last successful probe, a failed probe found at least FailureThreshold failures since the last reset |
| `RouterRuns.DocumentedRuleIff` | internal/router/health.go:11-14 | the documented rule of consecutive failed probes agrees with the code on all runs if and only if the threshold is at most 1 |
| `RouterRuns.DownAfterOneProbe` | internal/router/health.go:67-75 | for every threshold of 2 or more, a run of failed requests and one failed probe after which the backend is down |
| `MockBackend.MaximumSound` | cmd/mock-backend/main.go:131-138 | the maximum never decreases, and in flight is at most maximum plus handlers still in the loop |
| `MockBackend.MaximumExactAtRest` | cmd/mock-backend/main.go:131-138 | with no handler in the loop the maximum is exactly the largest number in flight at any moment of the run |
| `Recency.SortIsStable` | internal/cache/memory_store.go:63-65 | the sort is newest first, a permutation, and keeps the order of equal times |
| `Recency.StableSortUnique` | internal/cache/memory_store.go:63-65 | only one sequence is newest first and stable, so any stable sort gives it |
| `Recency.RetainedIsTopOfHistory` | internal/cache/memory_store.go:56-69 | after any Puts the store holds, as a multiset, the first maxSize of the stable newest-first sort of the whole history |
| `Recency.RetainedExactly` | internal/cache/memory_store.go:56-69 | and as a sequence: the puts as they came while there is room, afterwards the head of the sort |
| `Recency.NewcomerEvictedIff` | internal/cache/memory_store.go:60-67 | a Put into a full store changes nothing exactly when no retained entry is strictly older than the newcomer |
| `Fifo.FifoIff` | internal/cache/memory_store.go:60-67 | the store holds the last maxSize puts of a history if and only if every evicted entry is strictly older than every kept one |
| `Fifo.FifoThroughoutIff` | internal/cache/memory_store.go:60-67 | it does so after every Put if and only if times increase, but for the last maxSize among themselves |
| `Fifo.FifoWhenIncreasing` | internal/cache/memory_store.go:60-67 | strictly increasing times are enough |
| `Fifo.SecondEvicted` | internal/cache/memory_store.go:60-67 | times 5, 3, 7 in a store of two: the newcomer is kept and the second entry, not the first, is gone |
| `MemoryStore.MemoryStore.Put` | internal/cache/memory_store.go:56-69 | append, then sort and cut when over capacity |
| `MemoryStore.MemoryStore.Nearest` | internal/cache/memory_store.go:35-54 | the largest similarity among entries created at freshUntil or later, a hit exactly when it exceeds -1 and reaches the threshold, and then the first entry attaining it, of the same dimension and not created before freshUntil |
| `MemoryStore.AnswerIsScan` | internal/cache/memory_store.go:38-53 | similarity and entry are determined by the entries |
| `MemoryStore.ExpiredIrrelevant` | internal/cache/memory_store.go:41-43 | entries created before freshUntil, added or removed in any number, change neither |
| `MemoryStore.TieBreak` | internal/cache/memory_store.go:44-67 | of equally similar entries the first put answers while there is room, afterwards one no other is newer than |
| `MemoryStore.MemoryStore.CosineDot` | internal/cache/memory_store.go:81-90 | the dot product, or -1 on different lengths |
| `MemoryStore.FreshKept` | internal/cache/memory_store.go:56-69 | with at most maxSize fresh entries in the history, every fresh one is still stored |
| `MemoryStore.LookupIsFullScan` | internal/cache/memory_store.go:35-69 | then a lookup has the best similarity of a scan of the whole history |
| `MemoryStore.BestUnique` | internal/cache/memory_store.go:38-49 | the best similarity is determined by the entries, so hit or miss is too |
| `Tokenizer.Tokenize` | internal/cache/embedder.go:67-85 | the loop yields the maximal alphanumeric runs of the lower-cased text |
| `Tokenizer.WordIsToken` | internal/cache/embedder.go:67-85 | a run of ASCII letters and digits is one token, in small letters |
| `Tokenizer.OthersSeparate` | internal/cache/embedder.go:67-85 | any other ASCII character ends a token |
| `Tokenizer.CaseBlind` | internal/cache/embedder.go:68 | capitals make no difference |
| `Tokenizer.FlattenPrompt` | internal/gateway/handler.go:221-230 | role, colon, content and break of each message, trimmed |
| `Tokenizer.PromptTokens` | internal/gateway/handler.go:221-230 | the tokens of a flattened prompt are those of role and content, message by message |
| `Embedder.WeightAdds` | internal/cache/embedder.go:43-52 | the unnormalised embedding is additive |
| `Embedder.WeightOfBag` | internal/cache/embedder.go:43-52 | and depends on the multiset of tokens only |
| `Embedder.OneCharacterApart` | internal/cache/embedder.go:87-89 | tokens that differ in one character never share their 64-bit hash |
| `Embedder.HashOfA` | internal/cache/embedder.go:87-96 | the published FNV-1a value of one letter, its bucket and its sign |
| `Embedder.WeightOfA` | internal/cache/embedder.go:43-52 | the vector that letter makes before normalising |
| `Embedder.HashingEmbedder.Embed` | internal/cache/embedder.go:43-65 | the in-place loops compute the normalised sum of the tokens' signed buckets |
| `Vectors.UnitLength` | internal/cache/embedder.go:53-63 | normalising gives length one or leaves the zero vector |
| `Vectors.UnitMaximum` | internal/cache/memory_store.go:79-90 | in the unit ball the dot product is at most one, and one exactly for equal unit vectors |
| `Cache.Cache.Lookup` | internal/cache/cache.go:66-88 | the answer is the store's for the prompt's vector, the lifetime and the threshold, and never older than the lifetime; the model name plays no part |
| `Cache.Cache.Store` | internal/cache/cache.go:91-109 | the entry, stamped if it had no time, is put under the prompt's vector |
| `Cache.SameWordsSameVector` | internal/gateway/handler.go:221-230 | conversations with the same bag of words have the same vector |
| `Cache.ExactVectorHits` | internal/cache/cache.go:66-88 | a fresh entry under the query's own nonzero vector makes it hit at the maximum similarity, at any threshold up to one |
| `Cache.AnswersUntilTtl` | internal/cache/cache.go:66-109 | a stored completion answers its own prompt exactly until its lifetime is over, counted from its own time or else from the store |
| `Cache.SameWordsHit` | internal/cache/cache.go:66-109 | after a store, any conversation with the same bag of words hits while the entry is retained and fresh |
| `Json.StringRoundTrip` | internal/gateway/stream.go:109 | a string escaped as json.Marshal does reads back as itself, whatever follows |
| `Json.SurrogatePair` | internal/gateway/stream.go:64 | a character escaped as a surrogate pair reads as that one character |
| `Json.ValueRoundTrip` | internal/gateway/stream.go:109 | so does every printed value |
| `Json.ValueExtends` | internal/gateway/stream.go:64 | a value read in full is read the same when more text follows, except a number at the end |
| `Json.ProperPrefixFails` | internal/gateway/stream.go:64 | no proper prefix of a printed object is JSON |
| `Json.PrintNoControl` | internal/gateway/stream.go:109-110 | a printed value holds no raw control character, so no line break splits it, and no raw `<`, `>` or `&` |
| `Text.WordsOfJoin` | internal/gateway/stream.go:120 | strings.Fields undoes strings.Join of words |
| `Text.RejoinsIff` | internal/gateway/stream.go:120-127 | splitting into words and joining again changes nothing exactly on single-spaced text |
| `Chunks.ChunkDecodes` | internal/gateway/stream.go:57-66 | the chunk of either printer decodes to the text of its delta, whatever its key order and the keys left out |
| `Chunks.SameView` | internal/gateway/stream.go:95-112 | a typed client reads the same from a replayed chunk as from a live one: identity, role, text and reason to finish |
| `Sse.EventCut` | internal/gateway/stream.go:42-69 | part of an event yields its text exactly when it has the whole data line |
| `Sse.ObjectLine` | internal/gateway/stream.go:55-66 | a data line adds the content of its first choice, however many it has |
| `Sse.OtherLinesIgnored` | internal/gateway/stream.go:54 | lines that do not begin with "data: " add nothing, wherever they stand |
| `Sse.FramesHeard` | internal/gateway/stream.go:38-69 | reading back a list of events gives the texts sent |
| `Sse.FramesCut` | internal/gateway/stream.go:38-69 | cut after any character, it gives those whose data lines were complete |
| `Streams.StreamProxy` | internal/gateway/stream.go:22-80 | what is forwarded and assembled is exactly the first k lines, with k and the error determined by cancellation, write failure and the body's end |
| `Streams.ProxyStops` | internal/gateway/stream.go:38-80 | all of the body is sent on when it ends by itself, an error then exactly if it broke; otherwise exactly the lines before the cancellation or the failed write |
| `Streams.ReplayCachedStream` | internal/gateway/stream.go:86-140 | no error exactly if neither write nor client failed, and then the role, one delta a word, the closing chunk and last the sentinel were sent; with an error the whole events before the stop and no more, never the sentinel |
| `Streams.StreamResponse` | cmd/mock-backend/main.go:225-271 | the live stream down to its sentinel, or the whole events before the client left |
| `Streams.StreamHeard` | internal/gateway/stream.go:96-139 | the deltas on either kind of stream |
| `Streams.StreamReassembles` | internal/gateway/stream.go:38-79 | reassembly gives the words joined by blanks |
| `Streams.CachedStreamIsLiveIff` | internal/gateway/stream.go:82-139 | storing a live stream and replaying it gives the same deltas in the same order exactly when every token is a space-free word |
| `Streams.ReplayNormalises` | internal/gateway/stream.go:120-133 | replay spells the content with its white space normalised, a second round changes nothing, and the content survives exactly when single-spaced |
| `Interruptions.InterruptedStream` | internal/gateway/stream.go:38-79 | cut after any character and any line, a stream reassembles to the words whose data lines were complete, whole |
| `Interruptions.InterruptedAnswer` | internal/gateway/stream.go:38-79 | however backend, connection and proxy stop, the content StreamProxy returns is the tokens whose data lines were complete in what it sent on |
| `Interruptions.AnswerIsWholeIff` | internal/gateway/stream.go:38-79 | that content is the whole answer if and only if the last token's data line is within what was sent on, whatever the error |
| `Interruptions.PartStoredDespiteError` | internal/gateway/handler.go:140-151 | for every answer of two tokens or more, a broken connection after which the first token alone is stored |
| `Interruptions.NeverStoresPartIff` | internal/gateway/handler.go:140-151 | nothing or the whole answer is stored, however the stream stops, if and only if it has at most one token |
| `MockTokens.BuildTokens` | cmd/mock-backend/main.go:172-192 | exactly n space-free words: the echo of the last user message, cut or padded from the vocabulary |
| `MockTokens.FindLastUser` | cmd/mock-backend/main.go:173-180 | the content of the last message by the user, nothing if there is none |
| `MockTokens.EchoIs` | cmd/mock-backend/main.go:181-187 | the echo is "Answer:" and the last six words of that message, or all it has |

## Left out

- HTTP servers, routing, authentication, metrics, logging, configuration and the command line: no invariant of their own.
- `PgvectorStore` and `OpenAIEmbedder`: their behaviour lives in SQL, an approximate index and a remote service.
- The rest of `chatHandler`, which drops the response when the client leaves before it arrives, and direct dispatch without
  a scheduler.
- The scheduler and the interleaved router and mock-backend runs are step relations on values, so aliasing of jobs between
  goroutines is not captured; each job is submitted once, as the handler does. Races on plain fields are taken as one
  atomic step each, and so is `timer.Stop` with the drain of its channel.
- Request timeouts and contexts: a timed-out call is one that fails.
- Router.Router.Do: what others do while a call is pending is taken together with what they do before the next attempt, which is where the loop sees it.
- Router.Router.DoOnce: building the request and reading the body of a 5xx reply are part of the reply's outcome.
- RedisLimiter.RedisServer.EvalAllow: Redis stores the level as a rounded decimal; the model keeps it exact. A key is served through the millisecond of its expiry.
- Outages.OutageBound: fallbacks read a clock that does not go back, as Go's monotonic clock under the lock does.
- ClockSkew.SkewBoundIff: the runs are those in which no key expires; `OutageRuns.OutageBoundIff` has both, on one clock.
- RoundRobin.AllInTurn: the pool stays as it is between the picks; when candidates come and go the turns shift with them.
- TokenBucket.LazyIsEveryWindow: exact arithmetic in place of 64-bit floats, and call times that do not decrease, as the monotonic clock and the mutex give.
- Fifo.FifoIff: the entries of a history are taken to be distinct, since each Store puts its own.
- Embedder.HashingEmbedder.Embed: reals in place of 32-bit floats; the square root is the parameter `norm`, required to be exact.
- Cache.Cache.Store: an entry is a value, so stamping the caller's own struct through its pointer is not captured; errors of the embedder and the store do not arise with the modelled ones.
- MemoryStore.MemoryStore.Put: the sort is an insertion sort on sequences; `Recency.StableSortUnique` makes the choice of algorithm immaterial.
- Tokenizer.Tokenize: lower-casing is exact as far as it can yield an ASCII letter or digit; other characters only separate.
- Json.ValueRoundTrip: characters are Unicode scalar values, so invalid UTF-8 is not modelled; numbers are natural, so a foreign chunk with a negative or fractional number reads as malformed.
- Streams.StreamResponse: write errors, which the backend ignores, are not modelled; the token delay is left out.
- Streams.StreamProxy: the headers, the check that the writer can flush and the metrics are left out; a failed write is taken to have sent nothing.
- MockTokens.BuildTokens: a negative token count, possible only with a negative default-tokens flag, is left out.
