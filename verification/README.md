# A verified model of the LLM serving control plane

The repository is a two-layer control plane for LLM serving, written in Go. The request plane admits,
queues, dispatches and streams requests; the control plane keeps the fleet's membership, routes to
workers and evicts dead ones. Almost all of it is state shared between goroutines: buckets, priority
lanes, timers, counters and channels. This project models that state and proves what the code
guarantees over whole runs. `dafny verify dfyconfig.toml` checks all of it.

## How the model is built

- **Objects.** A Go type whose methods update its fields is a class with those fields
  (`RateLimiter`, `Queue`, `LatencyTracker`, `Dispatcher`, `Gateway`, `Registry`, `Scaler`, `Router`). Each
  method is proved against a step function on values (`AllowStep`, `PushStep`, `RecordStep`,
  `HeartbeatStep`, ...), or against what it promises outright.
- **Runs.** The theorems about whole runs are about those step functions. A run is a sequence of
  events; `Step` applies one, and an event that is not possible in a state changes nothing, so every
  sequence of events is a run and every theorem holds for all of them.
- **Interleaving.** Where goroutines race, the accesses to shared state are events of their own, and
  the events of any number of goroutines come in any order: `QueueInterleaving` (lane-by-lane `Pop`),
  `ResponseProtocol` (handlers, timeouts and dispatcher loops), `AdmissionControl` (check, then push),
  `MembershipRuns` (timers and late callbacks), `ScalerInterleaving` (sweeps on stale snapshots),
  `InFlightCounting` (double-checked locking), `RouterInterleaving` (a choice made on moving counts).
- **Time** is an integer number of nanoseconds that the caller reads from the clock; runs assume that
  it does not go back. Arithmetic that the code does in floating point is exact here: tokens in units
  of 1/60,000,000,000, the smoothing factor as three tenths, quotients truncated once.
- **The outside world** is an oracle: what upstream or a worker does to a call, whether a body can be
  rewritten for another model, the in-flight counts that other requests leave, what arrives in a
  select.

| file | about |
|---|---|
| `RateLimiter.dfy` | the token bucket is a check over the whole request history |
| `Queue.dfy`, `QueueRuns.dfy`, `QueueInterleaving.dfy` | `AheadOf` is a prophecy about later pops; what `Pop` still guarantees when it races |
| `Tracker.dfy`, `Estimator.dfy` | the average is a weighted sum, the estimate a closed form of the schedule |
| `Admission.dfy`, `Gateway.dfy` | how far admission can overshoot; the handler from method check to hook |
| `Dispatcher.dfy`, `ResponseProtocol.dfy` | the retry and fallback loops; the channel protocol between gateway and dispatcher |
| `Membership.dfy`, `MembershipRuns.dfy`, `RegistryService.dfy`, `Catalogue.dfy` | dead detection is sound and, but for one gap, complete; the registry object; who serves which model |
| `Scaler.dfy`, `ScalerInterleaving.dfy` | a sweep alone; sweeps against a moving registry |
| `Router.dfy`, `RequestRouting.dfy`, `InFlight.dfy`, `RouterInterleaving.dfy` | choosing a worker; the retry loop; the in-flight counters; choosing while they move |
| `Channels.dfy`, `Http.dfy`, `Options.dfy`, `Sets.dfy`, `Arithmetic.dfy` | what the others share |

## Where the code and its comments part

The model follows the code. In these places it does not do what a comment or the obvious reading
says; the members named show it, and say exactly when it does.

- "Pop never returns a normal or low request while a high-priority one is waiting"
  (request-plane/queue/queue.go:95-96) holds of an atomic pop only. `PopCanOvertake` is a run in which a
  push slips in between two probes. What is always true: every higher lane was empty at some instant of
  the call (`HigherLanesWereEmpty`), it is occupied at the take exactly if more was accepted into it
  since than taken from it (`OvertakesExactlyWhenRefilled`), and whoever is overtaken was pushed during
  that very call (`OvertakenCameDuringTheCall`).
- A denied `Allow` can leave a trace if the key's budget changes: `DenialUnderChangedBudgetLeavesTrace`.
  It leaves none exactly if the later budget is the one it was denied under, or no time had passed
  since the bucket was last touched: `DenialLeavesNoTraceExactly`.
- The buffered and the streaming path do not retry on the same outcomes. They differ on a request that
  cannot be built and on a 502 or 503 whose body breaks off, and on nothing else: `PathsAgreeExactly`.
- After a gateway timeout nobody reads `Chunks`, and a committed stream that does not fit the channel
  keeps its dispatcher loop for ever: `TimeoutCanCostALoop`, `AbandonedStreamHoldsItsLoop`. There is a
  continuation in which the loop gets free if and only if what is queued and what is still to be sent
  fit the channel together: `LoopGetsFreeExactlyWhenItFits`.
- `Heartbeat` resets the timer before it reads the clock for `LastHeartbeat`, and `markDead` neither
  re-arms nor retries. A worker whose timers and callbacks are all spent is lost track of exactly if
  the last callback about it ran between deadTimeout after the one reading and deadTimeout after the
  other: `LostExactlyInTheGap`, `HeartbeatGapLosesAWorker`, `UnwatchedIsNeverFoundDead`.
- `Register` starts the timer before it inserts the entry (it is its two halves run at one instant,
  `RegisterIsStartAndInsert`, only if nothing comes in between). With any operations in between, and
  every due timer and callback about the worker through, the new entry is lost track of exactly if
  deadTimeout has passed since the timer was started and no other timer about the worker is armed:
  `LateInsertIsLostExactly`, `EarlyTimerLosesTheEntry`.
- `Deregister` is said to make sure that `markDead` never fires for the worker
  (control-plane/registry/registry.go:148-149). It does so exactly if there is no other timer about the
  worker, left over from a replaced incarnation, and no callback that has fired already:
  `DeregisterSilencesExactly`, `SilencedStaysSilent`. Otherwise a callback outlives it:
  `CallbackOutlivesDeregister`. (That it does no harm is `DeadWorkersWereSilent`.)
- `Evict` is meant for workers that are already gone, but it does not look again. A worker that
  registers between snapshot and `Evict` is removed alive: `LiveWorkerCanBeEvicted`; and this is the only
  way: `EvictsTheDeadIncarnationUnlessReregistered`.
- `pickWorker` reads every in-flight count twice, and indexes into an empty slice if no candidate's
  counter has, between its two readings, lost on balance just what it had above the minimum:
  `PickFailsExactly`. Two requests that are counted in between are enough: `MovingCountsCanLeaveNobody`.
  The request then gets no status, and its hook is not called: the router's `HandleInference` says exactly
  when, and `SteadyCountsNeverCrash`.
- Admission checks first and pushes later; the lane overshoots by up to the number of handlers in
  between (`LaneNeverExceeds`), and for every configuration and every such number it can
  (`RaceReachesTheBound`).

## Model

| member | source | states |
|---|---|---|
| RateLimiting.RateLimiter.Allow | request-plane/auth/ratelimiter.go:33-62 | the bucket updated in place behaves as the step function on all buckets' values, for every key, budget and instant |
| RateLimiting.RateLimiter.Tokens | request-plane/auth/ratelimiter.go:64-86 | changes nothing, and shows at least one token exactly when `Allow` at the same instant would say yes |
| RateLimiting.RefillTwice | request-plane/auth/ratelimiter.go:53-55 | capping at an instant in between loses nothing, whether or not a token was taken there |
| RateLimiting.TightestThreshold | request-plane/auth/ratelimiter.go:8-13 | the tightest window leaves n tokens iff every window of the history has room for n more |
| RateLimiting.LevelIsTightestWindow | request-plane/auth/ratelimiter.go:33-62 | after any run of calls for any keys, a key's level is that of the tightest window of its history, capped at the budget |
| RateLimiting.BucketIsHistoryRule | request-plane/auth/ratelimiter.go:33-62 | `Allow` says yes iff for every earlier allowed request i, the allowed ones from i on and this one are at most R + (t - t_i) * R / 60 s |
| RateLimiting.DenialIsForced | request-plane/auth/ratelimiter.go:33-62 | in numbers: whenever a call is denied there is an earlier allowed request i from which on the window, with this one, would hold more than R + (t - t_i) * R / 60,000,000,000 |
| RateLimiting.VerdictIsHistoryRule | request-plane/auth/ratelimiter.go:33-62 | the same for every call inside a run, so a denial happens only when some window forces it |
| RateLimiting.EveryWindowIsBounded | request-plane/auth/ratelimiter.go:8-13 | burst plus rate, in numbers: no window of any run holds more than R + elapsed * R / 60,000,000,000 allowed requests |
| RateLimiting.DeletionKeepsVerdict | request-plane/auth/ratelimiter.go:33-62 | deleting any denied calls of a key and any calls of other keys changes no verdict for it |
| RateLimiting.DeletingAllDenials | request-plane/auth/ratelimiter.go:33-62 | deleting every denied call of every key leaves a run in which every call is allowed |
| RateLimiting.DenialLeavesNoTraceExactly | request-plane/auth/ratelimiter.go:53-59 | the bucket that a call denied under budget q leaves has, for calls under budget r, always the level it would have had without that call, iff q = r or no time had passed since it was last touched |
| RateLimiting.DenialUnderChangedBudgetLeavesTrace | request-plane/auth/ratelimiter.go:33-62 | a run in which a denied call made under another budget flips a later verdict |
| Channels.Channel.TrySend | request-plane/queue/queue.go:119-126 | a non-blocking send appends to the buffer iff there is room |
| Channels.Channel.TryReceive | request-plane/queue/queue.go:154-158 | a non-blocking receive takes the oldest element iff there is one |
| PriorityQueue.Rank | request-plane/queue/queue.go:90-91 | the serving order is High, Normal, Low, whatever the order of the constants |
| PriorityQueue.Queue.TryPush | request-plane/queue/queue.go:119-126 | accepts iff the request's own lane has room, appends to that lane and touches no other |
| PriorityQueue.Queue.TryPopHighestPriority | request-plane/queue/queue.go:152-161 | takes the head of the High lane if it has one, else of the Normal, else of the Low one, and nothing iff all are empty |
| PriorityQueue.Queue.AheadOf | request-plane/queue/queue.go:182-191 | counts the strictly higher lanes and the request's own: High; High and Normal; or all three |
| PriorityQueue.Queue.Len | request-plane/queue/queue.go:165-171 | counts all lanes, in whatever order the map is walked |
| PriorityQueue.Queue.Cap | request-plane/queue/queue.go:194-200 | three times the lane capacity, never exceeded by the queue |
| QueueRuns.LaneConservation | request-plane/queue/queue.go:93-95 | per lane, what was there and what was accepted is what was popped followed by what is queued, in order |
| QueueRuns.DistanceInvariant | request-plane/queue/queue.go:176-191 | while a request waits, its distance to the front is AheadOf before its push plus higher-priority arrivals minus pops |
| QueueRuns.AheadOfIsExact | request-plane/queue/queue.go:176-191 | the next pop returns the request exactly when the pops since its push number AheadOf just before the push plus the strictly-higher-priority pushes accepted since; they are never more |
| QueueRuns.HighIsNeverOvertaken | request-plane/queue/queue.go:93-96 | a High request is preceded by exactly the High requests that were queued when it came, in order, so it waits fewer than capacityPerLane pops |
| QueueInterleaving.Conservation | request-plane/queue/queue.go:136-161 | with probes, selects and pushes interleaved, nothing is lost, delivered twice or reordered within its lane |
| QueueInterleaving.AloneItIsAtomic | request-plane/queue/queue.go:136-161 | a call of Pop that nobody disturbs takes what the atomic one takes, or waits; a push is always the atomic one |
| QueueInterleaving.WaitingCallCanTake | request-plane/queue/queue.go:140-146 | a call that waits in the select can take the head of any lane that has one |
| QueueInterleaving.CallsAreHonest | request-plane/queue/queue.go:152-161 | a pop under way has found every lane it passed empty at some instant since it began |
| QueueInterleaving.HigherLanesWereEmpty | request-plane/queue/queue.go:136-161 | if a call takes a request from lane p, every higher lane was empty at some instant of that very call |
| QueueInterleaving.OvertakesExactlyWhenRefilled | request-plane/queue/queue.go:95-96 | a higher lane is occupied at the take iff, since it was seen empty, more was accepted into it than taken |
| QueueInterleaving.OvertakenCameDuringTheCall | request-plane/queue/queue.go:136-161 | if a call takes from lane p, every request that waits in a higher lane at that moment was pushed during that very call |
| QueueInterleaving.PopCanOvertake | request-plane/queue/queue.go:95-96 | a run in which Pop returns a Normal request while a High one waits |
| LatencyTracking.LatencyTracker.Record | request-plane/slo/tracker.go:33-43 | stores the first sample, then blends and truncates; other models are untouched |
| LatencyTracking.TruncatesTowardZero | request-plane/slo/tracker.go:42 | the conversion to a duration truncates toward zero |
| LatencyTracking.StoredWithinSamples | request-plane/slo/tracker.go:33-43 | the stored average never leaves the range of its samples |
| LatencyTracking.TrackerHoldsPerModel | request-plane/slo/tracker.go:17-25 | after any run, each model's entry is what its own samples alone produce |
| LatencyTracking.WeightedSumRecurrence | request-plane/slo/tracker.go:11-15 | weights 0.3 * 0.7^age (the first sample taking the rest) satisfy the recurrence of the code |
| LatencyTracking.TruncationLosesLessThanThree | request-plane/slo/tracker.go:42 | the exact weighted sum minus the stored value lies in [0, 3) ns after any number of samples |
| LatencyTracking.RepeatedSettles | request-plane/slo/tracker.go:42 | repeating a sample moves the average monotonically: to it exactly from above, from below to at most 3 ns short, within as many samples as the gap is wide |
| WaitEstimation.Estimator.constructor | request-plane/slo/estimator.go:15-20 | a concurrency below one counts as one |
| WaitEstimation.EstimateFollowsSamples | request-plane/slo/estimator.go:29-33 | after any samples, the estimate is the truncated quotient of ahead * the stored average of this model's own samples by the concurrency, or of ahead * fallback if it has none |
| WaitEstimation.EstimateBrackets | request-plane/slo/estimator.go:29-33 | the estimate is the truncated quotient of ahead * average by the number of loops |
| WaitEstimation.GreedyKeepsSpread | request-plane/dispatcher/dispatcher.go:103-127 | loops that take the next request when they become free stay within one service time of each other |
| WaitEstimation.IdleStart | request-plane/slo/estimator.go:26-28 | with all loops idle, the request with N ahead starts at exactly floor(N / C) * L, on every such schedule |
| WaitEstimation.IdleEstimateIsClose | request-plane/slo/estimator.go:22-33 | then 0 <= estimate - start < L |
| WaitEstimation.BusyEstimateIsClose | request-plane/slo/estimator.go:22-33 | with any residual work of at most L per loop, -L <= estimate - start < L |
| WaitEstimation.FasterRequestsStartNoLater | request-plane/slo/estimator.go:22-33 | if requests take at most L instead, the start is at most L after the estimate |
| AdmissionControl.DeepestAdmittedIsLargest | request-plane/backpressure/policy.go:46-52 | the deepest queue that a threshold W admits is the largest N with floor(N * A / C) <= W |
| AdmissionControl.DecidesOnRecordedLatencies | request-plane/backpressure/policy.go:46-52 | in every run, a handler gets through iff its priority has no threshold or the estimate from the queue it saw and the latencies recorded so far is within it |
| AdmissionControl.RunKeepsBound | request-plane/gateway/gateway.go:165-202 | the invariant behind the bound, over every interleaving of measuring, deciding, pushing, popping and recording |
| AdmissionControl.LaneNeverExceeds | request-plane/gateway/gateway.go:165-202 | with latencies of at least A and at most k handlers between estimate and push, a lane with a threshold never exceeds min(capacity, N + k) |
| AdmissionControl.RaceReachesTheBound | request-plane/gateway/gateway.go:165-202 | for every configuration, lane and k >= 1 there is a run that keeps to the assumptions and fills the lane to exactly min(capacity, N + k) |
| GatewayHandling.ParsePriority | request-plane/gateway/gateway.go:265-274 | only "high" and "low" are special; everything else is normal |
| GatewayHandling.KeyFollowsBearer | request-plane/gateway/gateway.go:278-289 | a key is found iff the header is "Bearer " followed by it, and it is not empty |
| GatewayHandling.Gateway.Authenticate | request-plane/gateway/gateway.go:121-145 | which refusal exactly when; for every key k of the store presented as "Bearer k", exactly the bucket of k's KeyID is charged, under k's own budget, and the refusal is 429 iff that bucket says no; no other header touches a bucket |
| GatewayHandling.Gateway.Admit | request-plane/gateway/gateway.go:163-202 | refused iff there is a policy, an estimator and a threshold, and depth before the push * recorded average (or fallback) / concurrency exceeds it; admitted and with room, the request is pushed under a new number, and otherwise the queue is untouched |
| GatewayHandling.Gateway.Enter | request-plane/gateway/gateway.go:121-202 | a request is queued iff it passes method, key, budget, model, policy and room; each of the eight refusals exactly when its own test is the first to fail; what is written to queue, budgets and id counter |
| GatewayHandling.Gateway.StreamResponse | request-plane/gateway/gateway.go:241-260 | one status, then the chunks' bytes in order |
| GatewayHandling.Gateway.Conclude | request-plane/gateway/gateway.go:208-232 | every result is recorded in the tracker, failed ones too, and a timeout is not; one status and body per outcome |
| GatewayHandling.Gateway.HandleInference | request-plane/gateway/gateway.go:114-233 | all of that, the status of each refusal in figures, the status and bytes that follow from result or timeout, the recorded latency, and exactly one hook call: with the model iff its name was read, with success iff a result without error has a 2xx status |
| Dispatching.Body.Read | request-plane/dispatcher/dispatcher.go:253 | a read overwrites the front of the one buffer |
| Dispatching.ChunksCarryTheBody | request-plane/dispatcher/dispatcher.go:246-263 | leaving out empty reads loses no bytes |
| Dispatching.StreamBody | request-plane/dispatcher/dispatcher.go:246-263 | every chunk is a fresh slice that still holds its own bytes at the end, however often the buffer was refilled; together they are the body |
| Dispatching.Dispatcher.constructor | request-plane/dispatcher/dispatcher.go:68-75 | fewer than one attempt counts as one |
| Dispatching.StopAt | request-plane/dispatcher/dispatcher.go:148-155 | the first trial in the sequence model x attempt after which the loops do not go on |
| Dispatching.Dispatcher.SearchFollowsFallbacks | request-plane/dispatcher/dispatcher.go:134-157 | if every trial before attempt j for the c-th fallback goes on and this one does not, its outcome is what is delivered, for that very fallback, and the search makes no further trial; the same for the requested model |
| Dispatching.Dispatcher.SearchGivesUpLast | request-plane/dispatcher/dispatcher.go:156-159 | if all trials go on, what is delivered is the last outcome of the last fallback, or its failed rewrite; a search that ends earlier delivers neither 502 nor 503 |
| Dispatching.Dispatcher.AttemptsBuffered | request-plane/dispatcher/dispatcher.go:148-155 | the inner loop makes the trials of one model and stops at the first that is not retryable |
| Dispatching.Dispatcher.SearchBuffered | request-plane/dispatcher/dispatcher.go:134-159 | the nested loops refine the flat search: first non-retryable outcome, else the last |
| Dispatching.Dispatcher.DispatchBuffered | request-plane/dispatcher/dispatcher.go:129-160 | exactly one Result is sent, the one the flat search delivers, and nothing is tried after it; in terms of `fallbacks` and upstream: the requested model and then fallbacks[model][0], [1], ... are tried maxAttempts times each, the first outcome that is not retryable gives status and ServedModel, else the last fallback's last outcome does; no 502 or 503 is delivered while there is something left to try |
| Dispatching.Dispatcher.AttemptsStreamed | request-plane/dispatcher/dispatcher.go:208-240 | the inner loop of the streaming path, up to the commit |
| Dispatching.Dispatcher.SearchStreamed | request-plane/dispatcher/dispatcher.go:194-243 | its nested loops refine the flat search as well |
| Dispatching.Dispatcher.Commit | request-plane/dispatcher/dispatcher.go:228-239 | one Result, the whole body as chunks, and the channel closed |
| Dispatching.Dispatcher.DispatchStream | request-plane/dispatcher/dispatcher.go:191-244 | one Result, by the same order of models; the chunks of the committed response and no others; Chunks closed once on every path |
| Dispatching.Dispatcher.CallsAreBounded | request-plane/dispatcher/dispatcher.go:134-158 | at least one trial and at most maxAttempts * (1 + number of fallbacks) |
| Dispatching.DeliveredIsNeverZero | request-plane/dispatcher/dispatcher.go:136-159 | the zero Result is never delivered |
| Dispatching.PathsAgreeExactly | request-plane/dispatcher/dispatcher.go:165-244 | both paths make the same trials iff the buffered one did not stop at an unbuildable request or a broken 502 or 503; the streaming one never stops earlier |
| Dispatching.AgreeingPathsDeliverTheSame | request-plane/dispatcher/dispatcher.go:129-244 | then they deliver the same result, or the same status of the same model, the streaming path having committed before the body is read |
| ResponseProtocol.RunKeepsInv | request-plane/dispatcher/dispatcher.go:115-263 | the invariant of every interleaving: who holds which request, and where its bytes are |
| ResponseProtocol.ProtocolIsSafe | request-plane/queue/queue.go:58-64 | at most one Result per request and always room for it, no send or close on a closed channel, chunks only after a streaming Result, at most one status, the hook once per completed handler |
| ResponseProtocol.WaitEndsWithAnAnswer | request-plane/gateway/gateway.go:208-232 | in every run, a wait ends only by timer or result, and a result that is there can be taken: 504; 502 for an error; else the result's status, with its body unless chunks follow |
| ResponseProtocol.WaitingCanBeAnswered | request-plane/gateway/gateway.go:208-232 | from every reachable state with a free loop, at most two events bring a waiting handler a result |
| ResponseProtocol.ClientSeesAPrefix | request-plane/gateway/gateway.go:241-260 | the client's bytes are always a prefix of upstream's, and all of them once the channel is drained |
| ResponseProtocol.OneLoopPerRequest | request-plane/dispatcher/dispatcher.go:115-127 | no request is with two loops, or queued while a loop has it |
| ResponseProtocol.WaitingIsNeverForgotten | request-plane/gateway/gateway.go:208-232 | a waiting handler's request is queued, with a loop, or answered |
| ResponseProtocol.ForwardingNeverRegresses | request-plane/gateway/gateway.go:253-259 | no event sets a forwarding stream back: a bound on its remaining steps never grows |
| ResponseProtocol.ForwardingCanProceed | request-plane/gateway/gateway.go:253-259 | some step that lowers the bound is always possible, so no stream whose client listens gets stuck |
| ResponseProtocol.ForwardingCanComplete | request-plane/gateway/gateway.go:253-259 | from every reachable state in which a handler forwards there is a run after which it has returned, drained the channel, and given its client the whole body |
| ResponseProtocol.AbandonedStreamHoldsItsLoop | request-plane/dispatcher/dispatcher.go:254-258 | after a timeout, a stream with more chunks outstanding than the channel holds keeps its loop in every continuation |
| ResponseProtocol.AbandonedStreamThatFitsCanProceed | request-plane/dispatcher/dispatcher.go:254-262 | if they fit, the loop can always take another step toward its end |
| ResponseProtocol.ForsakenLoopGetsFree | request-plane/dispatcher/dispatcher.go:191-192 | and there is a run after which the loop has let go of the request |
| ResponseProtocol.LoopGetsFreeExactlyWhenItFits | request-plane/dispatcher/dispatcher.go:250-263 | a loop that pumps or closes for a client that has gone gets free in some continuation iff the chunks queued and still to be sent fit the channel |
| ResponseProtocol.TimeoutCanCostALoop | request-plane/gateway/gateway.go:230-232 | a run that reaches such a state |
| MembershipRuns.RunKeepsWatch | control-plane/registry/registry.go:81-235 | in every reachable state, for every worker: its timer is armed for deadTimeout after its last reset, or a callback that fired no earlier waits or has run |
| MembershipRuns.ContactsAreAccepted | control-plane/registry/registry.go:73-146 | the contacts that the theorems count from are exactly the Register and Heartbeat calls that are accepted |
| MembershipRuns.DeadExactlyWhenFoundSilent | control-plane/registry/registry.go:212-235 | LastHeartbeat is the second clock reading of the last accepted contact, and a worker is DEAD iff a callback about it, leftover or late, has run deadTimeout or more after that (or it was DEAD at that contact) |
| MembershipRuns.SilentWorkersAreDead | control-plane/registry/registry.go:133-137 | with two clock readings per heartbeat: once all due timers and callbacks about a worker are through, it is DEAD or has been silent for less than deadTimeout, or the last callback about it ran in the gap of its last heartbeat; if that has no gap, or was a Register, the last cannot be |
| MembershipRuns.DeadWorkersWereSilent | control-plane/registry/registry.go:212-235 | an entry becomes DEAD only through a callback, in that very incarnation, and only deadTimeout or more after its last contact, leftover timers and late callbacks included |
| MembershipRuns.OneStepOfLife | control-plane/registry/registry.go:184-210 | an event creates an incarnation STARTING, leaves its state, makes it DEAD, or moves it STARTING to READY, READY to BUSY or back, or READY or BUSY to DRAINING, and in no other way |
| MembershipRuns.PresenceIsAnInterval | control-plane/registry/registry.go:95-102 | a removed or replaced incarnation never comes back |
| MembershipRuns.LifeGoesForward | control-plane/registry/registry.go:184-194 | each incarnation goes through STARTING, READY or BUSY, DRAINING, DEAD in this order, DEAD is absorbing and DRAINING is reached through READY or BUSY |
| MembershipRuns.StaysAtWork | control-plane/registry/registry.go:184-235 | a worker that reports READY or BUSY, in any order and never deadTimeout apart, is never DEAD, whatever timers and callbacks are about |
| MembershipRuns.HeartbeatsAreAccepted | control-plane/registry/registry.go:116-146 | and each of its heartbeats is accepted and moves it to the state it reports |
| MembershipRuns.DrainIsCarried | control-plane/registry/registry.go:282-296 | over any run, an accepted heartbeat is told to drain iff that was requested of this very incarnation before |
| MembershipRuns.DeadIffMarked | control-plane/registry/registry.go:231-232 | DEAD iff MarkedDeadAt is set, and map key equals Info.WorkerId, in every reachable state |
| MembershipRuns.UnwatchedIsNeverFoundDead | control-plane/registry/registry.go:227-229 | an entry without timer or callback is never marked DEAD, however long it stays silent |
| MembershipRuns.LostExactlyInTheGap | control-plane/registry/registry.go:227-229 | in every reachable state without timers or callbacks about a worker, leftover ones included, it is lost track of iff the last callback ran in the gap of its last heartbeat |
| MembershipRuns.HeartbeatGapLosesAWorker | control-plane/registry/registry.go:133-137 | for every worker, a run of four operations after which it may be silent for ever and is not found dead |
| MembershipRuns.DeregisterSilencesExactly | control-plane/registry/registry.go:148-164 | after Deregister nothing will call markDead for the worker iff no timer but the entry's own was armed for it and no callback about it was waiting |
| MembershipRuns.SilencedStaysSilent | control-plane/registry/registry.go:148-164 | and then nothing does in any continuation without a contact |
| MembershipRuns.CallbackOutlivesDeregister | control-plane/registry/registry.go:148-164 | for every worker, a run after which a callback waits for a worker that has deregistered |
| MembershipRuns.RegisterIsStartAndInsert | control-plane/registry/registry.go:81-102 | Register in one step is its two halves at one instant |
| MembershipRuns.LateInsertIsLostExactly | control-plane/registry/registry.go:95-102 | with any operations between timer start and insertion, and all due timers and callbacks about the worker through: the new entry is lost track of iff deadTimeout has passed since the start and no other timer about the worker is armed |
| MembershipRuns.EarlyTimerLosesTheEntry | control-plane/registry/registry.go:95-102 | in particular if just the timer and its callback come in between |
| RegistryService.Registry.Register | control-plane/registry/registry.go:73-112 | the entry and its timer as the step function says; the timer of a replaced entry stays armed |
| RegistryService.Registry.Heartbeat | control-plane/registry/registry.go:116-146 | NotFound iff unknown; accepted iff the state stays or moves STARTING-READY, READY-BUSY, BUSY-READY, READY-DRAINING or BUSY-DRAINING, and then the entry is refreshed in place, its timer reset, with a clock reading for each, and its drain flag reported; otherwise nothing changes |
| RegistryService.Registry.Deregister | control-plane/registry/registry.go:150-164 | removes the entry and stops its own timer |
| RegistryService.Registry.ReportLoad | control-plane/registry/registry.go:169-180 | replaces one entry's load report |
| RegistryService.Registry.MarkDead | control-plane/registry/registry.go:215-235 | marks the entry DEAD iff it is there, not DEAD, and silent for deadTimeout |
| RegistryService.Registry.RequestDrain | control-plane/registry/registry.go:286-296 | sets one entry's drain flag |
| RegistryService.Registry.Evict | control-plane/registry/registry.go:302-313 | removes by name, without looking at the state |
| RegistryService.Registry.GetWorker | control-plane/registry/registry.go:240-248 | a copy of the entry, if there is one |
| RegistryService.Registry.ListWorkers | control-plane/registry/registry.go:251-259 | every worker once, in some order |
| RegistryService.Registry.HealthyWorkersForModel | control-plane/registry/registry.go:263-280 | exactly the READY or BUSY workers that have the model loaded, each once |
| RegistryService.Registry.WorkerCount | control-plane/registry/registry.go:316-326 | the size of the fleet, and how many of it are READY or BUSY |
| RegistryService.Registry.ModelsServed | control-plane/registry/registry.go:337-368 | one line for each loaded model and no other, with its counts |
| Catalogue.PlacesPerWorker | control-plane/registry/registry.go:344-357 | the counts are at least the numbers of workers, and equal to them iff nobody lists the model twice |
| Catalogue.CatalogueAgreesWithRouting | control-plane/registry/registry.go:337-368 | a model is listed iff somebody loads it; TotalWorkers and HealthyWorkers are at least the numbers of workers that load it and of those that are routable, equal iff none of them lists it twice; HealthyWorkers is 0 iff the router would answer 503 |
| FleetScaling.Scaler.HandleDead | control-plane/scaler/scaler.go:112-133 | evicts iff the snapshot entry has been DEAD for deadGrace and the name is still there, and only then makes the callback |
| FleetScaling.Scaler.Sweep | control-plane/scaler/scaler.go:82-110 | undisturbed, removes exactly the workers that have been DEAD for deadGrace when it looks at them, makes one callback for each, and warns about exactly the models that nobody can serve |
| FleetScaling.Scaler.Warnings | control-plane/scaler/scaler.go:95-109 | the two warnings, on the registry as it is after the evictions |
| FleetScaling.Scaler.Unserved | control-plane/scaler/scaler.go:102-109 | the models warned about are exactly those listed for which routing has nobody |
| ScalerInterleaving.EvictedWorkersWereLongDead | control-plane/scaler/scaler.go:112-125 | over all interleavings, an evicted worker was DEAD in the sweep's snapshot, for at least deadGrace when it is evicted |
| ScalerInterleaving.EvictsTheDeadIncarnationUnlessReregistered | control-plane/registry/registry.go:298-313 | what is removed is the incarnation that was seen DEAD iff the worker did not register between snapshot and Evict |
| ScalerInterleaving.LiveWorkerCanBeEvicted | control-plane/scaler/scaler.go:82-125 | for every worker, a run in which it is READY and is evicted for its predecessor's death |
| ScalerInterleaving.EvictedIsGone | control-plane/registry/registry.go:302-313 | an evicted incarnation is not there at any later event |
| ScalerInterleaving.IncarnationsAreEvictedOnce | control-plane/scaler/scaler.go:123-125 | no incarnation is evicted twice, even by concurrent sweeps |
| ScalerInterleaving.CallbackRunsOncePerEviction | control-plane/scaler/scaler.go:123-132 | when the sweeps are through, the callback has run exactly once for each incarnation they removed |
| InFlightCounting.CountersAreExact | control-plane/router/router.go:211-241 | for any number of goroutines, a worker's count is the number of attempts between inc and dec |
| InFlightCounting.CountersReturnToZero | control-plane/router/router.go:128-130 | never negative, and zero when every request is finished |
| InFlightCounting.RequestIsCountedInAndOut | control-plane/router/router.go:128-130 | left alone, a request counts its worker up by one while it runs and down again when it is finished, and no other worker |
| InFlightCounting.CountersAreNeverReplaced | control-plane/router/router.go:213-228 | double-checked locking never replaces a worker's counter object |
| InFlightCounting.WhatIsFoundIsCurrent | control-plane/router/router.go:213-231 | no goroutine counts on a stale one |
| Routing.PickWorker | control-plane/router/router.go:164-209 | with counts that may change between the two passes: fails iff the second finds nobody at the first's minimum, and else returns a cheapest of those it finds; with stable counts, a lexicographic minimum in (in-flight, cost), by the counter among equals, which moves iff several are least loaded |
| Routing.MinFlight | control-plane/router/router.go:173-179 | the least in-flight count, attained by a candidate |
| Routing.MinCost | control-plane/router/router.go:191-197 | the least cost, attained by a candidate |
| Routing.CostFilterIsBest | control-plane/router/router.go:181-204 | filtering by count and then by cost leaves exactly the lexicographically minimal candidates |
| Routing.OneLeastIsBest | control-plane/router/router.go:187-189 | a single least loaded candidate is the only minimal one |
| Routing.TurnsClosedForm | control-plane/router/router.go:206-208 | how often an index comes up in m consecutive turns, in closed form |
| Routing.RoundRobinIsFair | control-plane/router/router.go:206-208 | over consecutive tie-breaks on one list, without counter wrap, candidates' counts differ by at most one, and over k rounds each is chosen exactly k times |
| RouterInterleaving.NetTellsCount | control-plane/router/router.go:230-241 | over any stretch of any run, a worker's count changes by exactly the adds on its own counter |
| RouterInterleaving.PickFailsExactly | control-plane/router/router.go:173-192 | with every count read at two instants of a run of the counters, nobody is left iff no candidate's counter has lost, between its own two readings, just what it had above the minimum; then every candidate that attained the minimum has been touched in between |
| RouterInterleaving.MovingCountsCanLeaveNobody | control-plane/router/router.go:181-192 | for any two workers, a run in which two incs between the passes leave nobody |
| RequestRouting.TriedAreDistinct | control-plane/router/router.go:100-117 | the workers tried for one request are pairwise distinct and among those that can serve it, however the counts move |
| RequestRouting.SomebodyIsLeft | control-plane/router/router.go:105-114 | while attempts are left there is an untried worker, so the guard against an empty candidate list never fires |
| RequestRouting.ReachableWorkerIsFound | control-plane/router/router.go:21-24 | with at most three workers, one that is reachable throughout is never missed, unless a choice crashes first |
| RequestRouting.GivesUpAfterThree | control-plane/router/router.go:99-117 | a search that does not crash tries at most three different workers, and stops early only at one that answered |
| RequestRouting.SteadyCountsNeverCrash | control-plane/router/router.go:173-192 | a choice whose two passes agree does not crash |
| RequestRouting.Router.Proxy | control-plane/router/router.go:268-296 | nothing is written before the worker answers, and then the response is committed |
| RequestRouting.Router.TryNext | control-plane/router/router.go:105-130 | a new worker is chosen on two readings of the counts and asked, or the choice crashes; counted as in flight for as long as it is asked |
| RequestRouting.Router.Search | control-plane/router/router.go:100-149 | the loop ends at the first attempt that is not retryable, after min(n, 3), or in a crash, which leaves the response unwritten |
| RequestRouting.Router.Route | control-plane/router/router.go:100-155 | a crash exactly if there is another attempt to make and the second pass finds nobody among several; otherwise 502 iff every attempt failed retryably, else the committed worker's status, and the hook fires exactly once, with success iff the response was complete |
| RequestRouting.Router.HandleInference | control-plane/router/router.go:71-155 | exactly one status iff no choice crashed, and none otherwise: 405, 400, 503 iff nobody serves the model, the answering worker's, or the router's own 502, which means that exactly min(n, 3) different workers were tried and none of them answered; the hook fires only for requests that found a worker and did not crash; every inc has its dec |

## Left out

- RateLimiting.RateLimiter.Allow: the code's float64 rounding; the model's tokens are exact.
- LatencyTracking.LatencyTracker.Record: the code's float64 rounding of 0.7 and 0.3; the model blends in exact tenths and truncates.
- WaitEstimation.EstimateBrackets: the code rounds a float64 quotient and product before it truncates; the model truncates once. Negative averages and counts do not occur in the schedule theorems, which need L > 0.
- Routing.PickWorker: costs are totally ordered (no NaN).
- Routing.RoundRobinIsFair: assumes that the 64-bit counter does not wrap within the stretch, and a fixed list; the list really comes in the order of a Go map walk.
- PriorityQueue.Queue.TryPush: lanes of capacity 0, which in Go hand a request over only to a Pop that is waiting.
- MembershipRuns.SilentWorkersAreDead: in the runs Register starts its timer and inserts its entry in one step; LateInsertIsLostExactly says exactly what happens when they are apart.
- RegistryService.Registry.Register: one step, for the same reason.
- RegistryService.Registry.MarkDead: one clock reading; the original takes a second one for MarkedDeadAt, which can only be later.
- RateLimiting.BucketIsHistoryRule: needs a fixed budget per key and a clock that does not go back; DenialLeavesNoTraceExactly says when a changed budget matters.
- Dispatching.Dispatcher.DispatchBuffered: the send stands at each exit of the loops in the original; here it comes once, after the search. The same holds for DispatchStream.
- GatewayHandling.Gateway.Conclude: what other handlers and loops do to queue and tracker while one handler waits is in AdmissionControl and ResponseProtocol, not in the sequential method.
- ResponseProtocol.RunKeepsInv: the protocol lets a loop pop any queued request, so that its theorems do not depend on the order; the order is the subject of PriorityQueue and QueueInterleaving.
- FleetScaling.Scaler.Sweep: nothing else happens during the sweep; the interference is in ScalerInterleaving.
- RequestRouting.Router.HandleInference: what the two passes of each choice read is given from outside; PickFailsExactly ties such readings to a run of the counters.
- Termination of an upstream body: a body is a finite sequence of reads.
- The HTTP, JSON and gRPC layers, headers, logging, metrics export and command-line programs: plumbing over libraries.
- The key store, the admin handlers and the request statistics: map lookups and counters.
- `setModel`: an oracle that succeeds or fails; what it does to the JSON is not modelled.
- The Docker provisioner and the worker binaries: I/O.
- LenByPriority and InFlightSnapshot: one-line reads.
