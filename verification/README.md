# KubeGym in Dafny

A model of KubeGym's discrete-event autoscaling simulator, of the scoring of its episodes, of the controllers that are
ported onto its observation, and of two of its workload helpers, with proofs of what they promise.

The simulator advances a cluster of replicas from event to event: arrivals are dispatched onto replica queues, replicas
boot, serve, drain and are released, and every replica that exists is billed. Each replica runs one of two engines:
continuous batching under a KV budget with recompute preemption, or a bounded-concurrency server that integrates
service between events. A Gym environment drives the simulator one control interval at a time and charges violations,
replica-seconds and churn.

## How the model is built

| file | what it holds |
|---|---|
| `Requests.dfy` | requests, service clocks, an engine's state, and facts about lists of requests |
| `LlmServing.dfy`, `RequestService.dfy` | the two engines as functions on their state, and what they keep |
| `ReplicaEngines.dfy` | the engine contract the event loop relies on, and that both engines meet it |
| `ReplicaPool.dfy` | lifecycle, bring-up order, billing |
| `Simulator.dfy`, `SimulatorInvariant.dfy`, `SimulatorRuns.dfy` | the event loop, its invariant, termination, runs |
| `ReachableStates.dfy`, `Draining.dfy`, `DrainRuns.dfy`, `Releasing.dfy`, `RequestHistory.dfy`, `FifoService.dfy` | whole-run theorems |
| `CostModel.dfy`, `Episode.dfy`, `EpisodeCosts.dfy`, `NoLookahead.dfy` | scoring, what a whole episode is charged, and what that does not depend on |
| `Observation.dfy`, `Controllers.dfy`, `Forecasting.dfy`, `PortRefinement.dfy`, `SourceRuns.dfy` | the observation and its decoder, the scaling rules, what the forecasters predict, the ports, what the source controllers decide along a history |
| `ClosedLoop.dfy`, `BypassEpisode.dfy` | the scaling rules in the loop: their promises in every episode they drive, and an episode that breaks one |
| `EngineObjects.dfy`, `ClusterObjects.dfy`, `EpisodeObjects.dfy`, `ControllerObjects.dfy` | the objects that update their fields in place, proved against the functions above |
| `Arrivals.dfy`, `Tuning.dfy`, `Workload.dfy` | arrival reconstruction, tuning-set selection, building a trace |
| `Counterexamples.dfy` | small runs that show what draining and decoding do not do |
| `Numbers.dfy`, `Sorting.dfy` | larger and smaller of two numbers; insertion sort by any order |

Every operation is a function on values; the classes and loops of the program are classes and loops whose `ensures`
clauses equate their new state with that function of their old state; the theorems are about the functions. A run is any
sequence of actions (`SimulatorRuns.Action`): rescale, one turn of the event loop, advance to a time, drain. `Reached`
is the state such a sequence leads to, so a theorem about `Reached` holds between any two events of any run.

Times and amounts of work are reals; the program's tolerances (1e-9 for events, 1e-12 plus 1e-9 relative for completion,
1e-12 for the end of a drain, 1e-6 for the clip ceiling) are kept. An infinite clock is the constructor `Never`, so a
prefill charged to a clock that is not set leaves it unset, as in the program. `nextafter` is any instant strictly in the
future. A dispatch policy is any sequence of choices among the accepting replicas. Random draws are functions of their
index, constrained to their range.

Assumptions on configurations are in the subset types `LlmModel`, `RsModel`, `PoolConfig`, `Weights`, `Norm`, `View`,
`Limits`. Assumptions on the trace are in `SimulatorInvariant.TraceOk`: fresh requests in the order of arrival with
distinct sequence numbers; for decoding, whole-token demand of at least one and a prompt of at least one token that fits
the KV budget; for request service, demand above the completion tolerance.

## Where the program's documentation says more than its code does

- "Draining replicas finish what they hold" (`kubegym/core/replica.py:10`, `docs/INTERFACE.md:323`): a draining replica
  refuses admissions, so its queue is never served unless a scale-up revives it, and then only at the next event
  (`DrainRuns.RevivalServedExactly`). `Draining.DrainingNeverServesQueue` proves this for every run,
  `Counterexamples.JobIsStranded` gives a run, and `Draining.DrainFinishesExactly` gives the exact condition: the queue is
  empty when the drain starts, and, for decoding, the batch fits the KV budget at every step to its end.
- "The drain hit its cap" as the meaning of a truncated drain (`kubegym/gym/cost.py:246`, `docs/INTERFACE.md:259`): a
  stranded queue also ends a drain early. `DrainRuns.DrainTruncatedExactly` gives, for every state, the exact condition,
  the part beyond the documented one being known before the drain starts; `Counterexamples.DrainEndsEarly` gives a run
  whose drain ends with work left however late the cap, and `DrainRuns.DrainCutOnlyByCap` the runs for which the
  documented reading is right.
- The same words as the meaning of an unfinished request: requests that arrive late are charged as unfinished although
  nothing was truncated. `Episode.UnfinishedArriveLater` gives the exact requests by what is known at the horizon, and
  `Episode.UnfinishedWithoutTruncation` such episodes.
- `WorkloadSource.build` is documented to re-sequence requests so that a number is the arrival rank
  (`kubegym/core/workload.py:116`); it keeps the numbers they have, and `Workload.RankedExactly` says when those are ranks.
- The scale-down stabilisation window of the autoscaler is bypassed by scale-up stabilisation when that is switched on;
  `Controllers.StabilisedExactly` gives the exact parameters for which it holds along every run, and
  `BypassEpisode.WindowBypassed` an episode of the simulator in which it fails.
- A decoded token is documented to cost a step time, and prefill to come on top (`kubegym/models/llm_serving.py:10-35`,
  `kubegym/core/engine.py:11-16`). The first token out of an emptied batch costs its prefill alone, and the first one on
  a new replica a step time alone: `LlmServing.ClockFromIdle` gives the exact clock, `LlmServing.FullStepFromIdle` when a
  full step time passes, and `Counterexamples.TokenInPrefillTime` an instance. Over the life of any one request the step
  time does hold between its tokens (`ReachableStates.TokensTakeTime`).

## Model

| member | source | states |
|---|---|---|
| LlmServing.TokenKeeps | kubegym/models/llm_serving.py:141-166 | one decoded token keeps a request's accounting: whole progress up to its demand, done exactly at its demand, gaps that sum to the time since its first token, the largest gap times their number at least that sum; and one token less is left |
| LlmServing.StepDelivers | kubegym/models/llm_serving.py:141-173 | a scheduler step lowers the tokens left by exactly one per running sequence, stamps what it completes with its time, and forgets no request |
| LlmServing.TryAdmitKeeps | kubegym/models/llm_serving.py:114-130 | admission keeps every engine fact and the dispatch order, stays within the KV budget, charges prefill exactly when it admits, and stops only when the queue is empty, the batch full, or the head does not fit |
| LlmServing.AdmitExactly | kubegym/models/llm_serving.py:119-130 | admission moves a prefix of the queue to the end of the batch, in order, stamps those never admitted before, and changes nothing else |
| LlmServing.PrefillIs | kubegym/models/llm_serving.py:119-130 | the prefill seconds are the tokens brought into the batch, prompt and recomputed output, over prefill_tps |
| LlmServing.PreemptKeeps | kubegym/models/llm_serving.py:132-139 | preemption restores the KV budget (or leaves one sequence), never empties the batch, moves only the cut between batch and queue, and leaves a head that does not fit |
| LlmServing.PreemptExactly | kubegym/models/llm_serving.py:132-139 | preemption keeps the longest start of the batch, one sequence at least, that fits the budget; the rest goes back to the front of the queue in order, request and replica counting one preemption each |
| LlmServing.AdmitXorPreempt | kubegym/models/llm_serving.py:175-183 | one tick never both admits and preempts |
| LlmServing.TickKeeps | kubegym/models/llm_serving.py:119-183 | a tick from any state a scheduler step leaves restores the invariant (budget, order, a clock strictly ahead) and, on an accepting replica, leaves nothing admissible waiting |
| LlmServing.DeadlockFree | kubegym/models/llm_serving.py:114-130 | on an accepting replica a nonempty queue implies a nonempty batch after every tick |
| LlmServing.ClockNeverEarlier | kubegym/models/llm_serving.py:175-183 | no arrival, tick or drain moves the clock of a busy replica earlier, and prefill moves it at least by what it costs |
| LlmServing.NoSuperluminalDecode | kubegym/models/llm_serving.py:141-183 | between consecutive scheduler steps of which the first leaves a batch, whatever arrivals, ticks and drains come in between, at least a0 + a1*b plus all prefill charged passes, up to the event tolerance |
| LlmServing.BusyTick | kubegym/models/llm_serving.py:175-183 | a tick before the clock of a busy replica is due moves it by exactly the prefill it charges |
| LlmServing.DecodeClock | kubegym/models/llm_serving.py:110-183 | after a step at t1 that leaves b running, through any arrivals, drains and ticks that come before the clock is due, the next step is due at exactly t1 + a0 + a1*b plus the prefill charged in between |
| LlmServing.ClockFromIdle | kubegym/models/llm_serving.py:175-183 | the clock a tick at t sets for a batch of b that was empty: t plus the prefill, or t + a0 + a1*b if the prefill is within the tolerance or the replica never decoded |
| LlmServing.FullStepFromIdle | kubegym/models/llm_serving.py:175-183 | that clock is a0 + a1*b or more away if and only if prefill is not between the tolerance and that time, or was not charged |
| LlmServing.GapAfterEmptied | kubegym/models/llm_serving.py:141-183 | after a step that empties the batch, the next step comes no earlier than that clock, written with a0 and a1, plus all prefill charged since, up to the event tolerance |
| LlmServing.StepFinish | kubegym/models/llm_serving.py:141-173 | a scheduler step does not change whether a batch fits the budget to its end |
| LlmServing.TickFinish | kubegym/models/llm_serving.py:132-183 | a tick that may not admit leaves the batch alone exactly when it fits the budget now, and does not change whether it fits to its end |
| Requests.OutputGap | kubegym/core/service.py:330-340 | output after the first adds the time since the last to the sum, counts it, and makes the largest gap the larger of the two |
| RequestService.DeliverBatch | kubegym/models/request_service.py:124-146 | integrating up to the clock never overshoots a demand, keeps progress between elapsed time and elapsed time over the full-batch slow-down, and completes something whenever the clock is reached |
| RequestService.RateIs | kubegym/models/request_service.py:111-115 | each of b running requests is served at the rate 1/(1 + contention*(b-1)) |
| RequestService.AdvanceExactly | kubegym/models/request_service.py:124-146 | integrating from l to t adds exactly (t - l)/(1 + contention*(b-1)) to each of b running requests, and changes nothing else of it but its completion |
| RequestService.RescheduleKeeps | kubegym/models/request_service.py:148-165 | the clock points exactly at the first completion of the batch, strictly in the future |
| RequestService.ClockWritten | kubegym/models/request_service.py:148-165 | the clock of a batch of b is the first of the instants l + (demand - progress)*(1 + contention*(b-1)) of its requests |
| RequestService.TickKeeps | kubegym/models/request_service.py:173-184 | a tick keeps the invariant, fills every free slot in order on an accepting replica, and leaves the queue of a refusing one alone |
| RequestService.StepDelivers | kubegym/models/request_service.py:168-171 | a service step stamps what it completes with its time, forgets no request, and completes at least one when its clock is reached |
| RequestService.ResponseTime | kubegym/models/request_service.py:111-184 | every completed request took its demand (up to the tolerance) at least, demand*(1 + contention*(max_concurrency - 1)) at most, and its demand at most without contention; its progress never exceeds its demand |
| ReplicaEngines.ServeKeeps | kubegym/core/service.py:205-260 | both engines meet the contract of one event: invariant kept, nothing lost, completions stamped, work never grows and shrinks when the clock is due, admission maximal, the queue of a refusing replica intact |
| ReplicaEngines.DecodesWhenDue | kubegym/core/engine.py:242-251 | at an event a decoding replica delivers one token to every sequence of its batch if its clock is at most 1e-9 ahead, and none otherwise |
| ReplicaPool.MoveKeeps | kubegym/core/replica.py:197-209 | billing a slice of time keeps replica-seconds equal to the sum of lifetimes, with the bill always up to date |
| ReplicaPool.ReapKeeps | kubegym/core/replica.py:183-195 | releasing drained replicas moves their lifetimes from live to retired and keeps count, order and founders |
| ReplicaPool.ClampIs | kubegym/core/replica.py:153-158 | a target within the range is left alone, below it becomes k_min, and above it k_max unless targets beyond it are allowed |
| ReplicaPool.HypotheticalIs | kubegym/core/replica.py:154-158 | a request marks the pool hypothetical if and only if it is granted beyond k_max, and no request takes the mark away |
| ReplicaPool.AddsInOrder | kubegym/core/replica.py:163-172 | a scale-up cancels drains first, in pool order, changes nothing of a replica that still drains or of any after it, and boots only where none is left to revive |
| ReplicaPool.SetTargetKeeps | kubegym/core/replica.py:146-181 | every target request leaves exactly the clamped target active, moves no request, drains exactly the newest replicas by ready time and id on the way down and nothing on the way up |
| ReplicaPool.NewestIsNoFounder | kubegym/core/replica.py:170-179 | while more than k_min replicas are active the next to drain is not one of the k_min founders |
| ReplicaPool.ResetKeeps | kubegym/core/replica.py:110-123 | reset gives max(k0, k_min) ready, empty, active replicas and nothing billed |
| ReplicaPool.BootTimes | kubegym/core/replica.py:126-140 | the i-th replica booted now is ready i+1 cold starts after the last pending one under sequential bring-up, and one cold start from now under parallel |
| ReplicaPool.ParallelNeverLater | kubegym/core/replica.py:126-172 | from the same pool, whatever boots or drains, parallel bring-up makes no replica ready later than sequential |
| SimulatorInvariant.DispatchDueKeeps | kubegym/core/engine.py:231-240 | dispatching all due arrivals keeps the invariant, leaves none due, and accounts for the work they bring |
| Simulator.RouteIs | kubegym/core/engine.py:258-274 | an arrival goes to an accepting replica if there is one, else to the active one ready first (ties by id), else to the draining one that is, else to a new one that is ready now |
| Simulator.RouteAnywhere | kubegym/core/engine.py:258-274 | every accepting replica is within reach of the dispatch policy |
| Simulator.NextEventIsFirst | kubegym/core/engine.py:180-202 | the next event is the earliest of the next arrival, the ends of the boots still ahead, and the clocks of the batches of ready replicas |
| SimulatorInvariant.EventKeeps | kubegym/core/engine.py:226-256 | one event keeps the loop's invariant, and a productive one makes the termination measure smaller |
| SimulatorRuns.IterateKeeps | kubegym/core/engine.py:177-256 | one turn of the loop never stalls, keeps the invariant, and either ends the loop with nothing left by the end time or advances clock and measure |
| SimulatorRuns.StepTo | kubegym/core/engine.py:167-256 | advancing terminates, keeps the invariant, reaches the end time or quiet, and without coasting moves only by making the measure smaller |
| SimulatorRuns.StepToTurns | kubegym/core/engine.py:177-256 | advancing is a sequence of at most measure + 1 turns: arrivals left, replicas booting and work left |
| SimulatorRuns.ScaleKeeps | kubegym/core/engine.py:156-158 | a control action keeps the loop's invariant |
| SimulatorRuns.Reached | kubegym/core/engine.py:126-298 | every state any run can reach satisfies the invariant |
| ReachableStates.NothingLost | kubegym/core/engine.py:231-274 | in every reachable state the dispatched prefix of the trace is held exactly once over batches, queues and completions of live and retired replicas, the rest nowhere, and the dispatch counters agree |
| ReachableStates.RetiredAreEmpty | kubegym/core/replica.py:183-195 | a released replica holds no batch and no queue, and was draining |
| Releasing.NoneDrainsIdle | kubegym/core/engine.py:252-256 | after every event each draining replica still in the pool runs or queues something |
| Releasing.OnlyIdleReleased | kubegym/core/replica.py:183-195 | a replica that an event removes from the pool drained, held nothing, and is recorded as released at that event |
| Releasing.IdleReleased | kubegym/core/replica.py:183-195 | a replica that drains without work is released at the next event |
| Releasing.DrainedIdleIsReleased | kubegym/core/replica.py:183-195 | a replica that a control action drains idle is released at the first event of the interval, if there is one |
| ReachableStates.DispatchedOnTime | kubegym/core/engine.py:231-240 | once time has passed, nothing that has arrived waits for dispatch, and nothing is dispatched earlier than the event tolerance before its arrival |
| Releasing.EventDispatches | kubegym/core/engine.py:231-240 | after an event at t exactly the requests that arrive by t + 1e-9 have been dispatched |
| ReachableStates.NeverStalls | kubegym/core/engine.py:202-225 | from every reachable state the next turn does not stall, and the stall branch is taken only at the very start of an episode |
| ReachableStates.ClocksAhead | kubegym/core/engine.py:195-198 | in every reachable state a batch runs only on a ready replica, with a finite clock strictly ahead |
| ReachableStates.NeverReorders | kubegym/models/llm_serving.py:119-139 | on every replica batch followed by queue is in dispatch order, and first admissions are monotone in dispatch order |
| ReachableStates.KvBudgetHolds | kubegym/models/llm_serving.py:100-139 | in every reachable state the KV budget holds or one sequence runs, and whatever waits fits an empty replica |
| ReachableStates.TokensAddUp | kubegym/models/llm_serving.py:141-166 | in every reachable state each request's tokens and gaps add up |
| ReachableStates.TokensTakeTime | kubegym/models/llm_serving.py:141-183 | over every run, a request takes at least a0 + a1 less the event tolerance for every token after its first, across evictions and readmissions |
| ReachableStates.WorkIsProgress | kubegym/models/llm_serving.py:167-168 | work delivered over live and retired replicas equals progress made, across preemptions and releases |
| ReachableStates.ServiceTimes | kubegym/models/request_service.py:124-184 | in every reachable state each completed request took its demand (up to the tolerance) at least and demand*(1 + contention*(max_concurrency - 1)) at most |
| ReachableStates.CompletedExactly | kubegym/models/request_service.py:117-146 | in every reachable state a request is completed if and only if it has received its demand up to 1e-12 plus 1e-9 of it |
| ReachableStates.AloneAtFullSpeed | kubegym/models/request_service.py:111-184 | in every reachable state, whatever the contention, a completed request that was alone in service on its replica throughout took exactly the service it received, its demand up to the tolerance |
| ReachableStates.BillsLifetimes | kubegym/core/replica.py:197-209 | at every reachable time replica-seconds equal the lifetimes of live and retired replicas |
| ReachableStates.PoolHolds | kubegym/core/engine.py:258-274 | in every reachable state the target is active and in range, the k_min founders accept, and dispatch finds an accepting replica, so its fallbacks are unreachable |
| ReachableStates.BootsInTurn | kubegym/core/replica.py:126-140 | under sequential bring-up a replica started later is ready at least one cold start after every earlier one still in the pool |
| Draining.AdmissionMaximalAfterEvent | kubegym/core/engine.py:242-251 | after every event nothing admissible waits on a replica that accepts |
| Draining.DrainingNeverServesQueue | kubegym/models/request_service.py:117-118 | over any control steps that repeat the target or scale down, a draining replica keeps every request it had queued and is never released |
| Draining.DrainFinishesExactly | kubegym/models/llm_serving.py:114-139 | over any control steps without a scale-up, once nothing more can happen, a replica that was draining holds work if and only if its queue was not empty or its batch did not fit the KV budget to its end |
| DrainRuns.DrainStopsAtEvent | kubegym/core/engine.py:284-298 | a drain is a number of events, an arrival, boot or service clock being due at each; it stops the clock at the last and bills exactly the time between them, so no idle time is billed |
| DrainRuns.DrainTruncatedExactly | kubegym/core/engine.py:284-298 | from any state, a drain leaves work if and only if a batch is left with its next event beyond the cap, or a draining replica could not finish when the drain began, or a revived queue waited then with no event to come by the cap |
| DrainRuns.DrainCutOnlyByCap | kubegym/core/engine.py:284-298 | in runs that never scale down, a drain leaves work if and only if a running batch has its next event beyond the cap (up to the event tolerance); queued work is never stranded |
| DrainRuns.RevivalServedExactly | kubegym/core/replica.py:166-170 | advancing serves every queue that a revival gave back if and only if an event comes by the end time; with no event it changes no replica |
| Counterexamples.JobIsStranded | kubegym/core/replica.py:10-13 | two jobs and one scale-down strand a job for every continuation without a scale-up |
| Counterexamples.DrainEndsEarly | kubegym/core/engine.py:284-298 | on that run every drain ends by time six with a job left, however late its cap |
| Counterexamples.TokenInPrefillTime | kubegym/models/llm_serving.py:170-183 | two one-token requests on one replica: the second has its token one second after the first, although a step takes two |
| FifoService.FirstComeFirstServed | kubegym/models/request_service.py:111-184 | over every run, on each replica that no action leaves draining, a request is admitted at the first instant from its arrival at which fewer requests ahead of it are unfinished than the concurrency limit |
| FifoService.FoundersNeverDrain | kubegym/core/replica.py:170-179 | no control action ever leaves one of the k_min founders draining |
| RequestHistory.RunLater | kubegym/core/service.py:41-44 | along every run descriptors never change, stamps are never undone, new stamps lie within the run's span, and completed requests never change |
| NoLookahead.FutureIsIrrelevant | kubegym/core/engine.py:167-256 | two episodes whose traces agree up to T are in the same state at every time up to T under the same actions |
| NoLookahead.ChargesAreCausal | kubegym/gym/cost.py:34-40 | two episodes whose traces agree up to T have the same accumulated costs, scored requests and violations at every control time up to T, under the same actions |
| Workload.BuildOrdered | kubegym/core/workload.py:113-140 | with distinct sequence numbers the trace handed out is strictly in dispatch order and holds the same requests |
| Workload.RankedExactly | kubegym/core/workload.py:113-134 | with distinct numbers, every request's number is its arrival rank if and only if they came numbered 0, 1, 2, ... in the order of arrival |
| CostModel.ScoreWindow | kubegym/gym/cost.py:202-241 | the loop counts exactly the requests the window decides, those that violate, and each reason |
| Episode.ScoredOnce | kubegym/gym/cost.py:223-241 | a window never scores a request that was scored before, and no request twice |
| EpisodeCosts.MissesExactly | kubegym/gym/cost.py:169-185 | a completed request violates if and only if, by its stamps, its first token came more than ttft after its arrival or its later tokens took more than tbt a gap (request service: done more than latency, or admitted more than queue_delay, after its arrival); the first target is the one reported when both are missed |
| EpisodeCosts.ChurnIs | kubegym/gym/env.py:303-391 | the churn of a run is the sum of the absolute changes of the clamped target |
| EpisodeCosts.EpisodeCharges | kubegym/gym/env.py:303-391 | over any episode scored are exactly the requests completed or late at a control time, scored and unfinished partition the trace, and the accumulated cost is the weighted number of requests late at a control time, past a target by their stamps, or unfinished, each once, plus weighted replica-seconds and total change of the target; without charged drain, of the same by the horizon; every item of the costs, and the violations reported, are their own share of it |
| Episode.UnfinishedArriveLater | kubegym/gym/cost.py:243-251 | over any episode whose drain left no work, a request is charged as unfinished if and only if it arrives after the cap when work is held at the horizon, or after the horizon when none is (up to the event tolerance) |
| Episode.UnfinishedCount | kubegym/gym/cost.py:243-251 | when no work is left, the number charged as unfinished is the number never dispatched |
| Episode.UnfinishedWithoutTruncation | kubegym/gym/cost.py:243-251 | in every episode that is idle at the horizon, a request that arrives after it is charged as unfinished although the drain had nothing to do |
| Episode.LateRequest | kubegym/gym/cost.py:243-251 | there are such episodes: one request after the only control interval, one charge |
| Observation.DecodeInvertsObserve | baselines/baselines/obsmap.py:133-164 | decoding recovers each unclipped lag exactly, and the step count and time |
| Observation.DecodesLow | baselines/baselines/obsmap.py:143-152 | clipped or not, a decoded element never exceeds the value it stands for |
| Observation.BuildVector | kubegym/core/state.py:251-260 | the loop stacks the last scrapes oldest first behind zero padding |
| Observation.DecodeVector | baselines/baselines/obsmap.py:133-164 | the loop computes the decoder, and refuses a vector of the wrong length |
| Observation.NormaliseLags | kubegym/gym/obs.py:130-172 | tiling the divisors scales and clips the stack lag by lag |
| Observation.ObservedColumn | kubegym/gym/obs.py:50-172 | every element of the observation, for each of the 14 features: zero before the first scrape, from then on the amount in the unit of that feature, clipped at the top; and last the share of control steps taken |
| Observation.SaturatedExactly | baselines/baselines/obsmap.py:141-151 | whatever the vector, a decoded scrape is marked saturated in exactly the features that have a column at the clip ceiling |
| Observation.FieldIs | baselines/baselines/obsmap.py:146-148 | a decoded element, clipped or not, is its amount, rounded to the nearest whole number for the nine counts |
| Observation.RoundIs | baselines/baselines/obsmap.py:148 | rounding moves by a half at most, and where by a half, to an even number |
| Controllers.ScaleDownStabilised | baselines/baselines/source_controllers.py:258-289 | without scale-up stabilisation a decision below the current count is at least every desired count inside the stabilisation window |
| Controllers.UpWindowBypassesDown | baselines/baselines/source_controllers.py:274-279 | with it, two control intervals suffice for an overloaded deployment to be sent below its current count |
| Controllers.StabilisedExactly | baselines/baselines/source_controllers.py:258-289 | the window is respected along every run on the control grid if and only if the scale-up window is shorter than the interval, or the range has no interior, or the tolerance is at least one |
| Controllers.HpaProportional | baselines/baselines/source_controllers.py:265-271 | within tolerance the rule asks for the current count in range, and otherwise for the least count (k_min at least) whose share of the metric meets the target, or k_max if that does not |
| Controllers.NoTarget | baselines/baselines/source_controllers.py:263-264 | without a target the decision is the current count in range and nothing is recorded |
| Controllers.UpDecision | baselines/baselines/source_controllers.py:274-281 | when more is asked for, the decision is the smallest of the desired count, max(cur + 4, 2*cur), and every desired count in the scale-up window, if there is one |
| Controllers.DownDecision | baselines/baselines/source_controllers.py:282-287 | when less is asked for, the decision is the largest desired count in the scale-down window, the present one included |
| Controllers.ScaleUpLimited | baselines/baselines/source_controllers.py:274-287 | a decision exceeds both four more and twice the count if and only if the metric asks for fewer and the scale-down window holds a count that does |
| Controllers.QueueDecision | baselines/baselines/source_controllers.py:325-339 | unless blocked, the decision is the least count that holds everything in flight at the target concurrency, or k_max; where it keeps the count it misses by the hysteresis share at most, where it moves it does so by more; it is blocked when it would reverse within the cooldown, and then keeps count and timer |
| Controllers.QueueTracks | baselines/baselines/gym_controllers.py:366-380 | along every run the decision covers the load at every control time, except where it would reverse an earlier move made within the cooldown |
| Controllers.ReversalsAreApart | baselines/baselines/gym_controllers.py:366-380 | along every run whose readings follow the decisions, two consecutive moves in opposite directions are at least one cooldown apart |
| Controllers.BlockedStays | baselines/baselines/gym_controllers.py:376-377 | a blocked decision leaves the count where it is if and only if the count is at most k_max |
| ClosedLoop.IntervalPool | kubegym/core/replica.py:146-181 | a control interval ends with at least the replicas decided on, and no more than those or what existed before |
| ClosedLoop.CooldownHolds | baselines/baselines/gym_controllers.py:366-380 | in every episode the concurrency rule drives, opposite moves are at least one cooldown apart, even from a count above k_max |
| ClosedLoop.LoadIsFollowed | baselines/baselines/source_controllers.py:325-339 | in every episode the concurrency rule drives, one interval after each control time the replicas that exist hold what was in flight then, up to the hysteresis share, or are k_max, unless that reversed a move made within the cooldown |
| ClosedLoop.StabilisationHolds | baselines/baselines/source_controllers.py:258-289 | in every episode the autoscaler drives on the control grid, the scale-down window is respected under the exact condition |
| BypassEpisode.WindowBypassed | baselines/baselines/source_controllers.py:258-289 | an episode in which the autoscaler, reading the concurrency of the simulated cluster, decides below the current count while its metric is three times the target and asks for k_max |
| Controllers.ThresholdCovers | baselines/baselines/source_controllers.py:555-564 | the decision serves max(0, forecast)*safety at the capacity per replica and the requests in the system at the backlog target, up to the rounding slack, or is k_max; one replica fewer would be short of one of the two or below k_min |
| Forecasting.EwmaIs | baselines/baselines/source_controllers.py:415-425 | single smoothing forecasts the mean of the series with weights that decay by 1 - alpha |
| Forecasting.EwmaConstant | baselines/baselines/source_controllers.py:415-425 | a constant series is forecast exactly |
| Forecasting.HoltForecastsSignal | baselines/baselines/source_controllers.py:446-465 | once level, trend and season match a line with a season on it, the rest of that series is forecast exactly, any number of steps ahead, whatever the weights |
| Forecasting.HoltConstant | baselines/baselines/source_controllers.py:438-465 | a fresh forecaster matches a constant series, with or without season, from its first value |
| Forecasting.HoltCorrects | baselines/baselines/source_controllers.py:446-465 | every value corrects the one-step forecast in proportion to its error: the level by alpha, the trend by alpha*beta, the season of that step by gamma of what the level leaves |
| Forecasting.StepsIsNearest | baselines/baselines/source_controllers.py:539 | the horizon is the cold start plus the lookahead to the nearest control interval, one at least |
| Forecasting.HoltProvisions | baselines/baselines/source_controllers.py:532-564 | on reading the next value of a rate that level, trend and season match, or the first of a constant one, the replicas decided are those for the rate the horizon ahead |
| Forecasting.EwmaProvisions | baselines/baselines/source_controllers.py:532-564 | without trend the replicas decided are those for the weighted mean of the rates read |
| PortRefinement.SourceMetricIs | baselines/baselines/source_controllers.py:248-256 | the metric is the mean saturation, or what is in the system or in service per ready replica |
| PortRefinement.TrailingRate | baselines/baselines/source_controllers.py:100-115 | whatever the scrape times, the rate is the arrivals within the window by the time since the oldest scrape counted, or by one interval if that is longer |
| SourceRuns.QueueFollowsRule | baselines/baselines/source_controllers.py:325-339 | along any history the source decides as the rule does along a run that reads every replica that exists and everything running and waiting, so what holds of every run of the rule holds of it |
| SourceRuns.QueueSourceCovers | baselines/baselines/source_controllers.py:325-339 | at every scrape the source covers what is running and waiting, except where that would reverse a move made within the cooldown |
| SourceRuns.HpaFollowsRule | baselines/baselines/source_controllers.py:258-289 | along any history the source decides as the rule does along a run that reads every replica that exists and its metric |
| SourceRuns.SteadyRateIsServed | baselines/baselines/source_controllers.py:527-564 | while requests arrive at a constant rate, every decision, for every forecaster setting and from the first on, is right for that rate and for what is in flight at twelve a replica |
| PortRefinement.SourceArrivalRate | baselines/baselines/source_controllers.py:100-115 | the backward scan computes the trailing-window rate |
| PortRefinement.RatesAgree | baselines/baselines/gym_controllers.py:138-168 | on the control grid the rate over the decoded lags equals the rate over the whole history |
| PortRefinement.PortIsExact | baselines/baselines/gym_controllers.py:98-109 | along any run on the grid without clipping, each port decides at every step as its source does |
| EngineObjects.Request.Output | kubegym/core/service.py:330-340 | marking output in place is the function MarkOutput |
| EngineObjects.LlmReplicaEngine.TryAdmit | kubegym/models/llm_serving.py:119-130 | the admission loop, in place, computes TryAdmit and keeps the line of requests as it is |
| EngineObjects.LlmReplicaEngine.PreemptIfNeeded | kubegym/models/llm_serving.py:132-139 | the eviction loop, in place, computes Preempt and keeps the line of requests as it is |
| EngineObjects.LlmReplicaEngine.ServiceStep | kubegym/models/llm_serving.py:141-173 | the token loop, in place, computes ServiceStep; no request is held twice |
| EngineObjects.LlmReplicaEngine.OnTick | kubegym/models/llm_serving.py:175-183 | the tick, in place, computes OnTick |
| EngineObjects.RequestServiceEngine.Advance | kubegym/models/request_service.py:124-146 | integration, in place, computes Advance; no request is held twice |
| EngineObjects.RequestServiceEngine.Reschedule | kubegym/models/request_service.py:148-165 | rescheduling, in place, computes Reschedule |
| EngineObjects.RequestServiceEngine.OnTick | kubegym/models/request_service.py:173-184 | the tick, in place, computes OnTick |
| ClusterObjects.Cluster.Clear | kubegym/core/replica.py:110-123 | reset, in place, computes Reset |
| ClusterObjects.Cluster.StartReplica | kubegym/core/replica.py:126-140 | starting a replica, in place, computes Start |
| ClusterObjects.Cluster.Request | kubegym/core/replica.py:146-181 | the scale-up and scale-down loops, in place, compute SetTarget |
| ClusterObjects.Cluster.ReapAt | kubegym/core/replica.py:183-195 | the release loop, in place, computes Reap |
| ClusterObjects.Cluster.BillTo | kubegym/core/replica.py:197-204 | billing, in place, computes Bill |
| ClusterObjects.Simulation.Scan | kubegym/core/engine.py:186-199 | the single pass over the replicas finds the next ready time, the next service event and whether any replica drains |
| ClusterObjects.Simulation.Iteration | kubegym/core/engine.py:177-256 | one turn of the loop, in place, computes Iterate |
| ClusterObjects.Simulation.Step | kubegym/core/engine.py:167-256 | the event loop terminates and, in place, computes StepTo |
| ClusterObjects.Simulation.Drain | kubegym/core/engine.py:284-298 | the drain loop terminates, computes DrainAll, and reports exactly whether work is left |
| EpisodeObjects.KubeGymEnv.Step | kubegym/gym/env.py:303-391 | one environment step, in place, computes Step; the reward is minus the cost it adds |
| ControllerObjects.Collect | baselines/baselines/source_controllers.py:278-286 | the window comprehension collects the recent desired counts in order |
| ControllerObjects.HpaStep | baselines/baselines/source_controllers.py:258-289 | the decision logic computes HpaRule |
| ControllerObjects.HpaSource.Decide | baselines/baselines/source_controllers.py:258-289 | the source controller decides, and remembers, as SourceDecide |
| ControllerObjects.HpaPort.DesiredReplicas | baselines/baselines/gym_controllers.py:301-327 | the port decides, and remembers, as PortDecide |
| ControllerObjects.QueueSource.Decide | baselines/baselines/source_controllers.py:325-339 | the source controller decides, and remembers, as SourceDecide |
| ControllerObjects.QueuePort.DesiredReplicas | baselines/baselines/gym_controllers.py:366-380 | the port decides, and remembers, as PortDecide |
| ControllerObjects.Holt.Update | baselines/baselines/gym_controllers.py:477-488 | smoothing, in place, computes HoltUpdate |
| ControllerObjects.ForecastSource.Decide | baselines/baselines/source_controllers.py:532-564 | the source controller decides, and remembers, as SourceDecide |
| ControllerObjects.ForecastPort.DesiredReplicas | baselines/baselines/gym_controllers.py:554-579 | the port decides, and remembers, as PortDecide |
| Arrivals.UniformRoundTrip | kubegym/workloads/reconstruction.py:412-414 | uniform placement is sorted and binning by the minute gives the counts back, for any counts and draws |
| Arrivals.UniformPositions | kubegym/workloads/reconstruction.py:412-414 | uniform placement is a permutation of the draws, the i-th of which lies its share of a minute into the minute its arrival was counted in |
| Arrivals.DeterministicRoundTrip | kubegym/workloads/reconstruction.py:405-410 | even placement is sorted and binning by the minute gives the counts back |
| Arrivals.DeterministicPositions | kubegym/workloads/reconstruction.py:405-410 | even placement, arrival by arrival in order: the j-th of c in minute m comes (j + 1/2)/c of a minute into it |
| Arrivals.SplitBatches | kubegym/workloads/reconstruction.py:425-434 | the batch loop terminates, for any draws of at least one; every batch before the last is its draw, the last takes what is left of the count, and no draw is used twice |
| Arrivals.BurstyMinute | kubegym/workloads/reconstruction.py:421-438 | one minute: batch after batch, as many arrivals as its size at its epoch, the epochs being the next draws sorted |
| Arrivals.PlaceBursty | kubegym/workloads/reconstruction.py:416-439 | bursty placement is a permutation of one such block a minute, is sorted, and binning by the minute gives the counts back, for any draws |
| Arrivals.BinningRecovers | kubegym/workloads/validation.py:62-65 | the histogram over equal bins, the last one closed, recovers counts that the arrivals match |
| Arrivals.BinsReach | kubegym/workloads/validation.py:62-64 | the bins reach to the horizon and are as few as that takes, one at least |
| Arrivals.BinningConserves | kubegym/workloads/validation.py:62-65 | every arrival from zero to the horizon, both included, is in exactly one bin, for any horizon and width |
| Tuning.Select | baselines/baselines/tune.py:66-88 | the selection ends with n distinct sorted indices (or all of them), a prefix of each regime's list, no regime more than one ahead of another and none ahead of an earlier one unless that one is exhausted; it is full rounds and one more entry of the first regimes |
| Tuning.PickedIsQuota | baselines/baselines/tune.py:79-83 | what is picked of a regime is exactly the start of its list, one entry a round |
| Tuning.Fair | baselines/baselines/tune.py:77-87 | full rounds and part of one more leave the picked entries balanced over the regimes |

## Left out

- Floating-point rounding: all arithmetic is exact; the observation is not rounded to single precision.
- Aliasing between replicas and engines: `ClusterObjects.Cluster` holds its replicas, and `ClusterObjects.Simulation` its
  trace, as values. The engine objects of `EngineObjects` are proved against the same functions the pool applies, but a
  queue shared by reference between a replica and its engine, and requests shared with the trace, are not modelled.
- Cluster.FindNewest: scale-down picks the newest active replica once per replica to drain, where the program sorts the
  candidates once.
- SimulatorInvariant.TraceOk: requests that no engine could ever serve (a prompt above the KV budget, a demand of zero or
  within the completion tolerance, a fractional token count) are excluded; the program does not check for them.
- PortRefinement.PortIsExact: control times are taken to lie exactly on the grid, as in the program's own comparison; the
  event loop may end an interval up to its tolerance early.
- FifoService.FirstComeFirstServed: a replica that was drained and revived serves its queue late, as
  `DrainRuns.RevivalServedExactly` says, and is not covered.
- Dispatch policies: any choice among the accepting replicas; the policies themselves, which read replica load, are not
  modelled.
- Teardown billing, scale events, metrics, scrapes, provenance stamps, wall-clock timing and episode summaries.
- The action encodings of the environment: a step takes the requested replica count.
- The ridge forecaster, the leading-indicator, static and oracle controllers, and the token-rate signal.
- The Poisson placement arm, which does not preserve counts, and the mapping of uniform draws to batch sizes.
- Sampling of service times and lengths, trace files, configuration loading and the task registry.
