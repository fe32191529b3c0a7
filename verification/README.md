# Aether-Runner orchestrator: a verified model

This project models the control plane of Aether-Runner, a serverless GPU orchestrator: the residency-aware scheduler
and its VRAM books, the worker lifecycle with its concurrent start tasks, deletions and idle sweep, the worker pool,
the selection of workers, and the network form of a worker.

## How it is built

- `Lifecycle`, `Workers`: the five states, the transition table, the worker record and the `WorkerState` object.
- `Accounts`: one GPU's record and its ledger of unreleased reservations as values; what each scheduler operation does
  to them; theorems over every sequence of operations. Go's `int` is 64 bits wide here and wraps.
- `Pools`, `Scheduling`: the pool and scheduler objects. A loop over a Go map picks its next key freely, so every result
  holds for every order.
- `Interleaving`: the whole system as a step system. A state holds the fleet, all worker records, the pool, the
  containers and any number of tasks, each with a program counter; each locked operation is one step, any task may
  step next, and a run is any finite list of events. Requests may arrive at any point.
- `Safety`: the inductive invariant of the lifecycle over every interleaving, and what follows from it.
- `SystemBooks`, `PoolBound`: capacity and the size of the pool over every interleaving, and runs that reach the bound.
- `Agreement`: what every interleaving keeps of the ledgers, and exactly when books and pool agree.
- `Discipline`, `Callers`: a condition under which concurrent runs keep the books exact, in the system's terms and in a
  caller's, and sequential runs as a special case.
- `Progress`: no task is ever stuck and every request ends.
- `Requests`, `Sequential`, `Handlers`: one request at a time. `Handlers` holds the handlers over live objects, proved
  equal to the functions of `Requests`; `Requests` proves each function to be a run of `Interleaving`; `Sequential`
  shows that each keeps sound states sound, and what the idle sweep removes.
- `Breaches`, `Causes`: for each of the three places where books and pool can part, exactly when they do; and that there is
  no fourth.
- `Traces`: runs of the step system in which they do, and one with a negative requirement.
- `Wire`: validation and the round trip between worker records.

## Main results

- **Containers match the pool.** However creations, failing starts, deletions and sweeps interleave, once all tasks
  have finished the containers not yet terminated are exactly those of the workers in the pool, and those workers are
  ready and fully provisioned. No torn-down worker leaves a container.
- **Teardown is permanent**, and a ready worker always has its container and its GPU assignment.
- **Capacity.** No interleaving takes a counter out of `0..total` or above its unreleased reservations, and nothing
  overflows, for non-negative amounts. The code accepts negative ones; which runs then keep every counter in range is
  stated exactly, with a run that does not.
- **Exact books.** In every state of every run, whatever is interleaved, counters and active lists agree with the pool if
  and only if each counter equals its unreleased reservations, every resident of a GPU holds its reservation, and nobody
  else does. With non-negative requirements the first holds throughout a run if and only if every Release is covered by
  the caller's own tally of granted Allocates and Releases, or takes nothing. The condition is also stated without the
  ledger, in those tallies alone.
- **Three causes and no fourth.** Without negative requirements, once all tasks have finished books and pool agree unless
  some Allocate was refused, some teardown looked for an assignment before SetGPUAssignment, or some Release was not
  accounted for. Taken alone, a repeated teardown keeps the books exactly when its Release takes nothing, a deletion before
  SetGPUAssignment, be it before or after Allocate, exactly when Allocate refuses, and an admission exactly when Allocate
  grants. Runs show each failure.
- **When callers can rely on them.** The books are exact whenever every Allocate finds room, every deletion finds its
  worker RUNNING or IDLE, and neither a deletion nor the idle sweep takes up a worker being removed already; in reachable
  states this is the same as no other task being at work on it. Requests run one at a time always satisfy it.
- **Requests end.** No task is ever stuck, `k` requests allow at most `17 k` steps however they interleave, and from every
  reachable state the tasks under way can be run to their end; so the results about finished tasks apply to every run
  carried on far enough.
- **The pool's bound** is `maxWorkers + n - 1` for `n` adders between check and store, and it is reached for all values.
- **Scheduling and selection** are optimal, independent of listing order and mutually consistent; the selectors agree on
  a warm hit in every state exactly when the tenant is not empty.
- **Histories** of a worker that no network message touches are exactly the words of the lifecycle.

## Assumptions

- Worker IDs (UUIDs) and container IDs are fresh when drawn; GPUs are registered before requests are served.
- A failed `LaunchContainer` leaves no container behind. The inspect failure at pkg/docker/client.go:157-161 does not
  meet this.
- Outside its tasks a worker changes status only between RUNNING and IDLE, and no network message is applied to it; a
  message may set any status (`Wire.MessageIgnoresTransitions`).
- `terminateWorker` and the sweep's callback read the assignment and the model without the worker's lock; the model
  reads them in one step.
- No two workers share one model record.

Where the code and its documents differ, the model follows the code. The published state diagram lists no move from
PENDING to TERMINATING, while the table at pkg/orchestrator/state.go:23-29 has one. The diagram passes a worker through
TERMINATING before it is removed, while the idle sweep at cmd/aether/main.go:97-122 removes an IDLE worker directly.

## Model

| member | source | states |
|---|---|---|
| `Lifecycle.ValidTransitions` | pkg/orchestrator/state.go:23-29 | the table lists exactly the permitted moves |
| `Lifecycle.HistoryIsWellShaped` | pkg/orchestrator/state.go:105-142 | whatever is asked of TransitionTo, the states passed through are PENDING, then perhaps STARTING, then an alternation of RUNNING and IDLE from RUNNING, then perhaps a last TERMINATING |
| `Lifecycle.WordIsReachable` | pkg/orchestrator/state.go:105-142 | every such word is the history of some requests |
| `Lifecycle.HistoriesExactly` | pkg/orchestrator/state.go:23-29 | the reachable histories are exactly these words |
| `Workers.WorkerState.constructor` | pkg/orchestrator/state.go:83-101 | a new worker is PENDING with empty metrics, no GPU and no container |
| `Workers.WorkerState.IsValidTransition` | pkg/orchestrator/state.go:130-142 | the search of the table finds a move exactly when it is permitted |
| `Workers.WorkerState.TransitionTo` | pkg/orchestrator/state.go:105-127 | when permitted the status and the update time change and nothing else, otherwise nothing; a status that came about through transitions alone stays so |
| `Workers.WorkerState.LawfulHistory` | pkg/orchestrator/state.go:105-142 | such a worker's status ends a well-shaped history |
| `Workers.WorkerState.SetContainerID` | pkg/orchestrator/state.go:174-178 | sets the container and nothing else |
| `Workers.WorkerState.SetGPUAssignment` | pkg/orchestrator/state.go:188-192 | sets the assignment and nothing else |
| `Workers.ElapsedExceeds` | pkg/orchestrator/worker_pool.go:193-195 | a duration since an instant, held to 64 bits, exceeds a timeout exactly when the true difference does, save that nothing exceeds the largest one |
| `Machine.WrapIsCongruent` | pkg/orchestrator/scheduler.go:159-184 | a sum or difference in 64 bits is the one value congruent to the true one |
| `Accounts.WithoutKeepsPlaces` | pkg/orchestrator/scheduler.go:188-195 | after a release the active list is the old one with the worker's entries gone and every other entry, repeated ones too, in its place |
| `Accounts.CapacityStep` | pkg/orchestrator/scheduler.go:146-199 | one operation with non-negative arguments keeps every counter in 0..total and overflows nothing |
| `Accounts.RunKeepsCapacity` | pkg/orchestrator/scheduler.go:155-186 | in every interleaving of operations by any number of clients the counters stay in 0..total and no step overflows |
| `Accounts.AllocateStaysInRangeIff` | pkg/orchestrator/scheduler.go:155-163 | for any 64-bit amount a grant stays in range exactly when it gives back no more than is reserved |
| `Accounts.RefundStaysInRangeIff` | pkg/orchestrator/scheduler.go:183-186 | for any 64-bit amount a release stays in range unless it lifts the counter over the total without wrapping |
| `Accounts.SafeThroughoutIff` | pkg/orchestrator/scheduler.go:146-199 | with amounts of either sign, the counters stay in 0..total throughout a run exactly when every granted Allocate, every Release and every registration meets its own condition |
| `Accounts.SettleSum` | pkg/orchestrator/scheduler.go:183-195 | a release strikes out one matching reservation if there is one, and no other |
| `Accounts.RunKeepsLedgerBound` | pkg/orchestrator/scheduler.go:146-199 | in every interleaving each counter is at most the sum of the unreleased reservations |
| `Accounts.PairedRunsAreExact` | pkg/orchestrator/scheduler.go:146-199 | while every release pairs with an unreleased reservation, each counter equals its ledger and the clamp at zero never fires |
| `Accounts.RefundStaysExactIff` | pkg/orchestrator/scheduler.go:183-186 | exact books stay exact over a release exactly when it is paired or takes nothing |
| `Accounts.LedgerIsGrantsLessReleases` | pkg/orchestrator/scheduler.go:146-199 | in a paired run the ledger holds as many reservations of a worker and amount as were granted less those released |
| `Accounts.LedgerIsTally` | pkg/orchestrator/scheduler.go:146-199 | in every run the ledger holds as many reservations as a client counts from granted Allocates and Releases |
| `Accounts.ExactThroughoutIff` | pkg/orchestrator/scheduler.go:146-199 | the counters equal the unreleased reservations at every point of a run exactly when each Release is covered by that tally, or is of nothing, or meets a counter of zero |
| `Accounts.ResidencyIsHistory` | pkg/orchestrator/scheduler.go:163-199 | LoadedModels is the set of models successfully allocated on the GPU since its registration |
| `Accounts.RunKeepsResidency` | pkg/orchestrator/scheduler.go:163-199 | every live reservation's model is resident |
| `Accounts.WarmStaysWarm` | pkg/orchestrator/scheduler.go:163-199 | a warm answer stays true under any later allocations and releases |
| `Accounts.AnswersAgree` | pkg/orchestrator/scheduler.go:67-143 | two answers of Schedule on one state agree in warmth and free VRAM; warm exactly when some GPU with room has the model, none exactly when no GPU has room |
| `Scheduling.GPUResidency.constructor` | pkg/orchestrator/scheduler.go:55-62 | a registered GPU starts with empty books |
| `Scheduling.Scheduler.RegisterGPU` | pkg/orchestrator/scheduler.go:51-63 | puts a GPU with empty books under its name and leaves the others |
| `Scheduling.Scheduler.Schedule` | pkg/orchestrator/scheduler.go:67-143 | for every listing order: a warm GPU if one has room, else a cold one, with the most free VRAM of its class |
| `Scheduling.Scheduler.Allocate` | pkg/orchestrator/scheduler.go:146-168 | succeeds exactly when the GPU exists and has room, and then books the amount, the model, the worker and the reservation |
| `Scheduling.Scheduler.Release` | pkg/orchestrator/scheduler.go:171-199 | takes the amount off, not below zero, drops the worker from the active list, keeps the models |
| `Scheduling.Scheduler.HasAvailableGPU` | pkg/orchestrator/scheduler.go:234-247 | true exactly when some GPU has room |
| `Scheduling.Scheduler.CanSliceGPU` | pkg/orchestrator/scheduler.go:373-386 | true exactly when this GPU exists and has room |
| `Scheduling.Scheduler.AskCapacity` | pkg/orchestrator/scheduler.go:67-143 | asked on one state, Schedule finds nothing exactly when HasAvailableGPU says no, which is when CanSliceGPU says no for every GPU |
| `Scheduling.Scheduler.AskThenAllocate` | pkg/orchestrator/scheduler.go:146-168 | an Allocate on the GPU just chosen succeeds, and happens exactly when the queries found room |
| `Scheduling.Scheduler.SelectWorker` | pkg/orchestrator/scheduler.go:269-316 | no worker exactly when the tenant has no idle one; with one, warm exactly when some idle one runs the model; without, cold exactly when some GPU has 8000 MB free; for every listing order |
| `Scheduling.Scheduler.SelectWorkerForModel` | pkg/orchestrator/scheduler.go:319-366 | no worker exactly when no idle one of the tenant runs the model or has the required memory assigned; warm exactly when some idle one runs the model; cold exactly when there is no worker and some GPU has the required room; for every listing order |
| `Scheduling.LessVramNoWorse` | pkg/orchestrator/scheduler.go:319-366 | a smaller requirement never gives a worse tier |
| `Scheduling.SelectorsAgree` | pkg/orchestrator/scheduler.go:269-348 | for a non-empty tenant both selectors and FindIdleWorker agree on a warm hit |
| `Scheduling.SelectorsAgreeIff` | pkg/orchestrator/worker_pool.go:115-154 | they agree in every state exactly when the tenant is not empty |
| `Pools.WorkerPool.constructor` | pkg/orchestrator/worker_pool.go:54-67 | an empty pool with its configuration |
| `Pools.WorkerPool.AddWorker` | pkg/orchestrator/worker_pool.go:70-84 | alone, stores the worker exactly when the pool is below its limit |
| `Pools.WorkerPool.RemoveWorker` | pkg/orchestrator/worker_pool.go:96-102 | removes the key and counts a termination whether or not it was there |
| `Pools.WorkerPool.Count` | pkg/orchestrator/worker_pool.go:105-112 | the number of workers |
| `Pools.WorkerPool.ListWorkers` | pkg/orchestrator/worker_pool.go:115-127 | each worker of the tenant once, in some order; every tenant for the empty name |
| `Pools.WorkerPool.FindIdleWorker` | pkg/orchestrator/worker_pool.go:130-154 | an idle worker of exactly that tenant running the model, or nothing when there is none |
| `Pools.WorkerPool.CheckHeartbeats` | pkg/orchestrator/worker_pool.go:334-373 | lists, once each, exactly the workers that are not terminating and whose last heartbeat, if they ever sent one, is longer ago than the timeout |
| `Pools.WorkerPool.GetHealthyWorkerCount` | pkg/orchestrator/worker_pool.go:398-421 | counts exactly the workers that are not terminating and have sent no heartbeat or one no longer ago than the timeout |
| `Pools.HeartbeatScansPartition` | pkg/orchestrator/worker_pool.go:334-421 | at one instant and timeout the two scans split the workers that are not terminating |
| `Pools.LongerTimeoutFewerOffline` | pkg/orchestrator/worker_pool.go:334-373 | a longer timeout only shrinks the offline list |
| `Safety.StepInv` | pkg/api/handlers.go:139-226 | every step of every task keeps the lifecycle invariant |
| `Safety.ExecInv` | pkg/api/handlers.go:92-226 | so does every run, with requests arriving at any point |
| `Safety.QuiescentStateIsSettled` | pkg/api/handlers.go:139-226 | once all tasks have finished, a container is unterminated exactly when its worker is in the pool, and every pool worker is ready with its own container and a GPU |
| `Safety.NoContainerLeaked` | pkg/api/handlers.go:139-226 | once all tasks have finished, every container launched for a worker that a teardown closed or removed has been handed to TerminateContainer |
| `Safety.TeardownIsPermanent` | pkg/api/handlers.go:191-226 | TERMINATING is for ever, and a removed worker is never in the pool again |
| `Safety.ReadyWorkersAreProvisioned` | pkg/api/handlers.go:117-125 | in every state of every run a RUNNING or IDLE worker has its container and a GPU assignment |
| `SystemBooks.RunIsOps` | pkg/api/handlers.go:110-222 | the books of a run are those of its Allocate and Release calls in the order they took effect |
| `SystemBooks.SystemCapacity` | pkg/api/handlers.go:92-226 | in every run with non-negative requirements: counters in range and within the ledgers, reservations resident, no overflow |
| `SystemBooks.SystemExactIff` | pkg/api/handlers.go:92-226 | in every run of the whole system the counters equal the ledgers throughout exactly when every Release is accounted for |
| `SystemBooks.SystemSafeIff` | pkg/api/handlers.go:85-222 | in every run of the whole system, with requirements of either sign, the counters stay in 0..total throughout exactly when every call meets its own condition |
| `SystemBooks.PoolNeverExceeds` | pkg/orchestrator/worker_pool.go:70-84 | with at most n adders between check and store the pool never exceeds maxWorkers + n - 1, nor maxWorkers when n is 1 |
| `PoolBound.PoolBoundIsReached` | pkg/orchestrator/worker_pool.go:70-84 | for every limit and every n some run reaches that bound |
| `Agreement.RunLedger` | pkg/api/handlers.go:92-226 | in every state of every run the active lists name the holders of reservations, each once, and every reservation is for its worker's requirement on its assigned GPU |
| `Agreement.HolderIffTally` | pkg/orchestrator/scheduler.go:146-199 | who holds a reservation follows from the results of the calls made for it |
| `Agreement.BooksAgreeIff` | pkg/api/handlers.go:92-226 | in every state of every run counters and active lists agree with the pool exactly when the counters equal the ledgers and the holders of reservations are the pool workers assigned to the GPU |
| `Agreement.BooksAgreeIffTallies` | pkg/api/handlers.go:92-226 | the same without the ledger: the counters are what callers' tallies of granted Allocates and Releases say is owed, and just the pool workers assigned to a GPU owe it a Release; while every Release is accounted for the second alone decides |
| `Breaches.TeardownAgreesIff` | pkg/api/handlers.go:204-226 | a first or repeated terminateWorker keeps the books exactly when a worker in the pool can give back its requirement without clamp or overflow, or one already out of the pool has a Release that takes nothing |
| `Breaches.UsualTeardown` | pkg/api/handlers.go:204-226 | without negative requirements a first teardown always keeps them, and a repeated one exactly when the worker required nothing or the counter is at zero |
| `Breaches.WrappedAgreesIff` | cmd/aether/main.go:97-122 | the idle sweep's callback keeps the books under the same condition as terminateWorker |
| `Breaches.EarlyDeletionAgreesIff` | pkg/api/handlers.go:104-148 | with the worker deleted before SetGPUAssignment, between AddWorker and Allocate or between Allocate and SetGPUAssignment, the books agree afterwards exactly when Allocate refuses |
| `Breaches.AdmissionAgreesIff` | pkg/api/handlers.go:103-125 | on a registered GPU the books agree after CreateWorker exactly when Allocate finds room, however old the placement and whatever the amount |
| `Causes.StepProper` | pkg/api/handlers.go:92-226 | while no Allocate is refused and no teardown comes before the assignment, a pool worker with an assignment holds its reservation or is about to leave, and a worker out of the pool holds none |
| `Causes.NoFourthCause` | pkg/api/handlers.go:92-226 | in every run whose tasks have finished, books and pool agree without negative requirements, unless some Allocate was refused, some teardown found no assignment, or some Release was not accounted for |
| `Discipline.StepBooks` | pkg/api/handlers.go:92-226 | a disciplined step keeps counters, ledgers, active lists and assignments in agreement |
| `Discipline.DisciplinedBooksAgree` | pkg/api/handlers.go:92-226 | in a disciplined run counters equal ledgers throughout, no worker is removed twice, and the books agree with the pool whenever all tasks have finished |
| `Callers.ReadyHasNoStarter` | pkg/api/handlers.go:139-201 | a RUNNING or IDLE worker has no start task; whatever is at work on it is tearing it down |
| `Callers.CourteousIsDisciplined` | pkg/api/handlers.go:278-292 | in reachable states no other task is at work on a worker a deletion finds exactly when it is RUNNING or IDLE and not being removed |
| `Callers.CourteousBooksAgree` | pkg/api/handlers.go:92-226 | with the discipline in a caller's terms the books are exact throughout and agree with the pool at rest |
| `Discipline.SequentialAgreement` | pkg/api/handlers.go:92-125 | with one request at a time the counters and active lists agree with the pool between requests, every Allocate succeeds, and no worker is torn down twice |
| `Discipline.SumIsTotal` | pkg/orchestrator/scheduler.go:162-164 | a ledger with one entry per worker sums to the workers' amounts |
| `Progress.CanGoOn` | pkg/api/handlers.go:92-226 | an unfinished task can always take its next step, whatever the others did |
| `Progress.RequestsComeToRest` | pkg/api/handlers.go:92-226 | in any order no more than 17 effective steps are taken for each request that arrived, and as long as a task is unfinished one more is possible |
| `Progress.CanComeToRest` | pkg/api/handlers.go:92-226 | from every reachable state the tasks under way can be run to their end without further requests |
| `Requests.CreatedIsRun` | pkg/api/handlers.go:92-201 | CreateWorker with its start task, run alone, is a run of the step system |
| `Requests.StartedUpIsRun` | pkg/api/handlers.go:139-201 | so is the start task, by a run in which the container engine gives just the answers named |
| `Requests.GoodStartFields` | pkg/api/handlers.go:139-201 | a healthy start of a PENDING worker makes it RUNNING on its container and touches nothing else; a start of any other worker does nothing |
| `Requests.BadStartFields` | pkg/api/handlers.go:149-200 | a start that fails, at the pull, the launch or the health check, ends TERMINATING, out of the pool, its container if launched terminated, its VRAM given back |
| `Requests.TornDownFields` | pkg/api/handlers.go:204-226 | what terminateWorker leaves of the record, the pool, the containers and the GPU |
| `Requests.EvictedFields` | cmd/aether/main.go:97-122 | what the idle checker's callback leaves of them; the record stays as it was |
| `Interleaving.ToggledFields` | pkg/orchestrator/state.go:23-29 | between the tasks a worker goes from RUNNING to IDLE and back and changes in nothing else |
| `Requests.TornDownIsRun` | pkg/api/handlers.go:204-226 | so is terminateWorker |
| `Requests.DeletedIsRun` | pkg/api/handlers.go:278-292 | so is DeleteWorker |
| `Requests.EvictedIsRun` | cmd/aether/main.go:97-122 | so is the idle checker's callback on an IDLE worker |
| `Sequential.InitialIsSound` | cmd/aether/main.go:199-225 | a fresh system is in a sound state |
| `Sequential.DisciplinedRunIsSound` | pkg/api/handlers.go:92-226 | every state in which a disciplined concurrent run comes to rest is sound, so the sweep and each request are exact from there |
| `Sequential.ToggledKeepsSound` | pkg/orchestrator/state.go:105-127 | a worker switching between RUNNING and IDLE between requests leaves the state sound |
| `Sequential.RequestKeepsSound` | pkg/api/handlers.go:92-226 | a request run to its end leads from a sound state to a sound state |
| `Sequential.SoundStateAgrees` | pkg/api/handlers.go:92-226 | in a sound state books, pool and containers agree |
| `Sequential.SweepIsExact` | pkg/orchestrator/worker_pool.go:174-216 | for every visiting order the sweep removes exactly the IDLE workers whose last request, or last change if none, is longer ago than the timeout, lowers each counter by exactly their requirements, and terminates their containers |
| `Handlers.SetupSimulatedGPUs` | cmd/aether/main.go:199-225 | registers exactly the given number of GPUs, under the names GPU-0-simulated onwards, each with its index and empty books |
| `Handlers.DecimalValue` | cmd/aether/main.go:214-217 | a GPU's number is written in decimal digits without leading zeros, so no two names are the same |
| `Handlers.Handler.CreateWorker` | pkg/api/handlers.go:64-136 | the three refusals and when each is given; for an accepted request the record's tenant, model (the image under 8000 MB when none is named), assignment and residency, and where the worker and the counter end for each answer of the container engine; sound states stay sound |
| `Handlers.Handler.Admit` | pkg/api/handlers.go:103-122 | store, reservation (granted or not) and assignment, in that order |
| `Handlers.Handler.StartWorkerContainer` | pkg/api/handlers.go:139-201 | from PENDING: RUNNING with its container and nothing else touched when healthy; otherwise TERMINATING, out of the pool, any container launched terminated, its VRAM given back; from any other status nothing |
| `Handlers.Handler.TerminateWorker` | pkg/api/handlers.go:204-226 | TERMINATING and out of the pool, its container terminated, its requirement off its GPU's counter but not below zero, itself off the active list, all else as before |
| `Handlers.Handler.DeleteWorker` | pkg/api/handlers.go:278-292 | tears the worker down when it is in the pool and otherwise changes nothing; sound states stay sound |
| `Handlers.Handler.IdleTerminate` | cmd/aether/main.go:97-122 | container terminated, requirement off the counter, out of the pool; the record, its status included, as before |
| `Handlers.Handler.Visit` | pkg/orchestrator/worker_pool.go:177-213 | evicts the worker exactly when it is IDLE and its last request, or last change if it had none, is longer ago than the timeout |
| `Handlers.Handler.CheckIdleWorkers` | pkg/orchestrator/worker_pool.go:174-216 | the range-and-remove loop takes exactly those workers out of the pool, in some order; from a sound state the books agree afterwards, each counter drops by exactly their requirements, and their containers have been terminated |
| `Traces.DoubleTeardownLosesVRAM` | pkg/api/handlers.go:191-196 | a deletion during start-up can tear a worker down twice, leaving another running worker on a counter of 0 |
| `Traces.EarlyDeletionKeepsReservation` | pkg/api/handlers.go:104-148 | a deletion between AddWorker and Allocate leaves its reservation behind with the pool empty |
| `Traces.LateDeletionKeepsReservation` | pkg/api/handlers.go:110-122 | so does a deletion between Allocate and SetGPUAssignment |
| `Traces.StaleScheduleOvercommits` | pkg/api/handlers.go:110-122 | an Allocate that fails unnoticed puts two running workers on room for one |
| `Traces.NegativeAmountEscapes` | pkg/api/handlers.go:85-125 | one request for any negative amount is accepted, and ends with its worker running and the counter at that amount |
| `Wire.TimeRoundTrip` | pkg/orchestrator/wire.go:149-203 | formatting and parsing drop the sub-second part, for years of four digits |
| `Wire.TextRoundTrip` | pkg/orchestrator/wire.go:149-203 | a text with a fraction of a second is read, and written again without it |
| `Wire.ToWireValidIff` | pkg/orchestrator/wire.go:66-155 | which worker records have a valid network form; the status is never the obstacle |
| `Wire.ToWireFields` | pkg/orchestrator/wire.go:114-155 | each field of a worker's network form, the uptime cut to whole seconds |
| `Wire.ValidateFields` | pkg/orchestrator/wire.go:66-108 | which of the eight errors a message gets, and when it gets none |
| `Wire.UUIDGroups` | pkg/orchestrator/wire.go:17-22 | a valid UUID text is five groups of 8, 4, 4, 4 and 12 hexadecimal digits with hyphens between |
| `Wire.YearLength` | pkg/orchestrator/wire.go:100-104 | years are counted with the leap days of the Gregorian calendar |
| `Wire.FourDigitYears` | pkg/orchestrator/wire.go:100-104 | the times that format and parse back are those of the years 0 to 9999 of the Gregorian calendar |
| `Wire.FromWire` | pkg/orchestrator/wire.go:158-209 | a refused message changes nothing; an accepted one overwrites just the fields it carries, the last-request time to the nanosecond, and leaves uptime, container and heartbeat alone |
| `Wire.RoundTrip` | pkg/orchestrator/wire.go:114-209 | the receiver takes over status and every field present, the last-request time to whole seconds, and keeps its own where the message has none |
| `Wire.RedeliveryChangesNothing` | pkg/orchestrator/wire.go:158-209 | the same message again changes only the update time |
| `Wire.SecondTripChangesNothingIff` | pkg/orchestrator/wire.go:114-209 | when a second trip changes nothing more, and that a third never does |
| `Wire.MessageIgnoresTransitions` | pkg/orchestrator/wire.go:171-172 | a message sets any status, legal move or not |

## Left out

- HTTP routing, JSON, status codes, error texts and logging: only the order of the calls on pool, scheduler, workers and
  container engine is modelled.
- The Docker client: its answers are outcomes; TerminateContainer's own failure is not, the model records that a
  container was handed to it.
- Lock internals and deadlock: each critical section is one step. Schedule's comparators hold two GPU locks at once.
- In the step system Schedule settles on any GPU that had room when scanned, or gives up at any time; that it picks the
  best one is proved on a fixed state.
- A registration that replaces a GPU while another call still holds the old record.
- Message envelopes, heartbeat recording, request counters, statistics, uptime updates, GPU statistics and environment
  variables: easy members without further depth.
- Clock: a sequential method takes one reading of the clock for all its steps; the step system reads it at every step.
- Time zones: times are instants, and a zone offset with odd seconds is not modelled.
- The pool's counters of created and terminated workers are unbounded numbers.
- Workers' model records are values, so two workers sharing one model object are not captured.
