/**
 The orchestrator as a step system. Requests, background start tasks, teardowns and the idle sweep are tasks with a
 program counter; each locked operation of the pool, the scheduler, a worker or the container engine is one atomic
 step; any task may take the next step. A run is any finite list of events.

 What the code cannot know in advance, an `Outcome` decides: whether an image pull, a launch or a health check
 succeeds, which GPU with room a scan settles on, which fresh identifier is drawn, and what the clock says.
 */
module Interleaving {
  import opened Machine
  import opened Lifecycle
  import opened Workers
  import opened Accounts

  /** Everything the tasks share. Identifiers are unique, so a worker's record is kept under its ID for good. */
  datatype Shared = Shared(
    fleet: Fleet,
    workers: map<string, Worker>,     // every worker record made so far
    pool: set<string>,                // IDs in the pool
    containers: map<string, string>,  // every container launched so far, with the worker it is for
    terminated: set<string>,          // containers handed to TerminateContainer
    removals: seq<string>)            // the RemoveWorker calls, in order

  /** A task, named after the step it takes next. */
  datatype Task =
    // CreateWorker
    | Scheduling(tenant: string, model: ModelConfig)
    | Counting(tenant: string, model: ModelConfig, gpu: Placement)
    | Storing(tenant: string, model: ModelConfig, gpu: Placement)
    | Allocating(w: string, model: ModelConfig, gpu: Placement)
    | Assigning(w: string, model: ModelConfig, gpu: Placement)
    // startWorkerContainer
    | Beginning(w: string)
    | Pulling(w: string)
    | Launching(w: string)
    | Recording(w: string, c: string)
    | Waiting(w: string, c: string)
    | Readying(w: string)
    // terminateWorker
    | Closing(w: string)
    | Reading(w: string)
    | Killing(w: string, c: string)
    | Checking(w: string)
    | Releasing(w: string, uuid: string, amount: int64)
    | Removing(w: string)
    // DeleteWorker, and one worker's turn in the idle sweep
    | Finding(w: string)
    | Visiting(w: string)
    | Looking(w: string)
    | Done

  datatype Outcome = Outcome(ok: bool, uuid: string, id: string, now: Instant)

  datatype Event =
    | Create(tenant: string, model: ModelConfig)
    | Delete(w: string)
    | Sweep(w: string)
    | Toggle(w: string, now: Instant)
    | Step(i: nat, o: Outcome)

  datatype State = State(sh: Shared, tasks: seq<Task>, maxWorkers: int64)

  // ----- the locked operations

  function StoredRecord(sh: Shared, id: string, w: Worker): Shared {
    sh.(workers := sh.workers[id := w], pool := sh.pool + {id})
  }

  function Stored(sh: Shared, id: string, tenant: string, model: ModelConfig, now: Instant): Shared {
    StoredRecord(sh, id, NewWorker(id, tenant, Some(model), now))
  }

  function Transitioned(sh: Shared, w: string, next: Status, now: Instant): Shared
    requires w in sh.workers
  {
    sh.(workers := sh.workers[w := Moved(sh.workers[w], next, now)])
  }

  function ContainerSet(sh: Shared, w: string, c: string): Shared
    requires w in sh.workers
  {
    sh.(workers := sh.workers[w := sh.workers[w].(containerID := c)])
  }

  function Assigned(sh: Shared, w: string, model: ModelConfig, gpu: Placement): Shared
    requires w in sh.workers
  {
    sh.(workers := sh.workers[w := sh.workers[w].(gpu := Some(GPUAssignment(gpu.index, gpu.uuid, model.vram)))])
  }

  function Launched(sh: Shared, w: string, c: string): Shared {
    sh.(containers := sh.containers[c := w])
  }

  function Killed(sh: Shared, c: string): Shared {
    sh.(terminated := sh.terminated + {c})
  }

  function Reserved(sh: Shared, w: string, model: ModelConfig, gpu: Placement): Shared {
    sh.(fleet := AllocateIn(sh.fleet, gpu.uuid, w, model.name, model.vram))
  }

  function Released(sh: Shared, w: string, uuid: string, amount: int64): Shared {
    sh.(fleet := ReleaseIn(sh.fleet, uuid, w, amount))
  }

  function Removed(sh: Shared, w: string): Shared {
    sh.(pool := sh.pool - {w}, removals := sh.removals + [w])
  }

  function PlacementOn(f: Fleet, uuid: string, model: string): Placement
    requires uuid in f
  {
    Placement(uuid, f[uuid].gpu.index, model in f[uuid].gpu.loaded, f[uuid].gpu.Free())
  }

  // ----- the program of each task

  /** The task works on a worker record it holds. */
  predicate HoldsRecord(t: Task) {
    t.Allocating? || t.Assigning? || t.Beginning? || t.Pulling? || t.Launching? || t.Recording? || t.Waiting?
    || t.Readying? || t.Closing? || t.Reading? || t.Killing? || t.Checking? || t.Releasing? || t.Removing?
  }

  /** The outcome is one the environment can produce for this step. */
  predicate CanStep(sh: Shared, t: Task, o: Outcome) {
    && !t.Done?
    && (HoldsRecord(t) ==> t.w in sh.workers)
    && (t.Scheduling? && o.ok ==> Grants(sh.fleet, o.uuid, t.model.vram))
    && (t.Storing? ==> o.id !in sh.workers)
    && (t.Launching? && o.ok ==> o.id != "" && o.id !in sh.containers)
  }

  /** What the step does to the shared state. */
  function Effect(sh: Shared, t: Task, o: Outcome): Shared
    requires CanStep(sh, t, o)
  {
    match t
    case Storing(tenant, model, _) => Stored(sh, o.id, tenant, model, o.now)
    case Allocating(w, model, gpu) => Reserved(sh, w, model, gpu)
    case Assigning(w, model, gpu) => Assigned(sh, w, model, gpu)
    case Beginning(w) => if CanMove(sh.workers[w].status, Starting) then Transitioned(sh, w, Starting, o.now) else sh
    case Launching(w) => if o.ok then Launched(sh, w, o.id) else sh
    case Recording(w, c) => ContainerSet(sh, w, c)
    case Readying(w) => if CanMove(sh.workers[w].status, Running) then Transitioned(sh, w, Running, o.now) else sh
    case Closing(w) => Transitioned(sh, w, Terminating, o.now)
    case Killing(_, c) => Killed(sh, c)
    case Releasing(w, uuid, amount) => Released(sh, w, uuid, amount)
    case Removing(w) => Removed(sh, w)
    case _ => sh
  }

  /** Where the task's program goes on. */
  function Next(sh: Shared, maxWorkers: int64, t: Task, o: Outcome): Task
    requires CanStep(sh, t, o)
  {
    match t
    case Scheduling(tenant, model) =>
      if o.ok then Counting(tenant, model, PlacementOn(sh.fleet, o.uuid, model.name)) else Done
    case Counting(tenant, model, gpu) => if |sh.pool| >= maxWorkers then Done else Storing(tenant, model, gpu)
    case Storing(_, model, gpu) => Allocating(o.id, model, gpu)
    case Allocating(w, model, gpu) => Assigning(w, model, gpu)
    case Assigning(w, _, _) => Beginning(w)
    case Beginning(w) => if CanMove(sh.workers[w].status, Starting) then Pulling(w) else Done
    case Pulling(w) => if o.ok then Launching(w) else Closing(w)
    case Launching(w) => if o.ok then Recording(w, o.id) else Closing(w)
    case Recording(w, c) => Waiting(w, c)
    case Waiting(w, _) => if o.ok then Readying(w) else Closing(w)
    case Readying(w) => if CanMove(sh.workers[w].status, Running) then Done else Closing(w)
    case Closing(w) => Reading(w)
    case Reading(w) =>
      if sh.workers[w].containerID != "" then Killing(w, sh.workers[w].containerID) else Checking(w)
    case Killing(w, _) => Checking(w)
    case Checking(w) =>
      var rec := sh.workers[w];
      if rec.gpu.Some? && rec.model.Some? then Releasing(w, rec.gpu.value.uuid, rec.model.value.vram) else Removing(w)
    case Releasing(w, _, _) => Removing(w)
    case Removing(_) => Done
    case Finding(w) => if w in sh.pool && w in sh.workers then Closing(w) else Done
    case Visiting(w) =>
      if w in sh.pool && w in sh.workers && sh.workers[w].status == Idle && o.ok then Looking(w) else Done
    case Looking(w) => if w in sh.pool && w in sh.workers then Reading(w) else Done
  }

  function StepTask(sh: Shared, maxWorkers: int64, t: Task, o: Outcome): (Shared, Task)
    requires CanStep(sh, t, o)
  {
    (Effect(sh, t, o), Next(sh, maxWorkers, t, o))
  }

  /** The steps that only look. */
  predicate Looks(t: Task) {
    t.Scheduling? || t.Counting? || t.Pulling? || t.Waiting? || t.Reading? || t.Checking? || t.Finding? || t.Visiting?
    || t.Looking? || t.Done?
  }

  lemma LookingChangesNothing(sh: Shared, t: Task, o: Outcome)
    requires CanStep(sh, t, o) && Looks(t)
    ensures Effect(sh, t, o) == sh
  {
  }

  /** Processing a request turns a RUNNING worker IDLE and back; nothing else outside the tasks touches a worker. */
  function Toggled(sh: Shared, w: string, now: Instant): Shared {
    if w in sh.workers && sh.workers[w].status == Running then Transitioned(sh, w, Idle, now)
    else if w in sh.workers && sh.workers[w].status == Idle then Transitioned(sh, w, Running, now)
    else sh
  }

  lemma ToggledFields(sh: Shared, w: string, now: Instant)
    requires w in sh.workers
    ensures var rec, end := sh.workers[w], Toggled(sh, w, now);
      && w in end.workers && end == sh.(workers := sh.workers[w := end.workers[w]])
      && end.workers[w].status == (if rec.status == Running then Idle else if rec.status == Idle then Running else rec.status)
      && end.workers[w] == rec.(status := end.workers[w].status, updatedAt := end.workers[w].updatedAt)
  {
    assert sh.workers == sh.workers[w := sh.workers[w]];
  }

  /** One event. A step that is not possible leaves the state as it is. */
  function Fire(s: State, e: Event): State {
    match e
    case Create(tenant, model) => s.(tasks := s.tasks + [Scheduling(tenant, model)])
    case Delete(w) => s.(tasks := s.tasks + [Finding(w)])
    case Sweep(w) => s.(tasks := s.tasks + [Visiting(w)])
    case Toggle(w, now) => s.(sh := Toggled(s.sh, w, now))
    case Step(i, o) =>
      if i < |s.tasks| && CanStep(s.sh, s.tasks[i], o) then
        var (sh, t) := StepTask(s.sh, s.maxWorkers, s.tasks[i], o);
        s.(sh := sh, tasks := s.tasks[i := t])
      else s
  }

  function Exec(s: State, events: seq<Event>): State {
    if events == [] then s else Fire(Exec(s, events[..|events| - 1]), events[|events| - 1])
  }

  /** A possible step of task `i`, as a relation between the states around it. */
  ghost predicate Steps(s: State, i: nat, o: Outcome, s': State) {
    && i < |s.tasks| && CanStep(s.sh, s.tasks[i], o)
    && var (sh, t) := StepTask(s.sh, s.maxWorkers, s.tasks[i], o);
       s' == s.(sh := sh, tasks := s.tasks[i := t])
  }

  /** Registered GPUs with empty books, and nothing else. */
  ghost predicate Initial(s: State) {
    && NewFleet(s.sh.fleet)
    && s.sh.workers == map[] && s.sh.pool == {} && s.sh.containers == map[] && s.sh.terminated == {}
    && s.sh.removals == [] && s.tasks == []
  }

  /** Every task has finished. */
  ghost predicate Quiescent(s: State) {
    forall t :: t in s.tasks ==> t.Done?
  }

  lemma ExecStep(s: State, events: seq<Event>, e: Event)
    ensures Exec(s, events + [e]) == Fire(Exec(s, events), e)
  {
    assert (events + [e])[..|events|] == events;
  }

  /** A run continues where its first part left off. */
  lemma {:induction false} ExecConcat(s: State, first: seq<Event>, second: seq<Event>)
    ensures Exec(s, first + second) == Exec(Exec(s, first), second)
  {
    if second == [] {
      assert first + second == first;
    } else {
      var front := second[..|second| - 1];
      ExecConcat(s, first, front);
      assert (first + second)[..|first + second| - 1] == first + front;
    }
  }
}
