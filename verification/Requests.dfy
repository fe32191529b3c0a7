/**
 What one request does when nothing else runs: the steps of CreateWorker, of its start task, of a teardown and of an
 eviction composed into one function each, and the proof that each is a run of the step system.
 */
module Requests {
  import opened Machine
  import opened Lifecycle
  import opened Workers
  import opened Accounts
  import opened Interleaving

  /** How the container engine treats one start. */
  datatype StartOutcome =
    | PullFailed
    | LaunchFailed
    | Unhealthy(container: string)
    | Healthy(container: string)

  // ----- the requests

  /** CreateWorker from AddWorker's store to the assignment. */
  function Admitted(sh: Shared, id: string, tenant: string, model: ModelConfig, gpu: Placement, now: Instant): Shared {
    Assigned(Reserved(Stored(sh, id, tenant, model, now), id, model, gpu), id, model, gpu)
  }

  /** The end of a teardown: the container if there is one, the reservation if one is recorded, the pool. */
  function Wrapped(sh: Shared, w: string): Shared
    requires w in sh.workers
  {
    var rec := sh.workers[w];
    var killed := if rec.containerID != "" then Killed(sh, rec.containerID) else sh;
    var released :=
      if rec.gpu.Some? && rec.model.Some? then Released(killed, w, rec.gpu.value.uuid, rec.model.value.vram)
      else killed;
    Removed(released, w)
  }

  /** terminateWorker. */
  function TornDown(sh: Shared, w: string, now: Instant): Shared
    requires w in sh.workers
  {
    Wrapped(Transitioned(sh, w, Terminating, now), w)
  }

  /** startWorkerContainer once the worker is STARTING. */
  function BroughtUp(sh: Shared, w: string, out: StartOutcome, now: Instant): Shared
    requires w in sh.workers
  {
    match out
    case PullFailed => TornDown(sh, w, now)
    case LaunchFailed => TornDown(sh, w, now)
    case Unhealthy(c) => TornDown(WithContainer(sh, w, c), w, now)
    case Healthy(c) =>
      var recorded := WithContainer(sh, w, c);
      if CanMove(recorded.workers[w].status, Running) then Transitioned(recorded, w, Running, now)
      else TornDown(recorded, w, now)
  }

  function WithContainer(sh: Shared, w: string, c: string): Shared
    requires w in sh.workers
  {
    ContainerSet(Launched(sh, w, c), w, c)
  }

  /** startWorkerContainer. */
  function StartedUp(sh: Shared, w: string, out: StartOutcome, now: Instant): Shared
    requires w in sh.workers
  {
    if CanMove(sh.workers[w].status, Starting) then BroughtUp(Transitioned(sh, w, Starting, now), w, out, now) else sh
  }

  /** CreateWorker and its background task, once Schedule has chosen `gpu`. */
  function Created(
      sh: Shared, maxWorkers: int64, id: string, tenant: string, model: ModelConfig, gpu: Placement,
      out: StartOutcome, now: Instant): Shared
  {
    if |sh.pool| >= maxWorkers then sh
    else StartedUp(Admitted(sh, id, tenant, model, gpu, now), id, out, now)
  }

  /** DeleteWorker and its background task. */
  function Deleted(sh: Shared, w: string, now: Instant): Shared {
    if w in sh.pool && w in sh.workers then TornDown(sh, w, now) else sh
  }

  /** The idle sweep's termination of one worker. */
  function Evicted(sh: Shared, w: string): Shared {
    if w in sh.pool && w in sh.workers then Wrapped(sh, w) else sh
  }

  // ----- what they come to, field by field

  /** What a release leaves of a GPU: the amount off, not below zero; the worker off its list; models and size as before. */
  lemma RefundFields(a: Account, w: string, amount: int64)
    ensures var r := Refund(a, w, amount);
      && (forall x :: x in r.gpu.active <==> x in a.gpu.active && x != w)
      && r.gpu.loaded == a.gpu.loaded && r.gpu.total == a.gpu.total
      && (0 <= amount <= a.gpu.allocatedVram ==> r.gpu.allocatedVram == a.gpu.allocatedVram - amount)
      && (0 <= a.gpu.allocatedVram < amount ==> r.gpu.allocatedVram == 0)
  {
  }

  /** The end of a teardown. */
  lemma WrappedFields(sh: Shared, w: string)
    requires w in sh.workers
    ensures var rec, end := sh.workers[w], Wrapped(sh, w);
      && end.workers == sh.workers && end.containers == sh.containers
      && end.pool == sh.pool - {w} && end.removals == sh.removals + [w]
      && end.terminated == sh.terminated + (if rec.containerID != "" then {rec.containerID} else {})
      && end.fleet.Keys == sh.fleet.Keys
      && forall u :: u in sh.fleet && !(rec.gpu.Some? && rec.model.Some? && rec.gpu.value.uuid == u) ==>
           end.fleet[u] == sh.fleet[u]
    ensures var rec := sh.workers[w];
      rec.gpu.Some? && rec.model.Some? && rec.gpu.value.uuid in sh.fleet ==>
        var u, amount, end := rec.gpu.value.uuid, rec.model.value.vram, Wrapped(sh, w);
        end.fleet[u] == Refund(sh.fleet[u], w, amount)
  {
    hide Refund;
  }

  /** The same, with what the release leaves of the GPU. */
  lemma EvictedFields(sh: Shared, w: string)
    requires w in sh.workers && w in sh.pool
    ensures var rec, end := sh.workers[w], Evicted(sh, w);
      && end.workers == sh.workers && end.containers == sh.containers
      && end.pool == sh.pool - {w} && end.removals == sh.removals + [w]
      && end.terminated == sh.terminated + (if rec.containerID != "" then {rec.containerID} else {})
      && end.fleet.Keys == sh.fleet.Keys
      && forall u :: u in sh.fleet && !(rec.gpu.Some? && rec.model.Some? && rec.gpu.value.uuid == u) ==>
           end.fleet[u] == sh.fleet[u]
    ensures var rec, end := sh.workers[w], Evicted(sh, w);
      rec.gpu.Some? && rec.model.Some? ==>
        var u, amount := rec.gpu.value.uuid, rec.model.value.vram;
        u in sh.fleet ==>
          && u in end.fleet && end.fleet[u].gpu.loaded == sh.fleet[u].gpu.loaded
          && (forall x :: x in end.fleet[u].gpu.active <==> x in sh.fleet[u].gpu.active && x != w)
          && (0 <= amount <= sh.fleet[u].gpu.allocatedVram ==>
                end.fleet[u].gpu.allocatedVram == sh.fleet[u].gpu.allocatedVram - amount)
          && (0 <= sh.fleet[u].gpu.allocatedVram < amount ==> end.fleet[u].gpu.allocatedVram == 0)
  {
    hide Wrapped, Refund;
    WrappedFields(sh, w);
    var rec := sh.workers[w];
    if rec.gpu.Some? && rec.model.Some? && rec.gpu.value.uuid in sh.fleet {
      RefundFields(sh.fleet[rec.gpu.value.uuid], w, rec.model.value.vram);
    }
  }

  lemma TornDownFields(sh: Shared, w: string, now: Instant)
    requires w in sh.workers
    ensures var rec, end := sh.workers[w], TornDown(sh, w, now);
      && w in end.workers && end.workers == sh.workers[w := end.workers[w]]
      && end.workers[w].status == Terminating && end.workers[w].containerID == rec.containerID
      && end.containers == sh.containers && end.pool == sh.pool - {w} && end.removals == sh.removals + [w]
      && end.terminated == sh.terminated + (if rec.containerID != "" then {rec.containerID} else {})
      && end.fleet.Keys == sh.fleet.Keys
      && forall u :: u in sh.fleet && !(rec.gpu.Some? && rec.model.Some? && rec.gpu.value.uuid == u) ==>
           end.fleet[u] == sh.fleet[u]
    ensures var rec, end := sh.workers[w], TornDown(sh, w, now);
      rec.gpu.Some? && rec.model.Some? ==>
        var u, amount := rec.gpu.value.uuid, rec.model.value.vram;
        u in sh.fleet ==>
          && u in end.fleet && end.fleet[u].gpu.loaded == sh.fleet[u].gpu.loaded
          && (forall x :: x in end.fleet[u].gpu.active <==> x in sh.fleet[u].gpu.active && x != w)
          && (0 <= amount <= sh.fleet[u].gpu.allocatedVram ==>
                end.fleet[u].gpu.allocatedVram == sh.fleet[u].gpu.allocatedVram - amount)
          && (0 <= sh.fleet[u].gpu.allocatedVram < amount ==> end.fleet[u].gpu.allocatedVram == 0)
  {
    hide Wrapped, Refund;
    WrappedFields(Transitioned(sh, w, Terminating, now), w);
    var rec := sh.workers[w];
    if rec.gpu.Some? && rec.model.Some? && rec.gpu.value.uuid in sh.fleet {
      RefundFields(sh.fleet[rec.gpu.value.uuid], w, rec.model.value.vram);
    }
  }

  /** A start of a PENDING worker that goes well, and one of a worker in any other state. */
  lemma GoodStartFields(sh: Shared, w: string, out: StartOutcome, now: Instant)
    requires w in sh.workers
    ensures var rec, end := sh.workers[w], StartedUp(sh, w, out, now);
      && (rec.status != Pending ==> end == sh)
      && (rec.status == Pending && out.Healthy? ==>
            && end == sh.(workers := end.workers, containers := sh.containers[out.container := w])
            && w in end.workers
            && end.workers == sh.workers[w := rec.(status := Running, containerID := out.container, updatedAt := now)])
  {
  }

  /** A start of a PENDING worker that fails at any point. */
  lemma BadStartFields(sh: Shared, w: string, out: StartOutcome, now: Instant)
    requires w in sh.workers && sh.workers[w].status == Pending && !out.Healthy?
    ensures var rec, end := sh.workers[w], StartedUp(sh, w, out, now);
      var c := if out.Unhealthy? then out.container else rec.containerID;
      && w in end.workers
      && end.workers == sh.workers[w := rec.(status := Terminating, containerID := c, updatedAt := now)]
      && end.containers == (if out.Unhealthy? then sh.containers[out.container := w] else sh.containers)
      && end.terminated == sh.terminated + (if c != "" then {c} else {})
      && end.pool == sh.pool - {w} && end.removals == sh.removals + [w]
      && end.fleet.Keys == sh.fleet.Keys
      && (forall u :: u in sh.fleet && !(rec.gpu.Some? && rec.model.Some? && rec.gpu.value.uuid == u) ==>
            end.fleet[u] == sh.fleet[u])
    ensures var rec, end := sh.workers[w], StartedUp(sh, w, out, now);
      rec.gpu.Some? && rec.model.Some? ==>
        var u, amount := rec.gpu.value.uuid, rec.model.value.vram;
        u in sh.fleet ==>
          && u in end.fleet && end.fleet[u].gpu.loaded == sh.fleet[u].gpu.loaded
          && (forall x :: x in end.fleet[u].gpu.active <==> x in sh.fleet[u].gpu.active && x != w)
          && (0 <= amount <= sh.fleet[u].gpu.allocatedVram ==>
                end.fleet[u].gpu.allocatedVram == sh.fleet[u].gpu.allocatedVram - amount)
          && (0 <= sh.fleet[u].gpu.allocatedVram < amount ==> end.fleet[u].gpu.allocatedVram == 0)
  {
    hide Wrapped, Refund;
    var begun := Transitioned(sh, w, Starting, now);
    var mid := if out.Unhealthy? then WithContainer(begun, w, out.container) else begun;
    WrappedFields(Transitioned(mid, w, Terminating, now), w);
    var rec := sh.workers[w];
    if rec.gpu.Some? && rec.model.Some? && rec.gpu.value.uuid in sh.fleet {
      RefundFields(sh.fleet[rec.gpu.value.uuid], w, rec.model.value.vram);
    }
  }

  /** A creation up to the start, on a GPU that has room. */
  lemma AdmittedFields(sh: Shared, id: string, tenant: string, model: ModelConfig, gpu: Placement, now: Instant)
    requires Grants(sh.fleet, gpu.uuid, model.vram)
    ensures var end := Admitted(sh, id, tenant, model, gpu, now);
      && end == sh.(workers := end.workers, pool := sh.pool + {id}, fleet := end.fleet)
      && id in end.workers
      && end.workers == sh.workers[id :=
           Worker(id, tenant, Pending, Some(model), Some(GPUAssignment(gpu.index, gpu.uuid, model.vram)),
                  Some(Metrics(0, None, 0)), "", now, now, None)]
      && end.fleet == sh.fleet[gpu.uuid := Reserve(sh.fleet[gpu.uuid], id, model.name, model.vram)]
  {
    hide Reserve;
  }

  /** The whole creation, on a GPU that has room, with the pool below its limit. */
  lemma CreatedFields(
      sh: Shared, maxWorkers: int64, id: string, tenant: string, model: ModelConfig, gpu: Placement,
      out: StartOutcome, now: Instant)
    requires Grants(sh.fleet, gpu.uuid, model.vram) && |sh.pool| < maxWorkers && id !in sh.pool
    ensures var end := Created(sh, maxWorkers, id, tenant, model, gpu, out, now);
      && id in end.workers && gpu.uuid in end.fleet
      && end.workers[id].tenantID == tenant && end.workers[id].model == Some(model)
      && end.workers[id].gpu == Some(GPUAssignment(gpu.index, gpu.uuid, model.vram))
      && model.name in end.fleet[gpu.uuid].gpu.loaded
      && (out.Healthy? ==>
            && end.workers[id].status == Running && end.workers[id].containerID == out.container
            && end.pool == sh.pool + {id}
            && end.fleet[gpu.uuid].gpu.active == sh.fleet[gpu.uuid].gpu.active + [id]
            && end.fleet[gpu.uuid].gpu.allocatedVram == Add64(sh.fleet[gpu.uuid].gpu.allocatedVram, model.vram))
      && (!out.Healthy? ==>
            && end.workers[id].status == Terminating && end.pool == sh.pool && id !in end.fleet[gpu.uuid].gpu.active)
  {
    hide Admitted, StartedUp, Refund;
    var admitted := Admitted(sh, id, tenant, model, gpu, now);
    AdmittedFields(sh, id, tenant, model, gpu, now);
    if out.Healthy? {
      GoodStartFields(admitted, id, out, now);
    } else {
      BadStartFields(admitted, id, out, now);
    }
  }

  // ----- each is a run

  /** The state with task `i` at `t` and the shared part `sh`. */
  function At(s: State, i: nat, sh: Shared, t: Task): State
    requires i < |s.tasks|
  {
    s.(sh := sh, tasks := s.tasks[i := t])
  }

  lemma OneStep(s: State, i: nat, sh: Shared, t: Task, o: Outcome)
    requires i < |s.tasks| && CanStep(sh, t, o)
    ensures Fire(At(s, i, sh, t), Step(i, o)) ==
      At(s, i, StepTask(sh, s.maxWorkers, t, o).0, StepTask(sh, s.maxWorkers, t, o).1)
  {
    var a := At(s, i, sh, t);
    assert a.tasks[i := StepTask(sh, s.maxWorkers, t, o).1] == s.tasks[i := StepTask(sh, s.maxWorkers, t, o).1];
  }

  /** The container engine gives the answers `out` names. */
  predicate Answered(out: StartOutcome, t: Task, o: Outcome) {
    && (t.Pulling? ==> o.ok == !out.PullFailed?)
    && (t.Launching? ==> o.ok == (out.Unhealthy? || out.Healthy?) && (o.ok ==> o.id == out.container))
    && (t.Waiting? ==> o.ok == out.Healthy?)
  }

  ghost predicate PlaysAt(s: State, i: nat, events: seq<Event>, k: nat, out: StartOutcome)
    requires k < |events|
  {
    var now := Exec(s, events[..k]);
    events[k].Step? && i < |now.tasks| ==> Answered(out, now.tasks[i], events[k].o)
  }

  /** Wherever the run has task `i` ask the container engine something, the answer is the one `out` names. */
  ghost predicate Plays(s: State, i: nat, events: seq<Event>, out: StartOutcome) {
    forall k :: 0 <= k < |events| ==> PlaysAt(s, i, events, k, out)
  }

  /**
   Task `i` at `t` over `sh` goes, by steps of its own and with the container engine answering as `out` says, to `t'`
   over `sh'`.
   */
  ghost predicate Reaches(s: State, i: nat, sh: Shared, t: Task, sh': Shared, t': Task, out: StartOutcome)
    requires i < |s.tasks|
  {
    exists events ::
      OwnSteps(events, i) && Plays(At(s, i, sh, t), i, events, out) && Exec(At(s, i, sh, t), events) == At(s, i, sh', t')
  }

  ghost predicate OwnSteps(events: seq<Event>, i: nat) {
    forall e :: e in events ==> e.Step? && e.i == i
  }

  lemma ReachesStep(s: State, i: nat, sh: Shared, t: Task, o: Outcome, out: StartOutcome)
    requires i < |s.tasks| && CanStep(sh, t, o) && Answered(out, t, o)
    ensures Reaches(s, i, sh, t, StepTask(sh, s.maxWorkers, t, o).0, StepTask(sh, s.maxWorkers, t, o).1, out)
  {
    hide StepTask, Answered;
    OneStep(s, i, sh, t, o);
    var a, events := At(s, i, sh, t), [Step(i, o)];
    assert events[..0] == [] && Exec(a, []) == a;
    assert Exec(a, events) == Fire(a, Step(i, o));
    assert PlaysAt(a, i, events, 0, out);
    assert Plays(a, i, events, out);
  }

  lemma PlaysAtFirst(s: State, i: nat, first: seq<Event>, second: seq<Event>, k: nat, out: StartOutcome)
    requires k < |first| && PlaysAt(s, i, first, k, out)
    ensures PlaysAt(s, i, first + second, k, out)
  {
    hide Exec, Answered;
    assert (first + second)[..k] == first[..k] && (first + second)[k] == first[k];
  }

  lemma PlaysAtSecond(s: State, i: nat, first: seq<Event>, second: seq<Event>, k: nat, out: StartOutcome)
    requires k < |second| && PlaysAt(Exec(s, first), i, second, k, out)
    ensures PlaysAt(s, i, first + second, |first| + k, out)
  {
    hide Exec, Answered;
    ExecConcat(s, first, second[..k]);
    assert (first + second)[..|first| + k] == first + second[..k] && (first + second)[|first| + k] == second[k];
  }

  lemma PlaysConcat(s: State, i: nat, first: seq<Event>, second: seq<Event>, out: StartOutcome)
    requires Plays(s, i, first, out) && Plays(Exec(s, first), i, second, out)
    ensures Plays(s, i, first + second, out)
  {
    hide Exec, PlaysAt;
    forall k | 0 <= k < |first + second| ensures PlaysAt(s, i, first + second, k, out) {
      if k < |first| {
        PlaysAtFirst(s, i, first, second, k, out);
      } else {
        PlaysAtSecond(s, i, first, second, k - |first|, out);
      }
    }
  }

  lemma ReachesTrans(s: State, i: nat, a: Shared, t: Task, b: Shared, u: Task, c: Shared, v: Task, out: StartOutcome)
    requires i < |s.tasks| && Reaches(s, i, a, t, b, u, out) && Reaches(s, i, b, u, c, v, out)
    ensures Reaches(s, i, a, t, c, v, out)
  {
    hide Exec, Plays;
    var first :| OwnSteps(first, i) && Plays(At(s, i, a, t), i, first, out) && Exec(At(s, i, a, t), first) == At(s, i, b, u);
    var second :| OwnSteps(second, i) && Plays(At(s, i, b, u), i, second, out)
                  && Exec(At(s, i, b, u), second) == At(s, i, c, v);
    ExecConcat(At(s, i, a, t), first, second);
    PlaysConcat(At(s, i, a, t), i, first, second, out);
    assert OwnSteps(first + second, i);
  }

  lemma ReachesThen(s: State, i: nat, a: Shared, t: Task, b: Shared, u: Task, o: Outcome, out: StartOutcome)
    requires i < |s.tasks| && Reaches(s, i, a, t, b, u, out) && CanStep(b, u, o) && Answered(out, u, o)
    ensures Reaches(s, i, a, t, StepTask(b, s.maxWorkers, u, o).0, StepTask(b, s.maxWorkers, u, o).1, out)
  {
    hide Reaches;
    ReachesStep(s, i, b, u, o, out);
    ReachesTrans(s, i, a, t, b, u, StepTask(b, s.maxWorkers, u, o).0, StepTask(b, s.maxWorkers, u, o).1, out);
  }

  function Any(now: Instant): Outcome {
    Outcome(true, "", "", now)
  }

  lemma WrappedIsRun(s: State, i: nat, sh: Shared, w: string, now: Instant, out: StartOutcome)
    requires i < |s.tasks| && w in sh.workers
    ensures Reaches(s, i, sh, Reading(w), Wrapped(sh, w), Done, out)
  {
    hide Reaches;
    var o := Any(now);
    var rec := sh.workers[w];
    var killed := if rec.containerID != "" then Killed(sh, rec.containerID) else sh;
    ReachesStep(s, i, sh, Reading(w), o, out);
    if rec.containerID != "" {
      ReachesThen(s, i, sh, Reading(w), sh, Killing(w, rec.containerID), o, out);
    }
    ReachesThen(s, i, sh, Reading(w), killed, Checking(w), o, out);
    if rec.gpu.Some? && rec.model.Some? {
      ReleaseThenRemove(s, i, sh, killed, w, rec.gpu.value.uuid, rec.model.value.vram, now, out);
    } else {
      ReachesThen(s, i, sh, Reading(w), killed, Removing(w), o, out);
    }
  }

  lemma ReleaseThenRemove(
      s: State, i: nat, sh: Shared, killed: Shared, w: string, uuid: string, amount: int64, now: Instant,
      out: StartOutcome)
    requires i < |s.tasks| && w in sh.workers && killed.workers == sh.workers
    requires Reaches(s, i, sh, Reading(w), killed, Releasing(w, uuid, amount), out)
    ensures Reaches(s, i, sh, Reading(w), Removed(Released(killed, w, uuid, amount), w), Done, out)
  {
    hide Reaches;
    ReachesThen(s, i, sh, Reading(w), killed, Releasing(w, uuid, amount), Any(now), out);
    ReachesThen(s, i, sh, Reading(w), Released(killed, w, uuid, amount), Removing(w), Any(now), out);
  }

  lemma TornDownIsRun(s: State, i: nat, sh: Shared, w: string, now: Instant, out: StartOutcome)
    requires i < |s.tasks| && w in sh.workers
    ensures Reaches(s, i, sh, Closing(w), TornDown(sh, w, now), Done, out)
  {
    hide Reaches;
    var closed := Transitioned(sh, w, Terminating, now);
    ReachesStep(s, i, sh, Closing(w), Any(now), out);
    WrappedIsRun(s, i, closed, w, now, out);
    ReachesTrans(s, i, sh, Closing(w), closed, Reading(w), TornDown(sh, w, now), Done, out);
  }

  /** The container the outcome names, if any, is new. */
  predicate NewContainer(sh: Shared, out: StartOutcome) {
    out.Unhealthy? || out.Healthy? ==> out.container != "" && out.container !in sh.containers
  }

  lemma LaunchedIsRun(s: State, i: nat, sh: Shared, w: string, c: string, now: Instant, out: StartOutcome)
    requires (out.Unhealthy? || out.Healthy?) && out.container == c
    requires i < |s.tasks| && w in sh.workers && c != "" && c !in sh.containers
    ensures Reaches(s, i, sh, Pulling(w), WithContainer(sh, w, c), Waiting(w, c), out)
  {
    hide Reaches;
    var o := Outcome(true, "", c, now);
    ReachesStep(s, i, sh, Pulling(w), o, out);
    ReachesThen(s, i, sh, Pulling(w), sh, Launching(w), o, out);
    ReachesThen(s, i, sh, Pulling(w), Launched(sh, w, c), Recording(w, c), o, out);
  }

  /** A start that fails before it has a container. */
  lemma BareFailureIsRun(s: State, i: nat, sh: Shared, w: string, pulled: bool, now: Instant, out: StartOutcome)
    requires out == if pulled then LaunchFailed else PullFailed
    requires i < |s.tasks| && w in sh.workers
    ensures Reaches(s, i, sh, Pulling(w), TornDown(sh, w, now), Done, out)
  {
    hide Reaches;
    var no := Outcome(false, "", "", now);
    if pulled {
      ReachesStep(s, i, sh, Pulling(w), Any(now), out);
      ReachesThen(s, i, sh, Pulling(w), sh, Launching(w), no, out);
    } else {
      ReachesStep(s, i, sh, Pulling(w), no, out);
    }
    TornDownIsRun(s, i, sh, w, now, out);
    ReachesTrans(s, i, sh, Pulling(w), sh, Closing(w), TornDown(sh, w, now), Done, out);
  }

  lemma UnhealthyIsRun(s: State, i: nat, sh: Shared, w: string, c: string, now: Instant, out: StartOutcome)
    requires out == Unhealthy(c)
    requires i < |s.tasks| && w in sh.workers && c != "" && c !in sh.containers
    ensures Reaches(s, i, sh, Pulling(w), TornDown(WithContainer(sh, w, c), w, now), Done, out)
  {
    hide Reaches;
    var recorded := WithContainer(sh, w, c);
    LaunchedIsRun(s, i, sh, w, c, now, out);
    ReachesThen(s, i, sh, Pulling(w), recorded, Waiting(w, c), Outcome(false, "", "", now), out);
    TornDownIsRun(s, i, recorded, w, now, out);
    ReachesTrans(s, i, sh, Pulling(w), recorded, Closing(w), TornDown(recorded, w, now), Done, out);
  }

  lemma HealthyIsRun(s: State, i: nat, sh: Shared, w: string, c: string, now: Instant, out: StartOutcome)
    requires out == Healthy(c)
    requires i < |s.tasks| && w in sh.workers && c != "" && c !in sh.containers
    ensures Reaches(s, i, sh, Pulling(w), BroughtUp(sh, w, Healthy(c), now), Done, out)
  {
    hide Reaches;
    var recorded := WithContainer(sh, w, c);
    LaunchedIsRun(s, i, sh, w, c, now, out);
    ReachesThen(s, i, sh, Pulling(w), recorded, Waiting(w, c), Any(now), out);
    ReachesThen(s, i, sh, Pulling(w), recorded, Readying(w), Any(now), out);
    if !CanMove(recorded.workers[w].status, Running) {
      TornDownIsRun(s, i, recorded, w, now, out);
      ReachesTrans(s, i, sh, Pulling(w), recorded, Closing(w), TornDown(recorded, w, now), Done, out);
    }
  }

  lemma BroughtUpIsRun(s: State, i: nat, sh: Shared, w: string, out: StartOutcome, now: Instant)
    requires i < |s.tasks| && w in sh.workers && NewContainer(sh, out)
    ensures Reaches(s, i, sh, Pulling(w), BroughtUp(sh, w, out, now), Done, out)
  {
    hide Reaches;
    match out
    case PullFailed => BareFailureIsRun(s, i, sh, w, false, now, out);
    case LaunchFailed => BareFailureIsRun(s, i, sh, w, true, now, out);
    case Unhealthy(c) => UnhealthyIsRun(s, i, sh, w, c, now, out);
    case Healthy(c) => HealthyIsRun(s, i, sh, w, c, now, out);
  }

  lemma StartedUpIsRun(s: State, i: nat, sh: Shared, w: string, out: StartOutcome, now: Instant)
    requires i < |s.tasks| && w in sh.workers && NewContainer(sh, out)
    ensures Reaches(s, i, sh, Beginning(w), StartedUp(sh, w, out, now), Done, out)
  {
    hide Reaches;
    ReachesStep(s, i, sh, Beginning(w), Any(now), out);
    if CanMove(sh.workers[w].status, Starting) {
      var begun := Transitioned(sh, w, Starting, now);
      BroughtUpIsRun(s, i, begun, w, out, now);
      ReachesTrans(s, i, sh, Beginning(w), begun, Pulling(w), StartedUp(sh, w, out, now), Done, out);
    }
  }

  /** AddWorker, its check and its store. */
  lemma StoredIsRun(
      s: State, i: nat, sh: Shared, id: string, tenant: string, model: ModelConfig, gpu: Placement,
      now: Instant, out: StartOutcome)
    requires i < |s.tasks| && |sh.pool| < s.maxWorkers && id !in sh.workers
    ensures Reaches(s, i, sh, Counting(tenant, model, gpu), Stored(sh, id, tenant, model, now), Allocating(id, model, gpu), out)
  {
    hide Reaches;
    var o := Outcome(true, "", id, now);
    var t := Counting(tenant, model, gpu);
    ReachesStep(s, i, sh, t, o, out);
    ReachesThen(s, i, sh, t, sh, Storing(tenant, model, gpu), o, out);
  }

  /** The reservation, granted or not, and the assignment. */
  lemma AssignedIsRun(
      s: State, i: nat, sh: Shared, id: string, model: ModelConfig, gpu: Placement, now: Instant,
      out: StartOutcome)
    requires i < |s.tasks| && id in sh.workers
    ensures Reaches(s, i, sh, Allocating(id, model, gpu),
                    Assigned(Reserved(sh, id, model, gpu), id, model, gpu), Beginning(id), out)
  {
    hide Reaches;
    var t := Allocating(id, model, gpu);
    ReachesStep(s, i, sh, t, Any(now), out);
    ReachesThen(s, i, sh, t, Reserved(sh, id, model, gpu), Assigning(id, model, gpu), Any(now), out);
  }

  lemma AdmittedIsRun(
      s: State, i: nat, sh: Shared, id: string, tenant: string, model: ModelConfig, gpu: Placement,
      now: Instant, out: StartOutcome)
    requires i < |s.tasks| && |sh.pool| < s.maxWorkers && id !in sh.workers
    ensures Reaches(s, i, sh, Counting(tenant, model, gpu), Admitted(sh, id, tenant, model, gpu, now), Beginning(id), out)
  {
    hide Reaches;
    var stored := Stored(sh, id, tenant, model, now);
    StoredIsRun(s, i, sh, id, tenant, model, gpu, now, out);
    AssignedIsRun(s, i, stored, id, model, gpu, now, out);
    ReachesTrans(s, i, sh, Counting(tenant, model, gpu), stored, Allocating(id, model, gpu),
      Admitted(sh, id, tenant, model, gpu, now), Beginning(id), out);
  }

  /** Schedule's answer. */
  lemma PlacedIsRun(s: State, i: nat, sh: Shared, tenant: string, model: ModelConfig, uuid: string, out: StartOutcome)
    requires i < |s.tasks| && Grants(sh.fleet, uuid, model.vram)
    ensures Reaches(s, i, sh, Scheduling(tenant, model), sh,
                    Counting(tenant, model, PlacementOn(sh.fleet, uuid, model.name)), out)
  {
    ReachesStep(s, i, sh, Scheduling(tenant, model), Outcome(true, uuid, "", 0), out);
  }

  lemma CreatedIsRun(
      s: State, i: nat, sh: Shared, id: string, tenant: string, model: ModelConfig, uuid: string,
      out: StartOutcome, now: Instant)
    requires i < |s.tasks| && Grants(sh.fleet, uuid, model.vram) && id !in sh.workers && NewContainer(sh, out)
    ensures var gpu := PlacementOn(sh.fleet, uuid, model.name);
      Reaches(s, i, sh, Scheduling(tenant, model), Created(sh, s.maxWorkers, id, tenant, model, gpu, out, now), Done, out)
  {
    hide Reaches;
    var gpu := PlacementOn(sh.fleet, uuid, model.name);
    var t0 := Scheduling(tenant, model);
    var t1 := Counting(tenant, model, gpu);
    PlacedIsRun(s, i, sh, tenant, model, uuid, out);
    if |sh.pool| >= s.maxWorkers {
      ReachesThen(s, i, sh, t0, sh, t1, Any(now), out);
    } else {
      var admitted := Admitted(sh, id, tenant, model, gpu, now);
      AdmittedIsRun(s, i, sh, id, tenant, model, gpu, now, out);
      ReachesTrans(s, i, sh, t0, sh, t1, admitted, Beginning(id), out);
      StartedUpIsRun(s, i, admitted, id, out, now);
      ReachesTrans(s, i, sh, t0, admitted, Beginning(id), StartedUp(admitted, id, out, now), Done, out);
    }
  }

  lemma DeletedIsRun(s: State, i: nat, sh: Shared, w: string, now: Instant, out: StartOutcome)
    requires i < |s.tasks|
    ensures Reaches(s, i, sh, Finding(w), Deleted(sh, w, now), Done, out)
  {
    hide Reaches;
    ReachesStep(s, i, sh, Finding(w), Any(now), out);
    if w in sh.pool && w in sh.workers {
      TornDownIsRun(s, i, sh, w, now, out);
      ReachesTrans(s, i, sh, Finding(w), sh, Closing(w), Deleted(sh, w, now), Done, out);
    }
  }

  lemma EvictedIsRun(s: State, i: nat, sh: Shared, w: string, now: Instant, out: StartOutcome)
    requires i < |s.tasks| && w in sh.pool && w in sh.workers && sh.workers[w].status == Idle
    ensures Reaches(s, i, sh, Visiting(w), Evicted(sh, w), Done, out)
  {
    hide Reaches;
    ReachesStep(s, i, sh, Visiting(w), Any(now), out);
    ReachesThen(s, i, sh, Visiting(w), sh, Looking(w), Any(now), out);
    WrappedIsRun(s, i, sh, w, now, out);
    ReachesTrans(s, i, sh, Visiting(w), sh, Reading(w), Evicted(sh, w), Done, out);
  }
}
