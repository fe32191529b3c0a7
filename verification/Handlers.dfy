/**
 The request handlers and the idle sweep over the live objects: pool, scheduler and workers. Each method here runs
 with nothing interleaved; what it does to the objects is the corresponding function of `Requests`.
 */
module Handlers {
  import opened Machine
  import opened Lifecycle
  import opened Workers
  import opened Accounts
  import opened Pools
  import opened Scheduling
  import opened Interleaving
  import opened Discipline
  import opened Requests
  import opened Sequential

  /** The GPU names the simulated set-up registers: "GPU-0-simulated", "GPU-1-simulated", ... */
  function SimulatedName(i: nat): string {
    "GPU-" + Decimal(i) + "-simulated"
  }

  function Decimal(n: nat): (s: string)
    ensures |s| >= 1 && (|s| == 1 <==> n < 10)
  {
    if n < 10 then [Digit(n)] else Decimal(n / 10) + [Digit(n % 10)]
  }

  function Digit(d: nat): char
    requires d < 10
  {
    '0' + d as char
  }

  /** The number a text of decimal digits stands for. */
  function ValueOf(s: string): int {
    if s == [] then 0 else 10 * ValueOf(s[..|s| - 1]) + (s[|s| - 1] as int - '0' as int)
  }

  lemma {:induction false} DecimalValue(n: nat)
    ensures ValueOf(Decimal(n)) == n && forall i :: 0 <= i < |Decimal(n)| ==> '0' <= Decimal(n)[i] <= '9'
    ensures Decimal(n)[0] == '0' ==> n == 0
  {
    var s := Decimal(n);
    if n < 10 {
      assert s[..0] == [];
    } else {
      DecimalValue(n / 10);
      assert s[..|s| - 1] == Decimal(n / 10);
    }
  }

  lemma SimulatedNameInjective(m: nat, n: nat)
    requires SimulatedName(m) == SimulatedName(n)
    ensures m == n
  {
    var s, t := SimulatedName(m), SimulatedName(n);
    assert |s| == |t|;
    assert Decimal(m) == s[4..4 + |Decimal(m)|] == t[4..4 + |Decimal(n)|] == Decimal(n);
    DecimalValue(m);
    DecimalValue(n);
  }

  /** The first `n` simulated GPUs, each under its own name and index, with empty books. */
  function SimulatedFleet(n: nat, vramMB: int64): Fleet {
    if n == 0 then map[] else RegisterIn(SimulatedFleet(n - 1, vramMB), SimulatedName(n - 1), n - 1, vramMB)
  }

  lemma {:induction false} SimulatedFleetIs(n: nat, vramMB: int64)
    ensures var f := SimulatedFleet(n, vramMB);
      && |f| == n
      && (forall u :: u in f ==> exists i :: 0 <= i < n && u == SimulatedName(i))
      && (forall i :: 0 <= i < n ==> SimulatedName(i) in f && f[SimulatedName(i)] == NewAccount(SimulatedName(i), i, vramMB))
  {
    hide SimulatedName, NewAccount;
    if n > 0 {
      SimulatedFleetIs(n - 1, vramMB);
      forall i | 0 <= i < n - 1 ensures SimulatedName(i) != SimulatedName(n - 1) {
        if SimulatedName(i) == SimulatedName(n - 1) {
          SimulatedNameInjective(i, n - 1);
        }
      }
      assert SimulatedName(n - 1) !in SimulatedFleet(n - 1, vramMB);
    }
  }

  /** The same with the names written out. */
  lemma SimulatedFleetFields(n: nat, vramMB: int64)
    ensures |SimulatedFleet(n, vramMB)| == n
    ensures forall u :: u in SimulatedFleet(n, vramMB) ==>
      var i := SimulatedFleet(n, vramMB)[u].gpu.index;
      0 <= i < n && u == "GPU-" + Decimal(i) + "-simulated"
    ensures forall i :: 0 <= i < n ==>
      var name := "GPU-" + Decimal(i) + "-simulated";
      name in SimulatedFleet(n, vramMB) && SimulatedFleet(n, vramMB)[name] == Account(Gpu(name, i, vramMB, 0, {}, []), [])
  {
    hide SimulatedFleet;
    SimulatedFleetIs(n, vramMB);
    forall u | u in SimulatedFleet(n, vramMB)
      ensures var i := SimulatedFleet(n, vramMB)[u].gpu.index; 0 <= i < n && u == "GPU-" + Decimal(i) + "-simulated"
    {
      var i :| 0 <= i < n && u == SimulatedName(i);
    }
    forall i | 0 <= i < n
      ensures var name := "GPU-" + Decimal(i) + "-simulated";
        name in SimulatedFleet(n, vramMB) && SimulatedFleet(n, vramMB)[name] == Account(Gpu(name, i, vramMB, 0, {}, []), [])
    {
      assert SimulatedName(i) == "GPU-" + Decimal(i) + "-simulated";
    }
  }

  lemma SimulatedFleetStarts(vramMB: int64)
    ensures SimulatedFleet(0, vramMB) == map[]
  {
  }

  lemma SimulatedFleetGrows(n: nat, vramMB: int64)
    ensures SimulatedFleet(n + 1, vramMB) == RegisterIn(SimulatedFleet(n, vramMB), SimulatedName(n), n, vramMB)
  {
  }

  /** The start-up loop registers that many GPUs and no other. */
  method SetupSimulatedGPUs(scheduler: Scheduler, gpuCount: nat, vramMB: int64)
    requires scheduler.Valid() && scheduler.gpus == map[]
    modifies scheduler
    ensures scheduler.Valid()
    ensures |scheduler.View()| == gpuCount
    ensures forall u :: u in scheduler.View() ==>
      var i := scheduler.View()[u].gpu.index;
      0 <= i < gpuCount && u == "GPU-" + Decimal(i) + "-simulated"
    ensures forall i :: 0 <= i < gpuCount ==>
      var name := "GPU-" + Decimal(i) + "-simulated";
      name in scheduler.View() && scheduler.View()[name] == Account(Gpu(name, i, vramMB, 0, {}, []), [])
    ensures forall u :: u in scheduler.gpus ==> fresh(scheduler.gpus[u])
  {
    hide NewAccount, SimulatedName, SimulatedFleet;
    SimulatedFleetStarts(vramMB);
    for i := 0 to gpuCount
      invariant scheduler.Valid()
      invariant forall u :: u in scheduler.gpus ==> fresh(scheduler.gpus[u])
      invariant scheduler.View() == SimulatedFleet(i, vramMB)
    {
      scheduler.RegisterGPU(SimulatedName(i), i, vramMB);
      SimulatedFleetGrows(i, vramMB);
    }
    SimulatedFleetFields(gpuCount, vramMB);
  }

  datatype CreateResult = BadRequest | ResourceExhausted | QuotaExceeded | Accepted(workerID: string)

  const DEFAULT_MODEL_VRAM: int64 := 8000

  /** The model of a request that names none is its image, with the default requirement. */
  function Requested(image: string, request: Option<ModelConfig>): ModelConfig {
    if request.Some? then request.value else ModelConfig(image, "", DEFAULT_MODEL_VRAM)
  }

  function Verdict(pool: set<string>, maxWorkers: int64, placed: Option<Placement>, id: string): CreateResult {
    if placed.None? then ResourceExhausted
    else if |pool| >= maxWorkers then QuotaExceeded
    else Accepted(id)
  }

  /** What Schedule's answer says of the GPUs, their counters being in range. */
  lemma PlacedFields(sh: Shared, model: ModelConfig, placed: Option<Placement>)
    requires Answers(sh.fleet, model.name, model.vram, placed)
    ensures placed.Some? ==> placed.value.uuid in sh.fleet && Grants(sh.fleet, placed.value.uuid, model.vram)
    ensures (forall u :: u in sh.fleet ==> 0 <= sh.fleet[u].gpu.allocatedVram <= sh.fleet[u].gpu.total) ==>
      && (placed.None? <==> forall u :: u in sh.fleet ==> sh.fleet[u].gpu.total - sh.fleet[u].gpu.allocatedVram < model.vram)
      && (placed.Some? ==>
            && placed.value.index == sh.fleet[placed.value.uuid].gpu.index
            && sh.fleet[placed.value.uuid].gpu.total - sh.fleet[placed.value.uuid].gpu.allocatedVram >= model.vram)
  {
    if placed.Some? {
      assert Grants(sh.fleet, placed.value.uuid, model.vram);
    } else {
      assert forall u :: u in sh.fleet ==> !Grants(sh.fleet, u, model.vram);
    }
  }

  /** Granted room leaves no overflow. */
  lemma GrantedCounter(f: Fleet, u: string, amount: int64)
    requires Grants(f, u, amount) && 0 <= f[u].gpu.allocatedVram <= f[u].gpu.total
    ensures Add64(f[u].gpu.allocatedVram, amount) == f[u].gpu.allocatedVram + amount
  {
  }

  lemma DefaultIsPositive(image: string, request: Option<ModelConfig>)
    ensures (request.Some? ==> request.value.vram >= 0) ==> Requested(image, request).vram >= 0
  {
  }

  /** The outcome of a creation, field by field. */
  lemma CreationFields(
      before: Shared, after: Shared, maxWorkers: int64, image: string, tenantID: string, request: Option<ModelConfig>,
      id: string, out: StartOutcome, now: Instant, result: CreateResult, placed: Option<Placement>)
    requires image != "" && tenantID != "" && id !in before.pool
    requires var model := Requested(image, request);
      && Answers(before.fleet, model.name, model.vram, placed)
      && result == Verdict(before.pool, maxWorkers, placed, id)
      && after == if placed.None? then before
                  else Created(before, maxWorkers, id, tenantID, model, placed.value, out, now)
    ensures image != "" && tenantID != "" ==>
      && (result.ResourceExhausted? <==> placed.None?)
      && (result.QuotaExceeded? <==> placed.Some? && |before.pool| >= maxWorkers)
      && (result.Accepted? <==> placed.Some? && |before.pool| < maxWorkers)
      && (!result.Accepted? ==> after == before)
    ensures image != "" && tenantID != "" ==>
      var f, amount := before.fleet, if request.Some? then request.value.vram else 8000;
      (forall u :: u in f ==> 0 <= f[u].gpu.allocatedVram <= f[u].gpu.total) ==>
        && (placed.None? <==> forall u :: u in f ==> f[u].gpu.total - f[u].gpu.allocatedVram < amount)
        && (placed.Some? ==>
              && placed.value.uuid in f && placed.value.index == f[placed.value.uuid].gpu.index
              && f[placed.value.uuid].gpu.total - f[placed.value.uuid].gpu.allocatedVram >= amount)
    ensures result.Accepted? ==>
      && result.workerID == id && placed.Some? && placed.value.uuid in before.fleet && placed.value.uuid in after.fleet
      && id in after.workers && after.workers[id].tenantID == tenantID && after.workers[id].model.Some?
      && var rec, m := after.workers[id], after.workers[id].model.value;
         var was, gpu := before.fleet[placed.value.uuid].gpu, after.fleet[placed.value.uuid].gpu;
         && (request.Some? ==> m == request.value)
         && (request.None? ==> m.name == image && m.version == "" && m.vram == 8000)
         && rec.gpu == Some(GPUAssignment(placed.value.index, placed.value.uuid, m.vram))
         && m.name in gpu.loaded
         && (out.Healthy? ==>
               && rec.status == Running && rec.containerID == out.container && after.pool == before.pool + {id}
               && gpu.active == was.active + [id]
               && (0 <= was.allocatedVram <= was.total ==> gpu.allocatedVram == was.allocatedVram + m.vram))
         && (!out.Healthy? ==> rec.status == Terminating && after.pool == before.pool && id !in gpu.active)
  {
    hide Answers, Grants;
    var model := Requested(image, request);
    PlacedFields(before, model, placed);
    if result.Accepted? {
      hide Created;
      CreatedFields(before, maxWorkers, id, tenantID, model, placed.value, out, now);
      if 0 <= before.fleet[placed.value.uuid].gpu.allocatedVram <= before.fleet[placed.value.uuid].gpu.total {
        GrantedCounter(before.fleet, placed.value.uuid, model.vram);
      }
    }
  }

  class Handler {
    const pool: WorkerPool
    const scheduler: Scheduler
    ghost var created: map<string, WorkerState>   // every worker object made so far
    ghost var containers: map<string, string>     // the container engine: what was launched, and for whom
    ghost var terminated: set<string>
    ghost var removals: seq<string>

    ghost predicate Valid()
      reads this, pool, scheduler
    {
      && pool.Valid() && scheduler.Valid()
      && (forall id :: id in created ==> created[id].workerID == id)
      && (forall id :: id in pool.workers ==> id in created && created[id] == pool.workers[id])
    }

    ghost function Views(): map<string, Worker>
      reads this`created, created.Values
    {
      map id | id in created :: created[id].View()
    }

    /** The state of the step system these objects stand for. */
    ghost function View(): Shared
      reads this, pool, scheduler, scheduler.gpus.Values, created.Values
    {
      Shared(scheduler.View(), Views(), pool.workers.Keys, containers, terminated, removals)
    }

    constructor (pool: WorkerPool, scheduler: Scheduler)
      requires pool.Valid() && scheduler.Valid() && pool.workers == map[]
      ensures this.pool == pool && this.scheduler == scheduler
      ensures Valid()
      ensures View() == Shared(scheduler.View(), map[], {}, map[], {}, [])
    {
      this.pool := pool;
      this.scheduler := scheduler;
      this.created := map[];
      this.containers := map[];
      this.terminated := {};
      this.removals := [];
    }

    ghost predicate Knows(worker: WorkerState)
      reads this
    {
      worker.workerID in created && created[worker.workerID] == worker
    }

    // ----- the locked operations, one step of the system each

    method Transition(worker: WorkerState, next: Status, now: Instant) returns (ok: bool)
      requires Valid() && Knows(worker)
      modifies worker
      ensures Valid()
      ensures ok <==> CanMove(old(View()).workers[worker.workerID].status, next)
      ensures View() == Transitioned(old(View()), worker.workerID, next, now)
    {
      hide Scheduler.View;
      ok := worker.TransitionTo(next, now);
      assert View().workers == old(View()).workers[worker.workerID := worker.View()];
    }

    /** The engine has launched a container for the worker; its ID is recorded. */
    method RecordContainer(worker: WorkerState, c: string)
      requires Valid() && Knows(worker)
      modifies this`containers, worker
      ensures Valid()
      ensures View() == WithContainer(old(View()), worker.workerID, c)
    {
      containers := containers[c := worker.workerID];
      worker.SetContainerID(c);
      assert Views() == old(Views())[worker.workerID := worker.View()];
      assert scheduler.View() == old(scheduler.View());
    }

    method TerminateContainer(c: string)
      requires Valid()
      modifies this`terminated
      ensures Valid()
      ensures View() == Killed(old(View()), c)
    {
      terminated := terminated + {c};
    }

    method ReleaseVRAM(worker: WorkerState, uuid: string, amount: int64)
      requires Valid()
      modifies scheduler.gpus.Values
      ensures Valid()
      ensures View() == Released(old(View()), worker.workerID, uuid, amount)
    {
      scheduler.Release(uuid, worker.workerID, amount);
      assert View().workers == old(View()).workers;
    }

    method Remove(worker: WorkerState)
      requires Valid()
      modifies this`removals, pool
      ensures Valid()
      ensures pool.workers == old(pool.workers) - {worker.workerID}
      ensures View() == Removed(old(View()), worker.workerID)
    {
      hide Views, Scheduler.View, WorkerState.View;
      pool.RemoveWorker(worker.workerID);
      removals := removals + [worker.workerID];
      assert View().pool == old(View()).pool - {worker.workerID};
    }

    // ----- the tasks

    /** The teardown after the transition: what terminateWorker and the idle sweep's callback have in common. */
    method WrapUp(worker: WorkerState)
      requires Valid() && Knows(worker)
      modifies this`terminated, this`removals, pool, scheduler.gpus.Values
      ensures Valid()
      ensures pool.workers == old(pool.workers) - {worker.workerID}
      ensures View() == Wrapped(old(View()), worker.workerID)
    {
      var containerID := worker.containerID;
      assert View().workers[worker.workerID] == worker.View();
      if containerID != "" {
        TerminateContainer(containerID);
      }
      if worker.gpu.Some? && worker.model.Some? {
        ReleaseVRAM(worker, worker.gpu.value.uuid, worker.model.value.vram);
      }
      Remove(worker);
    }

    method TerminateWorker(worker: WorkerState, now: Instant)
      requires Valid() && Knows(worker)
      modifies this`terminated, this`removals, pool, scheduler.gpus.Values, worker
      ensures Valid()
      ensures View() == TornDown(old(View()), worker.workerID, now)
      ensures var before, id := old(View()), worker.workerID;
        && id in View().workers && View().workers == before.workers[id := View().workers[id]]
        && View().workers[id].status == Terminating && View().containers == before.containers
        && View().pool == before.pool - {id} && View().removals == before.removals + [id]
        && View().terminated == before.terminated + (if old(worker.containerID) != "" then {old(worker.containerID)} else {})
        && View().fleet.Keys == before.fleet.Keys
        && forall u :: u in before.fleet
                       && !(old(worker.gpu).Some? && old(worker.model).Some? && old(worker.gpu).value.uuid == u) ==>
             View().fleet[u] == before.fleet[u]
      ensures var before, id, rec := old(View()), worker.workerID, old(worker.View());
        rec.gpu.Some? && rec.model.Some? ==>
          var u, amount := rec.gpu.value.uuid, rec.model.value.vram;
          u in before.fleet ==>
            && u in View().fleet && View().fleet[u].gpu.loaded == before.fleet[u].gpu.loaded
            && (forall x :: x in View().fleet[u].gpu.active <==> x in before.fleet[u].gpu.active && x != id)
            && (0 <= amount <= before.fleet[u].gpu.allocatedVram ==>
                  View().fleet[u].gpu.allocatedVram == before.fleet[u].gpu.allocatedVram - amount)
            && (0 <= before.fleet[u].gpu.allocatedVram < amount ==> View().fleet[u].gpu.allocatedVram == 0)
    {
      hide TornDown, Wrapped;
      ghost var before := View();
      KnownRecord(worker);
      TornDownFields(before, worker.workerID, now);
      TearDown(worker, now);
    }

    method TearDown(worker: WorkerState, now: Instant)
      requires Valid() && Knows(worker)
      modifies this`terminated, this`removals, pool, scheduler.gpus.Values, worker
      ensures Valid()
      ensures View() == TornDown(old(View()), worker.workerID, now)
    {
      var _ := Transition(worker, Terminating, now);
      WrapUp(worker);
    }

    lemma KnownRecord(worker: WorkerState)
      requires Valid() && Knows(worker)
      ensures worker.workerID in View().workers && View().workers[worker.workerID] == worker.View()
    {
    }

    /** The start task, with the container engine's answers given. */
    method StartWorkerContainer(worker: WorkerState, out: StartOutcome, now: Instant)
      requires Valid() && Knows(worker)
      modifies this`containers, this`terminated, this`removals, pool, scheduler.gpus.Values, worker
      ensures Valid()
      ensures View() == StartedUp(old(View()), worker.workerID, out, now)
      ensures old(worker.status) != Pending ==> View() == old(View())
      // from PENDING, healthy: RUNNING on its container, and nobody else's state touched
      ensures var before, id := old(View()), worker.workerID;
        old(worker.status) == Pending && out.Healthy? ==>
          && id in View().workers && View().workers == before.workers[id := View().workers[id]]
          && View().workers[id].status == Running && View().workers[id].containerID == out.container
          && View().containers == before.containers[out.container := id] && View().terminated == before.terminated
          && View().pool == before.pool && View().fleet == before.fleet && View().removals == before.removals
      // from PENDING, failing anywhere: torn down, its container if there is one terminated, its VRAM given back
      ensures var before, id := old(View()), worker.workerID;
        old(worker.status) == Pending && !out.Healthy? ==>
          var c := if out.Unhealthy? then out.container else old(worker.containerID);
          && id in View().workers && View().workers == before.workers[id := View().workers[id]]
          && View().workers[id].status == Terminating
          && View().containers == (if out.Unhealthy? then before.containers[out.container := id] else before.containers)
          && View().terminated == before.terminated + (if c != "" then {c} else {})
          && View().pool == before.pool - {id} && View().removals == before.removals + [id]
          && View().fleet.Keys == before.fleet.Keys
          && forall u :: u in before.fleet
                         && !(old(worker.gpu).Some? && old(worker.model).Some? && old(worker.gpu).value.uuid == u) ==>
               View().fleet[u] == before.fleet[u]
      ensures var before, id, rec := old(View()), worker.workerID, old(worker.View());
        rec.status == Pending && !out.Healthy? && rec.gpu.Some? && rec.model.Some? ==>
          var u, amount := rec.gpu.value.uuid, rec.model.value.vram;
          u in before.fleet ==>
            && u in View().fleet && View().fleet[u].gpu.loaded == before.fleet[u].gpu.loaded
            && (forall x :: x in View().fleet[u].gpu.active <==> x in before.fleet[u].gpu.active && x != id)
            && (0 <= amount <= before.fleet[u].gpu.allocatedVram ==>
                  View().fleet[u].gpu.allocatedVram == before.fleet[u].gpu.allocatedVram - amount)
            && (0 <= before.fleet[u].gpu.allocatedVram < amount ==> View().fleet[u].gpu.allocatedVram == 0)
    {
      hide StartedUp;
      ghost var before := View();
      KnownRecord(worker);
      GoodStartFields(before, worker.workerID, out, now);
      if worker.status == Pending && !out.Healthy? {
        BadStartFields(before, worker.workerID, out, now);
      }
      Start(worker, out, now);
    }

    method Start(worker: WorkerState, out: StartOutcome, now: Instant)
      requires Valid() && Knows(worker)
      modifies this`containers, this`terminated, this`removals, pool, scheduler.gpus.Values, worker
      ensures Valid()
      ensures View() == StartedUp(old(View()), worker.workerID, out, now)
    {
      var ok := Transition(worker, Starting, now);
      if !ok {
        assert View().workers == old(View()).workers;
        return;
      }
      if out.PullFailed? || out.LaunchFailed? {
        TerminateWorker(worker, now);
        return;
      }
      RecordContainer(worker, out.container);
      if out.Unhealthy? {
        TerminateWorker(worker, now);
        return;
      }
      ok := Transition(worker, Running, now);
      if !ok {
        assert false;  // alone, the worker is still STARTING; the step system covers the start a deletion overtakes
      }
    }

    /**
     CreateWorker and its background task. `id` is the freshly drawn UUID; `placed` reports the answer Schedule gave.
     */
    method CreateWorker(image: string, tenantID: string, request: Option<ModelConfig>, id: string, out: StartOutcome,
                        now: Instant)
      returns (result: CreateResult, placed: Option<Placement>)
      requires Valid() && id !in created
      modifies this`created, this`containers, this`terminated, this`removals, pool, scheduler.gpus.Values
      ensures Valid()
      ensures result.BadRequest? <==> image == "" || tenantID == ""
      ensures result.BadRequest? ==> View() == old(View())
      // the refusals: no GPU with room, or room but a full pool; both leave everything as it was
      ensures image != "" && tenantID != "" ==>
        var before := old(View());
        && (result.ResourceExhausted? <==> placed.None?)
        && (result.QuotaExceeded? <==> placed.Some? && |before.pool| >= pool.maxWorkers)
        && (result.Accepted? <==> placed.Some? && |before.pool| < pool.maxWorkers)
        && (!result.Accepted? ==> View() == before)
      ensures image != "" && tenantID != "" ==>
        var f, amount := old(View()).fleet, if request.Some? then request.value.vram else 8000;
        (forall u :: u in f ==> 0 <= f[u].gpu.allocatedVram <= f[u].gpu.total) ==>
          && (placed.None? <==> forall u :: u in f ==> f[u].gpu.total - f[u].gpu.allocatedVram < amount)
          && (placed.Some? ==>
                && placed.value.uuid in f && placed.value.index == f[placed.value.uuid].gpu.index
                && f[placed.value.uuid].gpu.total - f[placed.value.uuid].gpu.allocatedVram >= amount)
      // an accepted request: the worker's record, its model the image under 8000 MB when the request names none; and where
      // it ends, in the pool and on its GPU's books when the start goes well, in neither when it fails
      ensures result.Accepted? ==>
        var before, after := old(View()), View();
        && result.workerID == id && placed.Some? && placed.value.uuid in before.fleet && placed.value.uuid in after.fleet
        && id in after.workers && after.workers[id].tenantID == tenantID && after.workers[id].model.Some?
        && var rec, m := after.workers[id], after.workers[id].model.value;
           var was, gpu := before.fleet[placed.value.uuid].gpu, after.fleet[placed.value.uuid].gpu;
           && (request.Some? ==> m == request.value)
           && (request.None? ==> m.name == image && m.version == "" && m.vram == 8000)
           && rec.gpu == Some(GPUAssignment(placed.value.index, placed.value.uuid, m.vram))
           && m.name in gpu.loaded
           && (out.Healthy? ==>
                 && rec.status == Running && rec.containerID == out.container && after.pool == before.pool + {id}
                 && gpu.active == was.active + [id]
                 && (0 <= was.allocatedVram <= was.total ==> gpu.allocatedVram == was.allocatedVram + m.vram))
           && (!out.Healthy? ==> rec.status == Terminating && after.pool == before.pool && id !in gpu.active)
      ensures (request.Some? ==> request.value.vram >= 0) ==>
        NewContainer(old(View()), out) && Sound(old(View()), pool.maxWorkers) ==> Sound(View(), pool.maxWorkers)
    {
      hide Sound, Created, Answers, Requested, Verdict, Views, Scheduler.View, WorkerState.View;
      ghost var before := View();
      FreshIsOut(id);
      result, placed := Create(image, tenantID, request, id, out, now);
      DefaultIsPositive(image, request);
      if image != "" && tenantID != "" {
        CreationFields(before, View(), pool.maxWorkers, image, tenantID, request, id, out, now, result, placed);
      }
    }

    lemma FreshIsOut(id: string)
      requires Valid() && id !in created
      ensures id !in View().pool
    {
    }

    /** The same in terms of the functions of `Requests`. */
    method Create(image: string, tenantID: string, request: Option<ModelConfig>, id: string, out: StartOutcome,
                  now: Instant)
      returns (result: CreateResult, placed: Option<Placement>)
      requires Valid() && id !in created
      modifies this`created, this`containers, this`terminated, this`removals, pool, scheduler.gpus.Values
      ensures Valid()
      ensures result.BadRequest? <==> image == "" || tenantID == ""
      ensures result.BadRequest? ==> View() == old(View())
      ensures var model := Requested(image, request);
        !result.BadRequest? ==>
          && Answers(old(View()).fleet, model.name, model.vram, placed)
          && result == Verdict(old(View()).pool, pool.maxWorkers, placed, id)
          && View() == if placed.None? then old(View())
                       else Created(old(View()), pool.maxWorkers, id, tenantID, model, placed.value, out, now)
      ensures Requested(image, request).vram >= 0 ==>
        NewContainer(old(View()), out) && Sound(old(View()), pool.maxWorkers) ==> Sound(View(), pool.maxWorkers)
    {
      hide Sound, Created, Answers;
      ghost var before := View();
      placed := None;
      if image == "" || tenantID == "" {
        return BadRequest, placed;
      }
      var model := Requested(image, request);
      result, placed := Place(tenantID, model, id, out, now);
      if placed.Some? && Sound(before, pool.maxWorkers) && NewContainer(before, out) && model.vram >= 0 {
        CreateRequestKeepsSound(before, pool.maxWorkers, id, tenantID, model, placed.value, out, now);
      }
    }

    /** CreateWorker once the request has been checked. */
    method Place(tenantID: string, model: ModelConfig, id: string, out: StartOutcome, now: Instant)
      returns (result: CreateResult, placed: Option<Placement>)
      requires Valid() && id !in created
      modifies this`created, this`containers, this`terminated, this`removals, pool, scheduler.gpus.Values
      ensures Valid()
      ensures Answers(old(View()).fleet, model.name, model.vram, placed)
      ensures result == Verdict(old(View()).pool, pool.maxWorkers, placed, id)
      ensures placed.None? ==> View() == old(View())
      ensures placed.Some? ==>
        View() == Created(old(View()), pool.maxWorkers, id, tenantID, model, placed.value, out, now)
    {
      hide Views, Scheduler.View, Answers, Created;
      placed := scheduler.Schedule(model.name, model.vram);
      if placed.None? {
        return ResourceExhausted, placed;
      }
      var added := Launch(tenantID, model, placed.value, id, out, now);
      result := if added then Accepted(id) else QuotaExceeded;
    }

    /** CreateWorker once a GPU has been chosen. */
    method Launch(tenantID: string, model: ModelConfig, gpu: Placement, id: string, out: StartOutcome, now: Instant)
      returns (added: bool)
      requires Valid() && id !in created
      modifies this`created, this`containers, this`terminated, this`removals, pool, scheduler.gpus.Values
      ensures Valid()
      ensures added <==> |old(View()).pool| < pool.maxWorkers
      ensures View() == Created(old(View()), pool.maxWorkers, id, tenantID, model, gpu, out, now)
    {
      hide Views, Scheduler.View, StartedUp, AllocateIn;
      var worker := NewRecord(tenantID, model, id, now);
      assert |pool.workers| == |pool.workers.Keys|;
      added := Admit(worker, model, gpu);
      if added {
        StartWorkerContainer(worker, out, now);
      }
    }

    method NewRecord(tenantID: string, model: ModelConfig, id: string, now: Instant) returns (worker: WorkerState)
      requires Valid()
      ensures fresh(worker) && worker.workerID == id
      ensures worker.View() == NewWorker(id, tenantID, Some(model), now)
      ensures View() == old(View())
    {
      worker := new WorkerState(id, tenantID, Some(model), now);
      assert Views() == old(Views());
    }

    /** CreateWorker from AddWorker to the assignment; the result of Allocate is not looked at. */
    method Admit(worker: WorkerState, model: ModelConfig, gpu: Placement) returns (added: bool)
      requires Valid() && worker.workerID !in created
      modifies this`created, pool, scheduler.gpus.Values, worker
      ensures Valid()
      ensures added <==> |old(pool.workers)| < pool.maxWorkers
      ensures added ==> Knows(worker)
      ensures added ==>
        var stored := StoredRecord(old(View()), worker.workerID, old(worker.View()));
        View() == Assigned(Reserved(stored, worker.workerID, model, gpu), worker.workerID, model, gpu)
      ensures !added ==> View() == old(View())
    {
      hide Views, Scheduler.View, WorkerState.View, AllocateIn;
      added := Store(worker);
      if added {
        AllocateVRAM(worker, model, gpu);
        AssignGPU(worker, model, gpu);
      }
    }

    /** AddWorker; a record the pool turns away is dropped. */
    method Store(worker: WorkerState) returns (added: bool)
      requires Valid() && worker.workerID !in created
      modifies this`created, pool
      ensures Valid()
      ensures added <==> |old(pool.workers)| < pool.maxWorkers
      ensures added ==> Knows(worker)
      ensures added ==> View() == StoredRecord(old(View()), worker.workerID, worker.View())
      ensures !added ==> View() == old(View())
    {
      hide Views, Scheduler.View, WorkerState.View;
      Adopt(worker);
      added := AddToPool(worker);
      if !added {
        Forget(worker);
        assert View().workers == old(View()).workers;
      }
    }

    ghost method Adopt(worker: WorkerState)
      requires Valid() && worker.workerID !in created
      modifies this`created
      ensures Valid() && Knows(worker)
      ensures View() == old(View()).(workers := old(View()).workers[worker.workerID := worker.View()])
      ensures worker.workerID !in old(View()).workers
    {
      created := created[worker.workerID := worker];
      assert Views() == old(Views())[worker.workerID := worker.View()];
    }

    ghost method Forget(worker: WorkerState)
      requires Valid() && worker.workerID !in pool.workers
      modifies this`created
      ensures Valid()
      ensures View() == old(View()).(workers := old(View()).workers - {worker.workerID})
    {
      created := created - {worker.workerID};
      assert Views() == old(Views()) - {worker.workerID};
    }

    method AddToPool(worker: WorkerState) returns (added: bool)
      requires Valid() && Knows(worker)
      modifies pool
      ensures Valid()
      ensures added <==> |old(pool.workers)| < pool.maxWorkers
      ensures View() == if added then old(View()).(pool := old(View()).pool + {worker.workerID}) else old(View())
      ensures !added ==> pool.workers == old(pool.workers)
    {
      hide Scheduler.View, WorkerState.View;
      added := pool.AddWorker(worker);
      assert Views() == old(Views());
      assert added ==> pool.workers.Keys == old(pool.workers.Keys) + {worker.workerID};
    }

    method AllocateVRAM(worker: WorkerState, model: ModelConfig, gpu: Placement)
      requires Valid()
      modifies scheduler.gpus.Values
      ensures Valid()
      ensures View() == Reserved(old(View()), worker.workerID, model, gpu)
    {
      var _ := scheduler.Allocate(gpu.uuid, worker.workerID, model.name, model.vram);
      assert View().workers == old(View()).workers;
    }

    method AssignGPU(worker: WorkerState, model: ModelConfig, gpu: Placement)
      requires Valid() && Knows(worker)
      modifies worker
      ensures Valid()
      ensures View() == Assigned(old(View()), worker.workerID, model, gpu)
    {
      worker.SetGPUAssignment(Some(GPUAssignment(gpu.index, gpu.uuid, model.vram)));
      assert View().workers == old(View()).workers[worker.workerID := worker.View()];
    }

    /** DeleteWorker and its background task. */
    method DeleteWorker(id: string, now: Instant) returns (found: bool)
      requires Valid()
      modifies this`terminated, this`removals, pool, scheduler.gpus.Values, created.Values
      ensures Valid()
      ensures found <==> id in old(View()).pool
      ensures !found ==> View() == old(View())
      ensures found ==>
        && id in View().workers && View().workers[id].status == Terminating
        && View().pool == old(View()).pool - {id} && View().removals == old(View()).removals + [id]
      ensures View() == Deleted(old(View()), id, now)
      ensures Sound(old(View()), pool.maxWorkers) ==> Sound(View(), pool.maxWorkers)
    {
      hide Sound;
      if Sound(View(), pool.maxWorkers) {
        DeletedKeepsSound(View(), pool.maxWorkers, id, now);
      }
      if id !in pool.workers {
        return false;
      }
      TerminateWorker(pool.workers[id], now);
      return true;
    }

    /** The callback main passes to the idle checker. */
    method IdleTerminate(id: string)
      requires Valid()
      modifies this`terminated, this`removals, pool, scheduler.gpus.Values
      ensures Valid()
      ensures pool.workers == old(pool.workers) - {id}
      ensures View() == Evicted(old(View()), id)
      ensures id in old(pool.workers) ==>
        var before := old(View());
        && id in before.workers && View().workers == before.workers && View().containers == before.containers
        && View().pool == before.pool - {id} && View().removals == before.removals + [id]
        && var rec := before.workers[id];
           && View().terminated == before.terminated + (if rec.containerID != "" then {rec.containerID} else {})
           && View().fleet.Keys == before.fleet.Keys
           && forall u :: u in before.fleet && !(rec.gpu.Some? && rec.model.Some? && rec.gpu.value.uuid == u) ==>
                View().fleet[u] == before.fleet[u]
      ensures id in old(pool.workers) ==>
        var before := old(View());
        var rec := before.workers[id];
        rec.gpu.Some? && rec.model.Some? ==>
          var u, amount := rec.gpu.value.uuid, rec.model.value.vram;
          u in before.fleet ==>
            && u in View().fleet && View().fleet[u].gpu.loaded == before.fleet[u].gpu.loaded
            && (forall x :: x in View().fleet[u].gpu.active <==> x in before.fleet[u].gpu.active && x != id)
            && (0 <= amount <= before.fleet[u].gpu.allocatedVram ==>
                  View().fleet[u].gpu.allocatedVram == before.fleet[u].gpu.allocatedVram - amount)
            && (0 <= before.fleet[u].gpu.allocatedVram < amount ==> View().fleet[u].gpu.allocatedVram == 0)
      ensures id !in old(pool.workers) ==> View() == old(View())
    {
      hide Wrapped;
      if id in pool.workers {
        KnownRecord(pool.workers[id]);
        EvictedFields(View(), id);
        WrapUp(pool.workers[id]);
      }
    }

    /** One worker's turn in the sweep. */
    method Visit(id: string, now: Instant) returns (evicted: bool)
      requires Valid() && id in pool.workers
      modifies this`terminated, this`removals, pool, scheduler.gpus.Values
      ensures Valid()
      ensures evicted <==> IdleTooLong(old(View()).workers[id], now, pool.idleTimeout)
      ensures var rec := old(View()).workers[id];
        var last := if rec.metrics.Some? && rec.metrics.value.lastRequestAt.Some? then rec.metrics.value.lastRequestAt.value
                    else rec.updatedAt;
        evicted <==> rec.status == Idle && now - last > pool.idleTimeout && pool.idleTimeout < 0x7FFF_FFFF_FFFF_FFFF
      ensures pool.workers == if evicted then old(pool.workers) - {id} else old(pool.workers)
      ensures View() == if evicted then Evicted(old(View()), id) else old(View())
    {
      var worker := pool.workers[id];
      assert View().workers[id] == worker.View();
      if worker.status != Idle {
        return false;
      }
      var lastActivity;
      if worker.metrics.Some? && worker.metrics.value.lastRequestAt.Some? {
        lastActivity := worker.metrics.value.lastRequestAt.value;
      } else {
        lastActivity := worker.updatedAt;
      }
      if Elapsed(now, lastActivity) > pool.idleTimeout {
        IdleTerminate(id);
        return true;
      }
      return false;
    }

    lemma PoolIsKnown()
      requires Valid()
      ensures View().pool == pool.workers.Keys <= View().workers.Keys
    {
    }

    /** The Range over the pool, in any order, that removes entries as it goes; `order` lists the evictions. */
    method RangeIdle(now: Instant) returns (ghost order: seq<string>)
      requires Valid()
      modifies this`terminated, this`removals, pool, scheduler.gpus.Values
      ensures Valid()
      ensures NoDuplicates(order) && Elements(order) == Expired(old(View()), now, pool.idleTimeout)
      ensures View() == EvictedAll(old(View()), order)
    {
      hide Evicted, EvictedAll, Expired, Progress, Views, Scheduler.View, WorkerState.View, NoDuplicates, Elements;
      order := [];
      ghost var before := View();
      PoolIsKnown();
      EvictedNone(before);
      var todo := pool.workers.Keys;
      ProgressStart(before, todo, now, pool.idleTimeout);
      while todo != {}
        invariant Valid()
        invariant todo <= before.pool && todo <= pool.workers.Keys
        invariant Progress(before, order, todo, now, pool.idleTimeout)
        invariant View() == EvictedAll(before, order)
      {
        var id :| id in todo;
        assert todo == (todo - {id}) + {id};
        todo := todo - {id};
        EvictedAllPool(before, order);
        var evicted := Visit(id, now);
        ProgressStep(before, order, todo, id, now, pool.idleTimeout);
        if evicted {
          EvictedAllSnoc(before, order, id);
          order := order + [id];
        }
      }
      ProgressEnd(before, order, now, pool.idleTimeout);
    }

    /**
     The idle sweep evicts exactly the expired workers, one after the other in some order, and leaves sound books sound.
     */
    method CheckIdleWorkers(now: Instant) returns (ghost order: seq<string>)
      requires Valid()
      modifies this`terminated, this`removals, pool, scheduler.gpus.Values
      ensures Valid()
      ensures NoDuplicates(order) && Elements(order) == Expired(old(View()), now, pool.idleTimeout)
      ensures View() == EvictedAll(old(View()), order)
      ensures View().pool == old(View()).pool - Expired(old(View()), now, pool.idleTimeout)
      // who that is: the IDLE workers whose last request, or last change if they had none, is longer ago than the timeout
      ensures View().pool <= old(View()).pool <= old(View()).workers.Keys && View().workers == old(View()).workers
      ensures forall id :: id in old(View()).pool ==>
        var rec := old(View()).workers[id];
        var last := if rec.metrics.Some? && rec.metrics.value.lastRequestAt.Some? then rec.metrics.value.lastRequestAt.value
                    else rec.updatedAt;
        id !in View().pool <==>
          rec.status == Idle && now - last > pool.idleTimeout && pool.idleTimeout < 0x7FFF_FFFF_FFFF_FFFF
      ensures Sound(old(View()), pool.maxWorkers) ==>
        forall c :: c in old(View()).containers && old(View()).containers[c] in old(View()).pool - View().pool ==>
          c in View().terminated
      ensures Sound(old(View()), pool.maxWorkers) ==> Sound(View(), pool.maxWorkers) && BooksAgree(View())
      ensures Sound(old(View()), pool.maxWorkers) ==>
        var before, gone := old(View()), Expired(old(View()), now, pool.idleTimeout);
        && View().fleet.Keys == before.fleet.Keys
        && forall u :: u in before.fleet ==>
             View().fleet[u].gpu.allocatedVram ==
               before.fleet[u].gpu.allocatedVram - LoadOf(before, u, gone * Residents(before, u))
    {
      hide Sound, BooksAgree, Evicted, LoadOf, Scheduler.View, WorkerState.View;
      ghost var before := View();
      PoolIsKnown();
      forall id | id in before.pool {
        ExpiredIff(before, now, pool.idleTimeout, id);
      }
      order := RangeIdle(now);
      EvictedAllPool(before, order);
      if Sound(before, pool.maxWorkers) {
        SweepIsExact(before, pool.maxWorkers, order, now, pool.idleTimeout);
      }
    }
  }

  /** Part way through the sweep, with `todo` still to visit: the expired among the visited have been evicted, once each. */
  ghost predicate Progress(sh: Shared, order: seq<string>, todo: set<string>, now: Instant, timeout: int64) {
    NoDuplicates(order) && forall id :: id in order <==> id in Expired(sh, now, timeout) && id !in todo
  }

  lemma ProgressStart(sh: Shared, todo: set<string>, now: Instant, timeout: int64)
    requires todo == sh.pool
    ensures Progress(sh, [], todo, now, timeout)
  {
  }

  lemma ProgressStep(sh: Shared, order: seq<string>, todo: set<string>, id: string, now: Instant, timeout: int64)
    requires Progress(sh, order, todo + {id}, now, timeout)
    requires id !in todo && id in sh.pool && id in sh.workers
    ensures IdleTooLong(sh.workers[id], now, timeout) ==> Progress(sh, order + [id], todo, now, timeout)
    ensures !IdleTooLong(sh.workers[id], now, timeout) ==> Progress(sh, order, todo, now, timeout)
  {
    assert forall x :: x in order + [id] <==> x in order || x == id;
  }

  lemma ProgressEnd(sh: Shared, order: seq<string>, now: Instant, timeout: int64)
    requires Progress(sh, order, {}, now, timeout)
    ensures NoDuplicates(order) && Elements(order) == Expired(sh, now, timeout)
  {
  }

  lemma EvictedNone(sh: Shared)
    ensures EvictedAll(sh, []) == sh
  {
  }

  lemma EvictedAllSnoc(sh: Shared, ids: seq<string>, last: string)
    requires sh.pool <= sh.workers.Keys
    ensures EvictedAll(sh, ids + [last]) == Evicted(EvictedAll(sh, ids), last)
    ensures EvictedAll(sh, ids + [last]).pool == sh.pool - Elements(ids + [last])
    ensures EvictedAll(sh, ids + [last]).workers == sh.workers
  {
    assert (ids + [last])[..|ids|] == ids;
    EvictedAllPool(sh, ids + [last]);
  }
}
