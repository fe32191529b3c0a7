/** The scheduler object: the GPUs it tracks, the choice of a GPU for a model, and the choice of a worker. */
module Scheduling {
  import opened Machine
  import opened Lifecycle
  import opened Workers
  import opened Accounts
  import opened Pools

  class GPUResidency {
    const uuid: string
    const index: int
    const total: int64
    var allocatedVram: int64
    var loadedModels: set<string>
    var activeWorkers: seq<string>
    ghost var ledger: seq<Reservation>  // reservations granted here and not released

    ghost function View(): Account
      reads this
    {
      Account(Gpu(uuid, index, total, allocatedVram, loadedModels, activeWorkers), ledger)
    }

    constructor (uuid: string, index: int, total: int64)
      ensures View() == NewAccount(uuid, index, total)
      ensures this.uuid == uuid && this.index == index && this.total == total
      ensures allocatedVram == 0 && loadedModels == {} && activeWorkers == [] && ledger == []
    {
      this.uuid := uuid;
      this.index := index;
      this.total := total;
      this.allocatedVram := 0;
      this.loadedModels := {};
      this.activeWorkers := [];
      this.ledger := [];
    }

    function Available(): int64
      reads this
    {
      Sub64(total, allocatedVram)
    }
  }

  // ----- tiers of worker selection

  /** Which of the four explanations the selection carries. */
  datatype Tier = WarmHit | Repurpose | ColdStart | Exhausted

  datatype Selection = Selection(worker: WorkerState?, isWarmHit: bool, isColdHit: bool, reason: Tier)

  const DEFAULT_VRAM: int64 := 8000

  ghost predicate IdleListed(p: Snapshot, tenant: string, id: string) {
    Listed(p, tenant, id) && p[id].status == Idle
  }

  ghost predicate WarmWorker(p: Snapshot, tenant: string, model: string) {
    exists id :: IdleListed(p, tenant, id) && RunsModel(p[id], model)
  }

  ghost predicate BigEnough(w: Worker, amount: int64) {
    w.gpu.Some? && w.gpu.value.memory >= amount
  }

  ghost predicate RoomyWorker(p: Snapshot, tenant: string, amount: int64) {
    exists id :: IdleListed(p, tenant, id) && BigEnough(p[id], amount)
  }

  ghost predicate IdleWorker(p: Snapshot, tenant: string) {
    exists id :: IdleListed(p, tenant, id)
  }

  /** The tier SelectWorkerForModel must report, a function of the state and not of any listing order. */
  ghost function TierForModel(p: Snapshot, f: Fleet, model: string, amount: int64, tenant: string): Tier {
    if WarmWorker(p, tenant, model) then WarmHit
    else if RoomyWorker(p, tenant, amount) then Repurpose
    else if AnyRoom(f, amount) then ColdStart
    else Exhausted
  }

  ghost function TierOf(p: Snapshot, f: Fleet, model: string, tenant: string): Tier {
    if WarmWorker(p, tenant, model) then WarmHit
    else if IdleWorker(p, tenant) then Repurpose
    else if AnyRoom(f, DEFAULT_VRAM) then ColdStart
    else Exhausted
  }

  lemma WarmIsIdle(p: Snapshot, tenant: string, model: string)
    ensures WarmWorker(p, tenant, model) ==> IdleWorker(p, tenant)
  {
  }

  function Rank(t: Tier): nat {
    match t
    case WarmHit => 0
    case Repurpose => 1
    case ColdStart => 2
    case Exhausted => 3
  }

  /** Asking for less VRAM never gives a worse tier. */
  lemma LessVramNoWorse(p: Snapshot, f: Fleet, model: string, less: int64, more: int64, tenant: string)
    requires less <= more
    ensures Rank(TierForModel(p, f, model, less, tenant)) <= Rank(TierForModel(p, f, model, more, tenant))
    ensures var a, b := TierForModel(p, f, model, less, tenant), TierForModel(p, f, model, more, tenant);
      && (b.WarmHit? ==> a.WarmHit?) && (b.Repurpose? ==> a.WarmHit? || a.Repurpose?) && (a.Exhausted? ==> b.Exhausted?)
  {
    if RoomyWorker(p, tenant, more) {
      var id :| IdleListed(p, tenant, id) && BigEnough(p[id], more);
      assert IdleListed(p, tenant, id) && BigEnough(p[id], less);
    }
    if AnyRoom(f, more) {
      var u :| Grants(f, u, more);
      RoomIsMonotone(f, u, less, more);
    }
  }

  ghost predicate SelectorsAgreeOn(p: Snapshot, f: Fleet, model: string, amount: int64, tenant: string) {
    && (TierOf(p, f, model, tenant) == WarmHit <==> TierForModel(p, f, model, amount, tenant) == WarmHit)
    && (TierOf(p, f, model, tenant) == WarmHit <==> Findable(p, tenant, model))
  }

  /** The three selectors agree on a warm hit in every state exactly when the tenant is not the empty one. */
  lemma SelectorsAgreeIff(f: Fleet, model: string, amount: int64, tenant: string)
    ensures (forall p :: SelectorsAgreeOn(p, f, model, amount, tenant)) <==> tenant != ""
  {
    if tenant != "" {
      forall p ensures SelectorsAgreeOn(p, f, model, amount, tenant) {
        SelectorsAgree(p, f, model, amount, tenant);
      }
    } else {
      var w := NewWorker("w", "t", Some(ModelConfig(model, "", 0)), 0).(status := Idle);
      var p: Snapshot := map["w" := w];
      assert IdleListed(p, tenant, "w") && RunsModel(p["w"], model);
      assert !Findable(p, tenant, model);
      assert !SelectorsAgreeOn(p, f, model, amount, tenant);
    }
  }

  lemma SelectorsAgree(p: Snapshot, f: Fleet, model: string, amount: int64, tenant: string)
    requires tenant != ""
    ensures SelectorsAgreeOn(p, f, model, amount, tenant)
  {
    if WarmWorker(p, tenant, model) {
      var id :| IdleListed(p, tenant, id) && RunsModel(p[id], model);
      assert Matches(p, tenant, model, id);
    }
    if Findable(p, tenant, model) {
      var id :| Matches(p, tenant, model, id);
      assert IdleListed(p, tenant, id);
    }
  }

  lemma QueriesFit(f: Fleet, model: string, amount: int64, answer: Option<Placement>, slices: map<string, bool>)
    requires Answers(f, model, amount, answer)
    requires slices.Keys == f.Keys && forall u :: u in f ==> (slices[u] <==> Grants(f, u, amount))
    ensures answer.None? <==> !AnyRoom(f, amount)
    ensures !AnyRoom(f, amount) <==> forall u :: u in slices ==> !slices[u]
    ensures answer.Some? ==> answer.value.uuid in slices && slices[answer.value.uuid]
  {
    if answer.Some? {
      assert Grants(f, answer.value.uuid, amount);
    }
  }

  // ----- the scheduler

  class Scheduler {
    var gpus: map<string, GPUResidency>

    ghost predicate Valid()
      reads this
    {
      forall u :: u in gpus ==> gpus[u].uuid == u
    }

    ghost function View(): Fleet
      reads this, gpus.Values
    {
      map u | u in gpus :: gpus[u].View()
    }

    constructor ()
      ensures Valid() && gpus == map[]
    {
      gpus := map[];
    }

    method RegisterGPU(uuid: string, index: int, totalVRAMMB: int64)
      requires Valid()
      modifies this
      ensures Valid()
      ensures View() == RegisterIn(old(View()), uuid, index, totalVRAMMB)
      ensures gpus.Keys == old(gpus).Keys + {uuid} && fresh(gpus[uuid])
      ensures forall u :: u in old(gpus) && u != uuid ==> gpus[u] == old(gpus)[u]
      ensures gpus[uuid].index == index && gpus[uuid].total == totalVRAMMB
      ensures gpus[uuid].allocatedVram == 0 && gpus[uuid].loadedModels == {} && gpus[uuid].activeWorkers == []
    {
      var gpu := new GPUResidency(uuid, index, totalVRAMMB);
      gpus := gpus[uuid := gpu];
    }

    /** The GPU has the room: with its counter in range, in plain arithmetic. */
    lemma GrantsIff(u: string, amount: int64)
      requires Valid() && u in gpus && 0 <= gpus[u].allocatedVram <= gpus[u].total
      ensures Grants(View(), u, amount) <==> gpus[u].total - gpus[u].allocatedVram >= amount
      ensures View()[u].gpu.Free() == gpus[u].total - gpus[u].allocatedVram
    {
    }

    lemma AnyRoomIff(amount: int64)
      requires Valid() && forall u :: u in gpus ==> 0 <= gpus[u].allocatedVram <= gpus[u].total
      ensures AnyRoom(View(), amount) <==> exists u :: u in gpus && gpus[u].total - gpus[u].allocatedVram >= amount
    {
      hide Grants;
      forall u | u in gpus ensures Grants(View(), u, amount) <==> gpus[u].total - gpus[u].allocatedVram >= amount {
        GrantsIff(u, amount);
      }
      if AnyRoom(View(), amount) {
        var u :| Grants(View(), u, amount);
        GrantsKnown(u, amount);
      }
    }

    lemma GrantsKnown(u: string, amount: int64)
      requires Grants(View(), u, amount)
      ensures u in gpus
    {
    }

    /** What an answer of Schedule says of the GPUs themselves, their counters being in range. */
    lemma AnswersFields(modelName: string, amount: int64, answer: Option<Placement>)
      requires Valid() && Answers(View(), modelName, amount, answer)
      requires forall u :: u in gpus ==> 0 <= gpus[u].allocatedVram <= gpus[u].total
      ensures answer.None? <==> forall u :: u in gpus ==> gpus[u].total - gpus[u].allocatedVram < amount
      ensures answer.Some? ==>
        && answer.value.uuid in gpus
        && var c := gpus[answer.value.uuid];
           && answer.value.index == c.index && answer.value.available == c.total - c.allocatedVram >= amount
           && answer.value.warm == (modelName in c.loadedModels)
           && forall u :: u in gpus && gpus[u].total - gpus[u].allocatedVram >= amount ==>
                && (modelName in gpus[u].loadedModels ==> answer.value.warm)
                && ((modelName in gpus[u].loadedModels) == answer.value.warm ==>
                      gpus[u].total - gpus[u].allocatedVram <= answer.value.available)
    {
      AnyRoomIff(amount);
      forall u | u in gpus
        ensures Grants(View(), u, amount) <==> gpus[u].total - gpus[u].allocatedVram >= amount
        ensures View()[u].gpu.Free() == gpus[u].total - gpus[u].allocatedVram
      {
        GrantsIff(u, amount);
      }
    }

    /** sort.Slice by free VRAM, largest first, looked at only for its head: some GPU with the most free VRAM. */
    method MostFree(candidates: seq<GPUResidency>) returns (gpu: GPUResidency)
      requires candidates != []
      ensures gpu in candidates
      ensures forall g :: g in candidates ==> g.Available() <= gpu.Available()
    {
      gpu := candidates[0];
      for i := 1 to |candidates|
        invariant gpu in candidates
        invariant forall j :: 0 <= j < i ==> candidates[j].Available() <= gpu.Available()
      {
        var tie: bool := *;  // the sort is not stable: either of two equals may come first
        if candidates[i].Available() > gpu.Available() || (candidates[i].Available() == gpu.Available() && tie) {
          gpu := candidates[i];
        }
      }
    }

    method Schedule(modelName: string, vramRequirement: int64) returns (answer: Option<Placement>)
      requires Valid()
      ensures Answers(View(), modelName, vramRequirement, answer)
      ensures (forall u :: u in gpus ==> 0 <= gpus[u].allocatedVram <= gpus[u].total) ==>
        && (answer.None? <==> forall u :: u in gpus ==> gpus[u].total - gpus[u].allocatedVram < vramRequirement)
        && (answer.Some? ==>
              && answer.value.uuid in gpus
              && var c := gpus[answer.value.uuid];
                 && answer.value.index == c.index
                 && answer.value.available == c.total - c.allocatedVram >= vramRequirement
                 && answer.value.warm == (modelName in c.loadedModels)
                 && forall u :: u in gpus && gpus[u].total - gpus[u].allocatedVram >= vramRequirement ==>
                      && (modelName in gpus[u].loadedModels ==> answer.value.warm)
                      && ((modelName in gpus[u].loadedModels) == answer.value.warm ==>
                            gpus[u].total - gpus[u].allocatedVram <= answer.value.available))
    {
      answer := Choose(modelName, vramRequirement);
      if forall u :: u in gpus ==> 0 <= gpus[u].allocatedVram <= gpus[u].total {
        AnswersFields(modelName, vramRequirement, answer);
      }
    }

    /** The two candidate lists and the choice from them. */
    method Choose(modelName: string, vramRequirement: int64) returns (answer: Option<Placement>)
      requires Valid()
      ensures Answers(View(), modelName, vramRequirement, answer)
    {
      var warm: seq<GPUResidency> := [];
      var cold: seq<GPUResidency> := [];
      var todo := gpus.Keys;
      while todo != {}
        invariant todo <= gpus.Keys
        invariant forall g :: g in warm <==>
          Seen(g, todo) && g.Available() >= vramRequirement && modelName in g.loadedModels
        invariant forall g :: g in cold <==>
          Seen(g, todo) && g.Available() >= vramRequirement && modelName !in g.loadedModels
      {
        var u :| u in todo;
        var gpu := gpus[u];
        todo := todo - {u};
        if gpu.Available() >= vramRequirement {
          if modelName in gpu.loadedModels {
            warm := warm + [gpu];
          } else {
            cold := cold + [gpu];
          }
        }
      }
      forall u | u in gpus
        ensures Grants(View(), u, vramRequirement) <==> gpus[u] in warm || gpus[u] in cold
      {
        assert Seen(gpus[u], {});
      }
      if |warm| > 0 {
        var gpu := MostFree(warm);
        assert Grants(View(), gpu.uuid, vramRequirement);
        return Some(Placement(gpu.uuid, gpu.index, true, gpu.Available()));
      }
      if |cold| > 0 {
        var gpu := MostFree(cold);
        assert Grants(View(), gpu.uuid, vramRequirement);
        return Some(Placement(gpu.uuid, gpu.index, false, gpu.Available()));
      }
      return None;
    }

    ghost predicate Seen(g: GPUResidency, todo: set<string>)
      reads this
    {
      g.uuid in gpus && g.uuid !in todo && gpus[g.uuid] == g
    }

    method Allocate(gpuUUID: string, workerID: string, modelName: string, vramMB: int64) returns (ok: bool)
      requires Valid()
      modifies gpus.Values
      ensures Valid()
      ensures ok <==> Grants(old(View()), gpuUUID, vramMB)
      ensures View() == AllocateIn(old(View()), gpuUUID, workerID, modelName, vramMB)
      ensures gpuUUID in gpus && 0 <= old(gpus[gpuUUID].allocatedVram) <= gpus[gpuUUID].total ==>
        var gpu := gpus[gpuUUID];
        && (ok <==> gpu.total - old(gpu.allocatedVram) >= vramMB)
        && (ok ==> gpu.allocatedVram == old(gpu.allocatedVram) + vramMB
                   && gpu.loadedModels == old(gpu.loadedModels) + {modelName}
                   && gpu.activeWorkers == old(gpu.activeWorkers) + [workerID])
      ensures !ok ==> forall u :: u in gpus ==> gpus[u].View() == old(gpus[u].View())
      ensures ok ==> gpuUUID in gpus && forall u :: u in gpus && u != gpuUUID ==> gpus[u].View() == old(gpus[u].View())
    {
      if gpuUUID !in gpus {
        return false;
      }
      var gpu := gpus[gpuUUID];
      if Sub64(gpu.total, gpu.allocatedVram) < vramMB {
        return false;
      }
      gpu.allocatedVram := Add64(gpu.allocatedVram, vramMB);
      gpu.loadedModels := gpu.loadedModels + {modelName};
      gpu.activeWorkers := gpu.activeWorkers + [workerID];
      gpu.ledger := gpu.ledger + [Reservation(workerID, modelName, vramMB)];
      return true;
    }

    /** Release's loop over the active list. */
    method StillActive(workers: seq<string>, workerID: string) returns (rest: seq<string>)
      ensures rest == Without(workers, workerID)
    {
      rest := [];
      for i := 0 to |workers|
        invariant rest == Without(workers[..i], workerID)
      {
        assert workers[..i + 1][..i] == workers[..i];
        if workers[i] != workerID {
          rest := rest + [workers[i]];
        }
      }
      assert workers[..|workers|] == workers;
    }

    method Release(gpuUUID: string, workerID: string, vramMB: int64)
      requires Valid()
      modifies gpus.Values
      ensures Valid()
      ensures View() == ReleaseIn(old(View()), gpuUUID, workerID, vramMB)
      ensures gpuUUID in gpus ==>
        var gpu := gpus[gpuUUID];
        && (0 <= vramMB <= old(gpu.allocatedVram) ==> gpu.allocatedVram == old(gpu.allocatedVram) - vramMB)
        && (0 <= old(gpu.allocatedVram) < vramMB ==> gpu.allocatedVram == 0)
        && (forall w :: w in gpu.activeWorkers <==> w in old(gpu.activeWorkers) && w != workerID)
        && gpu.loadedModels == old(gpu.loadedModels)
      ensures forall u :: u in gpus && u != gpuUUID ==> gpus[u].View() == old(gpus[u].View())
    {
      hide Settle, Without;
      if gpuUUID !in gpus {
        return;
      }
      var gpu := gpus[gpuUUID];
      gpu.allocatedVram := Sub64(gpu.allocatedVram, vramMB);
      if gpu.allocatedVram < 0 {
        gpu.allocatedVram := 0;
      }
      gpu.activeWorkers := StillActive(gpu.activeWorkers, workerID);
      gpu.ledger := Settle(gpu.ledger, workerID, vramMB);
    }

    method HasAvailableGPU(vramRequirement: int64) returns (available: bool)
      requires Valid()
      ensures available <==> AnyRoom(View(), vramRequirement)
      ensures (forall u :: u in gpus ==> 0 <= gpus[u].allocatedVram <= gpus[u].total) ==>
        (available <==> exists u :: u in gpus && gpus[u].total - gpus[u].allocatedVram >= vramRequirement)
    {
      if forall u :: u in gpus ==> 0 <= gpus[u].allocatedVram <= gpus[u].total {
        AnyRoomIff(vramRequirement);
      }
      var todo := gpus.Keys;
      while todo != {}
        invariant todo <= gpus.Keys
        invariant forall u :: u in gpus && u !in todo ==> !Grants(View(), u, vramRequirement)
      {
        var u :| u in todo;
        todo := todo - {u};
        if gpus[u].Available() >= vramRequirement {
          assert Grants(View(), u, vramRequirement);
          return true;
        }
      }
      return false;
    }

    method CanSliceGPU(gpuUUID: string, additionalVRAM: int64) returns (ok: bool)
      requires Valid()
      ensures ok <==> Grants(View(), gpuUUID, additionalVRAM)
      ensures gpuUUID in gpus && 0 <= gpus[gpuUUID].allocatedVram <= gpus[gpuUUID].total ==>
        (ok <==> gpus[gpuUUID].total - gpus[gpuUUID].allocatedVram >= additionalVRAM)
      ensures ok ==> gpuUUID in gpus
    {
      if gpuUUID !in gpus {
        return false;
      }
      return gpus[gpuUUID].Available() >= additionalVRAM;
    }

    /** CanSliceGPU asked of every registered GPU. */
    method SlicesEverywhere(amount: int64) returns (slices: map<string, bool>)
      requires Valid()
      ensures slices.Keys == gpus.Keys == View().Keys
      ensures forall u :: u in slices ==> (slices[u] <==> Grants(View(), u, amount))
    {
      slices := map[];
      var todo := gpus.Keys;
      while todo != {}
        invariant todo <= gpus.Keys && slices.Keys == gpus.Keys - todo
        invariant forall u :: u in slices ==> (slices[u] <==> Grants(View(), u, amount))
      {
        var u :| u in todo;
        todo := todo - {u};
        var ok := CanSliceGPU(u, amount);
        slices := slices[u := ok];
      }
    }

    /** The three capacity queries, asked one after the other with nothing interleaved, give answers that fit together. */
    method AskCapacity(modelName: string, amount: int64)
      returns (answer: Option<Placement>, available: bool, slices: map<string, bool>)
      requires Valid()
      ensures slices.Keys == gpus.Keys
      ensures answer.None? <==> !available
      ensures !available <==> forall u :: u in slices ==> !slices[u]
      ensures answer.Some? ==> answer.value.uuid in slices && slices[answer.value.uuid]
      ensures answer.Some? ==> Grants(View(), answer.value.uuid, amount)
    {
      hide View, Answers, AnyRoom, Grants;
      answer := Schedule(modelName, amount);
      available := HasAvailableGPU(amount);
      slices := SlicesEverywhere(amount);
      QueriesFit(View(), modelName, amount, answer, slices);
    }

    /** An Allocate that follows on the GPU Schedule chose succeeds. */
    method AskThenAllocate(modelName: string, amount: int64, workerID: string)
      returns (answer: Option<Placement>, available: bool, slices: map<string, bool>, reserved: bool)
      requires Valid()
      modifies gpus.Values
      ensures Valid() && slices.Keys == gpus.Keys
      ensures reserved <==> answer.Some?
      ensures reserved <==> available
      ensures reserved <==> exists u :: u in slices && slices[u]
      ensures View() == if reserved then AllocateIn(old(View()), answer.value.uuid, workerID, modelName, amount) else old(View())
    {
      hide View, AllocateIn;
      answer, available, slices := AskCapacity(modelName, amount);
      reserved := false;
      if answer.Some? {
        reserved := Allocate(answer.value.uuid, workerID, modelName, amount);
      }
    }

    /** `list` names each worker of the tenant in the pool, in some order. */
    ghost predicate IsListing(list: seq<WorkerState>, pool: WorkerPool, tenant: string)
      reads pool, pool.workers.Values
    {
      && (forall w :: w in list ==>
            w.workerID in pool.workers && pool.workers[w.workerID] == w && Listed(pool.View(), tenant, w.workerID))
      && (forall id :: Listed(pool.View(), tenant, id) ==> pool.workers[id] in list)
    }

    /** The first idle worker of a listing that runs the model, or null. */
    method FirstWarm(list: seq<WorkerState>, modelName: string, ghost pool: WorkerPool, ghost tenant: string)
      returns (worker: WorkerState?)
      requires IsListing(list, pool, tenant)
      ensures worker == null <==> !WarmWorker(pool.View(), tenant, modelName)
      ensures worker != null ==> Picked(worker, pool, tenant) && RunsModel(worker.View(), modelName)
    {
      for i := 0 to |list|
        invariant forall j :: 0 <= j < i ==> !(list[j].status == Idle && RunsModel(list[j].View(), modelName))
      {
        var w := list[i];
        if w.status == Idle && w.model.Some? && w.model.value.name == modelName {
          assert IdleListed(pool.View(), tenant, w.workerID);
          return w;
        }
      }
      forall id | IdleListed(pool.View(), tenant, id) ensures !RunsModel(pool.View()[id], modelName) {
        assert pool.workers[id] in list;
      }
      return null;
    }

    /** The first idle worker of a listing with at least `amount` MB assigned, or null. */
    method FirstRoomy(list: seq<WorkerState>, amount: int64, ghost pool: WorkerPool, ghost tenant: string)
      returns (worker: WorkerState?)
      requires IsListing(list, pool, tenant)
      ensures worker == null <==> !RoomyWorker(pool.View(), tenant, amount)
      ensures worker != null ==> Picked(worker, pool, tenant) && BigEnough(worker.View(), amount)
    {
      for i := 0 to |list|
        invariant forall j :: 0 <= j < i ==> !(list[j].status == Idle && BigEnough(list[j].View(), amount))
      {
        var w := list[i];
        if w.status == Idle {
          if w.gpu.Some? && w.gpu.value.memory >= amount {
            assert IdleListed(pool.View(), tenant, w.workerID);
            return w;
          }
        }
      }
      forall id | IdleListed(pool.View(), tenant, id) ensures !BigEnough(pool.View()[id], amount) {
        assert pool.workers[id] in list;
      }
      return null;
    }

    /** The first idle worker of a listing, or null. */
    method FirstIdle(list: seq<WorkerState>, ghost pool: WorkerPool, ghost tenant: string) returns (worker: WorkerState?)
      requires IsListing(list, pool, tenant)
      ensures worker == null <==> !IdleWorker(pool.View(), tenant)
      ensures worker != null ==> Picked(worker, pool, tenant)
    {
      for i := 0 to |list|
        invariant forall j :: 0 <= j < i ==> list[j].status != Idle
      {
        if list[i].status == Idle {
          assert IdleListed(pool.View(), tenant, list[i].workerID);
          return list[i];
        }
      }
      forall id | Listed(pool.View(), tenant, id) ensures pool.View()[id].status != Idle {
        assert pool.workers[id] in list;
      }
      return null;
    }

    /** The worker is in the pool, idle, and of the tenant ("" standing for any). */
    ghost predicate Picked(worker: WorkerState, pool: WorkerPool, tenant: string)
      reads pool, pool.workers.Values
    {
      && worker.workerID in pool.workers && pool.workers[worker.workerID] == worker
      && IdleListed(pool.View(), tenant, worker.workerID)
    }

    // What the listing predicates say of the worker objects, with the tenant "" standing for any.

    lemma IdleWorkerIff(pool: WorkerPool, tenant: string)
      requires pool.Valid()
      ensures IdleWorker(pool.View(), tenant) <==> exists id ::
        && id in pool.workers && (tenant == "" || pool.workers[id].tenantID == tenant) && pool.workers[id].status == Idle
    {
      if id :| id in pool.workers && (tenant == "" || pool.workers[id].tenantID == tenant)
               && pool.workers[id].status == Idle {
        assert IdleListed(pool.View(), tenant, id);
      }
    }

    lemma WarmWorkerIff(pool: WorkerPool, tenant: string, model: string)
      requires pool.Valid()
      ensures WarmWorker(pool.View(), tenant, model) <==> exists id ::
        && id in pool.workers && (tenant == "" || pool.workers[id].tenantID == tenant) && pool.workers[id].status == Idle
        && pool.workers[id].model.Some? && pool.workers[id].model.value.name == model
    {
      if id :| id in pool.workers && (tenant == "" || pool.workers[id].tenantID == tenant)
               && pool.workers[id].status == Idle
               && pool.workers[id].model.Some? && pool.workers[id].model.value.name == model {
        assert IdleListed(pool.View(), tenant, id);
      }
    }

    lemma RoomyWorkerIff(pool: WorkerPool, tenant: string, amount: int64)
      requires pool.Valid()
      ensures RoomyWorker(pool.View(), tenant, amount) <==> exists id ::
        && id in pool.workers && (tenant == "" || pool.workers[id].tenantID == tenant) && pool.workers[id].status == Idle
        && pool.workers[id].gpu.Some? && pool.workers[id].gpu.value.memory >= amount
    {
      if id :| id in pool.workers && (tenant == "" || pool.workers[id].tenantID == tenant)
               && pool.workers[id].status == Idle
               && pool.workers[id].gpu.Some? && pool.workers[id].gpu.value.memory >= amount {
        assert IdleListed(pool.View(), tenant, id);
      }
    }

    lemma PickedIff(worker: WorkerState, pool: WorkerPool, tenant: string)
      requires pool.Valid()
      ensures Picked(worker, pool, tenant) <==>
        && worker.workerID in pool.workers && pool.workers[worker.workerID] == worker
        && (tenant == "" || worker.tenantID == tenant) && worker.status == Idle
    {
    }

    lemma SelectionFields(pool: WorkerPool, modelName: string, tenantID: string, s: Selection)
      requires Valid() && pool.Valid()
      requires s.reason == TierOf(pool.View(), View(), modelName, tenantID)
      requires s.isWarmHit == s.reason.WarmHit? && s.isColdHit == s.reason.ColdStart?
      requires s.worker != null <==> s.reason.WarmHit? || s.reason.Repurpose?
      requires s.worker != null ==> Picked(s.worker, pool, tenantID)
      requires s.reason.WarmHit? ==> RunsModel(s.worker.View(), modelName)
      ensures s.worker != null ==>
        && s.worker.workerID in pool.workers && pool.workers[s.worker.workerID] == s.worker
        && (tenantID == "" || s.worker.tenantID == tenantID) && s.worker.status == Idle
      ensures s.isWarmHit <==> exists id ::
        && id in pool.workers && (tenantID == "" || pool.workers[id].tenantID == tenantID) && pool.workers[id].status == Idle
        && pool.workers[id].model.Some? && pool.workers[id].model.value.name == modelName
      ensures s.isWarmHit ==> s.worker != null && s.worker.model.Some? && s.worker.model.value.name == modelName
      ensures s.worker == null <==> forall id :: id in pool.workers ==>
        !((tenantID == "" || pool.workers[id].tenantID == tenantID) && pool.workers[id].status == Idle)
      ensures s.isColdHit ==> s.worker == null
      ensures s.worker == null && (forall u :: u in gpus ==> 0 <= gpus[u].allocatedVram <= gpus[u].total) ==>
        (s.isColdHit <==> exists u :: u in gpus && gpus[u].total - gpus[u].allocatedVram >= 8000)
      ensures s.reason == if s.isWarmHit then WarmHit else if s.worker != null then Repurpose
                          else if s.isColdHit then ColdStart else Exhausted
    {
      hide View, AnyRoom, IdleWorker, WarmWorker, RoomyWorker, Picked;
      IdleWorkerIff(pool, tenantID);
      WarmWorkerIff(pool, tenantID, modelName);
      WarmIsIdle(pool.View(), tenantID, modelName);
      if s.worker != null {
        PickedIff(s.worker, pool, tenantID);
      }
      if forall u :: u in gpus ==> 0 <= gpus[u].allocatedVram <= gpus[u].total {
        AnyRoomIff(8000);
      }
    }

    lemma SelectionForModelFields(pool: WorkerPool, modelName: string, vramRequirement: int64, tenantID: string, s: Selection)
      requires Valid() && pool.Valid()
      requires s.reason == TierForModel(pool.View(), View(), modelName, vramRequirement, tenantID)
      requires s.isWarmHit == s.reason.WarmHit? && s.isColdHit == s.reason.ColdStart?
      requires s.worker != null <==> s.reason.WarmHit? || s.reason.Repurpose?
      requires s.worker != null ==> Picked(s.worker, pool, tenantID)
      requires s.reason.WarmHit? ==> RunsModel(s.worker.View(), modelName)
      requires s.reason.Repurpose? ==> BigEnough(s.worker.View(), vramRequirement)
      ensures s.worker != null ==>
        && s.worker.workerID in pool.workers && pool.workers[s.worker.workerID] == s.worker
        && (tenantID == "" || s.worker.tenantID == tenantID) && s.worker.status == Idle
      ensures s.isWarmHit <==> exists id ::
        && id in pool.workers && (tenantID == "" || pool.workers[id].tenantID == tenantID) && pool.workers[id].status == Idle
        && pool.workers[id].model.Some? && pool.workers[id].model.value.name == modelName
      ensures s.isWarmHit ==> s.worker != null && s.worker.model.Some? && s.worker.model.value.name == modelName
      ensures s.worker == null <==> forall id :: id in pool.workers ==>
        !((tenantID == "" || pool.workers[id].tenantID == tenantID) && pool.workers[id].status == Idle
          && ((pool.workers[id].model.Some? && pool.workers[id].model.value.name == modelName)
              || (pool.workers[id].gpu.Some? && pool.workers[id].gpu.value.memory >= vramRequirement)))
      ensures s.worker != null && !s.isWarmHit ==> s.worker.gpu.Some? && s.worker.gpu.value.memory >= vramRequirement
      ensures s.isColdHit ==> s.worker == null
      ensures s.worker == null && (forall u :: u in gpus ==> 0 <= gpus[u].allocatedVram <= gpus[u].total) ==>
        (s.isColdHit <==> exists u :: u in gpus && gpus[u].total - gpus[u].allocatedVram >= vramRequirement)
      ensures s.reason == if s.isWarmHit then WarmHit else if s.worker != null then Repurpose
                          else if s.isColdHit then ColdStart else Exhausted
    {
      hide View, AnyRoom, IdleWorker, WarmWorker, RoomyWorker, Picked;
      WarmWorkerIff(pool, tenantID, modelName);
      RoomyWorkerIff(pool, tenantID, vramRequirement);
      if s.worker != null {
        PickedIff(s.worker, pool, tenantID);
      }
      if forall u :: u in gpus ==> 0 <= gpus[u].allocatedVram <= gpus[u].total {
        AnyRoomIff(vramRequirement);
      }
    }

    method SelectWorker(pool: WorkerPool, modelName: string, tenantID: string) returns (s: Selection)
      requires Valid() && pool.Valid()
      ensures s.reason == TierOf(pool.View(), View(), modelName, tenantID)
      ensures s.isWarmHit == s.reason.WarmHit? && s.isColdHit == s.reason.ColdStart?
      ensures s.worker != null <==> s.reason.WarmHit? || s.reason.Repurpose?
      ensures s.worker != null ==> Picked(s.worker, pool, tenantID)
      ensures s.reason.WarmHit? ==> RunsModel(s.worker.View(), modelName)
      // the same over the objects: which worker, and which of the four answers
      ensures s.worker != null ==>
        && s.worker.workerID in pool.workers && pool.workers[s.worker.workerID] == s.worker
        && (tenantID == "" || s.worker.tenantID == tenantID) && s.worker.status == Idle
      ensures s.isWarmHit <==> exists id ::
        && id in pool.workers && (tenantID == "" || pool.workers[id].tenantID == tenantID) && pool.workers[id].status == Idle
        && pool.workers[id].model.Some? && pool.workers[id].model.value.name == modelName
      ensures s.isWarmHit ==> s.worker != null && s.worker.model.Some? && s.worker.model.value.name == modelName
      ensures s.worker == null <==> forall id :: id in pool.workers ==>
        !((tenantID == "" || pool.workers[id].tenantID == tenantID) && pool.workers[id].status == Idle)
      ensures s.isColdHit ==> s.worker == null
      ensures s.worker == null && (forall u :: u in gpus ==> 0 <= gpus[u].allocatedVram <= gpus[u].total) ==>
        (s.isColdHit <==> exists u :: u in gpus && gpus[u].total - gpus[u].allocatedVram >= 8000)
      ensures s.reason == if s.isWarmHit then WarmHit else if s.worker != null then Repurpose
                          else if s.isColdHit then ColdStart else Exhausted
    {
      hide View, WorkerState.View, AnyRoom, RunsModel, WarmWorker, RoomyWorker, IdleWorker, Picked, BigEnough;
      var workers := pool.ListWorkers(tenantID);
      assert IsListing(workers, pool, tenantID);
      var warm := FirstWarm(workers, modelName, pool, tenantID);
      if warm != null {
        s := Selection(warm, true, false, WarmHit);
      } else {
        var idle := FirstIdle(workers, pool, tenantID);
        if idle != null {
          s := Selection(idle, false, false, Repurpose);
        } else {
          var room := HasAvailableGPU(DEFAULT_VRAM);
          s := if room then Selection(null, false, true, ColdStart) else Selection(null, false, false, Exhausted);
        }
      }
      SelectionFields(pool, modelName, tenantID, s);
    }

    method SelectWorkerForModel(pool: WorkerPool, modelName: string, vramRequirement: int64, tenantID: string)
      returns (s: Selection)
      requires Valid() && pool.Valid()
      ensures s.reason == TierForModel(pool.View(), View(), modelName, vramRequirement, tenantID)
      ensures s.isWarmHit == s.reason.WarmHit? && s.isColdHit == s.reason.ColdStart?
      ensures s.worker != null <==> s.reason.WarmHit? || s.reason.Repurpose?
      ensures s.worker != null ==> Picked(s.worker, pool, tenantID)
      ensures s.reason.WarmHit? ==> RunsModel(s.worker.View(), modelName)
      ensures s.reason.Repurpose? ==> BigEnough(s.worker.View(), vramRequirement)
      // the same over the objects: which worker, and which of the four answers
      ensures s.worker != null ==>
        && s.worker.workerID in pool.workers && pool.workers[s.worker.workerID] == s.worker
        && (tenantID == "" || s.worker.tenantID == tenantID) && s.worker.status == Idle
      ensures s.isWarmHit <==> exists id ::
        && id in pool.workers && (tenantID == "" || pool.workers[id].tenantID == tenantID) && pool.workers[id].status == Idle
        && pool.workers[id].model.Some? && pool.workers[id].model.value.name == modelName
      ensures s.isWarmHit ==> s.worker != null && s.worker.model.Some? && s.worker.model.value.name == modelName
      ensures s.worker == null <==> forall id :: id in pool.workers ==>
        !((tenantID == "" || pool.workers[id].tenantID == tenantID) && pool.workers[id].status == Idle
          && ((pool.workers[id].model.Some? && pool.workers[id].model.value.name == modelName)
              || (pool.workers[id].gpu.Some? && pool.workers[id].gpu.value.memory >= vramRequirement)))
      ensures s.worker != null && !s.isWarmHit ==> s.worker.gpu.Some? && s.worker.gpu.value.memory >= vramRequirement
      ensures s.isColdHit ==> s.worker == null
      ensures s.worker == null && (forall u :: u in gpus ==> 0 <= gpus[u].allocatedVram <= gpus[u].total) ==>
        (s.isColdHit <==> exists u :: u in gpus && gpus[u].total - gpus[u].allocatedVram >= vramRequirement)
      ensures s.reason == if s.isWarmHit then WarmHit else if s.worker != null then Repurpose
                          else if s.isColdHit then ColdStart else Exhausted
    {
      hide View, WorkerState.View, AnyRoom, RunsModel, WarmWorker, RoomyWorker, IdleWorker, Picked, BigEnough;
      var workers := pool.ListWorkers(tenantID);
      assert IsListing(workers, pool, tenantID);
      var warm := FirstWarm(workers, modelName, pool, tenantID);
      if warm != null {
        s := Selection(warm, true, false, WarmHit);
      } else {
        var roomy := FirstRoomy(workers, vramRequirement, pool, tenantID);
        if roomy != null {
          s := Selection(roomy, false, false, Repurpose);
        } else {
          var room := HasAvailableGPU(vramRequirement);
          s := if room then Selection(null, false, true, ColdStart) else Selection(null, false, false, Exhausted);
        }
      }
      SelectionForModelFields(pool, modelName, vramRequirement, tenantID, s);
    }
  }
}
