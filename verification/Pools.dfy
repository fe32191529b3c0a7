/**
 The worker pool. A Range over the concurrent map visits each key once, in no particular order: the loops below pick
 the next key freely, so what is proved of them holds for every order.
 */
module Pools {
  import opened Machine
  import opened Lifecycle
  import opened Workers

  /** What the pool holds at one instant. */
  type Snapshot = map<string, Worker>

  predicate Listed(p: Snapshot, tenant: string, id: string) {
    id in p && (tenant == "" || p[id].tenantID == tenant)
  }

  predicate RunsModel(w: Worker, model: string) {
    w.model.Some? && w.model.value.name == model
  }

  /** What FindIdleWorker looks for: it compares tenants literally, where a listing takes "" for every tenant. */
  predicate Matches(p: Snapshot, tenant: string, model: string, id: string) {
    id in p && p[id].tenantID == tenant && p[id].status == Idle && RunsModel(p[id], model)
  }

  ghost predicate Findable(p: Snapshot, tenant: string, model: string) {
    exists id :: Matches(p, tenant, model, id)
  }

  predicate Offline(w: Worker, now: Instant, timeout: int64) {
    w.status != Terminating && w.lastHeartbeat.Some? && Elapsed(now, w.lastHeartbeat.value) > timeout
  }

  predicate Healthy(w: Worker, now: Instant, timeout: int64) {
    w.status != Terminating && (w.lastHeartbeat.None? || Elapsed(now, w.lastHeartbeat.value) <= timeout)
  }

  ghost function OfflineIDs(p: Snapshot, now: Instant, timeout: int64): set<string> {
    set id | id in p && Offline(p[id], now, timeout)
  }

  ghost function HealthyIDs(p: Snapshot, now: Instant, timeout: int64): set<string> {
    set id | id in p && Healthy(p[id], now, timeout)
  }

  ghost function LiveIDs(p: Snapshot): set<string> {
    set id | id in p && p[id].status != Terminating
  }

  /** At one instant and one timeout the two heartbeat scans split the workers that are not terminating between them. */
  lemma HeartbeatScansPartition(p: Snapshot, now: Instant, timeout: int64, offline: seq<string>, healthy: nat)
    requires NoDuplicates(offline) && Elements(offline) == OfflineIDs(p, now, timeout)
    requires healthy == |HealthyIDs(p, now, timeout)|
    ensures |offline| + healthy == |LiveIDs(p)|
  {
    DistinctLength(offline);
    var off, ok := OfflineIDs(p, now, timeout), HealthyIDs(p, now, timeout);
    assert off !! ok;
    assert off + ok == LiveIDs(p);
  }

  /** A longer timeout only shrinks the offline list. */
  lemma LongerTimeoutFewerOffline(p: Snapshot, now: Instant, short: int64, long: int64, a: seq<string>, b: seq<string>)
    requires short <= long
    requires NoDuplicates(a) && Elements(a) == OfflineIDs(p, now, short)
    requires NoDuplicates(b) && Elements(b) == OfflineIDs(p, now, long)
    ensures forall id :: id in b ==> id in a
    ensures |b| <= |a|
  {
    forall id | id in b ensures id in a {
      assert id in Elements(b);
      assert id in Elements(a);
    }
    DistinctLength(a);
    DistinctLength(b);
    SubsetSize(Elements(b), Elements(a));
  }

  lemma {:induction false} SubsetSize<T>(a: set<T>, b: set<T>)
    requires a <= b
    ensures |a| <= |b|
  {
    if a != {} {
      var x :| x in a;
      SubsetSize(a - {x}, b - {x});
    }
  }

  class WorkerPool {
    var workers: map<string, WorkerState>
    const idleTimeout: int64
    const maxWorkers: int64
    var totalCreated: nat
    var totalTerminated: nat

    ghost predicate Valid()
      reads this
    {
      forall id :: id in workers ==> workers[id].workerID == id
    }

    ghost function View(): Snapshot
      reads this, workers.Values
    {
      map id | id in workers :: workers[id].View()
    }

    constructor (idleTimeout: int64, maxWorkers: int64)
      ensures Valid() && workers == map[]
      ensures this.idleTimeout == idleTimeout && this.maxWorkers == maxWorkers
      ensures totalCreated == 0 && totalTerminated == 0
    {
      this.idleTimeout := idleTimeout;
      this.maxWorkers := maxWorkers;
      this.workers := map[];
      this.totalCreated := 0;
      this.totalTerminated := 0;
    }

    method Count() returns (n: nat)
      ensures n == |workers|
    {
      n := 0;
      var todo := workers.Keys;
      while todo != {}
        invariant n + |todo| == |workers|
      {
        var id :| id in todo;
        todo := todo - {id};
        n := n + 1;
      }
    }

    method AddWorker(worker: WorkerState) returns (ok: bool)
      requires Valid()
      modifies this
      ensures Valid()
      ensures ok <==> |old(workers)| < maxWorkers
      ensures workers == if ok then old(workers)[worker.workerID := worker] else old(workers)
      ensures totalCreated == old(totalCreated) + (if ok then 1 else 0)
      ensures totalTerminated == old(totalTerminated)
    {
      var count := Count();
      if count >= maxWorkers {
        return false;
      }
      workers := workers[worker.workerID := worker];
      totalCreated := totalCreated + 1;
      return true;
    }

    method RemoveWorker(workerID: string)
      requires Valid()
      modifies this
      ensures Valid()
      ensures workers == old(workers) - {workerID}
      ensures totalCreated == old(totalCreated)
      ensures totalTerminated == old(totalTerminated) + 1
    {
      workers := workers - {workerID};
      totalTerminated := totalTerminated + 1;
    }

    /** Every worker of the tenant (of any tenant for ""), each once, in an order of the map's choosing. */
    method ListWorkers(tenantID: string) returns (list: seq<WorkerState>)
      requires Valid()
      ensures NoDuplicates(list)
      ensures forall w :: w in list <==> w.workerID in workers && workers[w.workerID] == w && Listed(View(), tenantID, w.workerID)
      ensures forall w :: w in list <==>
        w.workerID in workers && workers[w.workerID] == w && (tenantID == "" || w.tenantID == tenantID)
    {
      list := [];
      var todo := workers.Keys;
      while todo != {}
        invariant todo <= workers.Keys
        invariant NoDuplicates(list)
        invariant forall w :: w in list <==>
          w.workerID in workers && w.workerID !in todo && workers[w.workerID] == w && Listed(View(), tenantID, w.workerID)
      {
        var id :| id in todo;
        var worker := workers[id];
        if tenantID == "" || worker.tenantID == tenantID {
          list := list + [worker];
        }
        todo := todo - {id};
      }
    }

    lemma FindableIff(tenantID: string, modelName: string)
      requires Valid()
      ensures Findable(View(), tenantID, modelName) <==> exists id ::
        && id in workers && workers[id].tenantID == tenantID && workers[id].status == Idle
        && workers[id].model.Some? && workers[id].model.value.name == modelName
    {
      if id :| id in workers && workers[id].tenantID == tenantID && workers[id].status == Idle
               && workers[id].model.Some? && workers[id].model.value.name == modelName {
        assert Matches(View(), tenantID, modelName, id);
      }
      if Findable(View(), tenantID, modelName) {
        var id :| Matches(View(), tenantID, modelName, id);
        assert id in workers && workers[id].View() == View()[id];
      }
    }

    method FindIdleWorker(tenantID: string, modelName: string) returns (found: WorkerState?)
      requires Valid()
      ensures found == null <==> !Findable(View(), tenantID, modelName)
      ensures found != null ==>
        Matches(View(), tenantID, modelName, found.workerID) && workers[found.workerID] == found
      ensures found == null ==> forall id :: id in workers ==>
        !(workers[id].tenantID == tenantID && workers[id].status == Idle
          && workers[id].model.Some? && workers[id].model.value.name == modelName)
      ensures found != null ==>
        && found.workerID in workers && workers[found.workerID] == found && found.tenantID == tenantID
        && found.status == Idle && found.model.Some? && found.model.value.name == modelName
    {
      FindableIff(tenantID, modelName);
      found := null;
      var todo := workers.Keys;
      while todo != {}
        invariant todo <= workers.Keys
        invariant forall id :: Matches(View(), tenantID, modelName, id) ==> id in todo
      {
        var id :| id in todo;
        var worker := workers[id];
        todo := todo - {id};
        if worker.tenantID != tenantID || worker.status != Idle {
          continue;
        }
        if worker.model.Some? && worker.model.value.name == modelName {
          assert Matches(View(), tenantID, modelName, id);
          found := worker;
          return;
        }
      }
    }

    /** Which workers the first scan lists, on the clock's own terms. */
    lemma OfflineIff(now: Instant, timeout: int64, id: string)
      requires Valid() && id in workers
      ensures id in OfflineIDs(View(), now, timeout) <==>
        && workers[id].status != Terminating && workers[id].lastHeartbeat.Some?
        && now - workers[id].lastHeartbeat.value > timeout && timeout < 0x7FFF_FFFF_FFFF_FFFF
    {
      assert View()[id] == workers[id].View();
      if workers[id].lastHeartbeat.Some? {
        ElapsedExceeds(now, workers[id].lastHeartbeat.value, timeout);
      }
    }

    lemma HealthyIff(now: Instant, timeout: int64, id: string)
      requires Valid() && id in workers
      ensures id in HealthyIDs(View(), now, timeout) <==>
        && workers[id].status != Terminating
        && (workers[id].lastHeartbeat.Some? && timeout < 0x7FFF_FFFF_FFFF_FFFF ==>
              now - workers[id].lastHeartbeat.value <= timeout)
    {
      assert View()[id] == workers[id].View();
      if workers[id].lastHeartbeat.Some? {
        ElapsedExceeds(now, workers[id].lastHeartbeat.value, timeout);
      }
    }

    lemma HealthySet(now: Instant, timeout: int64)
      requires Valid()
      ensures HealthyIDs(View(), now, timeout) == set id | id in workers && workers[id].status != Terminating
        && (workers[id].lastHeartbeat.Some? && timeout < 0x7FFF_FFFF_FFFF_FFFF ==>
              now - workers[id].lastHeartbeat.value <= timeout)
    {
      forall id | id in workers {
        HealthyIff(now, timeout, id);
      }
    }

    /**
     The largest 64-bit timeout can never be exceeded. Short of it, a worker is listed exactly when it is not terminating
     and its last heartbeat, if it ever sent one, is longer ago than the timeout.
     */
    method CheckHeartbeats(now: Instant, timeout: int64) returns (offline: seq<string>)
      requires Valid()
      ensures NoDuplicates(offline)
      ensures Elements(offline) == OfflineIDs(View(), now, timeout)
      ensures forall id :: id in offline <==>
        && id in workers && workers[id].status != Terminating && workers[id].lastHeartbeat.Some?
        && now - workers[id].lastHeartbeat.value > timeout && timeout < 0x7FFF_FFFF_FFFF_FFFF
    {
      forall id | id in workers {
        OfflineIff(now, timeout, id);
      }
      offline := [];
      var todo := workers.Keys;
      while todo != {}
        invariant todo <= workers.Keys
        invariant NoDuplicates(offline)
        invariant forall id :: id in offline <==> id in OfflineIDs(View(), now, timeout) && id !in todo
      {
        var id :| id in todo;
        todo := todo - {id};
        var worker := workers[id];
        if worker.status == Terminating {
          continue;
        }
        if worker.lastHeartbeat.Some? && Elapsed(now, worker.lastHeartbeat.value) > timeout {
          offline := offline + [worker.workerID];
        }
      }
    }

    method GetHealthyWorkerCount(now: Instant, timeout: int64) returns (n: nat)
      requires Valid()
      ensures n == |HealthyIDs(View(), now, timeout)|
      ensures n == |set id | id in workers && workers[id].status != Terminating
                             && (workers[id].lastHeartbeat.Some? && timeout < 0x7FFF_FFFF_FFFF_FFFF ==>
                                   now - workers[id].lastHeartbeat.value <= timeout)|
    {
      HealthySet(now, timeout);
      n := 0;
      var todo := workers.Keys;
      ghost var healthy := HealthyIDs(View(), now, timeout);
      assert healthy * todo == healthy;
      while todo != {}
        invariant todo <= workers.Keys
        invariant n + |healthy * todo| == |healthy|
      {
        var id :| id in todo;
        var worker := workers[id];
        assert id in healthy <==> Healthy(worker.View(), now, timeout);
        ghost var rest := healthy * (todo - {id});
        assert healthy * todo == if id in healthy then rest + {id} else rest;
        if worker.status != Terminating {
          if worker.lastHeartbeat.None? || Elapsed(now, worker.lastHeartbeat.value) <= timeout {
            n := n + 1;
          }
        }
        todo := todo - {id};
      }
    }
  }
}
