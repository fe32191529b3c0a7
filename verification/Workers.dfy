/** One worker: its record as a value, and the object whose methods change that record under its lock. */
module Workers {
  import opened Machine
  import opened Lifecycle

  /** Nanoseconds since the Unix epoch. */
  type Instant = int

  datatype ModelConfig = ModelConfig(name: string, version: string, vram: int64)

  datatype GPUAssignment = GPUAssignment(index: int, uuid: string, memory: int64)

  datatype Metrics = Metrics(uptimeSeconds: int, lastRequestAt: Option<Instant>, totalRequests: int)

  datatype Worker = Worker(
    workerID: string,
    tenantID: string,
    status: Status,
    model: Option<ModelConfig>,
    gpu: Option<GPUAssignment>,
    metrics: Option<Metrics>,
    containerID: string,
    createdAt: Instant,
    updatedAt: Instant,
    lastHeartbeat: Option<Instant>)

  function NewWorker(workerID: string, tenantID: string, model: Option<ModelConfig>, now: Instant): Worker {
    Worker(workerID, tenantID, Pending, model, None, Some(Metrics(0, None, 0)), "", now, now, None)
  }

  /** The worker after TransitionTo(next): moved when the table allows it, untouched otherwise. */
  function Moved(w: Worker, next: Status, now: Instant): Worker {
    if CanMove(w.status, next) then w.(status := next, updatedAt := now) else w
  }

  /** time.Time.Sub: the difference, held to the range of a 64-bit duration. */
  function Elapsed(now: Instant, since: Instant): int64 {
    var d := now - since;
    if d > MAX_INT64 then MAX_INT64 else if d < MIN_INT64 then MIN_INT64 else d
  }

  function LastActivity(w: Worker): Instant {
    if w.metrics.Some? && w.metrics.value.lastRequestAt.Some? then w.metrics.value.lastRequestAt.value
    else w.updatedAt
  }

  /** What the idle sweep looks for. */
  predicate IdleTooLong(w: Worker, now: Instant, timeout: int64) {
    w.status == Idle && Elapsed(now, LastActivity(w)) > timeout
  }

  /**
   For a timeout below the largest duration, a difference exceeds it in 64 bits exactly when it does in the integers: one
   too large for 64 bits is held to the largest, one too small to the smallest. No difference exceeds the largest.
   */
  lemma ElapsedExceeds(now: Instant, since: Instant, timeout: int64)
    ensures Elapsed(now, since) > timeout <==> now - since > timeout && timeout < 0x7FFF_FFFF_FFFF_FFFF
    ensures MIN_INT64 <= now - since <= MAX_INT64 ==> Elapsed(now, since) == now - since
  {
  }

  class WorkerState {
    const workerID: string
    const tenantID: string
    const createdAt: Instant
    var status: Status
    var model: Option<ModelConfig>
    var gpu: Option<GPUAssignment>
    var metrics: Option<Metrics>
    var containerID: string
    var updatedAt: Instant
    var lastHeartbeat: Option<Instant>
    ghost var requests: seq<Status>  // everything ever put to TransitionTo

    /** The record the object holds. */
    function View(): Worker
      reads this
    {
      Worker(workerID, tenantID, status, model, gpu, metrics, containerID, createdAt, updatedAt, lastHeartbeat)
    }

    /** The status has come about through TransitionTo alone. */
    ghost predicate Lawful()
      reads this
    {
      status == Last(History(requests))
    }

    constructor (workerID: string, tenantID: string, model: Option<ModelConfig>, now: Instant)
      ensures View() == NewWorker(workerID, tenantID, model, now)
      ensures this.workerID == workerID && this.tenantID == tenantID && this.model == model
      ensures status == Pending && gpu == None && containerID == "" && lastHeartbeat == None
      ensures metrics == Some(Metrics(0, None, 0)) && createdAt == updatedAt == now
      ensures Lawful() && requests == []
    {
      this.workerID := workerID;
      this.tenantID := tenantID;
      this.createdAt := now;
      this.status := Pending;
      this.model := model;
      this.gpu := None;
      this.metrics := Some(Metrics(0, None, 0));
      this.containerID := "";
      this.updatedAt := now;
      this.lastHeartbeat := None;
      this.requests := [];
    }

    method IsValidTransition(next: Status) returns (ok: bool)
      ensures ok <==> CanMove(status, next)
    {
      var options := ValidTransitions(status);
      for i := 0 to |options|
        invariant next !in options[..i]
      {
        if options[i] == next {
          return true;
        }
      }
      return false;
    }

    method TransitionTo(next: Status, now: Instant) returns (ok: bool)
      modifies this
      ensures ok <==> CanMove(old(status), next)
      ensures View() == Moved(old(View()), next, now)
      ensures status == (if ok then next else old(status)) && updatedAt == (if ok then now else old(updatedAt))
      ensures model == old(model) && gpu == old(gpu) && metrics == old(metrics) && containerID == old(containerID)
      ensures lastHeartbeat == old(lastHeartbeat)
      ensures requests == old(requests) + [next]
      ensures old(Lawful()) ==> Lawful()
    {
      ok := IsValidTransition(next);
      assert (requests + [next])[..|requests|] == requests;
      requests := requests + [next];
      if ok {
        status := next;
        updatedAt := now;
      }
    }

    /** A worker no message has touched has been through one of the histories of the lifecycle. */
    lemma LawfulHistory()
      requires Lawful()
      ensures WellShaped(History(requests)) && Last(History(requests)) == status
    {
      HistoryIsWellShaped(requests);
    }

    method SetContainerID(id: string)
      modifies this
      ensures View() == old(View()).(containerID := id) && containerID == id
      ensures requests == old(requests)
    {
      containerID := id;
    }

    method SetGPUAssignment(assignment: Option<GPUAssignment>)
      modifies this
      ensures View() == old(View()).(gpu := assignment) && gpu == assignment
      ensures requests == old(requests)
    {
      gpu := assignment;
    }
  }
}
