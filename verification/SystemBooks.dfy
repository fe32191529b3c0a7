/** The GPU books and the pool's size inside the step system, over every interleaving. */
module SystemBooks {
  import opened Machine
  import opened Workers
  import opened Accounts
  import opened Interleaving
  import Pools

  // ----- the fleet of a run is the fleet of its scheduler operations

  /** The scheduler operation an event performs; a Schedule, which changes nothing, when it performs none. */
  function OpOf(s: State, e: Event): Op {
    if e.Step? && e.i < |s.tasks| && CanStep(s.sh, s.tasks[e.i], e.o) then
      match s.tasks[e.i]
      case Allocating(w, model, gpu) => Allocate(gpu.uuid, w, model.name, model.vram)
      case Releasing(w, uuid, amount) => Release(uuid, w, amount)
      case _ => Schedule("", 0)
    else Schedule("", 0)
  }

  function OpsOf(s: State, events: seq<Event>): (ops: seq<Op>)
    ensures |ops| == |events|
  {
    if events == [] then []
    else OpsOf(s, events[..|events| - 1]) + [OpOf(Exec(s, events[..|events| - 1]), events[|events| - 1])]
  }

  lemma EventIsOp(s: State, e: Event)
    ensures Fire(s, e).sh.fleet == Apply(s.sh.fleet, OpOf(s, e))
  {
  }

  /** The books of a run are those of its Allocate and Release calls, in the order they took effect. */
  lemma {:induction false} RunIsOps(s: State, events: seq<Event>)
    ensures Exec(s, events).sh.fleet == Run(s.sh.fleet, OpsOf(s, events))
  {
    if events != [] {
      var front, last := events[..|events| - 1], events[|events| - 1];
      RunIsOps(s, front);
      EventIsOp(Exec(s, front), last);
      var ops := OpsOf(s, events);
      assert ops[..|ops| - 1] == OpsOf(s, front);
    }
  }

  // ----- requests with non-negative requirements

  ghost predicate NonNegativeRequests(events: seq<Event>) {
    forall e :: e in events && e.Create? ==> e.model.vram >= 0
  }

  predicate TaskAmountOk(t: Task) {
    match t
    case Scheduling(_, model) => model.vram >= 0
    case Counting(_, model, _) => model.vram >= 0
    case Storing(_, model, _) => model.vram >= 0
    case Allocating(_, model, _) => model.vram >= 0
    case Assigning(_, model, _) => model.vram >= 0
    case Releasing(_, _, amount) => amount >= 0
    case _ => true
  }

  predicate RecordAmountOk(w: Worker) {
    w.model.Some? ==> w.model.value.vram >= 0
  }

  ghost predicate AmountsOk(s: State) {
    && (forall t :: t in s.tasks ==> TaskAmountOk(t))
    && (forall w :: w in s.sh.workers ==> RecordAmountOk(s.sh.workers[w]))
  }

  lemma AmountsStep(sh: Shared, max: int64, t: Task, o: Outcome)
    requires CanStep(sh, t, o) && TaskAmountOk(t)
    requires forall w :: w in sh.workers ==> RecordAmountOk(sh.workers[w])
    ensures var (sh', t') := StepTask(sh, max, t, o);
      TaskAmountOk(t') && forall w :: w in sh'.workers ==> RecordAmountOk(sh'.workers[w])
  {
    TaskAmountStep(sh, max, t, o);
    forall w | w in Effect(sh, t, o).workers ensures RecordAmountOk(Effect(sh, t, o).workers[w]) {
      RecordAmountStep(sh, t, o, w);
    }
  }

  lemma TaskAmountStep(sh: Shared, max: int64, t: Task, o: Outcome)
    requires CanStep(sh, t, o) && TaskAmountOk(t) && (t.Checking? ==> RecordAmountOk(sh.workers[t.w]))
    ensures TaskAmountOk(Next(sh, max, t, o))
  {
  }

  lemma RecordAmountStep(sh: Shared, t: Task, o: Outcome, w: string)
    requires CanStep(sh, t, o) && TaskAmountOk(t) && w in Effect(sh, t, o).workers
    requires w in sh.workers ==> RecordAmountOk(sh.workers[w])
    ensures RecordAmountOk(Effect(sh, t, o).workers[w])
  {
    if Looks(t) {
      LookingChangesNothing(sh, t, o);
    }
  }

  lemma AmountsFire(s: State, e: Event)
    requires AmountsOk(s) && (e.Create? ==> e.model.vram >= 0)
    ensures AmountsOk(Fire(s, e)) && NonNegative(OpOf(s, e))
  {
    if e.Step? && e.i < |s.tasks| && CanStep(s.sh, s.tasks[e.i], e.o) {
      assert s.tasks[e.i] in s.tasks;
      AmountsStep(s.sh, s.maxWorkers, s.tasks[e.i], e.o);
    }
  }

  lemma {:induction false} AmountsRun(s: State, events: seq<Event>)
    requires AmountsOk(s) && NonNegativeRequests(events)
    ensures AmountsOk(Exec(s, events))
    ensures forall op :: op in OpsOf(s, events) ==> NonNegative(op)
  {
    if events != [] {
      var front, last := events[..|events| - 1], events[|events| - 1];
      assert last in events && forall e :: e in front ==> e in events;
      AmountsRun(s, front);
      AmountsFire(Exec(s, front), last);
    }
  }

  /**
   Capacity safety of the whole system. However creations, start tasks, deletions and sweeps interleave, however stale
   the schedule an Allocate rests on and however often a worker is released: no counter leaves the range of its GPU or
   exceeds the unreleased reservations, every reservation's model is resident, and no arithmetic overflows.
   */
  lemma SystemCapacity(s0: State, events: seq<Event>)
    requires Initial(s0) && NonNegativeRequests(events)
    ensures var f := Exec(s0, events).sh.fleet; CapacitySafe(f) && LedgersBound(f) && ResidencyCovers(f)
    ensures forall k :: 0 <= k < |events| ==> NoOverflowAt(s0.sh.fleet, OpsOf(s0, events), k)
  {
    AmountsRun(s0, events);
    RunIsOps(s0, events);
    RunKeepsCapacity(s0.sh.fleet, OpsOf(s0, events));
    RunKeepsLedgerBound(s0.sh.fleet, OpsOf(s0, events));
    RunKeepsResidency(s0.sh.fleet, OpsOf(s0, events));
  }

  lemma {:induction false} OpsPrefix(s: State, events: seq<Event>, k: nat)
    requires k <= |events|
    ensures OpsOf(s, events)[..k] == OpsOf(s, events[..k])
  {
    if k < |events| {
      var front := events[..|events| - 1];
      OpsPrefix(s, front, k);
      assert front[..k] == events[..k];
      assert OpsOf(s, events)[..k] == OpsOf(s, front)[..k];
    } else {
      assert events[..k] == events;
    }
  }

  ghost predicate CountersExactAt(s: State, events: seq<Event>, k: nat)
    requires k <= |events|
  {
    LedgersExact(Exec(s, events[..k]).sh.fleet)
  }

  ghost predicate CountersExactThroughout(s: State, events: seq<Event>) {
    forall k :: 0 <= k <= |events| ==> CountersExactAt(s, events, k)
  }

  ghost predicate CountersSafeAt(s: State, events: seq<Event>, k: nat)
    requires k <= |events|
  {
    CapacitySafe(Exec(s, events[..k]).sh.fleet)
  }

  ghost predicate CountersSafeThroughout(s: State, events: seq<Event>) {
    forall k :: 0 <= k <= |events| ==> CountersSafeAt(s, events, k)
  }

  lemma SafeAtPrefix(s: State, events: seq<Event>, k: nat)
    requires k <= |events|
    ensures CountersSafeAt(s, events, k) <==> SafeAt(s.sh.fleet, OpsOf(s, events), k)
  {
    OpsPrefix(s, events, k);
    RunIsOps(s, events[..k]);
  }

  /** Exactly when a run of the whole system, with requirements of either sign, keeps every counter in its range. */
  lemma SystemSafeIff(s0: State, events: seq<Event>)
    requires Initial(s0)
    ensures CountersSafeThroughout(s0, events) <==> AllInRange(s0.sh.fleet, OpsOf(s0, events))
  {
    var f, ops := s0.sh.fleet, OpsOf(s0, events);
    SafeThroughoutIff(f, ops);
    forall k | 0 <= k <= |events| ensures CountersSafeAt(s0, events, k) <==> SafeAt(f, ops, k) {
      SafeAtPrefix(s0, events, k);
    }
    assert CountersSafeThroughout(s0, events) <==> SafeThroughout(f, ops);
  }

  lemma ExactAtPrefix(s: State, events: seq<Event>, k: nat)
    requires k <= |events|
    ensures CountersExactAt(s, events, k) <==> ExactAt(s.sh.fleet, OpsOf(s, events), k)
  {
    OpsPrefix(s, events, k);
    RunIsOps(s, events[..k]);
  }

  /**
   Exactly when a run of the whole system keeps its counters right: at every point they equal the unreleased reservations
   if and only if every Release is covered by an earlier successful Allocate of the same worker and amount on that GPU
   that no other Release has used up, or takes nothing.
   */
  lemma SystemExactIff(s0: State, events: seq<Event>)
    requires Initial(s0) && NonNegativeRequests(events)
    ensures CountersExactThroughout(s0, events) <==> AllAccounted(s0.sh.fleet, OpsOf(s0, events))
  {
    var f, ops := s0.sh.fleet, OpsOf(s0, events);
    AmountsRun(s0, events);
    ExactThroughoutIff(f, ops);
    forall k | 0 <= k <= |events| ensures CountersExactAt(s0, events, k) <==> ExactAt(f, ops, k) {
      ExactAtPrefix(s0, events, k);
    }
    assert CountersExactThroughout(s0, events) <==> ExactThroughout(f, ops);
  }

  // ----- the size of the pool

  /** How many adders have passed the capacity check and not stored their worker yet. */
  function Adders(tasks: seq<Task>): nat {
    if tasks == [] then 0
    else Adders(tasks[..|tasks| - 1]) + (if tasks[|tasks| - 1].Storing? then 1 else 0)
  }

  lemma {:induction false} AddersUpdate(tasks: seq<Task>, i: nat, t: Task)
    requires i < |tasks|
    ensures Adders(tasks[i := t]) ==
      Adders(tasks) - (if tasks[i].Storing? then 1 else 0) + (if t.Storing? then 1 else 0)
    ensures tasks[i].Storing? ==> Adders(tasks) > 0
  {
    var front := tasks[..|tasks| - 1];
    if i < |front| {
      AddersUpdate(front, i, t);
      assert tasks[i := t][..|tasks| - 1] == front[i := t];
    } else {
      assert tasks[i := t][..|tasks| - 1] == front;
    }
  }

  /** At no point of the run are more than `n` adders between their capacity check and their store. */
  ghost predicate AtMostAdders(s: State, events: seq<Event>, n: nat) {
    forall k :: 0 <= k <= |events| ==> AddersAt(s, events, k) <= n
  }

  ghost function AddersAt(s: State, events: seq<Event>, k: nat): nat
    requires k <= |events|
  {
    Adders(Exec(s, events[..k]).tasks)
  }

  ghost predicate PoolBound(s: State, n: nat) {
    |s.sh.pool| + Adders(s.tasks) <= 0 || |s.sh.pool| + Adders(s.tasks) <= s.maxWorkers + n - 1
  }

  lemma PoolBoundFire(s: State, e: Event, n: nat)
    requires PoolBound(s, n) && Adders(Fire(s, e).tasks) <= n
    ensures PoolBound(Fire(s, e), n)
  {
    if e.Step? {
      if e.i < |s.tasks| && CanStep(s.sh, s.tasks[e.i], e.o) {
        PoolBoundStep(s, e.i, e.o, n);
      }
    } else if !e.Toggle? {
      assert Fire(s, e).tasks[..|s.tasks|] == s.tasks;
    }
  }

  lemma PoolBoundStep(s: State, i: nat, o: Outcome, n: nat)
    requires PoolBound(s, n) && i < |s.tasks| && CanStep(s.sh, s.tasks[i], o)
    requires Adders(Fire(s, Step(i, o)).tasks) <= n
    ensures PoolBound(Fire(s, Step(i, o)), n)
  {
    var (sh, t) := StepTask(s.sh, s.maxWorkers, s.tasks[i], o);
    AddersUpdate(s.tasks, i, t);
    PoolSizeStep(s.sh, s.maxWorkers, s.tasks[i], o);
  }

  lemma PoolSizeStep(sh: Shared, max: int64, t: Task, o: Outcome)
    requires CanStep(sh, t, o)
    ensures var (sh', t') := StepTask(sh, max, t, o);
      && |sh'.pool| <= |sh.pool| + (if t.Storing? then 1 else 0)
      && (t'.Storing? ==> |sh.pool| < max && sh'.pool == sh.pool && !t.Storing?)
  {
    if t.Removing? {
      Pools.SubsetSize(sh.pool - {t.w}, sh.pool);
    }
  }

  /**
   The pool's real bound. AddWorker checks and stores in separate steps, so with up to `n` adders between the two the
   pool may exceed its limit, but by no more than `n - 1`; with one adder at a time it never does. A limit below zero
   admits nobody.
   */
  lemma {:induction false} PoolNeverExceeds(s0: State, events: seq<Event>, n: nat)
    requires Initial(s0) && n >= 1 && AtMostAdders(s0, events, n)
    ensures var size := |Exec(s0, events).sh.pool|; size == 0 || size <= s0.maxWorkers + n - 1
  {
    PoolBoundRun(s0, events, n);
  }

  lemma {:induction false} PoolBoundRun(s0: State, events: seq<Event>, n: nat)
    requires PoolBound(s0, n) && AtMostAdders(s0, events, n)
    ensures PoolBound(Exec(s0, events), n) && Exec(s0, events).maxWorkers == s0.maxWorkers
  {
    if events != [] {
      var front := events[..|events| - 1];
      forall k | 0 <= k <= |front| ensures AddersAt(s0, front, k) <= n {
        assert AddersAt(s0, events, k) <= n;
        assert front[..k] == events[..k];
      }
      PoolBoundRun(s0, front, n);
      assert AddersAt(s0, events, |events|) <= n;
      assert events[..|events|] == events;
      PoolBoundFire(Exec(s0, front), events[|events| - 1], n);
    }
  }
}
