/** The pool's bound is reached: for every limit and every number of adders some run fills the pool to it. */
module PoolBound {
  import opened Machine
  import opened Workers
  import opened Accounts
  import opened Interleaving
  import opened SystemBooks

  /** A run leads from the one state to the other with never more than `n` adders in between. */
  ghost predicate LeadsWithin(s0: State, s: State, n: nat) {
    exists events :: Exec(s0, events) == s && AtMostAdders(s0, events, n)
  }

  lemma WithinStart(s0: State, n: nat)
    requires Adders(s0.tasks) <= n
    ensures LeadsWithin(s0, s0, n)
  {
    assert Exec(s0, []) == s0;
    assert AtMostAdders(s0, [], n);
  }

  lemma WithinFire(s0: State, s: State, e: Event, n: nat)
    requires LeadsWithin(s0, s, n) && Adders(Fire(s, e).tasks) <= n
    ensures LeadsWithin(s0, Fire(s, e), n)
  {
    hide Exec, Adders, Fire;
    var events :| Exec(s0, events) == s && AtMostAdders(s0, events, n);
    ExecStep(s0, events, e);
    forall k | 0 <= k <= |events + [e]| ensures AddersAt(s0, events + [e], k) <= n {
      AddersAtPrefix(s0, events, e, k);
      assert k <= |events| ==> AddersAt(s0, events, k) <= n;
    }
  }

  lemma AddersAtPrefix(s0: State, events: seq<Event>, e: Event, k: nat)
    requires k <= |events| + 1
    ensures AddersAt(s0, events + [e], k) ==
      if k <= |events| then AddersAt(s0, events, k) else Adders(Exec(s0, events + [e]).tasks)
  {
    hide Exec, Adders;
    if k <= |events| {
      assert (events + [e])[..k] == events[..k];
    } else {
      assert (events + [e])[..k] == events + [e];
    }
  }

  function Name(k: nat): (s: string)
    ensures |s| == k
  {
    seq(k, _ => 'x')
  }

  const NO_VRAM: ModelConfig := ModelConfig("m", "", 0)

  const FREE: Placement := Placement("g", 0, false, 0)

  function Empty(): Shared {
    Shared(map["g" := NewAccount("g", 0, 0)], map[], {}, map[], {}, [])
  }

  /** `k` workers stored, none of them allocated yet. */
  function Pooled(k: nat): Shared {
    if k == 0 then Empty() else Stored(Pooled(k - 1), Name(k - 1), "t", NO_VRAM, 0)
  }

  lemma {:induction false} PooledSize(k: nat)
    ensures |Pooled(k).pool| == k && Pooled(k).workers.Keys == Pooled(k).pool && Pooled(k).fleet == Empty().fleet
    ensures forall id :: id in Pooled(k).pool ==> |id| < k
  {
    if k > 0 {
      PooledSize(k - 1);
      assert Name(k - 1) !in Pooled(k - 1).pool;
    }
  }

  /** `k` adders are through, `j` are between check and store. */
  function Queue(k: nat, j: nat): (tasks: seq<Task>)
    ensures |tasks| == k + j
  {
    seq(k + j, i requires 0 <= i < k + j =>
      if i < k then Allocating(Name(i), NO_VRAM, FREE) else Storing("t", NO_VRAM, FREE))
  }

  function Mid(k: nat, j: nat, maxWorkers: int64): State {
    State(Pooled(k), Queue(k, j), maxWorkers)
  }

  /** Without its last task the queue is a shorter one. */
  lemma QueueFront(k: nat, j: nat)
    ensures j > 0 ==> Queue(k, j)[..k + j - 1] == Queue(k, j - 1) && Queue(k, j)[k + j - 1].Storing?
    ensures j == 0 && k > 0 ==> Queue(k, 0)[..k - 1] == Queue(k - 1, 0) && Queue(k, 0)[k - 1].Allocating?
  {
  }

  lemma {:induction false} QueueAdders(k: nat, j: nat)
    ensures Adders(Queue(k, j)) == j
    decreases k + j
  {
    hide Queue;
    QueueFront(k, j);
    if j > 0 {
      QueueAdders(k, j - 1);
    } else if k > 0 {
      QueueAdders(k - 1, 0);
    }
  }

  /** The state with one more task. */
  function With(k: nat, j: nat, maxWorkers: int64, t: Task): State {
    State(Pooled(k), Queue(k, j) + [t], maxWorkers)
  }

  lemma AddersSnoc(tasks: seq<Task>, t: Task)
    ensures Adders(tasks + [t]) == Adders(tasks) + (if t.Storing? then 1 else 0)
  {
    assert (tasks + [t])[..|tasks|] == tasks;
  }

  /** The last task of `With` takes a step that leaves the shared state alone. */
  lemma LastSteps(k: nat, j: nat, maxWorkers: int64, t: Task, t': Task, o: Outcome)
    requires CanStep(Pooled(k), t, o) && StepTask(Pooled(k), maxWorkers, t, o) == (Pooled(k), t')
    ensures Fire(With(k, j, maxWorkers, t), Step(k + j, o)) == With(k, j, maxWorkers, t')
  {
    assert (Queue(k, j) + [t])[k + j := t'] == Queue(k, j) + [t'];
  }

  lemma QueueGrows(k: nat, j: nat)
    ensures Queue(k, j) + [Storing("t", NO_VRAM, FREE)] == Queue(k, j + 1)
    ensures j > 0 ==> Queue(k, j)[k := Allocating(Name(k), NO_VRAM, FREE)] == Queue(k + 1, j - 1)
  {
  }

  /** A request joins the queue. */
  lemma Arrives(k: nat, j: nat, maxWorkers: int64)
    ensures Fire(Mid(k, j, maxWorkers), Create("t", NO_VRAM)) == With(k, j, maxWorkers, Scheduling("t", NO_VRAM))
  {
    hide Pooled, Queue;
  }

  lemma Schedules(k: nat, j: nat, maxWorkers: int64, o: Outcome)
    requires o == Outcome(true, "g", "", 0)
    ensures Fire(With(k, j, maxWorkers, Scheduling("t", NO_VRAM)), Step(k + j, o))
            == With(k, j, maxWorkers, Counting("t", NO_VRAM, FREE))
  {
    hide Pooled;
    PooledSize(k);
    assert PlacementOn(Empty().fleet, "g", "m") == FREE;
    LastSteps(k, j, maxWorkers, Scheduling("t", NO_VRAM), Counting("t", NO_VRAM, FREE), o);
  }

  lemma Counts(k: nat, j: nat, maxWorkers: int64, o: Outcome)
    requires k < maxWorkers
    ensures Fire(With(k, j, maxWorkers, Counting("t", NO_VRAM, FREE)), Step(k + j, o)) == Mid(k, j + 1, maxWorkers)
  {
    hide Pooled;
    PooledSize(k);
    LastSteps(k, j, maxWorkers, Counting("t", NO_VRAM, FREE), Storing("t", NO_VRAM, FREE), o);
    QueueGrows(k, j);
  }

  /** One more adder passes the check, below the limit. */
  lemma Join(s0: State, k: nat, j: nat, maxWorkers: int64, n: nat)
    requires LeadsWithin(s0, Mid(k, j, maxWorkers), n) && k < maxWorkers && j < n
    ensures LeadsWithin(s0, Mid(k, j + 1, maxWorkers), n)
  {
    hide LeadsWithin, Fire, Pooled, Queue;
    var o := Outcome(true, "g", "", 0);
    var t0, t1 := Scheduling("t", NO_VRAM), Counting("t", NO_VRAM, FREE);
    QueueAdders(k, j);
    QueueAdders(k, j + 1);
    AddersSnoc(Queue(k, j), t0);
    AddersSnoc(Queue(k, j), t1);
    Arrives(k, j, maxWorkers);
    WithinFire(s0, Mid(k, j, maxWorkers), Create("t", NO_VRAM), n);
    Schedules(k, j, maxWorkers, o);
    WithinFire(s0, With(k, j, maxWorkers, t0), Step(k + j, o), n);
    Counts(k, j, maxWorkers, o);
    WithinFire(s0, With(k, j, maxWorkers, t1), Step(k + j, o), n);
  }

  /** One of the waiting adders stores its worker, whatever the pool's size is by now. */
  lemma Take(s0: State, k: nat, j: nat, maxWorkers: int64, n: nat)
    requires LeadsWithin(s0, Mid(k, j, maxWorkers), n) && 0 < j <= n
    ensures LeadsWithin(s0, Mid(k + 1, j - 1, maxWorkers), n)
  {
    hide LeadsWithin, Fire, Pooled;
    var o := Outcome(true, "", Name(k), 0);
    PooledSize(k);
    QueueAdders(k + 1, j - 1);
    QueueGrows(k, j);
    StoreSteps(k, j, maxWorkers, o);
    WithinFire(s0, Mid(k, j, maxWorkers), Step(k, o), n);
  }

  lemma QueueHead(k: nat, j: nat)
    requires j > 0
    ensures Queue(k, j)[k] == Storing("t", NO_VRAM, FREE)
  {
  }

  lemma PooledNext(k: nat)
    ensures Pooled(k + 1) == Stored(Pooled(k), Name(k), "t", NO_VRAM, 0)
  {
  }

  lemma StoreSteps(k: nat, j: nat, maxWorkers: int64, o: Outcome)
    requires j > 0 && o == Outcome(true, "", Name(k), 0) && Name(k) !in Pooled(k).workers
    ensures Fire(Mid(k, j, maxWorkers), Step(k, o)) == Mid(k + 1, j - 1, maxWorkers)
  {
    hide Queue, Pooled, Name, Stored;
    QueueGrows(k, j);
    QueueHead(k, j);
    PooledNext(k);
  }

  lemma {:induction false} FillBelow(s0: State, k: nat, maxWorkers: int64, n: nat)
    requires s0 == Mid(0, 0, maxWorkers) && k < maxWorkers && n >= 1
    ensures LeadsWithin(s0, Mid(k, 0, maxWorkers), n)
  {
    if k == 0 {
      WithinStart(s0, n);
    } else {
      FillBelow(s0, k - 1, maxWorkers, n);
      Join(s0, k - 1, 0, maxWorkers, n);
      Take(s0, k - 1, 1, maxWorkers, n);
    }
  }

  lemma {:induction false} JoinAll(s0: State, k: nat, j: nat, maxWorkers: int64, n: nat)
    requires LeadsWithin(s0, Mid(k, 0, maxWorkers), n) && k < maxWorkers && j <= n
    ensures LeadsWithin(s0, Mid(k, j, maxWorkers), n)
  {
    if j > 0 {
      JoinAll(s0, k, j - 1, maxWorkers, n);
      Join(s0, k, j - 1, maxWorkers, n);
    }
  }

  lemma {:induction false} TakeAll(s0: State, k: nat, j: nat, maxWorkers: int64, n: nat)
    requires LeadsWithin(s0, Mid(k, j, maxWorkers), n) && j <= n
    ensures LeadsWithin(s0, Mid(k + j, 0, maxWorkers), n)
    decreases j
  {
    if j > 0 {
      Take(s0, k, j, maxWorkers, n);
      TakeAll(s0, k + 1, j - 1, maxWorkers, n);
    }
  }

  /** With `n` adders at a time, some run of a fresh system fills the pool to exactly `maxWorkers + n - 1`. */
  lemma PoolBoundIsReached(maxWorkers: int64, n: nat) returns (s0: State, events: seq<Event>)
    requires maxWorkers >= 1 && n >= 1
    ensures Initial(s0) && s0.maxWorkers == maxWorkers && AtMostAdders(s0, events, n)
    ensures |Exec(s0, events).sh.pool| == maxWorkers + n - 1
  {
    hide Exec, LeadsWithin, AtMostAdders;
    s0 := Mid(0, 0, maxWorkers);
    var k := maxWorkers - 1;
    FillBelow(s0, k, maxWorkers, n);
    JoinAll(s0, k, n, maxWorkers, n);
    TakeAll(s0, k, n, maxWorkers, n);
    PooledSize(k + n);
    events := WithinRun(s0, Mid(k + n, 0, maxWorkers), n);
  }

  lemma WithinRun(s0: State, s: State, n: nat) returns (events: seq<Event>)
    requires LeadsWithin(s0, s, n)
    ensures Exec(s0, events) == s && AtMostAdders(s0, events, n)
  {
    events :| Exec(s0, events) == s && AtMostAdders(s0, events, n);
  }
}
