/**
 Runs in which the books do go wrong: a repeated teardown, a deletion on either side of Allocate that comes before the
 assignment, a stale schedule, and a requirement the request handler should have refused. Each exists for every GPU size,
 every requirement of its kind and every choice of names; it starts from a fresh system with one GPU and ends with all
 tasks finished.
 */
module Traces {
  import opened Machine
  import opened Lifecycle
  import opened Workers
  import opened Accounts
  import opened Interleaving
  import opened Discipline
  import opened Requests

  datatype Setting = Setting(
    g: string, total: int64, tenant: string, model: ModelConfig, a: string, b: string, c: string, d: string)
  {
    predicate Ok() {
      a != b && c != d && c != "" && d != "" && 0 < model.vram <= total
    }

    /** The GPU's record with the model resident. */
    function Book(used: int64, ledger: seq<Reservation>, active: seq<string>): Account {
      Account(Gpu(g, 0, total, used, {model.name}, active), ledger)
    }

    function Entry(w: string): Reservation {
      Reservation(w, model.name, model.vram)
    }

    function Assignment(): Option<GPUAssignment> {
      Some(GPUAssignment(0, g, model.vram))
    }

    function FreshState(): State {
      State(Shared(map[g := NewAccount(g, 0, total)], map[], {}, map[], {}, []), [], 2)
    }
  }

  /** The books of the one GPU under the four operations the traces use. */
  lemma BookSteps(x: Setting)
    requires x.Ok()
    ensures Reserve(NewAccount(x.g, 0, x.total), x.a, x.model.name, x.model.vram) == x.Book(x.model.vram, [x.Entry(x.a)], [x.a])
    ensures Refund(x.Book(x.model.vram, [x.Entry(x.a)], [x.a]), x.a, x.model.vram) == x.Book(0, [], [])
    ensures Reserve(x.Book(0, [], []), x.b, x.model.name, x.model.vram) == x.Book(x.model.vram, [x.Entry(x.b)], [x.b])
    ensures Refund(x.Book(x.model.vram, [x.Entry(x.b)], [x.b]), x.a, x.model.vram) == x.Book(0, [x.Entry(x.b)], [x.b])
  {
    assert {x.model.name} + {x.model.name} == {x.model.name};
    assert [x.Entry(x.a)][1..] == [] && [x.Entry(x.b)][1..] == [];
    assert Settle([x.Entry(x.b)], x.a, x.model.vram) == [x.Entry(x.b)];
    assert [x.a][..0] == [] && [x.b][..0] == [];
    assert Without([], x.a) == [];
    assert Without([x.a], x.a) == [] && Without([x.b], x.a) == [x.b];
  }

  // ----- runs put together

  /** Some run leads from the first state to the second. */
  ghost predicate LeadsTo(s0: State, s: State) {
    exists events :: Exec(s0, events) == s
  }

  lemma LeadsNowhere(s: State)
    ensures LeadsTo(s, s)
  {
    assert Exec(s, []) == s;
  }

  function TaskOf(e: Event): Task
    requires !e.Step? && !e.Toggle?
  {
    match e
    case Create(tenant, model) => Scheduling(tenant, model)
    case Delete(w) => Finding(w)
    case Sweep(w) => Visiting(w)
  }

  /** A request arrives. */
  lemma LeadsSpawn(s0: State, s: State, e: Event, s': State)
    requires LeadsTo(s0, s) && !e.Step? && !e.Toggle?
    requires s'.sh == s.sh && s'.maxWorkers == s.maxWorkers && s'.tasks == s.tasks + [TaskOf(e)]
    ensures LeadsTo(s0, s')
  {
    var events :| Exec(s0, events) == s;
    ExecStep(s0, events, e);
  }

  /** The run goes on by steps of task `i` alone. */
  lemma LeadsOwn(s0: State, s: State, i: nat, s': State, out: StartOutcome)
    requires LeadsTo(s0, s) && i < |s.tasks| && i < |s'.tasks|
    requires s'.maxWorkers == s.maxWorkers && s'.tasks == s.tasks[i := s'.tasks[i]]
    requires Reaches(s, i, s.sh, s.tasks[i], s'.sh, s'.tasks[i], out)
    ensures LeadsTo(s0, s')
  {
    var first :| Exec(s0, first) == s;
    var second :| OwnSteps(second, i)
                  && Exec(At(s, i, s.sh, s.tasks[i]), second) == At(s, i, s'.sh, s'.tasks[i]);
    assert At(s, i, s.sh, s.tasks[i]) == s;
    assert At(s, i, s'.sh, s'.tasks[i]) == s';
    ExecConcat(s0, first, second);
  }

  // ----- a deletion during start-up releases the worker's VRAM twice

  /** "a" is STARTING, its image being pulled. */
  function PullingA(x: Setting): Shared
    requires x.Ok()
  {
    var sh := x.FreshState().sh;
    Transitioned(Admitted(sh, x.a, x.tenant, x.model, PlacementOn(sh.fleet, x.g, x.model.name), 0), x.a, Starting, 0)
  }

  /** "a" is deleted. */
  function DeletedA(x: Setting): Shared
    requires x.Ok()
  {
    Deleted(PullingA(x), x.a, 0)
  }

  /** "b" is created on the room this freed, and runs. */
  function RunningB(x: Setting): Shared
    requires x.Ok() && x.g in DeletedA(x).fleet
  {
    var sh := DeletedA(x);
    Created(sh, 2, x.b, x.tenant, x.model, PlacementOn(sh.fleet, x.g, x.model.name), Healthy(x.c), 0)
  }

  ghost predicate HasA(x: Setting, sh: Shared, status: Status) {
    && x.a in sh.workers && sh.workers[x.a].status == status && sh.workers[x.a].containerID == ""
    && sh.workers[x.a].gpu == x.Assignment() && sh.workers[x.a].model == Some(x.model)
  }

  ghost predicate HasB(x: Setting, sh: Shared) {
    && x.b in sh.workers && sh.workers[x.b].status == Running && sh.workers[x.b].containerID == x.c
    && sh.workers[x.b].gpu == x.Assignment() && sh.workers[x.b].model == Some(x.model)
  }

  lemma AfterPulling(x: Setting)
    requires x.Ok()
    ensures var sh := PullingA(x);
      && HasA(x, sh, Starting) && sh.workers.Keys == {x.a} && sh.pool == {x.a}
      && sh.containers == map[] && sh.terminated == {} && sh.removals == []
      && sh.fleet == map[x.g := x.Book(x.model.vram, [x.Entry(x.a)], [x.a])]
  {
    BookSteps(x);
  }

  lemma AfterDelete(x: Setting)
    requires x.Ok()
    ensures var sh := DeletedA(x);
      && HasA(x, sh, Terminating) && sh.workers.Keys == {x.a} && sh.pool == {}
      && sh.containers == map[] && sh.terminated == {} && sh.removals == [x.a]
      && sh.fleet == map[x.g := x.Book(0, [], [])]
  {
    hide Refund, Reserve;
    BookSteps(x);
    AfterPulling(x);
  }

  lemma AfterB(x: Setting)
    requires x.Ok() && x.g in DeletedA(x).fleet
    ensures var sh := RunningB(x);
      && HasA(x, sh, Terminating) && HasB(x, sh) && sh.pool == {x.b} && sh.removals == [x.a]
      && sh.fleet == map[x.g := x.Book(x.model.vram, [x.Entry(x.b)], [x.b])]
  {
    hide Refund, Reserve, DeletedA;
    BookSteps(x);
    AfterDelete(x);
    AdmittedB(x, DeletedA(x));
  }

  lemma AdmittedB(x: Setting, sh: Shared)
    requires x.Ok() && sh.fleet == map[x.g := x.Book(0, [], [])] && x.b !in sh.workers && sh.pool == {}
    ensures var gpu := PlacementOn(sh.fleet, x.g, x.model.name);
      var out := Admitted(sh, x.b, x.tenant, x.model, gpu, 0);
      && out.fleet == map[x.g := x.Book(x.model.vram, [x.Entry(x.b)], [x.b])]
      && out.pool == {x.b} && x.b in out.workers && out.workers == sh.workers[x.b := out.workers[x.b]]
      && out.workers[x.b].status == Pending && out.workers[x.b].gpu == x.Assignment()
      && out.workers[x.b].model == Some(x.model)
  {
    hide Refund, Reserve;
    BookSteps(x);
  }

  lemma AfterTwice(x: Setting)
    requires x.Ok() && x.g in DeletedA(x).fleet && x.a in RunningB(x).workers
    ensures var sh := TornDown(RunningB(x), x.a, 0);
      && HasB(x, sh) && sh.pool == {x.b} && sh.removals == [x.a, x.a]
      && sh.fleet == map[x.g := x.Book(0, [x.Entry(x.b)], [x.b])]
  {
    hide Refund, Reserve, DeletedA, RunningB;
    BookSteps(x);
    AfterB(x);
  }

  lemma PullingAIsReached(x: Setting)
    requires x.Ok()
    ensures LeadsTo(x.FreshState(), State(PullingA(x), [Pulling(x.a)], 2))
  {
    hide Reaches, LeadsTo;
    var s0 := x.FreshState();
    LeadsNowhere(s0);
    var t := Scheduling(x.tenant, x.model);
    var s1 := State(s0.sh, [t], 2);
    LeadsSpawn(s0, s0, Create(x.tenant, x.model), s1);
    var gpu := PlacementOn(s0.sh.fleet, x.g, x.model.name);
    var admitted := Admitted(s0.sh, x.a, x.tenant, x.model, gpu, 0);
    PlacedIsRun(s1, 0, s0.sh, x.tenant, x.model, x.g, PullFailed);
    AdmittedIsRun(s1, 0, s0.sh, x.a, x.tenant, x.model, gpu, 0, PullFailed);
    ReachesTrans(s1, 0, s0.sh, t, s0.sh, Counting(x.tenant, x.model, gpu), admitted, Beginning(x.a), PullFailed);
    ReachesThen(s1, 0, s0.sh, t, admitted, Beginning(x.a), Any(0), PullFailed);
    LeadsOwn(s0, s1, 0, State(PullingA(x), [Pulling(x.a)], 2), PullFailed);
  }

  lemma TwiceIsReached(x: Setting)
    requires x.Ok() && x.g in DeletedA(x).fleet && x.a in RunningB(x).workers
    ensures LeadsTo(x.FreshState(), State(TornDown(RunningB(x), x.a, 0), [Done, Done, Done], 2))
  {
    hide Reaches, LeadsTo, PullingA, TornDown;
    var s0 := x.FreshState();
    var a := Pulling(x.a);
    PullingAIsReached(x);
    var s1 := State(PullingA(x), [a], 2);
    var s2 := State(PullingA(x), [a, Finding(x.a)], 2);
    LeadsSpawn(s0, s1, Delete(x.a), s2);
    DeletedIsRun(s2, 1, s2.sh, x.a, 0, PullFailed);
    var s3 := State(DeletedA(x), [a, Done], 2);
    LeadsOwn(s0, s2, 1, s3, PullFailed);
    var s4 := State(DeletedA(x), [a, Done, Scheduling(x.tenant, x.model)], 2);
    LeadsSpawn(s0, s3, Create(x.tenant, x.model), s4);
    AfterDelete(x);
    CreatedIsRun(s4, 2, s4.sh, x.b, x.tenant, x.model, x.g, Healthy(x.c), 0);
    var s5 := State(RunningB(x), [a, Done, Done], 2);
    LeadsOwn(s0, s4, 2, s5, Healthy(x.c));
    BareFailureIsRun(s5, 0, s5.sh, x.a, false, 0, PullFailed);
    LeadsOwn(s0, s5, 0, State(TornDown(RunningB(x), x.a, 0), [Done, Done, Done], 2), PullFailed);
  }

  /**
   A deletion during start-up can make the worker's teardown run twice, and then the second release takes another
   worker's VRAM: a worker that requires VRAM runs on a GPU whose counter says 0.
   */
  lemma DoubleTeardownLosesVRAM(x: Setting) returns (events: seq<Event>)
    requires x.Ok()
    ensures var s0, s := x.FreshState(), Exec(x.FreshState(), events);
      && Initial(s0) && Quiescent(s)
      && s.sh.pool == {x.b} && HasB(x, s.sh)
      && x.g in s.sh.fleet && s.sh.fleet[x.g].gpu.allocatedVram == 0
      && s.sh.removals == [x.a, x.a] && !BooksAgree(s.sh)
  {
    hide Exec, LeadsTo, TornDown, RunningB, DeletedA;
    AfterDelete(x);
    AfterB(x);
    AfterTwice(x);
    LostVRAM(x, TornDown(RunningB(x), x.a, 0));
    TwiceIsReached(x);
    events := TheRun(x.FreshState(), State(TornDown(RunningB(x), x.a, 0), [Done, Done, Done], 2));
  }

  /** A resident that requires VRAM on a counter of 0. */
  lemma LostVRAM(x: Setting, sh: Shared)
    requires x.Ok() && HasB(x, sh) && sh.pool == {x.b} && sh.fleet.Keys == {x.g}
    requires sh.fleet[x.g].gpu.allocatedVram == 0
    ensures !BooksAgree(sh)
  {
    var m := Loads(sh, x.g);
    assert Residents(sh, x.g) == {x.b};
    TotalPull(m, x.b);
    assert m - {x.b} == map[];
    assert !AgreesOn(sh, x.g);
  }

  lemma TheRun(s0: State, s: State) returns (events: seq<Event>)
    requires LeadsTo(s0, s)
    ensures Exec(s0, events) == s
  {
    events :| Exec(s0, events) == s;
  }

  /** The active list has someone it should not have, or lacks someone it should have. */
  lemma Misnamed(sh: Shared, u: string, w: string, active: seq<string>)
    requires u in sh.fleet && sh.fleet[u].gpu.active == active
    requires w in active <==> w !in Residents(sh, u)
    ensures !BooksAgree(sh)
  {
    assert w in Elements(active) <==> w in active;
    assert !AgreesOn(sh, u);
  }

  // ----- a deletion between AddWorker and Allocate leaves a reservation behind

  /** "a" is in the pool, not yet allocated. */
  function StoredA(x: Setting): Shared {
    Stored(x.FreshState().sh, x.a, x.tenant, x.model, 0)
  }

  /** It is deleted, and then allocated and assigned after all. */
  function AbandonedA(x: Setting): Shared {
    var sh := Deleted(StoredA(x), x.a, 0);
    var gpu := Placement(x.g, 0, false, x.total);
    if x.a in sh.workers then Assigned(Reserved(sh, x.a, x.model, gpu), x.a, x.model, gpu) else sh
  }

  lemma AfterAbandoned(x: Setting)
    requires x.Ok()
    ensures var sh := AbandonedA(x);
      && HasA(x, sh, Terminating) && sh.workers.Keys == {x.a} && sh.pool == {} && sh.removals == [x.a]
      && sh.fleet == map[x.g := x.Book(x.model.vram, [x.Entry(x.a)], [x.a])]
    ensures var sh := Deleted(StoredA(x), x.a, 0);
      && x.a in sh.workers && sh.workers[x.a].status == Terminating && sh.fleet == x.FreshState().sh.fleet
  {
    hide Reserve;
    BookSteps(x);
  }

  lemma AbandonedIsReached(x: Setting)
    requires x.Ok()
    ensures LeadsTo(x.FreshState(), State(AbandonedA(x), [Done, Done], 2))
  {
    hide Reaches, LeadsTo;
    var s0 := x.FreshState();
    LeadsNowhere(s0);
    AfterAbandoned(x);
    var t, gpu := Scheduling(x.tenant, x.model), Placement(x.g, 0, false, x.total);
    assert gpu == PlacementOn(s0.sh.fleet, x.g, x.model.name);
    var s1 := State(s0.sh, [t], 2);
    LeadsSpawn(s0, s0, Create(x.tenant, x.model), s1);
    PlacedIsRun(s1, 0, s0.sh, x.tenant, x.model, x.g, PullFailed);
    StoredIsRun(s1, 0, s0.sh, x.a, x.tenant, x.model, gpu, 0, PullFailed);
    ReachesTrans(s1, 0, s0.sh, t, s0.sh, Counting(x.tenant, x.model, gpu), StoredA(x), Allocating(x.a, x.model, gpu), PullFailed);
    var a := Allocating(x.a, x.model, gpu);
    var s2 := State(StoredA(x), [a], 2);
    LeadsOwn(s0, s1, 0, s2, PullFailed);
    var s3 := State(StoredA(x), [a, Finding(x.a)], 2);
    LeadsSpawn(s0, s2, Delete(x.a), s3);
    DeletedIsRun(s3, 1, s3.sh, x.a, 0, PullFailed);
    var s4 := State(Deleted(StoredA(x), x.a, 0), [a, Done], 2);
    LeadsOwn(s0, s3, 1, s4, PullFailed);
    AssignedIsRun(s4, 0, s4.sh, x.a, x.model, gpu, 0, PullFailed);
    ReachesThen(s4, 0, s4.sh, a, AbandonedA(x), Beginning(x.a), Any(0), PullFailed);
    LeadsOwn(s0, s4, 0, State(AbandonedA(x), [Done, Done], 2), PullFailed);
  }

  /**
   A deletion between AddWorker and Allocate finds no assignment to release. The pool ends empty, every task has
   finished, and the GPU still counts the worker's requirement.
   */
  lemma EarlyDeletionKeepsReservation(x: Setting) returns (events: seq<Event>)
    requires x.Ok()
    ensures var s0, s := x.FreshState(), Exec(x.FreshState(), events);
      && Initial(s0) && Quiescent(s)
      && s.sh.pool == {} && s.sh.removals == [x.a]
      && x.g in s.sh.fleet && s.sh.fleet[x.g].gpu.allocatedVram == x.model.vram > 0
      && !BooksAgree(s.sh)
  {
    hide Exec, LeadsTo, AbandonedA;
    AfterAbandoned(x);
    Misnamed(AbandonedA(x), x.g, x.a, [x.a]);
    AbandonedIsReached(x);
    events := TheRun(x.FreshState(), State(AbandonedA(x), [Done, Done], 2));
  }

  // ----- a deletion between Allocate and SetGPUAssignment does so too

  /** "a" is in the pool and allocated, not yet assigned. */
  function ReservedA(x: Setting): Shared {
    Reserved(StoredA(x), x.a, x.model, Placement(x.g, 0, false, x.total))
  }

  function AssigningA(x: Setting): State {
    State(ReservedA(x), [Assigning(x.a, x.model, Placement(x.g, 0, false, x.total))], 2)
  }

  /** Deleting "a" now leads to the state that deleting it one step earlier leads to. */
  lemma AfterLateDeletion(x: Setting)
    requires x.Ok()
    ensures x.a in ReservedA(x).workers && x.a in Deleted(ReservedA(x), x.a, 0).workers
    ensures Assigned(Deleted(ReservedA(x), x.a, 0), x.a, x.model, Placement(x.g, 0, false, x.total)) == AbandonedA(x)
  {
    hide Reserve;
    BookSteps(x);
  }

  lemma LateDeletionIsReached(x: Setting)
    requires x.Ok()
    ensures LeadsTo(AssigningA(x), State(AbandonedA(x), [Done, Done], 2))
  {
    hide Reaches, LeadsTo, Deleted;
    AfterAbandoned(x);
    AfterLateDeletion(x);
    var s0, s2 := AssigningA(x), AssigningA(x);
    LeadsNowhere(s2);
    var a := Assigning(x.a, x.model, Placement(x.g, 0, false, x.total));
    var s3 := State(ReservedA(x), [a, Finding(x.a)], 2);
    LeadsSpawn(s0, s2, Delete(x.a), s3);
    DeletedIsRun(s3, 1, s3.sh, x.a, 0, PullFailed);
    var s4 := State(Deleted(ReservedA(x), x.a, 0), [a, Done], 2);
    LeadsOwn(s0, s3, 1, s4, PullFailed);
    ReachesStep(s4, 0, s4.sh, a, Any(0), PullFailed);
    ReachesThen(s4, 0, s4.sh, a, AbandonedA(x), Beginning(x.a), Any(0), PullFailed);
    LeadsOwn(s0, s4, 0, State(AbandonedA(x), [Done, Done], 2), PullFailed);
  }

  lemma ReservedAIsReached(x: Setting)
    requires x.Ok()
    ensures LeadsTo(x.FreshState(), AssigningA(x))
  {
    hide Reaches, LeadsTo;
    var s0 := x.FreshState();
    LeadsNowhere(s0);
    var t, gpu := Scheduling(x.tenant, x.model), Placement(x.g, 0, false, x.total);
    assert gpu == PlacementOn(s0.sh.fleet, x.g, x.model.name);
    var s1 := State(s0.sh, [t], 2);
    LeadsSpawn(s0, s0, Create(x.tenant, x.model), s1);
    PlacedIsRun(s1, 0, s0.sh, x.tenant, x.model, x.g, PullFailed);
    StoredIsRun(s1, 0, s0.sh, x.a, x.tenant, x.model, gpu, 0, PullFailed);
    ReachesTrans(s1, 0, s0.sh, t, s0.sh, Counting(x.tenant, x.model, gpu), StoredA(x), Allocating(x.a, x.model, gpu), PullFailed);
    ReachesThen(s1, 0, s0.sh, t, StoredA(x), Allocating(x.a, x.model, gpu), Any(0), PullFailed);
    LeadsOwn(s0, s1, 0, AssigningA(x), PullFailed);
  }

  /**
   A deletion after Allocate and before SetGPUAssignment finds no assignment either, although the reservation is there. It
   runs from a state in which "a" is in the pool and on the books; in the end the pool is empty, every task has finished,
   and the GPU still counts the worker's requirement.
   */
  lemma LateDeletionKeepsReservation(x: Setting) returns (first: seq<Event>, rest: seq<Event>)
    requires x.Ok()
    ensures var s0, s := x.FreshState(), Exec(x.FreshState(), first);
      && Initial(s0) && s == AssigningA(x) && s.sh.pool == {x.a}
      && x.g in s.sh.fleet && s.sh.fleet[x.g].gpu.allocatedVram == x.model.vram
    ensures var s := Exec(x.FreshState(), first + rest);
      && Quiescent(s) && s.sh.pool == {} && s.sh.removals == [x.a]
      && x.g in s.sh.fleet && s.sh.fleet[x.g].gpu.allocatedVram == x.model.vram > 0
      && !BooksAgree(s.sh)
  {
    hide Exec, LeadsTo, AbandonedA;
    BookSteps(x);
    AfterAbandoned(x);
    Misnamed(AbandonedA(x), x.g, x.a, [x.a]);
    ReservedAIsReached(x);
    LateDeletionIsReached(x);
    first := TheRun(x.FreshState(), AssigningA(x));
    rest := TheRun(AssigningA(x), State(AbandonedA(x), [Done, Done], 2));
    ExecConcat(x.FreshState(), first, rest);
  }

  // ----- a stale schedule overcommits the GPU

  /** "b" is created and runs while "a" has its placement in hand. */
  function FirstB(x: Setting): Shared {
    Created(x.FreshState().sh, 2, x.b, x.tenant, x.model, Placement(x.g, 0, false, x.total), Healthy(x.c), 0)
  }

  /** "a" goes on with that placement; its Allocate fails, unnoticed, and it runs too. */
  function BothRun(x: Setting): Shared {
    Created(FirstB(x), 2, x.a, x.tenant, x.model, Placement(x.g, 0, false, x.total), Healthy(x.d), 0)
  }

  lemma AfterFirstB(x: Setting)
    requires x.Ok()
    ensures var sh := FirstB(x);
      && HasB(x, sh) && sh.workers.Keys == {x.b} && sh.pool == {x.b} && sh.containers == map[x.c := x.b]
      && sh.fleet == map[x.g := x.Book(x.model.vram, [x.Entry(x.b)], [x.b])]
  {
    hide Admitted;
    AdmittedFirst(x, x.b);
  }

  lemma AdmittedFirst(x: Setting, w: string)
    requires x.Ok() && (w == x.a || w == x.b)
    ensures var out := Admitted(x.FreshState().sh, w, x.tenant, x.model, Placement(x.g, 0, false, x.total), 0);
      && out.fleet == map[x.g := x.Book(x.model.vram, [x.Entry(w)], [w])]
      && out.pool == {w} && w in out.workers && out.workers == map[w := out.workers[w]]
      && out.workers[w].status == Pending && out.workers[w].containerID == ""
      && out.workers[w].gpu == x.Assignment() && out.workers[w].model == Some(x.model)
      && out.containers == map[] && out.terminated == {} && out.removals == []
  {
    hide Reserve;
    BookSteps(if w == x.a then x else x.(a := x.b, b := x.a));
  }

  lemma AfterBoth(x: Setting)
    requires x.Ok() && x.total < 2 * x.model.vram
    ensures var sh := BothRun(x);
      && HasB(x, sh) && sh.pool == {x.a, x.b}
      && x.a in sh.workers && sh.workers[x.a].status == Running
      && sh.workers[x.a].gpu == x.Assignment() && sh.workers[x.a].model == Some(x.model)
      && sh.fleet == map[x.g := x.Book(x.model.vram, [x.Entry(x.b)], [x.b])]
  {
    hide FirstB;
    AfterFirstB(x);
  }

  lemma BothIsReached(x: Setting)
    requires x.Ok() && x.total < 2 * x.model.vram
    ensures LeadsTo(x.FreshState(), State(BothRun(x), [Done, Done], 2))
  {
    hide Reaches, LeadsTo, StartedUp;
    var s0 := x.FreshState();
    LeadsNowhere(s0);
    AfterFirstB(x);
    assert |FirstB(x).pool| == 1;
    var t, gpu := Scheduling(x.tenant, x.model), Placement(x.g, 0, false, x.total);
    assert gpu == PlacementOn(s0.sh.fleet, x.g, x.model.name);
    var a := Counting(x.tenant, x.model, gpu);
    var s1 := State(s0.sh, [t], 2);
    LeadsSpawn(s0, s0, Create(x.tenant, x.model), s1);
    PlacedIsRun(s1, 0, s0.sh, x.tenant, x.model, x.g, PullFailed);
    var s2 := State(s0.sh, [a], 2);
    LeadsOwn(s0, s1, 0, s2, PullFailed);
    var s3 := State(s0.sh, [a, t], 2);
    LeadsSpawn(s0, s2, Create(x.tenant, x.model), s3);
    CreatedIsRun(s3, 1, s0.sh, x.b, x.tenant, x.model, x.g, Healthy(x.c), 0);
    var s4 := State(FirstB(x), [a, Done], 2);
    LeadsOwn(s0, s3, 1, s4, Healthy(x.c));
    var admitted := Admitted(FirstB(x), x.a, x.tenant, x.model, gpu, 0);
    AdmittedIsRun(s4, 0, s4.sh, x.a, x.tenant, x.model, gpu, 0, Healthy(x.d));
    StartedUpIsRun(s4, 0, admitted, x.a, Healthy(x.d), 0);
    ReachesTrans(s4, 0, s4.sh, a, admitted, Beginning(x.a), BothRun(x), Done, Healthy(x.d));
    LeadsOwn(s0, s4, 0, State(BothRun(x), [Done, Done], 2), Healthy(x.d));
  }

  /**
   Two requests may hold the same room. The second Allocate fails and CreateWorker does not notice: both workers run on
   the GPU, their requirements exceed its size, and its counter covers only one of them.
   */
  lemma StaleScheduleOvercommits(x: Setting) returns (events: seq<Event>)
    requires x.Ok() && x.total < 2 * x.model.vram
    ensures var s0, s := x.FreshState(), Exec(x.FreshState(), events);
      && Initial(s0) && Quiescent(s)
      && s.sh.pool == {x.a, x.b} && {x.a, x.b} <= s.sh.workers.Keys
      && (forall w :: w in s.sh.pool ==>
            && s.sh.workers[w].status == Running && s.sh.workers[w].gpu == x.Assignment()
            && s.sh.workers[w].model == Some(x.model))
      && x.g in s.sh.fleet && s.sh.fleet[x.g].gpu.allocatedVram == x.model.vram
      && s.sh.fleet[x.g].gpu.total < x.model.vram + x.model.vram
      && !BooksAgree(s.sh)
  {
    hide Exec, LeadsTo, BothRun;
    AfterBoth(x);
    Misnamed(BothRun(x), x.g, x.a, [x.b]);
    BothIsReached(x);
    events := TheRun(x.FreshState(), State(BothRun(x), [Done, Done], 2));
  }

  // ----- a negative requirement drives the counter below zero

  function NegativeA(x: Setting): Shared {
    Created(x.FreshState().sh, 2, x.a, x.tenant, x.model, Placement(x.g, 0, false, x.total), Healthy(x.c), 0)
  }

  lemma AfterNegative(x: Setting)
    requires x.total >= 0 && x.model.vram < 0
    ensures var sh := NegativeA(x);
      && sh.pool == {x.a} && x.a in sh.workers
      && sh.workers[x.a].status == Running && sh.workers[x.a].model == Some(x.model)
      && x.g in sh.fleet && sh.fleet[x.g].gpu.allocatedVram == x.model.vram
  {
    hide Admitted;
    AdmittedNegative(x);
  }

  lemma AdmittedNegative(x: Setting)
    requires x.total >= 0 && x.model.vram < 0
    ensures var out := Admitted(x.FreshState().sh, x.a, x.tenant, x.model, Placement(x.g, 0, false, x.total), 0);
      && out.pool == {x.a} && x.a in out.workers
      && out.workers[x.a].status == Pending && out.workers[x.a].model == Some(x.model)
      && x.g in out.fleet && out.fleet[x.g].gpu.allocatedVram == x.model.vram
  {
  }

  /**
   CreateWorker accepts a requirement below zero. On any GPU, one request for any negative amount ends with its worker
   running and the GPU's counter at that amount.
   */
  lemma NegativeAmountEscapes(x: Setting) returns (events: seq<Event>)
    requires x.total >= 0 && x.model.vram < 0 && x.c != ""
    ensures events != [] && events[0] == Create(x.tenant, x.model) && forall e :: e in events[1..] ==> e.Step?
    ensures var s0, s := x.FreshState(), Exec(x.FreshState(), events);
      && Initial(s0) && Quiescent(s)
      && s.sh.pool == {x.a} && x.a in s.sh.workers
      && s.sh.workers[x.a].status == Running && s.sh.workers[x.a].model == Some(x.model)
      && x.g in s.sh.fleet && s.sh.fleet[x.g].gpu.allocatedVram == x.model.vram < 0
  {
    hide Exec, Created;
    AfterNegative(x);
    var s0, gpu := x.FreshState(), Placement(x.g, 0, false, x.total);
    var t, e := Scheduling(x.tenant, x.model), Create(x.tenant, x.model);
    assert gpu == PlacementOn(s0.sh.fleet, x.g, x.model.name);
    var s1 := State(s0.sh, [t], 2);
    CreatedIsRun(s1, 0, s0.sh, x.a, x.tenant, x.model, x.g, Healthy(x.c), 0);
    assert At(s1, 0, s0.sh, t) == s1;
    var own := OwnRun(s1, 0, s0.sh, t, NegativeA(x), Done, Healthy(x.c));
    events := [e] + own;
    ExecOne(s0, e);
    assert Fire(s0, e) == s1;
    ExecConcat(s0, [e], own);
    assert At(s1, 0, NegativeA(x), Done) == State(NegativeA(x), [Done], 2);
  }

  lemma ExecOne(s: State, e: Event)
    ensures Exec(s, [e]) == Fire(s, e)
  {
    assert [e][..0] == [];
  }

  lemma OwnRun(s: State, i: nat, sh: Shared, t: Task, sh': Shared, t': Task, out: StartOutcome) returns (events: seq<Event>)
    requires i < |s.tasks| && Reaches(s, i, sh, t, sh', t', out)
    ensures OwnSteps(events, i) && Exec(At(s, i, sh, t), events) == At(s, i, sh', t')
  {
    events :| OwnSteps(events, i) && Exec(At(s, i, sh, t), events) == At(s, i, sh', t');
  }
}
