/**
 When the books are exact. In an arbitrary interleaving they need not be; they are whenever every Allocate finds room and
 no deletion or sweep takes up a worker on which another task is still at work. Requests may arrive at any time, and
 everything else may interleave in any way.
 */
module Discipline {
  import opened Machine
  import opened Lifecycle
  import opened Workers
  import opened Accounts
  import opened Interleaving

  /** The task works on this worker. */
  predicate Concerns(t: Task, w: string) {
    (HoldsRecord(t) || t.Looking?) && t.w == w
  }

  /** With this step a deletion finds its worker, or the sweep's visit takes its worker up. */
  predicate Enters(sh: Shared, t: Task, o: Outcome) {
    && (t.Finding? || t.Visiting?) && t.w in sh.pool && t.w in sh.workers
    && (t.Visiting? ==> sh.workers[t.w].status == Idle && o.ok)
  }

  ghost predicate Unattended(s: State, w: string) {
    forall t :: t in s.tasks ==> !Concerns(t, w)
  }

  /** The event keeps to the discipline. Arrivals always do; what matters is when a request takes its worker up. */
  ghost predicate Disciplined(s: State, e: Event) {
    match e
    case Create(_, model) => model.vram >= 0
    case Delete(_) => true
    case Sweep(_) => true
    case Toggle(_, _) => true
    case Step(i, o) =>
      i < |s.tasks| && CanStep(s.sh, s.tasks[i], o) ==>
        Granted(s.sh, s.tasks[i]) && (Enters(s.sh, s.tasks[i], o) ==> Unattended(s, s.tasks[i].w))
  }

  ghost predicate Granted(sh: Shared, t: Task) {
    t.Allocating? ==> Grants(sh.fleet, t.gpu.uuid, t.model.vram)
  }

  ghost predicate DisciplinedAt(s: State, events: seq<Event>, k: nat)
    requires k < |events|
  {
    Disciplined(Exec(s, events[..k]), events[k])
  }

  ghost predicate DisciplinedRun(s: State, events: seq<Event>) {
    forall k :: 0 <= k < |events| ==> DisciplinedAt(s, events, k)
  }

  // ----- the invariant of disciplined runs

  function WorkerList(ledger: seq<Reservation>): seq<string> {
    if ledger == [] then [] else WorkerList(ledger[..|ledger| - 1]) + [ledger[|ledger| - 1].worker]
  }

  ghost predicate OnePerWorker(ledger: seq<Reservation>) {
    forall i, j :: 0 <= i < j < |ledger| ==> ledger[i].worker != ledger[j].worker
  }

  /** The active list says what the ledger says. */
  ghost predicate Tidy(a: Account) {
    OnePerWorker(a.ledger) && a.gpu.active == WorkerList(a.ledger)
  }

  /** One GPU's books: the counter and the active list say what the ledger says. */
  ghost predicate BooksOk(a: Account) {
    WithinCapacity(a.gpu) && Bounded(a) && Exact(a) && Tidy(a)
  }

  ghost predicate FleetOk(f: Fleet) {
    forall u :: u in f ==> BooksOk(f[u])
  }

  /** A reservation belongs to a pool worker, for the amount its model requires, on the GPU it is assigned if any. */
  ghost predicate EntryOk(sh: Shared, u: string, r: Reservation) {
    && r.worker in sh.pool && r.worker in sh.workers
    && sh.workers[r.worker].model.Some? && sh.workers[r.worker].model.value.vram == r.amount
    && (sh.workers[r.worker].gpu.Some? ==> sh.workers[r.worker].gpu.value.uuid == u)
  }

  ghost predicate EntriesOk(sh: Shared) {
    forall u, r :: u in sh.fleet && r in sh.fleet[u].ledger ==> EntryOk(sh, u, r)
  }

  ghost predicate Unreserved(f: Fleet, w: string) {
    forall u, r :: u in f && r in f[u].ledger ==> r.worker != w
  }

  ghost predicate ReservedOnlyOn(f: Fleet, w: string, uuid: string, amount: int64) {
    && uuid in f && Holds(f[uuid].ledger, w, amount)
    && forall u, r :: u in f && r in f[u].ledger && r.worker == w ==> u == uuid
  }

  /** A pool worker whose assignment and reservation are both in place. */
  ghost predicate Settled(sh: Shared, w: string) {
    && w in sh.pool && w in sh.workers
    && sh.workers[w].model.Some? && sh.workers[w].gpu.Some?
    && ReservedOnlyOn(sh.fleet, w, sh.workers[w].gpu.value.uuid, sh.workers[w].model.value.vram)
  }

  ghost predicate Unassigned(sh: Shared, w: string, model: ModelConfig) {
    w in sh.pool && w in sh.workers && sh.workers[w].model == Some(model) && sh.workers[w].gpu.None? && model.vram >= 0
  }

  ghost predicate StageBooks(sh: Shared, t: Task) {
    match t
    case Scheduling(_, model) => model.vram >= 0
    case Counting(_, model, _) => model.vram >= 0
    case Storing(_, model, _) => model.vram >= 0
    case Allocating(w, model, _) => Unassigned(sh, w, model) && Unreserved(sh.fleet, w)
    case Assigning(w, model, gpu) => Unassigned(sh, w, model) && ReservedOnlyOn(sh.fleet, w, gpu.uuid, model.vram)
    case Releasing(w, uuid, amount) =>
      Settled(sh, w) && sh.workers[w].gpu.value.uuid == uuid && sh.workers[w].model.value.vram == amount
    case Removing(w) => w in sh.pool && w in sh.workers && Unreserved(sh.fleet, w)
    case Finding(_) => true
    case Visiting(_) => true
    case Done => true
    case _ => Settled(sh, t.w)
  }

  ghost predicate StagesBooks(s: State) {
    forall i :: 0 <= i < |s.tasks| ==> StageBooks(s.sh, s.tasks[i])
  }

  ghost predicate OneTask(s: State) {
    forall i, j, w :: 0 <= i < |s.tasks| && 0 <= j < |s.tasks| && Concerns(s.tasks[i], w) && Concerns(s.tasks[j], w)
                      ==> i == j
  }

  /** The three stages at which a pool worker's assignment and reservation are not both in place. */
  predicate MidBooks(t: Task, w: string) {
    (t.Allocating? || t.Assigning? || t.Removing?) && t.w == w
  }

  ghost predicate PoolBooks(s: State) {
    forall w :: w in s.sh.pool ==> Settled(s.sh, w) || exists i :: 0 <= i < |s.tasks| && MidBooks(s.tasks[i], w)
  }

  ghost predicate RemovalsOnce(sh: Shared) {
    && NoDuplicates(sh.removals)
    && (forall w :: w in sh.removals ==> w !in sh.pool && w in sh.workers)
    && sh.pool <= sh.workers.Keys
  }

  ghost predicate BooksInv(s: State) {
    && FleetOk(s.sh.fleet) && EntriesOk(s.sh) && StagesBooks(s) && OneTask(s) && PoolBooks(s) && RemovalsOnce(s.sh)
  }

  lemma InitialBooks(s: State)
    requires Initial(s)
    ensures BooksInv(s)
  {
  }

  // ----- one account

  lemma {:induction false} WorkerListElements(ledger: seq<Reservation>)
    ensures |WorkerList(ledger)| == |ledger|
    ensures forall i :: 0 <= i < |ledger| ==> WorkerList(ledger)[i] == ledger[i].worker
  {
    if ledger != [] {
      WorkerListElements(ledger[..|ledger| - 1]);
    }
  }

  /** Striking out the one reservation of a worker is the same as dropping the worker's entries. */
  lemma SettleDropsWorker(ledger: seq<Reservation>, w: string, amount: int64)
    requires OnePerWorker(ledger) && Holds(ledger, w, amount)
    ensures OnePerWorker(Settle(ledger, w, amount))
    ensures WorkerList(Settle(ledger, w, amount)) == Without(WorkerList(ledger), w)
    ensures forall r :: r in Settle(ledger, w, amount) <==> r in ledger && r.worker != w
  {
    var k := SettlePosition(ledger, w, amount);
    DropOne(ledger, w, k);
    DropOneList(ledger, w, k);
  }

  lemma DropOne(ledger: seq<Reservation>, w: string, k: nat)
    requires OnePerWorker(ledger) && k < |ledger| && ledger[k].worker == w
    ensures OnePerWorker(ledger[..k] + ledger[k + 1..])
    ensures forall r :: r in ledger[..k] + ledger[k + 1..] <==> r in ledger && r.worker != w
  {
    var rest := ledger[..k] + ledger[k + 1..];
    assert forall i :: 0 <= i < |rest| ==> rest[i] == ledger[if i < k then i else i + 1];
    forall r | r in ledger && r.worker != w ensures r in rest {
      var i :| 0 <= i < |ledger| && ledger[i] == r;
      assert rest[if i < k then i else i - 1] == r;
    }
  }

  lemma DropOneList(ledger: seq<Reservation>, w: string, k: nat)
    requires OnePerWorker(ledger) && k < |ledger| && ledger[k].worker == w
    ensures WorkerList(ledger[..k] + ledger[k + 1..]) == Without(WorkerList(ledger), w)
  {
    var rest := ledger[..k] + ledger[k + 1..];
    WorkerListElements(ledger);
    WorkerListElements(rest);
    WithoutAt(WorkerList(ledger), w, k);
    assert WorkerList(rest) == WorkerList(ledger)[..k] + WorkerList(ledger)[k + 1..];
  }

  lemma {:induction false} SettlePosition(ledger: seq<Reservation>, w: string, amount: int64) returns (k: nat)
    requires OnePerWorker(ledger) && Holds(ledger, w, amount)
    ensures k < |ledger| && ledger[k].worker == w && ledger[k].amount == amount
    ensures Settle(ledger, w, amount) == ledger[..k] + ledger[k + 1..]
  {
    if ledger[0].worker == w && ledger[0].amount == amount {
      k := 0;
      assert Settle(ledger, w, amount) == ledger[1..];
    } else {
      assert Holds(ledger[1..], w, amount) by {
        var r :| r in ledger && r.worker == w && r.amount == amount;
        assert r in ledger[1..];
      }
      var j := SettlePosition(ledger[1..], w, amount);
      k := j + 1;
      assert [ledger[0]] + (ledger[1..][..j] + ledger[1..][j + 1..]) == ledger[..k] + ledger[k + 1..];
    }
  }

  lemma {:induction false} WithoutAt(s: seq<string>, w: string, k: nat)
    requires k < |s| && s[k] == w && forall i :: 0 <= i < |s| && i != k ==> s[i] != w
    ensures Without(s, w) == s[..k] + s[k + 1..]
  {
    var front := s[..|s| - 1];
    if k == |front| {
      WithoutNone(front, w);
      assert s[..k] + s[k + 1..] == front;
    } else {
      WithoutAt(front, w, k);
      assert s[..k] + s[k + 1..] == (front[..k] + front[k + 1..]) + [s[|s| - 1]];
    }
  }

  lemma {:induction false} WithoutNone(s: seq<string>, w: string)
    requires w !in s
    ensures Without(s, w) == s
  {
    if s != [] {
      WithoutNone(s[..|s| - 1], w);
    }
  }

  lemma ReserveBooks(a: Account, w: string, model: string, amount: int64)
    requires BooksOk(a) && amount >= 0 && a.gpu.HasRoom(amount)
    requires forall r :: r in a.ledger ==> r.worker != w
    ensures BooksOk(Reserve(a, w, model, amount))
  {
    ReserveKeepsBound(a, w, model, amount);
    var after := Reserve(a, w, model, amount).ledger;
    assert after[..|after| - 1] == a.ledger;
  }

  lemma RefundBooks(a: Account, w: string, amount: int64)
    requires BooksOk(a) && amount >= 0 && Holds(a.ledger, w, amount)
    ensures BooksOk(Refund(a, w, amount))
    ensures forall r :: r in Refund(a, w, amount).ledger <==> r in a.ledger && r.worker != w
  {
    RefundKeepsBound(a, w, amount);
    SettleDropsWorker(a.ledger, w, amount);
  }

  // ----- one step

  /** A reservation keeps every account in order. */
  lemma ReservedFleet(f: Fleet, uuid: string, w: string, model: string, amount: int64)
    requires FleetOk(f) && Grants(f, uuid, amount) && Unreserved(f, w) && amount >= 0
    ensures FleetOk(AllocateIn(f, uuid, w, model, amount))
  {
    hide BooksOk, Reserve;
    ReserveBooks(f[uuid], w, model, amount);
    var g := AllocateIn(f, uuid, w, model, amount);
    assert forall u :: u in g ==> g[u] == if u == uuid then Reserve(f[uuid], w, model, amount) else f[u];
  }

  /** A reservation enters one worker in one ledger. */
  lemma ReservedEntries(f: Fleet, uuid: string, w: string, model: string, amount: int64)
    requires Grants(f, uuid, amount)
    ensures var g := AllocateIn(f, uuid, w, model, amount);
      && g.Keys == f.Keys
      && forall u, r :: u in g ==>
           (r in g[u].ledger <==> r in f[u].ledger || (u == uuid && r == Reservation(w, model, amount)))
  {
    var g := AllocateIn(f, uuid, w, model, amount);
    forall u, r | u in g
      ensures r in g[u].ledger <==> r in f[u].ledger || (u == uuid && r == Reservation(w, model, amount))
    {
      if u == uuid {
        MemberSnoc(f[u].ledger, Reservation(w, model, amount), r);
      }
    }
  }

  lemma MemberSnoc(ledger: seq<Reservation>, last: Reservation, r: Reservation)
    ensures r in ledger + [last] <==> r in ledger || r == last
  {
    assert (ledger + [last])[|ledger|] == last;
  }

  /** A release strikes the worker from its ledger. */
  lemma ReleasedBooks(sh: Shared, w: string, uuid: string, amount: int64)
    requires FleetOk(sh.fleet) && ReservedOnlyOn(sh.fleet, w, uuid, amount)
    ensures var f := Released(sh, w, uuid, amount).fleet;
      && FleetOk(f) && f.Keys == sh.fleet.Keys
      && forall u, r :: u in f ==> (r in f[u].ledger <==> r in sh.fleet[u].ledger && r.worker != w)
  {
    var r :| r in sh.fleet[uuid].ledger && r.worker == w && r.amount == amount;
    RefundBooks(sh.fleet[uuid], w, amount);
  }

  /** The step moves no entry but those of the worker it is on. */
  ghost predicate LedgersMove(sh: Shared, sh': Shared, w: string) {
    && sh' == sh.(fleet := sh'.fleet) && sh'.fleet.Keys == sh.fleet.Keys
    && forall u, r: Reservation :: u in sh.fleet && r.worker != w ==>
         (r in sh'.fleet[u].ledger <==> r in sh.fleet[u].ledger)
  }

  lemma AllocateBooks(sh: Shared, max: int64, t: Task, o: Outcome)
    requires CanStep(sh, t, o) && StageBooks(sh, t) && FleetOk(sh.fleet) && EntriesOk(sh)
    requires t.Allocating? && Granted(sh, t)
    ensures var (sh', t') := StepTask(sh, max, t, o);
      FleetOk(sh'.fleet) && EntriesOk(sh') && StageBooks(sh', t') && LedgersMove(sh, sh', t.w)
  {
    ReservedFleet(sh.fleet, t.gpu.uuid, t.w, t.model.name, t.model.vram);
    ReservedEntries(sh.fleet, t.gpu.uuid, t.w, t.model.name, t.model.vram);
    var sh' := Reserved(sh, t.w, t.model, t.gpu);
    forall u, r | u in sh'.fleet && r in sh'.fleet[u].ledger ensures EntryOk(sh', u, r) {
      assert r in sh.fleet[u].ledger ==> EntryOk(sh, u, r);
    }
    assert Reservation(t.w, t.model.name, t.model.vram) in sh'.fleet[t.gpu.uuid].ledger;
  }

  lemma ReleaseBooks(sh: Shared, max: int64, t: Task, o: Outcome)
    requires CanStep(sh, t, o) && StageBooks(sh, t) && FleetOk(sh.fleet) && EntriesOk(sh)
    requires t.Releasing?
    ensures var (sh', t') := StepTask(sh, max, t, o);
      FleetOk(sh'.fleet) && EntriesOk(sh') && StageBooks(sh', t') && LedgersMove(sh, sh', t.w)
  {
    ReleasedBooks(sh, t.w, t.uuid, t.amount);
    var sh' := Released(sh, t.w, t.uuid, t.amount);
    forall u, r | u in sh'.fleet && r in sh'.fleet[u].ledger ensures EntryOk(sh', u, r) {
      assert EntryOk(sh, u, r);
    }
  }

  /** The books of workers the step does not concern are as they were. */
  ghost predicate SameFor(sh: Shared, sh': Shared, w: string) {
    && (w in sh.pool <==> w in sh'.pool)
    && (w in sh.workers <==> w in sh'.workers)
    && (w in sh.workers ==> sh'.workers[w].model == sh.workers[w].model && sh'.workers[w].gpu == sh.workers[w].gpu)
    && sh'.fleet.Keys == sh.fleet.Keys
    && forall u, r: Reservation :: u in sh.fleet && r.worker == w ==> (r in sh'.fleet[u].ledger <==> r in sh.fleet[u].ledger)
  }

  lemma SameForOthers(sh: Shared, max: int64, t: Task, o: Outcome, w: string)
    requires CanStep(sh, t, o) && StageBooks(sh, t) && FleetOk(sh.fleet) && EntriesOk(sh) && Granted(sh, t)
    requires !Concerns(t, w) && (t.Storing? ==> w in sh.workers || w != o.id)
    ensures SameFor(sh, StepTask(sh, max, t, o).0, w)
  {
    if t.Allocating? {
      AllocateBooks(sh, max, t, o);
    } else if t.Releasing? {
      ReleaseBooks(sh, max, t, o);
    } else {
      SameForPlain(sh, max, t, o, w);
    }
  }

  lemma SameForPlain(sh: Shared, max: int64, t: Task, o: Outcome, w: string)
    requires CanStep(sh, t, o) && !t.Allocating? && !t.Releasing?
    requires !Concerns(t, w) && (t.Storing? ==> w in sh.workers || w != o.id)
    ensures SameFor(sh, StepTask(sh, max, t, o).0, w)
  {
  }

  lemma SameSettled(sh: Shared, sh': Shared, w: string)
    requires SameFor(sh, sh', w) && Settled(sh, w)
    ensures Settled(sh', w)
  {
    var u := sh.workers[w].gpu.value.uuid;
    var r :| r in sh.fleet[u].ledger && r.worker == w && r.amount == sh.workers[w].model.value.vram;
    assert r in sh'.fleet[u].ledger;
  }

  lemma SameStage(sh: Shared, sh': Shared, t: Task)
    requires StageBooks(sh, t)
    requires HoldsRecord(t) || t.Looking? ==> SameFor(sh, sh', t.w)
    ensures StageBooks(sh', t)
  {
    if t.Assigning? {
      var r :| r in sh.fleet[t.gpu.uuid].ledger && r.worker == t.w && r.amount == t.model.vram;
      assert r in sh'.fleet[t.gpu.uuid].ledger;
    } else if (HoldsRecord(t) || t.Looking?) && !t.Allocating? && !t.Removing? {
      SameSettled(sh, sh', t.w);
    }
  }

  /** Steps between the assignment and the release leave the worker's books alone. */
  predicate BetweenTrades(t: Task) {
    HoldsRecord(t) && !t.Allocating? && !t.Assigning? && !t.Releasing? && !t.Removing?
  }

  lemma SameForSelf(sh: Shared, max: int64, t: Task, o: Outcome)
    requires CanStep(sh, t, o) && BetweenTrades(t)
    ensures SameFor(sh, StepTask(sh, max, t, o).0, t.w)
  {
  }

  /** Where such a task's program goes on. */
  lemma BetweenNext(sh: Shared, max: int64, t: Task, o: Outcome)
    requires CanStep(sh, t, o) && BetweenTrades(t)
    ensures var t' := Next(sh, max, t, o); var rec := sh.workers[t.w];
      || t'.Done?
      || (BetweenTrades(t') && t'.w == t.w)
      || (rec.gpu.Some? && rec.model.Some? && t' == Releasing(t.w, rec.gpu.value.uuid, rec.model.value.vram))
      || (!(rec.gpu.Some? && rec.model.Some?) && t' == Removing(t.w))
  {
  }

  lemma SettledStages(sh: Shared, sh': Shared, max: int64, t: Task, o: Outcome)
    requires CanStep(sh, t, o) && BetweenTrades(t) && Settled(sh, t.w) && Settled(sh', t.w)
    requires sh'.workers[t.w].model == sh.workers[t.w].model && sh'.workers[t.w].gpu == sh.workers[t.w].gpu
    ensures StageBooks(sh', StepTask(sh, max, t, o).1)
  {
    hide Next;
    BetweenNext(sh, max, t, o);
  }

  lemma AssignBooks(sh: Shared, max: int64, t: Task, o: Outcome)
    requires CanStep(sh, t, o) && StageBooks(sh, t) && t.Assigning?
    ensures StageBooks(StepTask(sh, max, t, o).0, StepTask(sh, max, t, o).1)
  {
    assert Settled(StepTask(sh, max, t, o).0, t.w);
  }

  /** The task that steps, at its next stage. */
  lemma OwnStageBooks(sh: Shared, max: int64, t: Task, o: Outcome)
    requires CanStep(sh, t, o) && StageBooks(sh, t) && FleetOk(sh.fleet) && EntriesOk(sh) && Granted(sh, t)
    requires Enters(sh, t, o) ==> Settled(sh, t.w)
    ensures StageBooks(StepTask(sh, max, t, o).0, StepTask(sh, max, t, o).1)
  {
    if t.Allocating? {
      AllocateBooks(sh, max, t, o);
    } else if t.Releasing? {
      ReleaseBooks(sh, max, t, o);
    } else if t.Assigning? {
      AssignBooks(sh, max, t, o);
    } else if BetweenTrades(t) {
      var sh' := StepTask(sh, max, t, o).0;
      SameForSelf(sh, max, t, o);
      SameSettled(sh, sh', t.w);
      SettledStages(sh, sh', max, t, o);
    } else {
      RequestStages(sh, max, t, o);
    }
  }

  lemma RequestStages(sh: Shared, max: int64, t: Task, o: Outcome)
    requires CanStep(sh, t, o) && StageBooks(sh, t) && EntriesOk(sh)
    requires !HoldsRecord(t) || t.Removing?
    requires Enters(sh, t, o) ==> Settled(sh, t.w)
    ensures StageBooks(StepTask(sh, max, t, o).0, StepTask(sh, max, t, o).1)
  {
    if t.Storing? {
      FreshUnreserved(sh, o.id);
    }
  }

  lemma FreshUnreserved(sh: Shared, w: string)
    requires EntriesOk(sh) && w !in sh.workers
    ensures Unreserved(sh.fleet, w)
  {
    forall u, r | u in sh.fleet && r in sh.fleet[u].ledger ensures r.worker != w {
      assert EntryOk(sh, u, r);
    }
  }

  lemma FleetBooks(sh: Shared, max: int64, t: Task, o: Outcome)
    requires CanStep(sh, t, o) && StageBooks(sh, t) && FleetOk(sh.fleet) && EntriesOk(sh) && Granted(sh, t)
    ensures FleetOk(StepTask(sh, max, t, o).0.fleet)
    ensures EntriesOk(StepTask(sh, max, t, o).0)
  {
    hide BooksOk, EntryOk;
    if t.Allocating? {
      AllocateBooks(sh, max, t, o);
    } else if t.Releasing? {
      ReleaseBooks(sh, max, t, o);
    } else {
      var sh' := StepTask(sh, max, t, o).0;
      assert sh'.fleet == sh.fleet;
      forall u, r | u in sh'.fleet && r in sh'.fleet[u].ledger ensures EntryOk(sh', u, r) {
        EntryStep(sh, max, t, o, u, r);
      }
    }
  }

  lemma EntryStep(sh: Shared, max: int64, t: Task, o: Outcome, u: string, r: Reservation)
    requires CanStep(sh, t, o) && StageBooks(sh, t) && !t.Allocating? && !t.Releasing?
    requires u in sh.fleet && r in sh.fleet[u].ledger && EntryOk(sh, u, r)
    ensures EntryOk(StepTask(sh, max, t, o).0, u, r)
  {
  }

  lemma RemovalsStep(sh: Shared, max: int64, t: Task, o: Outcome)
    requires CanStep(sh, t, o) && StageBooks(sh, t) && RemovalsOnce(sh)
    ensures RemovalsOnce(StepTask(sh, max, t, o).0)
  {
  }

  lemma ConcernsNext(sh: Shared, max: int64, t: Task, o: Outcome, w: string)
    requires CanStep(sh, t, o) && Concerns(StepTask(sh, max, t, o).1, w)
    ensures Concerns(t, w) || (t.Storing? && w !in sh.workers) || (Enters(sh, t, o) && t.w == w)
  {
  }

  lemma StepOneTask(s: State, i: nat, o: Outcome, s': State)
    requires StagesBooks(s) && OneTask(s) && Steps(s, i, o, s') && Disciplined(s, Step(i, o))
    ensures OneTask(s')
  {
    forall j, w | 0 <= j < |s'.tasks| && j != i && Concerns(s'.tasks[j], w) ensures !Concerns(s'.tasks[i], w) {
      assert StageBooks(s.sh, s.tasks[j]);
      assert s.tasks[j] in s.tasks && Concerns(s.tasks[j], w);
      if Concerns(s'.tasks[i], w) {
        ConcernsNext(s.sh, s.maxWorkers, s.tasks[i], o, w);
      }
    }
  }

  lemma PoolSettled(s: State, i: nat, o: Outcome)
    requires PoolBooks(s) && i < |s.tasks| && CanStep(s.sh, s.tasks[i], o) && Disciplined(s, Step(i, o))
    ensures Enters(s.sh, s.tasks[i], o) ==> Settled(s.sh, s.tasks[i].w)
  {
    var t := s.tasks[i];
    if Enters(s.sh, t, o) && !Settled(s.sh, t.w) {
      var j :| 0 <= j < |s.tasks| && MidBooks(s.tasks[j], t.w);
      assert s.tasks[j] in s.tasks && Concerns(s.tasks[j], t.w);
      assert false;
    }
  }

  lemma StepStagesBooks(s: State, i: nat, o: Outcome, s': State)
    requires BooksInv(s) && Steps(s, i, o, s') && Disciplined(s, Step(i, o))
    ensures StagesBooks(s')
  {
    var t := s.tasks[i];
    assert StageBooks(s.sh, t);
    PoolSettled(s, i, o);
    OwnStageBooks(s.sh, s.maxWorkers, t, o);
    forall j | 0 <= j < |s'.tasks| ensures StageBooks(s'.sh, s'.tasks[j]) {
      if j != i {
        var u := s.tasks[j];
        assert StageBooks(s.sh, u);
        if HoldsRecord(u) || u.Looking? {
          assert Concerns(u, u.w);
          assert u in s.tasks;
          SameForOthers(s.sh, s.maxWorkers, t, o, u.w);
        }
        SameStage(s.sh, s'.sh, u);
      }
    }
  }

  lemma NewOrOld(sh: Shared, max: int64, t: Task, o: Outcome, w: string)
    requires CanStep(sh, t, o) && w in StepTask(sh, max, t, o).0.pool
    ensures w in sh.pool || (t.Storing? && w == o.id && MidBooks(StepTask(sh, max, t, o).1, w))
  {
  }

  /** A pool worker the stepping task concerns is settled after the step, or the task is in the middle of its books. */
  lemma ConcernedPool(sh: Shared, max: int64, t: Task, o: Outcome, w: string)
    requires CanStep(sh, t, o) && StageBooks(sh, t) && FleetOk(sh.fleet) && EntriesOk(sh) && Granted(sh, t)
    requires Concerns(t, w)
    ensures var (sh', t') := StepTask(sh, max, t, o); w in sh'.pool ==> Settled(sh', w) || MidBooks(t', w)
  {
    if t.Allocating? {
      AllocateBooks(sh, max, t, o);
    } else if t.Releasing? {
      ReleaseBooks(sh, max, t, o);
    } else if t.Assigning? {
      AssignBooks(sh, max, t, o);
    } else if BetweenTrades(t) {
      SameForSelf(sh, max, t, o);
      SameSettled(sh, StepTask(sh, max, t, o).0, w);
    }
  }

  lemma StepPoolBooks(s: State, i: nat, o: Outcome, s': State)
    requires BooksInv(s) && Steps(s, i, o, s') && Disciplined(s, Step(i, o))
    ensures PoolBooks(s')
  {
    var t := s.tasks[i];
    assert StageBooks(s.sh, t);
    PoolSettled(s, i, o);
    forall w | w in s'.sh.pool
      ensures Settled(s'.sh, w) || exists j :: 0 <= j < |s'.tasks| && MidBooks(s'.tasks[j], w)
    {
      NewOrOld(s.sh, s.maxWorkers, t, o, w);
      if Concerns(t, w) {
        ConcernedPool(s.sh, s.maxWorkers, t, o, w);
        assert MidBooks(s'.tasks[i], w) || Settled(s'.sh, w);
      } else if w !in s.sh.pool {
        assert MidBooks(s'.tasks[i], w);
      } else {
        SameForOthers(s.sh, s.maxWorkers, t, o, w);
        if Settled(s.sh, w) {
          SameSettled(s.sh, s'.sh, w);
        } else {
          var j :| 0 <= j < |s.tasks| && MidBooks(s.tasks[j], w);
          assert MidBooks(s'.tasks[j], w);
        }
      }
    }
  }

  lemma StepBooks(s: State, i: nat, o: Outcome, s': State)
    requires BooksInv(s) && Steps(s, i, o, s') && Disciplined(s, Step(i, o))
    ensures BooksInv(s')
  {
    assert StageBooks(s.sh, s.tasks[i]);
    FleetBooks(s.sh, s.maxWorkers, s.tasks[i], o);
    RemovalsStep(s.sh, s.maxWorkers, s.tasks[i], o);
    StepOneTask(s, i, o, s');
    StepStagesBooks(s, i, o, s');
    StepPoolBooks(s, i, o, s');
  }

  lemma SpawnBooks(s: State, s': State)
    requires BooksInv(s) && s'.sh == s.sh && |s'.tasks| == |s.tasks| + 1
    requires forall i :: 0 <= i < |s.tasks| ==> s'.tasks[i] == s.tasks[i]
    requires StageBooks(s.sh, s'.tasks[|s.tasks|])
    requires forall w :: !Concerns(s'.tasks[|s.tasks|], w)
    ensures BooksInv(s')
  {
    hide FleetOk, EntriesOk, StageBooks, Settled, RemovalsOnce;
    forall i | 0 <= i < |s'.tasks| ensures StageBooks(s'.sh, s'.tasks[i]) {
      assert i < |s.tasks| ==> StageBooks(s.sh, s.tasks[i]);
    }
    forall w | w in s'.sh.pool && !Settled(s.sh, w) ensures exists j :: 0 <= j < |s'.tasks| && MidBooks(s'.tasks[j], w) {
      var j :| 0 <= j < |s.tasks| && MidBooks(s.tasks[j], w);
      assert MidBooks(s'.tasks[j], w);
    }
    assert OneTask(s');
  }

  lemma ToggleBooks(s: State, w: string, now: Instant)
    requires BooksInv(s)
    ensures BooksInv(s.(sh := Toggled(s.sh, w, now)))
  {
    hide FleetOk, Settled, StageBooks, EntryOk, Toggled;
    var s' := s.(sh := Toggled(s.sh, w, now));
    ToggleParts(s.sh, w, now);
    forall i | 0 <= i < |s.tasks| ensures StageBooks(s'.sh, s'.tasks[i]) {
      ToggleSame(s.sh, w, now, if HoldsRecord(s.tasks[i]) || s.tasks[i].Looking? then s.tasks[i].w else w);
      SameStage(s.sh, s'.sh, s.tasks[i]);
    }
    forall u, r | u in s'.sh.fleet && r in s'.sh.fleet[u].ledger ensures EntryOk(s'.sh, u, r) {
      ToggleEntry(s.sh, w, now, u, r);
    }
    forall v | v in s'.sh.pool
      ensures Settled(s'.sh, v) || exists j :: 0 <= j < |s'.tasks| && MidBooks(s'.tasks[j], v)
    {
      if Settled(s.sh, v) {
        ToggleSame(s.sh, w, now, v);
        SameSettled(s.sh, s'.sh, v);
      }
    }
  }

  lemma ToggleParts(sh: Shared, w: string, now: Instant)
    ensures Toggled(sh, w, now) == sh.(workers := Toggled(sh, w, now).workers)
    ensures Toggled(sh, w, now).workers.Keys == sh.workers.Keys
  {
  }

  lemma ToggleSame(sh: Shared, w: string, now: Instant, v: string)
    ensures SameFor(sh, Toggled(sh, w, now), v)
  {
  }

  lemma ToggleEntry(sh: Shared, w: string, now: Instant, u: string, r: Reservation)
    requires EntryOk(sh, u, r)
    ensures EntryOk(Toggled(sh, w, now), u, r)
  {
  }

  lemma FireBooks(s: State, e: Event)
    requires BooksInv(s) && Disciplined(s, e)
    ensures BooksInv(Fire(s, e))
  {
    match e
    case Create(_, _) => SpawnBooks(s, Fire(s, e));
    case Delete(_) => SpawnBooks(s, Fire(s, e));
    case Sweep(_) => SpawnBooks(s, Fire(s, e));
    case Toggle(w, now) => ToggleBooks(s, w, now);
    case Step(i, o) =>
      if i < |s.tasks| && CanStep(s.sh, s.tasks[i], o) {
        StepBooks(s, i, o, Fire(s, e));
      }
  }

  lemma {:induction false} RunBooks(s: State, events: seq<Event>)
    requires BooksInv(s) && DisciplinedRun(s, events)
    ensures BooksInv(Exec(s, events))
  {
    if events != [] {
      var front := events[..|events| - 1];
      forall k | 0 <= k < |front| ensures DisciplinedAt(s, front, k) {
        assert DisciplinedAt(s, events, k);
        assert front[..k] == events[..k];
      }
      RunBooks(s, front);
      assert DisciplinedAt(s, events, |events| - 1);
      FireBooks(Exec(s, front), events[|events| - 1]);
    }
  }

  // ----- what exact books mean

  /** The sum of a finite map's values. */
  ghost function Total(m: map<string, int>): int {
    if m == map[] then 0
    else
      var k :| k in m;
      m[k] + Total(m - {k})
  }

  lemma {:induction false} TotalPull(m: map<string, int>, k: string)
    requires k in m
    ensures Total(m) == m[k] + Total(m - {k})
    decreases |m|
  {
    assert m != map[];
    var j :| j in m && Total(m) == m[j] + Total(m - {j});
    if j != k {
      TotalPull(m - {j}, k);
      TotalPull(m - {k}, j);
      assert m - {j} - {k} == m - {k} - {j};
    }
  }

  /** A ledger with one entry per worker sums to the total of its amounts by worker. */
  lemma {:induction false} SumIsTotal(ledger: seq<Reservation>, m: map<string, int>)
    requires OnePerWorker(ledger)
    requires forall i :: 0 <= i < |ledger| ==> ledger[i].worker in m && m[ledger[i].worker] == ledger[i].amount
    requires forall w :: w in m ==> exists i :: 0 <= i < |ledger| && ledger[i].worker == w
    ensures Sum(ledger) == Total(m)
  {
    if ledger == [] {
      assert m == map[];
    } else {
      var w := ledger[0].worker;
      TotalPull(m, w);
      forall v | v in m - {w} ensures exists i :: 0 <= i < |ledger[1..]| && ledger[1..][i].worker == v {
        var i :| 0 <= i < |ledger| && ledger[i].worker == v;
        assert ledger[1..][i - 1].worker == v;
      }
      SumIsTotal(ledger[1..], m - {w});
    }
  }

  /** The pool workers assigned to the GPU. */
  ghost function Residents(sh: Shared, u: string): set<string> {
    set w | w in sh.pool && w in sh.workers && sh.workers[w].gpu.Some? && sh.workers[w].gpu.value.uuid == u
  }

  function Requirement(w: Worker): int {
    if w.model.Some? then w.model.value.vram else 0
  }

  ghost function Loads(sh: Shared, u: string): map<string, int> {
    map w | w in Residents(sh, u) :: Requirement(sh.workers[w])
  }

  /** The GPU's counter is the sum of its residents' requirements, and its active list names exactly them, once each. */
  ghost predicate AgreesOn(sh: Shared, u: string)
    requires u in sh.fleet
  {
    && sh.fleet[u].gpu.allocatedVram == Total(Loads(sh, u))
    && NoDuplicates(sh.fleet[u].gpu.active) && Elements(sh.fleet[u].gpu.active) == Residents(sh, u)
  }

  ghost predicate BooksAgree(sh: Shared) {
    forall u :: u in sh.fleet ==> AgreesOn(sh, u)
  }

  lemma SettledBooksAgree(s: State)
    requires BooksInv(s) && Quiescent(s)
    ensures BooksAgree(s.sh)
  {
    assert forall i, w :: 0 <= i < |s.tasks| ==> !MidBooks(s.tasks[i], w) by {
      assert forall i :: 0 <= i < |s.tasks| ==> s.tasks[i] in s.tasks;
    }
    forall u | u in s.sh.fleet ensures AgreesOn(s.sh, u) {
      AccountAgrees(s.sh, u);
    }
  }

  /** With every pool worker settled, the ledger's entries are the GPU's residents with their requirements. */
  lemma EntriesAreResidents(sh: Shared, u: string)
    requires EntriesOk(sh) && u in sh.fleet
    requires forall w :: w in sh.pool ==> Settled(sh, w)
    ensures var ledger := sh.fleet[u].ledger;
      && (forall i :: 0 <= i < |ledger| ==>
            ledger[i].worker in Residents(sh, u) && Requirement(sh.workers[ledger[i].worker]) == ledger[i].amount)
      && (forall w :: w in Residents(sh, u) ==> exists i :: 0 <= i < |ledger| && ledger[i].worker == w)
  {
    var ledger := sh.fleet[u].ledger;
    forall i | 0 <= i < |ledger|
      ensures ledger[i].worker in Residents(sh, u) && Requirement(sh.workers[ledger[i].worker]) == ledger[i].amount
    {
      assert EntryOk(sh, u, ledger[i]);
      assert Settled(sh, ledger[i].worker);
    }
    forall w | w in Residents(sh, u) ensures exists i :: 0 <= i < |ledger| && ledger[i].worker == w {
      assert Settled(sh, w);
      var r :| r in ledger && r.worker == w;
    }
  }

  lemma AccountAgrees(sh: Shared, u: string)
    requires FleetOk(sh.fleet) && EntriesOk(sh) && u in sh.fleet
    requires forall w :: w in sh.pool ==> Settled(sh, w)
    ensures AgreesOn(sh, u)
  {
    var ledger := sh.fleet[u].ledger;
    EntriesAreResidents(sh, u);
    SumIsTotal(ledger, Loads(sh, u));
    ListNamesResidents(ledger, Residents(sh, u));
  }

  lemma ListNamesResidents(ledger: seq<Reservation>, residents: set<string>)
    requires OnePerWorker(ledger)
    requires forall i :: 0 <= i < |ledger| ==> ledger[i].worker in residents
    requires forall w :: w in residents ==> exists i :: 0 <= i < |ledger| && ledger[i].worker == w
    ensures NoDuplicates(WorkerList(ledger)) && Elements(WorkerList(ledger)) == residents
  {
    ListIsDistinct(ledger);
    forall w ensures w in WorkerList(ledger) <==> w in residents {
      ListMember(ledger, w);
    }
  }

  lemma ListIsDistinct(ledger: seq<Reservation>)
    requires OnePerWorker(ledger)
    ensures NoDuplicates(WorkerList(ledger))
  {
    WorkerListElements(ledger);
  }

  lemma ListMember(ledger: seq<Reservation>, w: string)
    ensures w in WorkerList(ledger) <==> exists i :: 0 <= i < |ledger| && ledger[i].worker == w
  {
    WorkerListElements(ledger);
    if i :| 0 <= i < |ledger| && ledger[i].worker == w {
      assert WorkerList(ledger)[i] == w;
    }
  }

  /**
   In a disciplined run the books are exact: at every point each counter equals its ledger, no worker is removed twice,
   and whenever all tasks have finished the counters and active lists agree with the pool.
   */
  lemma DisciplinedBooksAgree(s0: State, events: seq<Event>)
    requires Initial(s0) && DisciplinedRun(s0, events)
    ensures LedgersExact(Exec(s0, events).sh.fleet) && CapacitySafe(Exec(s0, events).sh.fleet)
    ensures NoDuplicates(Exec(s0, events).sh.removals)
    ensures Quiescent(Exec(s0, events)) ==> BooksAgree(Exec(s0, events).sh)
  {
    InitialBooks(s0);
    RunBooks(s0, events);
    if Quiescent(Exec(s0, events)) {
      SettledBooksAgree(Exec(s0, events));
    }
  }

  // ----- one request at a time

  /** Each request, with its background task, completes before the next arrives. */
  ghost predicate SerialEvent(s: State, e: Event) {
    && (e.Create? || e.Delete? || e.Sweep? ==> Quiescent(s))
    && (e.Create? ==> e.model.vram >= 0)
  }

  ghost predicate SerialAt(s: State, events: seq<Event>, k: nat)
    requires k < |events|
  {
    SerialEvent(Exec(s, events[..k]), events[k])
  }

  ghost predicate SerialRun(s: State, events: seq<Event>) {
    forall k :: 0 <= k < |events| ==> SerialAt(s, events, k)
  }

  /** A placement decided by the request under way still has room: nobody has moved since. */
  ghost predicate PlacementHolds(sh: Shared, t: Task) {
    t.Counting? || t.Storing? || t.Allocating? ==> Grants(sh.fleet, t.gpu.uuid, t.model.vram)
  }

  ghost predicate SerialInv(s: State) {
    && (forall i, j :: 0 <= i < |s.tasks| && 0 <= j < |s.tasks| && !s.tasks[i].Done? && !s.tasks[j].Done? ==> i == j)
    && (forall i :: 0 <= i < |s.tasks| ==> PlacementHolds(s.sh, s.tasks[i]))
  }

  lemma PlacementStep(sh: Shared, max: int64, t: Task, o: Outcome)
    requires CanStep(sh, t, o) && PlacementHolds(sh, t)
    ensures PlacementHolds(StepTask(sh, max, t, o).0, StepTask(sh, max, t, o).1)
  {
  }

  lemma SerialFire(s: State, e: Event)
    requires SerialInv(s) && SerialEvent(s, e)
    ensures Disciplined(s, e) && SerialInv(Fire(s, e))
  {
    hide Effect, Next, Toggled;
    var s' := Fire(s, e);
    if e.Toggle? {
      ToggleParts(s.sh, e.w, e.now);
    } else if e.Step? {
      if e.i < |s.tasks| && CanStep(s.sh, s.tasks[e.i], e.o) {
        PlacementStep(s.sh, s.maxWorkers, s.tasks[e.i], e.o);
        assert forall j :: 0 <= j < |s.tasks| && j != e.i ==> s.tasks[j].Done?;
        assert forall t :: t in s.tasks ==> t.Done? || t == s.tasks[e.i];
      }
    } else {
      assert forall i :: 0 <= i < |s.tasks| ==> s.tasks[i] in s.tasks && s.tasks[i].Done?;
    }
  }

  lemma {:induction false} SerialIsDisciplined(s: State, events: seq<Event>)
    requires SerialInv(s) && SerialRun(s, events)
    ensures DisciplinedRun(s, events) && SerialInv(Exec(s, events))
  {
    if events != [] {
      var front := events[..|events| - 1];
      forall k | 0 <= k < |front| ensures SerialAt(s, front, k) {
        assert SerialAt(s, events, k);
        assert front[..k] == events[..k];
      }
      SerialIsDisciplined(s, front);
      assert SerialAt(s, events, |events| - 1);
      SerialFire(Exec(s, front), events[|events| - 1]);
      forall k | 0 <= k < |events| ensures DisciplinedAt(s, events, k) {
        assert events[..k] == front[..k];
        assert k < |front| ==> DisciplinedAt(s, front, k);
      }
    }
  }

  /**
   Sequential agreement. When requests run one at a time, with fresh IDs and non-negative requirements, the counters and
   active lists agree with the pool between requests, every Allocate that CreateWorker makes succeeds, and no worker is
   torn down twice.
   */
  lemma SequentialAgreement(s0: State, events: seq<Event>)
    requires Initial(s0) && SerialRun(s0, events)
    ensures var s := Exec(s0, events);
      && (Quiescent(s) ==> BooksAgree(s.sh))
      && (forall t :: t in s.tasks ==> Granted(s.sh, t))
      && NoDuplicates(s.sh.removals)
  {
    SerialIsDisciplined(s0, events);
    DisciplinedBooksAgree(s0, events);
    var s := Exec(s0, events);
    forall t | t in s.tasks ensures Granted(s.sh, t) {
      var i :| 0 <= i < |s.tasks| && s.tasks[i] == t;
      assert PlacementHolds(s.sh, s.tasks[i]);
    }
  }
}
