/**
 Books and pool over every interleaving, disciplined or not: what holds of the ledgers whatever happens, and from it the
 exact condition under which counters and active lists agree with the pool.
 */
module Agreement {
  import opened Machine
  import opened Workers
  import opened Accounts
  import opened Interleaving
  import opened Discipline
  import opened SystemBooks
  import Safety

  // ----- what no interleaving can upset

  ghost predicate FleetTidy(f: Fleet) {
    forall u :: u in f ==> Tidy(f[u])
  }

  /** A reservation is for the amount its worker's model requires, on the GPU the worker is assigned if any. */
  ghost predicate EntryTrue(sh: Shared, u: string, r: Reservation) {
    && r.worker in sh.workers
    && sh.workers[r.worker].model.Some? && sh.workers[r.worker].model.value.vram == r.amount
    && (sh.workers[r.worker].gpu.Some? ==> sh.workers[r.worker].gpu.value.uuid == u)
  }

  ghost predicate EntriesTrue(sh: Shared) {
    forall u, r :: u in sh.fleet && r in sh.fleet[u].ledger ==> EntryTrue(sh, u, r)
  }

  /** What a task knows of its worker's reservation, by the task's program counter. */
  ghost predicate StageTrue(sh: Shared, t: Task) {
    match t
    case Allocating(w, model, _) =>
      w in sh.workers && sh.workers[w].model == Some(model) && sh.workers[w].gpu.None? && Unreserved(sh.fleet, w)
    case Assigning(w, model, gpu) =>
      && w in sh.workers && sh.workers[w].model == Some(model) && sh.workers[w].gpu.None?
      && forall u, r :: u in sh.fleet && r in sh.fleet[u].ledger && r.worker == w ==> u == gpu.uuid
    case Releasing(w, uuid, amount) =>
      && w in sh.workers && sh.workers[w].gpu.Some? && sh.workers[w].gpu.value.uuid == uuid
      && sh.workers[w].model.Some? && sh.workers[w].model.value.vram == amount
    case _ => true
  }

  ghost predicate LedgerInv(s: State) {
    && FleetTidy(s.sh.fleet) && EntriesTrue(s.sh)
    && forall i :: 0 <= i < |s.tasks| ==> StageTrue(s.sh, s.tasks[i])
  }

  // ----- one account

  lemma ReserveTidy(a: Account, w: string, model: string, amount: int64)
    requires Tidy(a) && forall r :: r in a.ledger ==> r.worker != w
    ensures Tidy(Reserve(a, w, model, amount))
  {
    var after := Reserve(a, w, model, amount).ledger;
    assert after[..|after| - 1] == a.ledger;
  }

  lemma {:induction false} SettleNone(ledger: seq<Reservation>, w: string, amount: int64)
    requires forall r :: r in ledger ==> r.worker != w
    ensures Settle(ledger, w, amount) == ledger
  {
    if ledger != [] {
      assert ledger[0] in ledger && forall r :: r in ledger[1..] ==> r in ledger;
      SettleNone(ledger[1..], w, amount);
    }
  }

  /** A release strikes the worker from list and ledger alike, whether or not it holds a reservation. */
  lemma RefundTidy(a: Account, w: string, amount: int64)
    requires Tidy(a) && forall r :: r in a.ledger && r.worker == w ==> r.amount == amount
    ensures Tidy(Refund(a, w, amount))
    ensures forall r :: r in Refund(a, w, amount).ledger <==> r in a.ledger && r.worker != w
  {
    if r :| r in a.ledger && r.worker == w {
      SettleDropsWorker(a.ledger, w, amount);
    } else {
      SettleNone(a.ledger, w, amount);
      ListMember(a.ledger, w);
      assert w !in WorkerList(a.ledger) by {
        assert forall i :: 0 <= i < |a.ledger| ==> a.ledger[i] in a.ledger;
      }
      WithoutNone(WorkerList(a.ledger), w);
    }
  }

  // ----- one step

  /** An Allocate, granted or not. */
  lemma AllocateTrue(sh: Shared, t: Task)
    requires t.Allocating? && StageTrue(sh, t) && FleetTidy(sh.fleet) && EntriesTrue(sh)
    ensures var sh' := Reserved(sh, t.w, t.model, t.gpu);
      FleetTidy(sh'.fleet) && EntriesTrue(sh') && StageTrue(sh', Assigning(t.w, t.model, t.gpu)) && LedgersMove(sh, sh', t.w)
  {
    hide Tidy, Reserve;
    if Grants(sh.fleet, t.gpu.uuid, t.model.vram) {
      ReserveTidy(sh.fleet[t.gpu.uuid], t.w, t.model.name, t.model.vram);
      ReservedEntries(sh.fleet, t.gpu.uuid, t.w, t.model.name, t.model.vram);
      var sh' := Reserved(sh, t.w, t.model, t.gpu);
      forall u, r | u in sh'.fleet && r in sh'.fleet[u].ledger ensures EntryTrue(sh', u, r) {
        assert r in sh.fleet[u].ledger ==> EntryTrue(sh, u, r);
      }
    }
  }

  lemma ReleaseTrue(sh: Shared, t: Task)
    requires t.Releasing? && StageTrue(sh, t) && FleetTidy(sh.fleet) && EntriesTrue(sh)
    ensures var sh' := Released(sh, t.w, t.uuid, t.amount);
      FleetTidy(sh'.fleet) && EntriesTrue(sh') && LedgersMove(sh, sh', t.w)
    ensures var sh' := Released(sh, t.w, t.uuid, t.amount);
      forall u, r :: u in sh'.fleet && r in sh'.fleet[u].ledger ==> r in sh.fleet[u].ledger
  {
    hide Tidy, Refund;
    if t.uuid in sh.fleet {
      assert forall r :: r in sh.fleet[t.uuid].ledger ==> EntryTrue(sh, t.uuid, r);
      RefundTidy(sh.fleet[t.uuid], t.w, t.amount);
      var sh' := Released(sh, t.w, t.uuid, t.amount);
      forall u, r | u in sh'.fleet && r in sh'.fleet[u].ledger ensures EntryTrue(sh', u, r) {
        assert EntryTrue(sh, u, r);
      }
    }
  }

  lemma OwnTrue(sh: Shared, max: int64, t: Task, o: Outcome)
    requires CanStep(sh, t, o) && StageTrue(sh, t) && FleetTidy(sh.fleet) && EntriesTrue(sh)
    ensures var (sh', t') := StepTask(sh, max, t, o); FleetTidy(sh'.fleet) && EntriesTrue(sh') && StageTrue(sh', t')
  {
    hide Tidy;
    if t.Allocating? {
      AllocateTrue(sh, t);
    } else if t.Releasing? {
      ReleaseTrue(sh, t);
    } else {
      PlainTrue(sh, max, t, o);
    }
  }

  lemma PlainTrue(sh: Shared, max: int64, t: Task, o: Outcome)
    requires CanStep(sh, t, o) && StageTrue(sh, t) && !t.Allocating? && !t.Releasing? && EntriesTrue(sh)
    ensures var (sh', t') := StepTask(sh, max, t, o); sh'.fleet == sh.fleet && EntriesTrue(sh') && StageTrue(sh', t')
  {
    var (sh', t') := StepTask(sh, max, t, o);
    forall u, r | u in sh'.fleet && r in sh'.fleet[u].ledger ensures EntryTrue(sh', u, r) {
      assert EntryTrue(sh, u, r);
    }
    if t.Storing? {
      forall u, r | u in sh.fleet && r in sh.fleet[u].ledger ensures r.worker != o.id {
        assert EntryTrue(sh, u, r);
      }
    }
  }

  /** What another task knows survives the step, unless both are the start task of one worker. */
  lemma OtherTrue(sh: Shared, max: int64, t: Task, o: Outcome, u: Task)
    requires CanStep(sh, t, o) && StageTrue(sh, t) && StageTrue(sh, u) && FleetTidy(sh.fleet) && EntriesTrue(sh)
    requires forall w :: !(Safety.IsStarter(t, w) && Safety.IsStarter(u, w))
    ensures StageTrue(StepTask(sh, max, t, o).0, u)
  {
    hide FleetTidy, EntriesTrue, StageTrue;
    if t.Allocating? {
      assert Safety.IsStarter(t, t.w);
      AllocateTrue(sh, t);
      MovedTrue(sh, Effect(sh, t, o), t.w, u);
    } else if t.Releasing? {
      ReleaseTrue(sh, t);
      ShrunkTrue(sh, Effect(sh, t, o), u);
    } else if t.Assigning? {
      assert Safety.IsStarter(t, t.w);
      AssignedTrue(sh, t, u);
    } else if Looks(t) {
      LookingChangesNothing(sh, t, o);
    } else {
      OtherPlainTrue(sh, t, o, u);
    }
  }

  lemma MovedTrue(sh: Shared, sh': Shared, w: string, u: Task)
    requires StageTrue(sh, u) && LedgersMove(sh, sh', w) && !Safety.IsStarter(u, w)
    ensures StageTrue(sh', u)
  {
  }

  lemma ShrunkTrue(sh: Shared, sh': Shared, u: Task)
    requires StageTrue(sh, u) && sh'.workers == sh.workers && sh'.fleet.Keys == sh.fleet.Keys
    requires forall v, r :: v in sh'.fleet && r in sh'.fleet[v].ledger ==> r in sh.fleet[v].ledger
    ensures StageTrue(sh', u)
  {
  }

  lemma AssignedTrue(sh: Shared, t: Task, u: Task)
    requires t.Assigning? && StageTrue(sh, t) && StageTrue(sh, u) && !Safety.IsStarter(u, t.w)
    ensures StageTrue(Assigned(sh, t.w, t.model, t.gpu), u)
  {
  }

  lemma OtherPlainTrue(sh: Shared, t: Task, o: Outcome, u: Task)
    requires CanStep(sh, t, o) && StageTrue(sh, u) && !t.Allocating? && !t.Releasing? && !t.Assigning? && !Looks(t)
    ensures StageTrue(Effect(sh, t, o), u)
  {
  }

  lemma StepLedger(s: State, i: nat, o: Outcome, s': State)
    requires LedgerInv(s) && Safety.OneStarter(s) && Steps(s, i, o, s')
    ensures LedgerInv(s')
  {
    hide FleetTidy, EntriesTrue, StageTrue, StepTask;
    OwnTrue(s.sh, s.maxWorkers, s.tasks[i], o);
    forall j | 0 <= j < |s'.tasks| && j != i ensures StageTrue(s'.sh, s'.tasks[j]) {
      OtherTrue(s.sh, s.maxWorkers, s.tasks[i], o, s.tasks[j]);
    }
  }

  lemma ToggleLedger(s: State, w: string, now: Instant)
    requires LedgerInv(s)
    ensures LedgerInv(s.(sh := Toggled(s.sh, w, now)))
  {
    var sh' := Toggled(s.sh, w, now);
    forall u, r | u in sh'.fleet && r in sh'.fleet[u].ledger ensures EntryTrue(sh', u, r) {
      assert EntryTrue(s.sh, u, r);
    }
    forall i | 0 <= i < |s.tasks| ensures StageTrue(sh', s.tasks[i]) {
      assert StageTrue(s.sh, s.tasks[i]);
    }
  }

  lemma FireLedger(s: State, e: Event)
    requires LedgerInv(s) && Safety.Inv(s)
    ensures LedgerInv(Fire(s, e))
  {
    match e
    case Create(_, _) =>
    case Delete(_) =>
    case Sweep(_) =>
    case Toggle(w, now) => ToggleLedger(s, w, now);
    case Step(i, o) =>
      if i < |s.tasks| && CanStep(s.sh, s.tasks[i], o) {
        StepLedger(s, i, o, Fire(s, e));
      }
  }

  /** In every state of every run the active lists name the holders of reservations, and the ledgers tell the truth. */
  lemma {:induction false} RunLedger(s0: State, events: seq<Event>)
    requires Initial(s0)
    ensures LedgerInv(Exec(s0, events))
  {
    if events != [] {
      var front := events[..|events| - 1];
      RunLedger(s0, front);
      Safety.InitialInv(s0);
      Safety.ExecInv(s0, front);
      FireLedger(Exec(s0, front), events[|events| - 1]);
    }
  }

  // ----- the exact condition

  /** The workers with an unreleased reservation on the GPU. */
  ghost function Holders(a: Account): set<string> {
    Elements(WorkerList(a.ledger))
  }

  /** Who holds a reservation can be told from outside: those whose granted Allocates outnumber their Releases. */
  lemma HolderIffTally(s0: State, events: seq<Event>, u: string, w: string)
    requires Initial(s0) && u in Exec(s0, events).sh.fleet
    ensures var sh := Exec(s0, events).sh;
      w in Holders(sh.fleet[u]) <==>
        && w in sh.workers && sh.workers[w].model.Some?
        && Tally(s0.sh.fleet, OpsOf(s0, events), u, w, sh.workers[w].model.value.vram) > 0
  {
    RunLedger(s0, events);
    RunIsOps(s0, events);
    var sh := Exec(s0, events).sh;
    var ledger := sh.fleet[u].ledger;
    ListMember(ledger, w);
    if w in Holders(sh.fleet[u]) {
      var i :| 0 <= i < |ledger| && ledger[i].worker == w;
      assert EntryTrue(sh, u, ledger[i]);
      assert Holds(ledger, w, ledger[i].amount);
    }
    if w in sh.workers && sh.workers[w].model.Some? {
      var amount := sh.workers[w].model.value.vram;
      LedgerIsTally(s0.sh.fleet, OpsOf(s0, events), u, w, amount);
      if r :| r in ledger && r.worker == w && r.amount == amount {
        var i :| 0 <= i < |ledger| && ledger[i] == r;
      }
    }
  }

  /** The workers with an unreleased reservation on a GPU are the pool's workers assigned to it. */
  ghost predicate HoldersAreResidents(sh: Shared) {
    forall u :: u in sh.fleet ==> Holders(sh.fleet[u]) == Residents(sh, u)
  }

  lemma AgreesOnIff(sh: Shared, u: string)
    requires FleetTidy(sh.fleet) && EntriesTrue(sh) && u in sh.fleet
    ensures AgreesOn(sh, u) <==> Exact(sh.fleet[u]) && Holders(sh.fleet[u]) == Residents(sh, u)
  {
    var a := sh.fleet[u];
    assert Tidy(a);
    ListIsDistinct(a.ledger);
    if Holders(a) == Residents(sh, u) {
      HoldersSum(sh, u);
    }
  }

  lemma HoldersSum(sh: Shared, u: string)
    requires FleetTidy(sh.fleet) && EntriesTrue(sh) && u in sh.fleet
    requires Holders(sh.fleet[u]) == Residents(sh, u)
    ensures Sum(sh.fleet[u].ledger) == Total(Loads(sh, u))
  {
    var ledger := sh.fleet[u].ledger;
    assert Tidy(sh.fleet[u]);
    forall i | 0 <= i < |ledger|
      ensures ledger[i].worker in Residents(sh, u) && Requirement(sh.workers[ledger[i].worker]) == ledger[i].amount
    {
      ListMember(ledger, ledger[i].worker);
      assert ledger[i].worker in Holders(sh.fleet[u]);
      assert EntryTrue(sh, u, ledger[i]);
    }
    forall w | w in Residents(sh, u) ensures exists i :: 0 <= i < |ledger| && ledger[i].worker == w {
      assert w in Holders(sh.fleet[u]);
      ListMember(ledger, w);
    }
    SumIsTotal(ledger, Loads(sh, u));
  }

  /**
   Books and pool, in every state of every run and whatever interleaved: the counters are the sums of the residents'
   requirements and the active lists name the residents exactly when each counter equals its unreleased reservations,
   every resident of a GPU holds its reservation there, and nobody else does. A repeated teardown can break the first, an
   Allocate without room the second, and a deletion before SetGPUAssignment the third.
   */
  lemma BooksAgreeIff(s0: State, events: seq<Event>)
    requires Initial(s0)
    ensures var sh := Exec(s0, events).sh; BooksAgree(sh) <==> LedgersExact(sh.fleet) && HoldersAreResidents(sh)
  {
    hide FleetTidy, EntriesTrue, AgreesOn, Exact, Holders;
    RunLedger(s0, events);
    var sh := Exec(s0, events).sh;
    forall u | u in sh.fleet
      ensures AgreesOn(sh, u) <==> Exact(sh.fleet[u]) && Holders(sh.fleet[u]) == Residents(sh, u)
    {
      AgreesOnIff(sh, u);
    }
  }

  // ----- the same in a caller's terms

  /**
   What callers can work out to be owed on a GPU, from the results of their own calls: the workers whose granted Allocates
   there outnumber their Releases, with their requirements.
   */
  ghost function Owed(s0: State, events: seq<Event>, u: string): map<string, int> {
    var sh := Exec(s0, events).sh;
    map w | w in sh.workers && sh.workers[w].model.Some?
            && Tally(s0.sh.fleet, OpsOf(s0, events), u, w, sh.workers[w].model.value.vram) > 0
      :: Requirement(sh.workers[w])
  }

  lemma OwedIsLedger(s0: State, events: seq<Event>, u: string)
    requires Initial(s0) && u in Exec(s0, events).sh.fleet
    ensures Owed(s0, events, u).Keys == Holders(Exec(s0, events).sh.fleet[u])
    ensures Total(Owed(s0, events, u)) == Sum(Exec(s0, events).sh.fleet[u].ledger)
  {
    hide Exec, Tally, OpsOf;
    var sh, m := Exec(s0, events).sh, Owed(s0, events, u);
    var ledger := sh.fleet[u].ledger;
    RunLedger(s0, events);
    forall w ensures w in m <==> w in Holders(sh.fleet[u]) {
      HolderIffTally(s0, events, u, w);
    }
    assert Tidy(sh.fleet[u]);
    forall i | 0 <= i < |ledger| ensures ledger[i].worker in m && m[ledger[i].worker] == ledger[i].amount {
      ListMember(ledger, ledger[i].worker);
      assert ledger[i].worker in Holders(sh.fleet[u]);
      assert EntryTrue(sh, u, ledger[i]);
    }
    forall w | w in m ensures exists i :: 0 <= i < |ledger| && ledger[i].worker == w {
      assert w in Holders(sh.fleet[u]);
      ListMember(ledger, w);
    }
    SumIsTotal(ledger, m);
  }

  /** The residents of each GPU are those who owe it a Release. */
  ghost predicate ResidentsOwe(s0: State, events: seq<Event>) {
    var sh := Exec(s0, events).sh;
    forall u :: u in sh.fleet ==> Owed(s0, events, u).Keys == Residents(sh, u)
  }

  ghost predicate CountersOwed(s0: State, events: seq<Event>) {
    var sh := Exec(s0, events).sh;
    forall u :: u in sh.fleet ==> sh.fleet[u].gpu.allocatedVram == Total(Owed(s0, events, u))
  }

  /**
   The exact condition without the ledger. In every state of every run, books and pool agree exactly when each counter is
   what the callers' own tallies say is owed, and a worker owes a Release on a GPU just when it is in the pool and assigned
   there. The counters take care of themselves while every Release is accounted for.
   */
  lemma BooksAgreeIffTallies(s0: State, events: seq<Event>)
    requires Initial(s0)
    ensures BooksAgree(Exec(s0, events).sh) <==> CountersOwed(s0, events) && ResidentsOwe(s0, events)
    ensures NonNegativeRequests(events) && AllAccounted(s0.sh.fleet, OpsOf(s0, events)) ==>
      (BooksAgree(Exec(s0, events).sh) <==> ResidentsOwe(s0, events))
  {
    hide Exec, Tally, Owed, AllAccounted, BooksAgree;
    var sh := Exec(s0, events).sh;
    BooksAgreeIff(s0, events);
    forall u | u in sh.fleet
      ensures Exact(sh.fleet[u]) <==> sh.fleet[u].gpu.allocatedVram == Total(Owed(s0, events, u))
      ensures Owed(s0, events, u).Keys == Holders(sh.fleet[u])
    {
      OwedIsLedger(s0, events, u);
    }
    if NonNegativeRequests(events) && AllAccounted(s0.sh.fleet, OpsOf(s0, events)) {
      AccountedIsExact(s0, events);
    }
  }

  lemma AccountedIsExact(s0: State, events: seq<Event>)
    requires Initial(s0) && NonNegativeRequests(events) && AllAccounted(s0.sh.fleet, OpsOf(s0, events))
    ensures LedgersExact(Exec(s0, events).sh.fleet)
  {
    SystemExactIff(s0, events);
    assert CountersExactAt(s0, events, |events|);
    assert events[..|events|] == events;
  }
}
