/**
 Why books and pool ever part. Three events can be at fault: an Allocate that is refused, a teardown that looks for the
 worker's assignment before it has been recorded, and a Release nothing is owed for. There is no fourth.
 */
module Causes {
  import opened Machine
  import opened Workers
  import opened Accounts
  import opened Interleaving
  import opened Discipline
  import opened SystemBooks
  import opened Agreement
  import Safety

  /** Allocate finds room, and a teardown that checks for an assignment finds one. */
  ghost predicate Proper(s: State, e: Event) {
    e.Step? && e.i < |s.tasks| && CanStep(s.sh, s.tasks[e.i], e.o) ==> ProperStep(s.sh, s.tasks[e.i])
  }

  ghost predicate ProperStep(sh: Shared, t: Task) {
    && (t.Allocating? ==> Grants(sh.fleet, t.gpu.uuid, t.model.vram))
    && (t.Checking? ==> t.w in sh.workers && sh.workers[t.w].gpu.Some?)
  }

  ghost predicate ProperAt(s: State, events: seq<Event>, k: nat)
    requires k < |events|
  {
    Proper(Exec(s, events[..k]), events[k])
  }

  ghost predicate ProperRun(s: State, events: seq<Event>) {
    forall k :: 0 <= k < |events| ==> ProperAt(s, events, k)
  }

  // ----- the invariant of proper runs

  ghost predicate HoldsOn(f: Fleet, u: string, w: string) {
    u in f && exists r :: r in f[u].ledger && r.worker == w
  }

  /** A worker out of the pool was assigned, and has given everything back. */
  ghost predicate Cleared(sh: Shared, w: string) {
    w in sh.workers && sh.workers[w].gpu.Some? && Unreserved(sh.fleet, w)
  }

  ghost predicate StageProper(sh: Shared, t: Task) {
    match t
    case Assigning(w, _, gpu) => HoldsOn(sh.fleet, gpu.uuid, w)
    case Removing(w) => Cleared(sh, w)
    case _ => true
  }

  ghost predicate AssignedHolds(sh: Shared, w: string) {
    w in sh.workers && (sh.workers[w].gpu.Some? ==> HoldsOn(sh.fleet, sh.workers[w].gpu.value.uuid, w))
  }

  ghost predicate ProperInv(s: State) {
    && (forall i :: 0 <= i < |s.tasks| ==> StageProper(s.sh, s.tasks[i]))
    && (forall w :: w in s.sh.pool ==> AssignedHolds(s.sh, w) || Removing(w) in s.tasks)
    && (forall w :: w in s.sh.workers && w !in s.sh.pool ==> Cleared(s.sh, w))
  }

  // ----- one step

  /** A step that trades no VRAM and records no assignment leaves assignments and ledgers as they are. */
  predicate Trades(t: Task) {
    t.Allocating? || t.Assigning? || t.Releasing?
  }

  lemma UntradedParts(sh: Shared, t: Task, o: Outcome, w: string)
    requires CanStep(sh, t, o) && !Trades(t)
    ensures Effect(sh, t, o).fleet == sh.fleet
    ensures w in sh.workers ==> w in Effect(sh, t, o).workers && Effect(sh, t, o).workers[w].gpu == sh.workers[w].gpu
    ensures w in Effect(sh, t, o).workers && w !in sh.workers ==>
      t.Storing? && w == o.id && Effect(sh, t, o).workers[w].gpu.None?
  {
  }

  lemma PoolParts(sh: Shared, t: Task, o: Outcome, w: string)
    requires CanStep(sh, t, o)
    ensures w in Effect(sh, t, o).pool <==> (w in sh.pool && t != Removing(w)) || (t.Storing? && w == o.id)
  {
  }

  /** The ledgers move for the stepping task's worker alone. */
  lemma TradedParts(sh: Shared, t: Task, o: Outcome, w: string)
    requires CanStep(sh, t, o) && Trades(t) && StageTrue(sh, t) && FleetTidy(sh.fleet) && EntriesTrue(sh)
    requires ProperStep(sh, t)
    ensures var sh' := Effect(sh, t, o);
      && sh'.workers.Keys == sh.workers.Keys
      && (w != t.w ==> forall u :: HoldsOn(sh'.fleet, u, w) <==> HoldsOn(sh.fleet, u, w))
      && (w != t.w && w in sh.workers ==> sh'.workers[w].gpu == sh.workers[w].gpu)
  {
    hide FleetTidy, EntriesTrue;
    if t.Allocating? {
      AllocateTrue(sh, t);
    } else if t.Releasing? {
      ReleaseTrue(sh, t);
    }
  }

  lemma UnreservedIff(f: Fleet, w: string)
    ensures Unreserved(f, w) <==> forall u :: !HoldsOn(f, u, w)
  {
    if Unreserved(f, w) {
      assert forall u :: !HoldsOn(f, u, w);
    } else {
      var u, r :| u in f && r in f[u].ledger && r.worker == w;
      assert HoldsOn(f, u, w);
    }
  }

  /** What a trade leaves its own worker with. */
  lemma OwnTrade(sh: Shared, t: Task, o: Outcome)
    requires CanStep(sh, t, o) && Trades(t) && StageTrue(sh, t) && StageProper(sh, t) && ProperStep(sh, t)
    requires FleetTidy(sh.fleet) && EntriesTrue(sh)
    ensures t.Allocating? ==> HoldsOn(Effect(sh, t, o).fleet, t.gpu.uuid, t.w) && Effect(sh, t, o).workers == sh.workers
    ensures t.Assigning? ==> AssignedHolds(Effect(sh, t, o), t.w)
    ensures t.Releasing? ==> Cleared(Effect(sh, t, o), t.w)
  {
    hide FleetTidy, EntriesTrue;
    if t.Allocating? {
      ReservedEntries(sh.fleet, t.gpu.uuid, t.w, t.model.name, t.model.vram);
      var r := Reservation(t.w, t.model.name, t.model.vram);
      assert r in Effect(sh, t, o).fleet[t.gpu.uuid].ledger;
    } else if t.Releasing? {
      ReleasedClears(sh, t);
    }
  }

  lemma ReleasedClears(sh: Shared, t: Task)
    requires t.Releasing? && StageTrue(sh, t) && FleetTidy(sh.fleet) && EntriesTrue(sh)
    ensures Cleared(Released(sh, t.w, t.uuid, t.amount), t.w)
  {
    hide Tidy, Refund;
    var sh' := Released(sh, t.w, t.uuid, t.amount);
    forall u, r | u in sh'.fleet && r in sh'.fleet[u].ledger ensures r.worker != t.w {
      if u == t.uuid {
        assert forall e :: e in sh.fleet[u].ledger ==> EntryTrue(sh, u, e);
        RefundTidy(sh.fleet[u], t.w, t.amount);
      } else {
        assert EntryTrue(sh, u, r);
      }
    }
  }

  /** With the exception of its own trade, no step takes a reservation or an assignment from a worker, or gives it one. */
  lemma SameHoldings(sh: Shared, t: Task, o: Outcome, w: string)
    requires CanStep(sh, t, o) && StageTrue(sh, t) && FleetTidy(sh.fleet) && EntriesTrue(sh) && ProperStep(sh, t)
    requires w in sh.workers && !(Trades(t) && t.w == w)
    ensures w in Effect(sh, t, o).workers && Effect(sh, t, o).workers[w].gpu == sh.workers[w].gpu
    ensures forall u :: HoldsOn(Effect(sh, t, o).fleet, u, w) <==> HoldsOn(sh.fleet, u, w)
    ensures AssignedHolds(sh, w) ==> AssignedHolds(Effect(sh, t, o), w)
    ensures Cleared(sh, w) ==> Cleared(Effect(sh, t, o), w)
  {
    hide Effect, StageTrue, FleetTidy, EntriesTrue, HoldsOn, Unreserved, ProperStep;
    if Trades(t) {
      TradedParts(sh, t, o, w);
    } else {
      UntradedParts(sh, t, o, w);
    }
    UnreservedIff(sh.fleet, w);
    UnreservedIff(Effect(sh, t, o).fleet, w);
  }

  lemma OwnProper(sh: Shared, max: int64, t: Task, o: Outcome)
    requires CanStep(sh, t, o) && StageTrue(sh, t) && StageProper(sh, t) && ProperStep(sh, t)
    requires FleetTidy(sh.fleet) && EntriesTrue(sh)
    ensures StageProper(Effect(sh, t, o), Next(sh, max, t, o))
  {
    hide Effect, FleetTidy, EntriesTrue;
    if Trades(t) {
      OwnTrade(sh, t, o);
    } else {
      OwnLook(sh, max, t, o);
    }
  }

  lemma OwnLook(sh: Shared, max: int64, t: Task, o: Outcome)
    requires CanStep(sh, t, o) && !Trades(t) && ProperStep(sh, t) && EntriesTrue(sh)
    ensures StageProper(Effect(sh, t, o), Next(sh, max, t, o))
  {
    if t.Checking? && Next(sh, max, t, o).Removing? {
      forall u, r | u in sh.fleet && r in sh.fleet[u].ledger ensures r.worker != t.w {
        assert EntryTrue(sh, u, r);
      }
    }
  }

  /** A task that waits with a reservation, or with everything given back, is not disturbed. */
  lemma OtherProper(sh: Shared, t: Task, o: Outcome, u: Task)
    requires CanStep(sh, t, o) && StageTrue(sh, t) && ProperStep(sh, t) && FleetTidy(sh.fleet) && EntriesTrue(sh)
    requires StageTrue(sh, u) && StageProper(sh, u)
    requires forall w :: !(Safety.IsStarter(t, w) && Safety.IsStarter(u, w))
    ensures StageProper(Effect(sh, t, o), u)
  {
    hide Effect, FleetTidy, EntriesTrue, HoldsOn, Unreserved;
    if u.Removing? && t.Releasing? && t.w == u.w {
      OwnTrade(sh, t, o);
    } else if u.Assigning? || u.Removing? {
      OthersTrade(sh, t, u);
      SameHoldings(sh, t, o, u.w);
    }
  }

  lemma OthersTrade(sh: Shared, t: Task, u: Task)
    requires StageTrue(sh, t) && StageTrue(sh, u) && StageProper(sh, u) && (u.Assigning? || u.Removing?)
    requires forall w :: !(Safety.IsStarter(t, w) && Safety.IsStarter(u, w))
    ensures u.w in sh.workers && (Trades(t) && t.w == u.w ==> u.Removing? && t.Releasing?)
  {
    if u.Assigning? {
      assert Safety.IsStarter(u, u.w) && !Safety.IsStarter(t, u.w);
    }
  }

  lemma StepProper(s: State, i: nat, o: Outcome, s': State)
    requires ProperInv(s) && LedgerInv(s) && Safety.OneStarter(s) && Safety.PoolOk(s.sh) && Steps(s, i, o, s')
    requires ProperStep(s.sh, s.tasks[i])
    ensures ProperInv(s')
  {
    hide Effect, Next, StageTrue, StageProper, FleetTidy, EntriesTrue, AssignedHolds, Cleared, ProperStep;
    OwnProper(s.sh, s.maxWorkers, s.tasks[i], o);
    forall j | 0 <= j < |s'.tasks| && j != i ensures StageProper(s'.sh, s'.tasks[j]) {
      OtherProper(s.sh, s.tasks[i], o, s.tasks[j]);
    }
    forall w | w in s'.sh.pool ensures AssignedHolds(s'.sh, w) || Removing(w) in s'.tasks {
      StepPoolProper(s, i, o, s', w);
    }
    forall w | w in s'.sh.workers && w !in s'.sh.pool ensures Cleared(s'.sh, w) {
      StepOutProper(s, i, o, s', w);
    }
  }

  lemma StepPoolProper(s: State, i: nat, o: Outcome, s': State, w: string)
    requires ProperInv(s) && LedgerInv(s) && Safety.PoolOk(s.sh) && Steps(s, i, o, s')
    requires ProperStep(s.sh, s.tasks[i]) && w in s'.sh.pool
    ensures AssignedHolds(s'.sh, w) || Removing(w) in s'.tasks
  {
    hide Effect, FleetTidy, EntriesTrue, HoldsOn, Unreserved, StageTrue, StageProper;
    var t := s.tasks[i];
    PoolParts(s.sh, t, o, w);
    if w !in s.sh.workers || (Trades(t) && t.w == w) {
      assert StageProper(s.sh, t) && StageTrue(s.sh, t);
      NewOrTrading(s.sh, s.maxWorkers, t, o, w);
      assert s'.tasks[i] == Next(s.sh, s.maxWorkers, t, o);
    } else {
      if t.Storing? { assert w != o.id; }
      SameHoldings(s.sh, t, o, w);
      if !AssignedHolds(s.sh, w) {
        var j :| 0 <= j < |s.tasks| && s.tasks[j] == Removing(w);
        assert s'.tasks[j] == Removing(w);
      }
    }
  }

  /** A worker stored just now has no assignment; one whose own task trades holds a reservation or is being removed. */
  lemma NewOrTrading(sh: Shared, max: int64, t: Task, o: Outcome, w: string)
    requires CanStep(sh, t, o) && StageTrue(sh, t) && StageProper(sh, t) && ProperStep(sh, t)
    requires FleetTidy(sh.fleet) && EntriesTrue(sh)
    requires (t.Storing? && w == o.id) || (Trades(t) && t.w == w)
    ensures AssignedHolds(Effect(sh, t, o), w) || Next(sh, max, t, o) == Removing(w)
  {
    hide FleetTidy, EntriesTrue, HoldsOn, Unreserved;
    if t.Storing? {
      assert Effect(sh, t, o).workers[w].gpu.None?;
    } else {
      OwnTrade(sh, t, o);
    }
  }

  lemma StepOutProper(s: State, i: nat, o: Outcome, s': State, w: string)
    requires ProperInv(s) && LedgerInv(s) && Safety.PoolOk(s.sh) && Steps(s, i, o, s')
    requires ProperStep(s.sh, s.tasks[i]) && w in s'.sh.workers && w !in s'.sh.pool
    ensures Cleared(s'.sh, w)
  {
    hide Effect, FleetTidy, EntriesTrue, HoldsOn, Unreserved;
    var t := s.tasks[i];
    assert StageProper(s.sh, t) && StageTrue(s.sh, t);
    PoolParts(s.sh, t, o, w);
    RecordsOnlyGrow(s.sh, t, o, w);
    if t.Releasing? && t.w == w {
      OwnTrade(s.sh, t, o);
    } else {
      assert Cleared(s.sh, w);
      assert !(Trades(t) && t.w == w);
      SameHoldings(s.sh, t, o, w);
    }
  }

  lemma RecordsOnlyGrow(sh: Shared, t: Task, o: Outcome, w: string)
    requires CanStep(sh, t, o) && w in Effect(sh, t, o).workers
    ensures w in sh.workers || (t.Storing? && w == o.id)
  {
  }

  lemma ToggleProper(s: State, w: string, now: Instant)
    requires ProperInv(s)
    ensures ProperInv(s.(sh := Toggled(s.sh, w, now)))
  {
    hide Toggled, HoldsOn, Unreserved;
    var s' := s.(sh := Toggled(s.sh, w, now));
    Safety.ToggledIsSimilar(s.sh, w, now);
    forall i | 0 <= i < |s.tasks| ensures StageProper(s'.sh, s.tasks[i]) {
      assert StageProper(s.sh, s.tasks[i]);
    }
    forall v | v in s'.sh.pool ensures AssignedHolds(s'.sh, v) || Removing(v) in s'.tasks {
      assert AssignedHolds(s.sh, v) || Removing(v) in s.tasks;
    }
    forall v | v in s'.sh.workers && v !in s'.sh.pool ensures Cleared(s'.sh, v) {
      assert Cleared(s.sh, v);
    }
  }

  lemma ArriveProper(s: State, t: Task)
    requires ProperInv(s) && (t.Scheduling? || t.Finding? || t.Visiting?)
    ensures ProperInv(s.(tasks := s.tasks + [t]))
  {
    hide AssignedHolds, Cleared;
    var s' := s.(tasks := s.tasks + [t]);
    forall w | w in s'.sh.pool ensures AssignedHolds(s'.sh, w) || Removing(w) in s'.tasks {
      if !AssignedHolds(s.sh, w) {
        var j :| 0 <= j < |s.tasks| && s.tasks[j] == Removing(w);
        assert s'.tasks[j] == Removing(w);
      }
    }
  }

  lemma FireProper(s: State, e: Event)
    requires ProperInv(s) && LedgerInv(s) && Safety.Inv(s) && Proper(s, e)
    ensures ProperInv(Fire(s, e))
  {
    hide ProperInv, LedgerInv;
    match e
    case Create(tenant, model) => ArriveProper(s, Scheduling(tenant, model));
    case Delete(w) => ArriveProper(s, Finding(w));
    case Sweep(w) => ArriveProper(s, Visiting(w));
    case Toggle(w, now) => ToggleProper(s, w, now);
    case Step(i, o) =>
      if i < |s.tasks| && CanStep(s.sh, s.tasks[i], o) {
        StepProper(s, i, o, Fire(s, e));
      }
  }

  lemma InitialProper(s: State)
    requires Initial(s)
    ensures ProperInv(s)
  {
  }

  lemma {:induction false} RunProper(s0: State, events: seq<Event>)
    requires Initial(s0) && ProperRun(s0, events)
    ensures ProperInv(Exec(s0, events))
  {
    hide ProperInv, Proper, Fire;
    InitialProper(s0);
    if events != [] {
      var front := events[..|events| - 1];
      forall k | 0 <= k < |front| ensures ProperAt(s0, front, k) {
        assert ProperAt(s0, events, k);
        assert front[..k] == events[..k];
      }
      RunProper(s0, front);
      RunLedger(s0, front);
      Safety.InitialInv(s0);
      Safety.ExecInv(s0, front);
      assert ProperAt(s0, events, |events| - 1);
      FireProper(Exec(s0, front), events[|events| - 1]);
    }
  }

  // ----- the result

  lemma HolderIff(a: Account, w: string)
    ensures w in Holders(a) <==> exists r :: r in a.ledger && r.worker == w
  {
    ListMember(a.ledger, w);
    if r :| r in a.ledger && r.worker == w {
      var i :| 0 <= i < |a.ledger| && a.ledger[i] == r;
    }
  }

  lemma RestingHolders(s: State, u: string, w: string)
    requires ProperInv(s) && LedgerInv(s) && Safety.Inv(s) && Quiescent(s) && u in s.sh.fleet
    ensures w in Holders(s.sh.fleet[u]) <==> w in Residents(s.sh, u)
  {
    HolderIff(s.sh.fleet[u], w);
    assert Removing(w) !in s.tasks;
    if w in s.sh.pool {
      Safety.RestingWorkers(s, w);
      assert AssignedHolds(s.sh, w);
    } else if w in s.sh.workers {
      assert Cleared(s.sh, w);
    }
    forall r | r in s.sh.fleet[u].ledger ensures EntryTrue(s.sh, u, r) {
    }
  }

  /**
   There is no fourth cause. Once all tasks of a run have finished, however they were interleaved, books and pool agree
   unless some Allocate was refused, some teardown found its worker not yet assigned, or some Release was not accounted
   for.
   */
  lemma NoFourthCause(s0: State, events: seq<Event>)
    requires Initial(s0) && NonNegativeRequests(events) && Quiescent(Exec(s0, events))
    requires ProperRun(s0, events) && AllAccounted(s0.sh.fleet, OpsOf(s0, events))
    ensures BooksAgree(Exec(s0, events).sh)
  {
    hide Exec, AllAccounted, ProperInv, LedgerInv, Quiescent, ProperRun, BooksAgree;
    RunProper(s0, events);
    RunLedger(s0, events);
    Safety.InitialInv(s0);
    Safety.ExecInv(s0, events);
    AccountedIsExact(s0, events);
    BooksAgreeIff(s0, events);
    var s := Exec(s0, events);
    forall u | u in s.sh.fleet ensures Holders(s.sh.fleet[u]) == Residents(s.sh, u) {
      forall w ensures w in Holders(s.sh.fleet[u]) <==> w in Residents(s.sh, u) {
        RestingHolders(s, u, w);
      }
    }
  }
}
