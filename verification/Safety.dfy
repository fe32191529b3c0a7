/** What every interleaving keeps: no lost container, permanent teardown, ready workers fully provisioned. */
module Safety {
  import opened Machine
  import opened Lifecycle
  import opened Workers
  import opened Interleaving

  // ----- the inductive invariant

  predicate Late(s: Status) {
    s == Running || s == Idle || s == Terminating
  }

  predicate Ready(s: Status) {
    s == Running || s == Idle
  }

  /** The container was launched for the worker. */
  predicate Belongs(sh: Shared, c: string, w: string) {
    c in sh.containers && sh.containers[c] == w
  }

  /** The one task that takes the worker from its creation to RUNNING. */
  predicate IsStarter(t: Task, w: string) {
    (t.Allocating? || t.Assigning? || t.Beginning? || t.Pulling? || t.Launching? || t.Recording? || t.Waiting? || t.Readying?)
    && t.w == w
  }

  predicate TearsDown(t: Task, w: string) {
    (t.Reading? && t.w == w) || PastReading(t, w)
  }

  predicate PastReading(t: Task, w: string) {
    (t.Killing? && t.w == w) || WrapsUp(t, w)
  }

  /** A teardown past the point where it deals with the container. */
  predicate WrapsUp(t: Task, w: string) {
    (t.Checking? || t.Releasing? || t.Removing?) && t.w == w
  }

  /** The worker has no container yet. */
  ghost predicate Bare(sh: Shared, w: string) {
    w in sh.workers && sh.workers[w].containerID == "" && forall c :: c in sh.containers ==> sh.containers[c] != w
  }

  predicate Early(w: Worker, phase: Status) {
    w.status == phase || w.status == Terminating
  }

  /** What holds of the worker a task works on, by the task's program counter. */
  ghost predicate StageOk(sh: Shared, t: Task) {
    match t
    case Allocating(w, _, _) => Bare(sh, w) && Early(sh.workers[w], Pending)
    case Assigning(w, _, _) => Bare(sh, w) && Early(sh.workers[w], Pending)
    case Beginning(w) => Bare(sh, w) && Early(sh.workers[w], Pending) && sh.workers[w].gpu.Some?
    case Pulling(w) => Bare(sh, w) && Early(sh.workers[w], Starting) && sh.workers[w].gpu.Some?
    case Launching(w) => Bare(sh, w) && Early(sh.workers[w], Starting) && sh.workers[w].gpu.Some?
    case Recording(w, c) =>
      && w in sh.workers && sh.workers[w].containerID == "" && c != "" && Belongs(sh, c, w)
      && (forall d :: d in sh.containers && sh.containers[d] == w ==> d == c)
      && Early(sh.workers[w], Starting) && sh.workers[w].gpu.Some?
    case Waiting(w, _) =>
      w in sh.workers && sh.workers[w].containerID != "" && Early(sh.workers[w], Starting) && sh.workers[w].gpu.Some?
    case Readying(w) =>
      w in sh.workers && sh.workers[w].containerID != "" && Early(sh.workers[w], Starting) && sh.workers[w].gpu.Some?
    case Closing(w) => w in sh.workers
    case Reading(w) => w in sh.workers && Late(sh.workers[w].status)
    case Killing(w, c) => w in sh.workers && Late(sh.workers[w].status) && sh.workers[w].containerID == c != ""
    case Checking(w) => w in sh.workers && Late(sh.workers[w].status)
    case Releasing(w, _, _) => w in sh.workers && Late(sh.workers[w].status)
    case Removing(w) => w in sh.workers && Late(sh.workers[w].status)
    case Looking(w) => w in sh.workers && Late(sh.workers[w].status) && sh.workers[w].containerID != ""
    case _ => true
  }

  ghost predicate StagesOk(s: State) {
    forall i :: 0 <= i < |s.tasks| ==> StageOk(s.sh, s.tasks[i])
  }

  ghost predicate OneStarter(s: State) {
    forall i, j, w :: 0 <= i < |s.tasks| && 0 <= j < |s.tasks| && IsStarter(s.tasks[i], w) && IsStarter(s.tasks[j], w)
                      ==> i == j
  }

  /** A worker in RUNNING or IDLE has a container and a GPU assignment. */
  ghost predicate Provisioned(sh: Shared) {
    forall w :: w in sh.workers && Ready(sh.workers[w].status)
                ==> sh.workers[w].containerID != "" && sh.workers[w].gpu.Some?
  }

  ghost predicate PoolOk(sh: Shared) {
    && sh.pool <= sh.workers.Keys
    && (forall w :: w in sh.workers && w !in sh.pool ==> Late(sh.workers[w].status))
    && (forall w :: w in sh.removals ==> w in sh.workers && w !in sh.pool)
  }

  ghost predicate ContainersOk(sh: Shared) {
    && sh.terminated <= sh.containers.Keys
    && (forall c :: c in sh.containers ==> c != "" && sh.containers[c] in sh.workers)
    && (forall w :: w in sh.workers && sh.workers[w].containerID != "" ==> Belongs(sh, sh.workers[w].containerID, w))
  }

  ghost predicate RecordsOk(sh: Shared) {
    PoolOk(sh) && ContainersOk(sh)
  }

  /** Every container launched is recorded on its worker, or its start task is about to record it. */
  ghost predicate Tracked(s: State) {
    forall c :: c in s.sh.containers && s.sh.containers[c] in s.sh.workers ==>
      s.sh.workers[s.sh.containers[c]].containerID == c || Recording(s.sh.containers[c], c) in s.tasks
  }

  /** Some task still has the container to deal with. */
  ghost predicate Owes(s: State, w: string, c: string) {
    exists i :: 0 <= i < |s.tasks| && Owing(s.sh, s.tasks[i], w, c)
  }

  predicate Owing(sh: Shared, t: Task, w: string, c: string) {
    || t == Recording(w, c)
    || t == Killing(w, c)
    || ((t.Waiting? || t.Readying? || t.Closing? || t.Reading?) && t.w == w && w in sh.workers && sh.workers[w].containerID == c)
  }

  /** The worker's end has begun: it is terminating, out of the pool, or a teardown is past reading its container. */
  ghost predicate Ended(s: State, w: string) {
    && w in s.sh.workers
    && (s.sh.workers[w].status == Terminating || w !in s.sh.pool
        || exists i :: 0 <= i < |s.tasks| && PastReading(s.tasks[i], w))
  }

  /** Once a worker's end has begun, each of its containers is terminated or some task still owes that. */
  ghost predicate Covered(s: State) {
    forall c :: c in s.sh.containers && Ended(s, s.sh.containers[c]) ==>
      c in s.sh.terminated || Owes(s, s.sh.containers[c], c)
  }

  /** A container handed to TerminateContainer is of a worker out of the pool, or about to leave it. */
  ghost predicate KilledLeaves(s: State) {
    forall c :: c in s.sh.terminated && c in s.sh.containers && s.sh.containers[c] in s.sh.pool ==>
      exists i :: 0 <= i < |s.tasks| && WrapsUp(s.tasks[i], s.sh.containers[c])
  }

  /** No worker is left behind: one not yet ready has its start task or a teardown, a terminating one its teardown. */
  ghost predicate Attended(s: State) {
    forall w :: w in s.sh.workers && w in s.sh.pool && !Ready(s.sh.workers[w].status) ==>
      exists i :: 0 <= i < |s.tasks| && Attends(s.sh.workers[w].status, s.tasks[i], w)
  }

  predicate Attends(status: Status, t: Task, w: string) {
    if status == Terminating then TearsDown(t, w) else IsStarter(t, w) || t == Closing(w)
  }

  ghost predicate Inv(s: State) {
    && StagesOk(s) && OneStarter(s) && Provisioned(s.sh) && RecordsOk(s.sh)
    && Tracked(s) && Covered(s) && KilledLeaves(s) && Attended(s)
  }

  // ----- one step keeps it

  lemma InitialInv(s: State)
    requires Initial(s)
    ensures Inv(s)
  {
  }

  /** A start task that steps satisfies its next stage. */
  lemma OwnStarterStage(sh: Shared, max: int64, t: Task, o: Outcome, w: string)
    requires CanStep(sh, t, o) && StageOk(sh, t) && RecordsOk(sh) && IsStarter(t, w)
    ensures StageOk(Effect(sh, t, o), Next(sh, max, t, o))
  {
  }

  lemma OwnPlainStage(sh: Shared, max: int64, t: Task, o: Outcome)
    requires CanStep(sh, t, o) && StageOk(sh, t) && Provisioned(sh) && RecordsOk(sh)
    requires HoldsRecord(t) ==> !IsStarter(t, t.w)
    ensures StageOk(Effect(sh, t, o), Next(sh, max, t, o))
  {
  }

  /** The task that steps satisfies its next stage. */
  lemma OwnStage(sh: Shared, max: int64, t: Task, o: Outcome)
    requires CanStep(sh, t, o) && StageOk(sh, t) && Provisioned(sh) && RecordsOk(sh)
    ensures StageOk(StepTask(sh, max, t, o).0, StepTask(sh, max, t, o).1)
  {
    hide Effect, Next, StageOk, RecordsOk, Provisioned;
    if HoldsRecord(t) && IsStarter(t, t.w) {
      OwnStarterStage(sh, max, t, o, t.w);
    } else {
      OwnPlainStage(sh, max, t, o);
    }
  }

  /** The steps that touch a worker's record or the list of containers. */
  predicate Touches(t: Task) {
    t.Storing? || t.Assigning? || t.Beginning? || t.Launching? || t.Recording? || t.Readying? || t.Closing?
  }

  lemma UntouchedRecords(sh: Shared, t: Task, o: Outcome)
    requires CanStep(sh, t, o) && !Touches(t)
    ensures Effect(sh, t, o).workers == sh.workers
    ensures Effect(sh, t, o).containers == sh.containers
  {
  }

  lemma SameRecordsSameStage(sh: Shared, sh': Shared, u: Task)
    requires StageOk(sh, u) && sh'.workers == sh.workers && sh'.containers == sh.containers
    ensures StageOk(sh', u)
  {
  }

  lemma OtherStarterStage(sh: Shared, max: int64, t: Task, o: Outcome, u: Task, w: string)
    requires CanStep(sh, t, o) && StageOk(sh, t) && StageOk(sh, u) && RecordsOk(sh)
    requires Touches(t) && IsStarter(u, w) && !IsStarter(t, w)
    ensures StageOk(StepTask(sh, max, t, o).0, u)
  {
  }

  lemma OtherPlainStage(sh: Shared, max: int64, t: Task, o: Outcome, u: Task)
    requires CanStep(sh, t, o) && StageOk(sh, t) && StageOk(sh, u) && RecordsOk(sh)
    requires Touches(t) && (HoldsRecord(u) ==> !IsStarter(u, u.w))
    ensures StageOk(StepTask(sh, max, t, o).0, u)
  {
  }

  /** Every other task's stage survives the step. */
  lemma OtherStage(sh: Shared, max: int64, t: Task, o: Outcome, u: Task)
    requires CanStep(sh, t, o) && StageOk(sh, t) && StageOk(sh, u) && RecordsOk(sh)
    requires forall w :: !(IsStarter(t, w) && IsStarter(u, w))
    ensures StageOk(StepTask(sh, max, t, o).0, u)
  {
    if !Touches(t) {
      UntouchedRecords(sh, t, o);
      SameRecordsSameStage(sh, StepTask(sh, max, t, o).0, u);
    } else if HoldsRecord(u) && IsStarter(u, u.w) {
      OtherStarterStage(sh, max, t, o, u, u.w);
    } else {
      OtherPlainStage(sh, max, t, o, u);
    }
  }

  lemma StepStages(s: State, i: nat, o: Outcome, s': State)
    requires Inv(s) && Steps(s, i, o, s')
    ensures StagesOk(s')
  {
    OwnStage(s.sh, s.maxWorkers, s.tasks[i], o);
    forall j | 0 <= j < |s'.tasks| ensures StageOk(s'.sh, s'.tasks[j]) {
      if j != i {
        assert forall w :: !(IsStarter(s.tasks[i], w) && IsStarter(s.tasks[j], w));
        OtherStage(s.sh, s.maxWorkers, s.tasks[i], o, s.tasks[j]);
      }
    }
  }

  lemma StarterLocal(sh: Shared, max: int64, t: Task, o: Outcome, w: string)
    requires CanStep(sh, t, o) && IsStarter(StepTask(sh, max, t, o).1, w)
    ensures IsStarter(t, w) || w !in sh.workers
  {
  }

  lemma StepStarter(s: State, i: nat, o: Outcome, s': State)
    requires Inv(s) && Steps(s, i, o, s')
    ensures OneStarter(s')
  {
    forall j, w | 0 <= j < |s'.tasks| && j != i && IsStarter(s'.tasks[j], w) ensures !IsStarter(s'.tasks[i], w) {
      assert StageOk(s.sh, s.tasks[j]);
      if IsStarter(s'.tasks[i], w) {
        StarterLocal(s.sh, s.maxWorkers, s.tasks[i], o, w);
      }
    }
  }

  lemma StepProvisioned(sh: Shared, t: Task, o: Outcome)
    requires CanStep(sh, t, o) && StageOk(sh, t) && Provisioned(sh)
    ensures Provisioned(Effect(sh, t, o))
  {
    if Touches(t) {
      forall w | w in Effect(sh, t, o).workers && Ready(Effect(sh, t, o).workers[w].status)
        ensures Effect(sh, t, o).workers[w].containerID != "" && Effect(sh, t, o).workers[w].gpu.Some?
      {
        RecordProvisioned(sh, t, o, w);
      }
    } else {
      UntouchedRecords(sh, t, o);
    }
  }

  lemma RecordProvisioned(sh: Shared, t: Task, o: Outcome, w: string)
    requires CanStep(sh, t, o) && StageOk(sh, t) && Provisioned(sh) && Touches(t)
    requires w in Effect(sh, t, o).workers && Ready(Effect(sh, t, o).workers[w].status)
    ensures Effect(sh, t, o).workers[w].containerID != "" && Effect(sh, t, o).workers[w].gpu.Some?
  {
  }

  lemma StepPool(sh: Shared, t: Task, o: Outcome)
    requires CanStep(sh, t, o) && StageOk(sh, t) && PoolOk(sh)
    ensures PoolOk(Effect(sh, t, o))
  {
    if Looks(t) {
      LookingChangesNothing(sh, t, o);
    } else if Touches(t) {
      StepPoolRecords(sh, t, o);
    }
  }

  lemma StepPoolRecords(sh: Shared, t: Task, o: Outcome)
    requires CanStep(sh, t, o) && StageOk(sh, t) && PoolOk(sh) && Touches(t)
    ensures PoolOk(Effect(sh, t, o))
  {
  }

  lemma StepContainers(sh: Shared, t: Task, o: Outcome)
    requires CanStep(sh, t, o) && StageOk(sh, t) && ContainersOk(sh)
    ensures ContainersOk(Effect(sh, t, o))
  {
    if Looks(t) {
      LookingChangesNothing(sh, t, o);
    } else if Touches(t) {
      StepContainerRecords(sh, t, o);
    }
  }

  lemma StepContainerRecords(sh: Shared, t: Task, o: Outcome)
    requires CanStep(sh, t, o) && StageOk(sh, t) && ContainersOk(sh) && Touches(t)
    ensures ContainersOk(Effect(sh, t, o))
  {
  }

  lemma TrackedLocal(sh: Shared, max: int64, t: Task, o: Outcome, c: string)
    requires CanStep(sh, t, o) && c in StepTask(sh, max, t, o).0.containers
    ensures var (sh', t') := StepTask(sh, max, t, o);
      && (c !in sh.containers ==> t' == Recording(sh'.containers[c], c))
      && (t.Recording? && t.c == c ==> sh'.workers[t.w].containerID == c)
  {
  }

  lemma StepTracked(s: State, i: nat, o: Outcome, s': State)
    requires Inv(s) && Steps(s, i, o, s')
    ensures Tracked(s')
  {
    forall c | c in s'.sh.containers && s'.sh.containers[c] in s'.sh.workers
      ensures s'.sh.workers[s'.sh.containers[c]].containerID == c || Recording(s'.sh.containers[c], c) in s'.tasks
    {
      assert StageOk(s.sh, s.tasks[i]);
      TrackedLocal(s.sh, s.maxWorkers, s.tasks[i], o, c);
      if c !in s.sh.containers {
        assert s'.tasks[i] == Recording(s'.sh.containers[c], c);
      } else {
        var w := s.sh.containers[c];
        ContainerLocal(s.sh, s.maxWorkers, s.tasks[i], o, w, c);
        if s.sh.workers[w].containerID != c {
          var j :| 0 <= j < |s.tasks| && s.tasks[j] == Recording(w, c);
          assert j != i ==> s'.tasks[j] == Recording(w, c);
        }
      }
    }
  }

  /** What one step does to the containers and to the pool, as far as termination goes. */
  lemma KilledLocal(sh: Shared, max: int64, t: Task, o: Outcome)
    requires CanStep(sh, t, o) && StageOk(sh, t) && RecordsOk(sh)
    ensures var (sh', t') := StepTask(sh, max, t, o);
      && (forall c :: c in sh.containers ==> c in sh'.containers && sh'.containers[c] == sh.containers[c])
      && (forall c :: c in sh'.terminated && c !in sh.terminated ==> c in sh.containers && WrapsUp(t', sh.containers[c]))
      && (forall w :: w in sh'.pool && w in sh.workers ==> w in sh.pool && (WrapsUp(t, w) ==> WrapsUp(t', w)))
  {
    ContainersKept(sh, t, o);
    NewlyTerminated(sh, max, t, o);
    WrapUpKept(sh, max, t, o);
  }

  lemma ContainersKept(sh: Shared, t: Task, o: Outcome)
    requires CanStep(sh, t, o)
    ensures forall c :: c in sh.containers ==>
      c in Effect(sh, t, o).containers && Effect(sh, t, o).containers[c] == sh.containers[c]
  {
  }

  lemma NewlyTerminated(sh: Shared, max: int64, t: Task, o: Outcome)
    requires CanStep(sh, t, o) && StageOk(sh, t) && ContainersOk(sh)
    ensures forall c :: c in Effect(sh, t, o).terminated && c !in sh.terminated ==>
      c in sh.containers && WrapsUp(Next(sh, max, t, o), sh.containers[c])
  {
  }

  lemma WrapUpKept(sh: Shared, max: int64, t: Task, o: Outcome)
    requires CanStep(sh, t, o)
    ensures forall w :: w in Effect(sh, t, o).pool && w in sh.workers ==>
      w in sh.pool && (WrapsUp(t, w) ==> WrapsUp(Next(sh, max, t, o), w))
  {
  }

  lemma KilledLift(s: State, i: nat, s': State)
    requires KilledLeaves(s) && RecordsOk(s.sh) && i < |s.tasks|
    requires |s'.tasks| == |s.tasks| && forall j :: 0 <= j < |s.tasks| && j != i ==> s'.tasks[j] == s.tasks[j]
    requires forall c :: c in s.sh.containers ==> c in s'.sh.containers && s'.sh.containers[c] == s.sh.containers[c]
    requires forall c :: c in s'.sh.terminated && c !in s.sh.terminated ==>
      c in s.sh.containers && WrapsUp(s'.tasks[i], s.sh.containers[c])
    requires forall w :: w in s'.sh.pool && w in s.sh.workers ==>
      w in s.sh.pool && (WrapsUp(s.tasks[i], w) ==> WrapsUp(s'.tasks[i], w))
    ensures KilledLeaves(s')
  {
    forall c | c in s'.sh.terminated && c in s'.sh.containers && s'.sh.containers[c] in s'.sh.pool
      ensures exists j :: 0 <= j < |s'.tasks| && WrapsUp(s'.tasks[j], s'.sh.containers[c])
    {
      var w := s'.sh.containers[c];
      if c in s.sh.terminated {
        var j :| 0 <= j < |s.tasks| && WrapsUp(s.tasks[j], w);
        assert WrapsUp(s'.tasks[j], w);
      } else {
        assert WrapsUp(s'.tasks[i], w);
      }
    }
  }

  /** The stepping task attends to the worker whose status it sets. */
  lemma AttendsChanged(sh: Shared, max: int64, t: Task, o: Outcome, w: string)
    requires CanStep(sh, t, o) && StageOk(sh, t)
    ensures var (sh', t') := StepTask(sh, max, t, o);
      w in sh'.workers && !Ready(sh'.workers[w].status)
      && (w !in sh.workers || sh.workers[w].status != sh'.workers[w].status)
      ==> Attends(sh'.workers[w].status, t', w)
  {
  }

  /** It keeps attending to a worker of the pool until its status changes. */
  lemma AttendsKept(sh: Shared, max: int64, t: Task, o: Outcome, w: string)
    requires CanStep(sh, t, o) && StageOk(sh, t) && w in sh.workers && Attends(sh.workers[w].status, t, w)
    requires !Ready(sh.workers[w].status)
    ensures var (sh', t') := StepTask(sh, max, t, o);
      w in sh'.pool && w in sh'.workers && sh'.workers[w].status == sh.workers[w].status
      ==> Attends(sh.workers[w].status, t', w)
  {
    if sh.workers[w].status == Terminating {
      EndingKept(sh, max, t, o, w);
    } else {
      StartingKept(sh, max, t, o, w);
    }
  }

  lemma EndingKept(sh: Shared, max: int64, t: Task, o: Outcome, w: string)
    requires CanStep(sh, t, o) && TearsDown(t, w)
    ensures w in Effect(sh, t, o).pool ==> TearsDown(Next(sh, max, t, o), w)
  {
  }

  lemma StartingKept(sh: Shared, max: int64, t: Task, o: Outcome, w: string)
    requires CanStep(sh, t, o) && StageOk(sh, t) && w in sh.workers && (IsStarter(t, w) || t == Closing(w))
    requires sh.workers[w].status == Pending || sh.workers[w].status == Starting
    ensures w in Effect(sh, t, o).workers && Effect(sh, t, o).workers[w].status == sh.workers[w].status ==>
      IsStarter(Next(sh, max, t, o), w) || Next(sh, max, t, o) == Closing(w)
  {
  }

  lemma PoolGrows(sh: Shared, max: int64, t: Task, o: Outcome, w: string)
    requires CanStep(sh, t, o) && w in StepTask(sh, max, t, o).0.pool && w in sh.workers
    ensures w in sh.pool
  {
  }

  lemma StepAttended(s: State, i: nat, o: Outcome, s': State)
    requires Inv(s) && Steps(s, i, o, s')
    ensures Attended(s')
  {
    forall w | w in s'.sh.workers && w in s'.sh.pool && !Ready(s'.sh.workers[w].status)
      ensures exists j :: 0 <= j < |s'.tasks| && Attends(s'.sh.workers[w].status, s'.tasks[j], w)
    {
      var status := s'.sh.workers[w].status;
      assert StageOk(s.sh, s.tasks[i]);
      AttendsChanged(s.sh, s.maxWorkers, s.tasks[i], o, w);
      if !Attends(status, s'.tasks[i], w) {
        PoolGrows(s.sh, s.maxWorkers, s.tasks[i], o, w);
        if Attends(status, s.tasks[i], w) {
          AttendsKept(s.sh, s.maxWorkers, s.tasks[i], o, w);
        } else {
          AttendedLift(s, i, s', w, status);
        }
      }
    }
  }

  lemma AttendedLift(s: State, i: nat, s': State, w: string, status: Status)
    requires Attended(s) && i < |s.tasks|
    requires |s'.tasks| == |s.tasks| && forall j :: 0 <= j < |s.tasks| && j != i ==> s'.tasks[j] == s.tasks[j]
    requires w in s.sh.workers && w in s.sh.pool && s.sh.workers[w].status == status && !Ready(status)
    requires !Attends(status, s.tasks[i], w)
    ensures exists j :: 0 <= j < |s'.tasks| && Attends(status, s'.tasks[j], w)
  {
    var j :| 0 <= j < |s.tasks| && Attends(status, s.tasks[j], w);
    assert Attends(status, s'.tasks[j], w);
  }

  lemma EndedIsLate(s: State, w: string)
    requires StagesOk(s) && RecordsOk(s.sh) && Ended(s, w)
    ensures Late(s.sh.workers[w].status)
  {
    if i :| 0 <= i < |s.tasks| && PastReading(s.tasks[i], w) {
      assert StageOk(s.sh, s.tasks[i]);
    }
  }

  /** One step forgets no container, no termination, and no container a worker has on record. */
  lemma ContainerLocal(sh: Shared, max: int64, t: Task, o: Outcome, w: string, c: string)
    requires CanStep(sh, t, o) && StageOk(sh, t) && ContainersOk(sh)
    requires Belongs(sh, c, w)
    ensures var sh' := StepTask(sh, max, t, o).0;
      && Belongs(sh', c, w) && w in sh.workers && w in sh'.workers && c != ""
      && (c in sh.terminated ==> c in sh'.terminated)
      && (sh.workers[w].containerID == c ==> sh'.workers[w].containerID == c)
  {
    ContainersKept(sh, t, o);
    TerminatedKept(sh, t, o);
    if Touches(t) {
      RecordedKept(sh, t, o, w, c);
    } else {
      UntouchedRecords(sh, t, o);
    }
  }

  lemma TerminatedKept(sh: Shared, t: Task, o: Outcome)
    requires CanStep(sh, t, o)
    ensures sh.terminated <= Effect(sh, t, o).terminated
  {
  }

  lemma RecordedKept(sh: Shared, t: Task, o: Outcome, w: string, c: string)
    requires CanStep(sh, t, o) && StageOk(sh, t) && Touches(t) && w in sh.workers && c != ""
    ensures w in Effect(sh, t, o).workers
    ensures sh.workers[w].containerID == c ==> Effect(sh, t, o).workers[w].containerID == c
  {
  }

  lemma LaunchLocal(sh: Shared, max: int64, t: Task, o: Outcome, c: string)
    requires CanStep(sh, t, o)
    requires c !in sh.containers && c in StepTask(sh, max, t, o).0.containers
    ensures var (sh', t') := StepTask(sh, max, t, o); Owing(sh', t', sh'.containers[c], c)
  {
  }

  /** The stepping task deals with the container or goes on owing it. */
  lemma OwingLocal(sh: Shared, max: int64, t: Task, o: Outcome, w: string, c: string)
    requires CanStep(sh, t, o) && StageOk(sh, t)
    requires Owing(sh, t, w, c) && c != "" && w in sh.workers && Late(sh.workers[w].status)
    ensures var (sh', t') := StepTask(sh, max, t, o); c in sh'.terminated || Owing(sh', t', w, c)
  {
  }

  /** A worker's end begins when a teardown closes it, or when one reads its container. */
  lemma EndingLocal(sh: Shared, max: int64, t: Task, o: Outcome, w: string)
    requires CanStep(sh, t, o) && StageOk(sh, t) && w in sh.workers
    ensures var (sh', t') := StepTask(sh, max, t, o);
      && (sh.workers[w].status != Terminating && w in sh'.workers && sh'.workers[w].status == Terminating ==> t == Closing(w))
      && (w in sh.pool && w !in sh'.pool ==> PastReading(t, w))
      && (PastReading(t', w) && !PastReading(t, w) ==> t == Reading(w))
      && (t == Closing(w) || t == Reading(w) ==>
            forall c :: sh.workers[w].containerID == c != "" ==> Owing(sh', t', w, c))
  {
    EndingEffect(sh, t, o, w);
    EndingTask(sh, max, t, o, w);
    if t == Closing(w) || t == Reading(w) {
      EndingOwes(sh, max, t, o, w);
    }
  }

  lemma EndingEffect(sh: Shared, t: Task, o: Outcome, w: string)
    requires CanStep(sh, t, o) && w in sh.workers
    ensures var sh' := Effect(sh, t, o);
      && (sh.workers[w].status != Terminating && w in sh'.workers && sh'.workers[w].status == Terminating ==> t == Closing(w))
      && (w in sh.pool && w !in sh'.pool ==> PastReading(t, w))
  {
  }

  lemma EndingTask(sh: Shared, max: int64, t: Task, o: Outcome, w: string)
    requires CanStep(sh, t, o)
    ensures PastReading(Next(sh, max, t, o), w) && !PastReading(t, w) ==> t == Reading(w)
  {
  }

  lemma EndingOwes(sh: Shared, max: int64, t: Task, o: Outcome, w: string)
    requires CanStep(sh, t, o) && (t == Closing(w) || t == Reading(w))
    ensures forall c :: sh.workers[w].containerID == c != "" ==>
      Owing(Effect(sh, t, o), Next(sh, max, t, o), w, c)
  {
  }

  lemma OwingOfOthers(sh: Shared, sh': Shared, u: Task, w: string, c: string)
    requires w in sh.workers && w in sh'.workers
    requires sh.workers[w].containerID == c ==> sh'.workers[w].containerID == c
    requires Owing(sh, u, w, c)
    ensures Owing(sh', u, w, c)
  {
  }

  /** Where the worker's end had begun already. */
  lemma CoveredStays(s: State, i: nat, o: Outcome, s': State, c: string)
    requires Inv(s) && Steps(s, i, o, s')
    requires c in s.sh.containers && c in s'.sh.containers && Ended(s, s.sh.containers[c])
    ensures c in s'.sh.terminated || Owes(s', s'.sh.containers[c], c)
  {
    var w := s.sh.containers[c];
    assert StageOk(s.sh, s.tasks[i]);
    ContainerLocal(s.sh, s.maxWorkers, s.tasks[i], o, w, c);
    EndedIsLate(s, w);
    if c !in s.sh.terminated {
      var j :| 0 <= j < |s.tasks| && Owing(s.sh, s.tasks[j], w, c);
      if j != i {
        OwingOfOthers(s.sh, s'.sh, s.tasks[j], w, c);
        assert Owing(s'.sh, s'.tasks[j], w, c);
      } else {
        OwingLocal(s.sh, s.maxWorkers, s.tasks[i], o, w, c);
        assert c in s'.sh.terminated || Owing(s'.sh, s'.tasks[i], w, c);
      }
    }
  }

  /** Where it begins with this step. */
  lemma CoveredBegins(s: State, i: nat, o: Outcome, s': State, c: string)
    requires Inv(s) && Steps(s, i, o, s')
    requires c in s.sh.containers && c in s'.sh.containers
    requires !Ended(s, s.sh.containers[c]) && Ended(s', s.sh.containers[c])
    ensures c in s'.sh.terminated || Owes(s', s'.sh.containers[c], c)
  {
    var w := s.sh.containers[c];
    var t := s.tasks[i];
    assert StageOk(s.sh, t);
    ContainerLocal(s.sh, s.maxWorkers, t, o, w, c);
    EndingLocal(s.sh, s.maxWorkers, t, o, w);
    assert !PastReading(t, w);
    assert forall k :: 0 <= k < |s.tasks| && k != i ==> s'.tasks[k] == s.tasks[k] && !PastReading(s.tasks[k], w);
    assert t == Closing(w) || t == Reading(w);
    if s.sh.workers[w].containerID == c {
      assert Owing(s'.sh, s'.tasks[i], w, c);
    } else {
      var j :| 0 <= j < |s.tasks| && s.tasks[j] == Recording(w, c);
      assert Owing(s'.sh, s'.tasks[j], w, c);
    }
  }

  lemma StepCovered(s: State, i: nat, o: Outcome, s': State)
    requires Inv(s) && Steps(s, i, o, s')
    ensures Covered(s')
  {
    forall c | c in s'.sh.containers && Ended(s', s'.sh.containers[c])
      ensures c in s'.sh.terminated || Owes(s', s'.sh.containers[c], c)
    {
      assert StageOk(s.sh, s.tasks[i]);
      if c !in s.sh.containers {
        LaunchLocal(s.sh, s.maxWorkers, s.tasks[i], o, c);
        assert Owing(s'.sh, s'.tasks[i], s'.sh.containers[c], c);
      } else {
        var w := s.sh.containers[c];
        ContainerLocal(s.sh, s.maxWorkers, s.tasks[i], o, w, c);
        if Ended(s, w) {
          CoveredStays(s, i, o, s', c);
        } else {
          CoveredBegins(s, i, o, s', c);
        }
      }
    }
  }

  lemma StepInv(s: State, i: nat, o: Outcome, s': State)
    requires Inv(s) && Steps(s, i, o, s')
    ensures Inv(s')
  {
    assert StageOk(s.sh, s.tasks[i]);
    StepStages(s, i, o, s');
    StepStarter(s, i, o, s');
    StepProvisioned(s.sh, s.tasks[i], o);
    StepPool(s.sh, s.tasks[i], o);
    StepContainers(s.sh, s.tasks[i], o);
    StepTracked(s, i, o, s');
    StepCovered(s, i, o, s');
    KilledLocal(s.sh, s.maxWorkers, s.tasks[i], o);
    KilledLift(s, i, s');
    StepAttended(s, i, o, s');
  }

  /** A request has arrived: one more task, which as yet holds no worker. */
  ghost predicate Spawned(s: State, s': State) {
    && s'.sh == s.sh && |s'.tasks| == |s.tasks| + 1
    && (forall i :: 0 <= i < |s.tasks| ==> s'.tasks[i] == s.tasks[i])
    && (s'.tasks[|s.tasks|].Scheduling? || s'.tasks[|s.tasks|].Finding? || s'.tasks[|s.tasks|].Visiting?)
  }

  lemma SpawnedTracked(s: State, s': State)
    requires Tracked(s) && Spawned(s, s')
    ensures Tracked(s')
  {
    assert forall u :: u in s.tasks ==> u in s'.tasks;
  }

  lemma SpawnedCovered(s: State, s': State)
    requires Covered(s) && Spawned(s, s')
    ensures Covered(s')
  {
    forall c | c in s'.sh.containers && Ended(s', s'.sh.containers[c])
      ensures c in s'.sh.terminated || Owes(s', s'.sh.containers[c], c)
    {
      assert Ended(s, s.sh.containers[c]);
      if c !in s.sh.terminated {
        var j :| 0 <= j < |s.tasks| && Owing(s.sh, s.tasks[j], s.sh.containers[c], c);
        assert Owing(s'.sh, s'.tasks[j], s'.sh.containers[c], c);
      }
    }
  }

  lemma SpawnedKilled(s: State, s': State)
    requires KilledLeaves(s) && Spawned(s, s')
    ensures KilledLeaves(s')
  {
    forall c | c in s.sh.terminated && c in s.sh.containers && s.sh.containers[c] in s.sh.pool
      ensures exists i :: 0 <= i < |s'.tasks| && WrapsUp(s'.tasks[i], s.sh.containers[c])
    {
      var i :| 0 <= i < |s.tasks| && WrapsUp(s.tasks[i], s.sh.containers[c]);
      assert s'.tasks[i] == s.tasks[i];
    }
  }

  lemma SpawnedAttended(s: State, s': State)
    requires Attended(s) && Spawned(s, s')
    ensures Attended(s')
  {
    forall w | w in s.sh.workers && w in s.sh.pool && !Ready(s.sh.workers[w].status)
      ensures exists i :: 0 <= i < |s'.tasks| && Attends(s.sh.workers[w].status, s'.tasks[i], w)
    {
      var i :| 0 <= i < |s.tasks| && Attends(s.sh.workers[w].status, s.tasks[i], w);
      assert s'.tasks[i] == s.tasks[i];
    }
  }

  lemma SpawnedStages(s: State, s': State)
    requires StagesOk(s) && OneStarter(s) && Spawned(s, s')
    ensures StagesOk(s') && OneStarter(s')
  {
    assert forall w :: !IsStarter(s'.tasks[|s.tasks|], w);
    forall i | 0 <= i < |s'.tasks| ensures StageOk(s'.sh, s'.tasks[i]) {
      assert i < |s.tasks| ==> StageOk(s.sh, s.tasks[i]);
    }
  }

  lemma SpawnedInv(s: State, s': State)
    requires Inv(s) && Spawned(s, s')
    ensures Inv(s')
  {
    SpawnedStages(s, s');
    SpawnedTracked(s, s');
    SpawnedCovered(s, s');
    SpawnedKilled(s, s');
    SpawnedAttended(s, s');
  }

  /** Equal but for workers switching between RUNNING and IDLE. */
  ghost predicate Similar(sh: Shared, sh': Shared) {
    && sh' == sh.(workers := sh'.workers)
    && sh'.workers.Keys == sh.workers.Keys
    && forall w :: w in sh.workers ==>
      && sh'.workers[w].containerID == sh.workers[w].containerID && sh'.workers[w].gpu == sh.workers[w].gpu
      && (sh'.workers[w].status == sh.workers[w].status
          || (Ready(sh.workers[w].status) && Ready(sh'.workers[w].status)))
  }

  lemma SimilarStages(s: State, s': State)
    requires StagesOk(s) && Similar(s.sh, s'.sh) && s'.tasks == s.tasks
    ensures StagesOk(s')
  {
    forall i | 0 <= i < |s.tasks| ensures StageOk(s'.sh, s'.tasks[i]) {
      assert StageOk(s.sh, s.tasks[i]);
    }
  }

  lemma SimilarCovered(s: State, s': State)
    requires Covered(s) && ContainersOk(s.sh) && Similar(s.sh, s'.sh) && s'.tasks == s.tasks
    ensures Covered(s')
  {
    forall c | c in s'.sh.containers && Ended(s', s'.sh.containers[c])
      ensures c in s'.sh.terminated || Owes(s', s'.sh.containers[c], c)
    {
      assert Ended(s, s.sh.containers[c]);
      if c !in s.sh.terminated {
        var j :| 0 <= j < |s.tasks| && Owing(s.sh, s.tasks[j], s.sh.containers[c], c);
        OwingOfOthers(s.sh, s'.sh, s.tasks[j], s.sh.containers[c], c);
      }
    }
  }

  lemma SimilarAttended(s: State, s': State)
    requires Attended(s) && Similar(s.sh, s'.sh) && s'.tasks == s.tasks
    ensures Attended(s')
  {
  }

  lemma ToggledIsSimilar(sh: Shared, w: string, now: Instant)
    ensures Similar(sh, Toggled(sh, w, now))
  {
  }

  lemma SimilarRecords(sh: Shared, sh': Shared)
    requires RecordsOk(sh) && Provisioned(sh) && Similar(sh, sh')
    ensures RecordsOk(sh') && Provisioned(sh')
  {
  }

  /** Switching a worker between RUNNING and IDLE changes nothing any invariant speaks of. */
  lemma SimilarInv(s: State, s': State)
    requires Inv(s) && Similar(s.sh, s'.sh) && s'.tasks == s.tasks
    ensures Inv(s')
  {
    SimilarStages(s, s');
    SimilarRecords(s.sh, s'.sh);
    SimilarCovered(s, s');
    SimilarAttended(s, s');
  }

  lemma FireInv(s: State, e: Event)
    requires Inv(s)
    ensures Inv(Fire(s, e))
  {
    match e
    case Create(_, _) => SpawnedInv(s, Fire(s, e));
    case Delete(_) => SpawnedInv(s, Fire(s, e));
    case Sweep(_) => SpawnedInv(s, Fire(s, e));
    case Toggle(w, now) =>
      ToggledIsSimilar(s.sh, w, now);
      SimilarInv(s, Fire(s, e));
    case Step(i, o) =>
      if i < |s.tasks| && CanStep(s.sh, s.tasks[i], o) {
        StepInv(s, i, o, Fire(s, e));
      }
  }

  lemma {:induction false} ExecInv(s: State, events: seq<Event>)
    requires Inv(s)
    ensures Inv(Exec(s, events))
  {
    if events != [] {
      ExecInv(s, events[..|events| - 1]);
      FireInv(Exec(s, events[..|events| - 1]), events[|events| - 1]);
    }
  }

  // ----- the results

  lemma RestingContainers(s: State, c: string)
    requires Inv(s) && Quiescent(s) && c in s.sh.containers
    ensures s.sh.containers[c] in s.sh.workers
    ensures c !in s.sh.terminated <==> s.sh.containers[c] in s.sh.pool
    ensures c !in s.sh.terminated ==> s.sh.workers[s.sh.containers[c]].containerID == c
  {
    assert forall i :: 0 <= i < |s.tasks| ==> s.tasks[i] in s.tasks && s.tasks[i].Done?;
    if s.sh.containers[c] !in s.sh.pool {
      assert Ended(s, s.sh.containers[c]);
      assert !Owes(s, s.sh.containers[c], c);
    }
  }

  lemma RestingWorkers(s: State, w: string)
    requires Inv(s) && Quiescent(s) && w in s.sh.pool
    ensures w in s.sh.workers && Ready(s.sh.workers[w].status) && s.sh.workers[w].gpu.Some?
    ensures Belongs(s.sh, s.sh.workers[w].containerID, w)
  {
    assert forall i :: 0 <= i < |s.tasks| ==> s.tasks[i] in s.tasks && s.tasks[i].Done?;
  }

  /**
   Containers and workers match. In every run, whatever the interleaving of creations, deletions, failed starts and
   sweeps: once all tasks have finished, the containers launched and never terminated are exactly those recorded on the
   workers in the pool, and each pool worker is ready, with its own container and a GPU assignment.
   */
  lemma QuiescentStateIsSettled(s0: State, events: seq<Event>)
    requires Initial(s0) && Quiescent(Exec(s0, events))
    ensures var sh := Exec(s0, events).sh;
      && (forall c :: c in sh.containers ==>
            && sh.containers[c] in sh.workers
            && (c !in sh.terminated <==> sh.containers[c] in sh.pool)
            && (c !in sh.terminated ==> sh.workers[sh.containers[c]].containerID == c))
      && (forall w :: w in sh.pool ==>
            && w in sh.workers && Ready(sh.workers[w].status) && sh.workers[w].gpu.Some?
            && Belongs(sh, sh.workers[w].containerID, w))
  {
    hide Inv, Quiescent, Exec;
    InitialInv(s0);
    ExecInv(s0, events);
    var s := Exec(s0, events);
    forall c | c in s.sh.containers
      ensures s.sh.containers[c] in s.sh.workers
      ensures c !in s.sh.terminated <==> s.sh.containers[c] in s.sh.pool
      ensures c !in s.sh.terminated ==> s.sh.workers[s.sh.containers[c]].containerID == c
    {
      RestingContainers(s, c);
    }
    forall w | w in s.sh.pool
      ensures w in s.sh.workers && Ready(s.sh.workers[w].status) && s.sh.workers[w].gpu.Some?
      ensures Belongs(s.sh, s.sh.workers[w].containerID, w)
    {
      RestingWorkers(s, w);
    }
  }

  /** From one state to a later one, nothing undoes the worker's teardown: neither its transition nor its removal. */
  ghost predicate Irreversible(before: Shared, after: Shared, w: string) {
    && w in before.workers && w in after.workers
    && (before.workers[w].status == Terminating ==> after.workers[w].status == Terminating)
    && (w !in before.pool ==> w !in after.pool)
  }

  lemma IrreversibleStep(sh: Shared, max: int64, t: Task, o: Outcome, w: string)
    requires CanStep(sh, t, o) && w in sh.workers
    ensures Irreversible(sh, StepTask(sh, max, t, o).0, w)
  {
  }

  lemma IrreversibleFire(s: State, e: Event, w: string)
    requires w in s.sh.workers
    ensures Irreversible(s.sh, Fire(s, e).sh, w)
  {
    match e
    case Create(_, _) =>
    case Delete(_) =>
    case Sweep(_) =>
    case Toggle(_, _) =>
    case Step(i, o) =>
      if i < |s.tasks| && CanStep(s.sh, s.tasks[i], o) {
        IrreversibleStep(s.sh, s.maxWorkers, s.tasks[i], o, w);
      }
  }

  lemma {:induction false} IrreversibleRun(s: State, events: seq<Event>, w: string)
    requires w in s.sh.workers
    ensures Irreversible(s.sh, Exec(s, events).sh, w)
  {
    if events != [] {
      IrreversibleRun(s, events[..|events| - 1], w);
      IrreversibleFire(Exec(s, events[..|events| - 1]), events[|events| - 1], w);
    }
  }

  /**
   Teardown is permanent. Once a worker is TERMINATING at some point of a run it is so ever after, so no start task makes
   it RUNNING; once RemoveWorker has been called for it, it is never in the pool again.
   */
  lemma TeardownIsPermanent(s0: State, first: seq<Event>, more: seq<Event>, w: string)
    requires Initial(s0) && w in Exec(s0, first).sh.workers
    ensures var before, after := Exec(s0, first).sh, Exec(s0, first + more).sh;
      && w in after.workers
      && (before.workers[w].status == Terminating ==> after.workers[w].status == Terminating)
      && (w in before.removals ==> w !in after.pool)
  {
    InitialInv(s0);
    ExecInv(s0, first);
    ExecConcat(s0, first, more);
    IrreversibleRun(Exec(s0, first), more, w);
  }

  /** A ready worker is fully provisioned, in every state of every run. */
  lemma ReadyWorkersAreProvisioned(s0: State, events: seq<Event>, w: string)
    requires Initial(s0) && w in Exec(s0, events).sh.workers && Ready(Exec(s0, events).sh.workers[w].status)
    ensures var sh := Exec(s0, events).sh;
      && sh.workers[w].gpu.Some?
      && sh.workers[w].containerID != "" && Belongs(sh, sh.workers[w].containerID, w)
  {
    InitialInv(s0);
    ExecInv(s0, events);
  }

  /**
   No container is leaked: in every run in which all tasks have finished, every container ever launched for a worker
   that a teardown has closed or removed has been handed to TerminateContainer.
   */
  lemma NoContainerLeaked(s0: State, events: seq<Event>, w: string, c: string)
    requires Initial(s0) && Quiescent(Exec(s0, events))
    requires Belongs(Exec(s0, events).sh, c, w) && w in Exec(s0, events).sh.workers
    requires w in Exec(s0, events).sh.removals || Exec(s0, events).sh.workers[w].status == Terminating
    ensures c in Exec(s0, events).sh.terminated
  {
    InitialInv(s0);
    ExecInv(s0, events);
    QuiescentStateIsSettled(s0, events);
  }
}
