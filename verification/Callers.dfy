/** The discipline as a caller sees it, without the program counters of the tasks. */
module Callers {
  import opened Machine
  import opened Accounts
  import opened Interleaving
  import opened Discipline
  import Safety

  /** Another deletion, eviction or failed start is tearing the worker down. */
  ghost predicate BeingRemoved(s: State, w: string) {
    exists t :: t in s.tasks && (t == Looking(w) || t == Closing(w) || Safety.TearsDown(t, w))
  }

  lemma StarterIsNotReady(sh: Shared, t: Task, w: string)
    requires Safety.StageOk(sh, t) && Safety.IsStarter(t, w)
    ensures w in sh.workers && !Safety.Ready(sh.workers[w].status)
  {
  }

  /** The tasks at work on a worker are its start task and those that tear it down. */
  lemma ConcernsIff(t: Task, w: string)
    ensures Concerns(t, w) <==>
      Safety.IsStarter(t, w) || t == Looking(w) || t == Closing(w) || Safety.TearsDown(t, w)
  {
  }

  /** A worker in RUNNING or IDLE has no start task any more: whatever is at work on it is tearing it down. */
  lemma ReadyHasNoStarter(s: State, w: string)
    requires Safety.Inv(s) && w in s.sh.workers && Safety.Ready(s.sh.workers[w].status)
    ensures forall t :: t in s.tasks ==> !Safety.IsStarter(t, w)
    ensures Unattended(s, w) <==> !BeingRemoved(s, w)
  {
    hide Safety.StageOk, Safety.IsStarter, Safety.TearsDown, Concerns;
    forall t | t in s.tasks
      ensures !Safety.IsStarter(t, w)
      ensures Concerns(t, w) <==> t == Looking(w) || t == Closing(w) || Safety.TearsDown(t, w)
    {
      ConcernsIff(t, w);
      if Safety.IsStarter(t, w) {
        var i :| 0 <= i < |s.tasks| && s.tasks[i] == t;
        StarterIsNotReady(s.sh, s.tasks[i], w);
      }
    }
  }

  /** A pool worker that is not ready has a task at work on it. */
  lemma UnreadyIsAttended(s: State, w: string)
    requires Safety.Inv(s) && w in s.sh.workers && w in s.sh.pool && !Safety.Ready(s.sh.workers[w].status)
    ensures !Unattended(s, w)
  {
    var j :| 0 <= j < |s.tasks| && Safety.Attends(s.sh.workers[w].status, s.tasks[j], w);
    assert s.tasks[j] in s.tasks && Concerns(s.tasks[j], w);
  }

  /**
   In a caller's terms: requirements are not negative, Allocate reports success, a deletion finds its worker RUNNING or
   IDLE, and neither a deletion nor the idle sweep takes up a worker that is being removed already.
   */
  ghost predicate Courteous(s: State, e: Event) {
    match e
    case Create(_, model) => model.vram >= 0
    case Delete(_) => true
    case Sweep(_) => true
    case Toggle(_, _) => true
    case Step(i, o) =>
      i < |s.tasks| && CanStep(s.sh, s.tasks[i], o) ==>
        var t := s.tasks[i];
        && Granted(s.sh, t)
        && (Enters(s.sh, t, o) ==> Safety.Ready(s.sh.workers[t.w].status) && !BeingRemoved(s, t.w))
  }

  /** In every reachable state this is exactly the discipline. */
  lemma CourteousIsDisciplined(s: State, e: Event)
    requires Safety.Inv(s)
    ensures Courteous(s, e) <==> Disciplined(s, e)
  {
    if e.Step? && e.i < |s.tasks| && CanStep(s.sh, s.tasks[e.i], e.o) && Enters(s.sh, s.tasks[e.i], e.o) {
      var w := s.tasks[e.i].w;
      if Safety.Ready(s.sh.workers[w].status) {
        ReadyHasNoStarter(s, w);
      } else {
        UnreadyIsAttended(s, w);
      }
    }
  }

  ghost predicate CourteousAt(s: State, events: seq<Event>, k: nat)
    requires k < |events|
  {
    Courteous(Exec(s, events[..k]), events[k])
  }

  ghost predicate CourteousRun(s: State, events: seq<Event>) {
    forall k :: 0 <= k < |events| ==> CourteousAt(s, events, k)
  }

  /** While every caller is courteous the books are exact throughout, and they agree with the pool at rest. */
  lemma CourteousBooksAgree(s0: State, events: seq<Event>)
    requires Initial(s0) && CourteousRun(s0, events)
    ensures LedgersExact(Exec(s0, events).sh.fleet) && CapacitySafe(Exec(s0, events).sh.fleet)
    ensures NoDuplicates(Exec(s0, events).sh.removals)
    ensures Quiescent(Exec(s0, events)) ==> BooksAgree(Exec(s0, events).sh)
  {
    Safety.InitialInv(s0);
    forall k | 0 <= k < |events| ensures DisciplinedAt(s0, events, k) {
      assert CourteousAt(s0, events, k);
      Safety.ExecInv(s0, events[..k]);
      CourteousIsDisciplined(Exec(s0, events[..k]), events[k]);
    }
    DisciplinedBooksAgree(s0, events);
  }
}
