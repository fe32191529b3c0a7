/** Every request comes to an end: no task is ever stuck, and each step brings its task closer to its end. */
module Progress {
  import opened Machine
  import opened Interleaving
  import Safety

  /** The most steps the task can still take. */
  function Rank(t: Task): nat {
    match t
    case Scheduling(_, _) => 17
    case Counting(_, _, _) => 16
    case Storing(_, _, _) => 15
    case Allocating(_, _, _) => 14
    case Assigning(_, _, _) => 13
    case Beginning(_) => 12
    case Pulling(_) => 11
    case Launching(_) => 10
    case Recording(_, _) => 9
    case Waiting(_, _) => 8
    case Readying(_) => 7
    case Closing(_) => 6
    case Reading(_) => 5
    case Killing(_, _) => 4
    case Checking(_) => 3
    case Releasing(_, _, _) => 2
    case Removing(_) => 1
    case Finding(_) => 7
    case Visiting(_) => 7
    case Looking(_) => 6
    case Done => 0
  }

  const LONGEST_REQUEST: nat := 17

  lemma StepLowersRank(sh: Shared, max: int64, t: Task, o: Outcome)
    requires CanStep(sh, t, o)
    ensures Rank(StepTask(sh, max, t, o).1) < Rank(t)
  {
  }

  /** A string not in the set, longer than all that are. */
  lemma {:induction false} FreshName(names: set<string>) returns (name: string)
    ensures name !in names && forall x :: x in names ==> |x| < |name|
    decreases names
  {
    if names == {} {
      name := "x";
    } else {
      var x :| x in names;
      var longer := FreshName(names - {x});
      name := longer + x + "x";
    }
  }

  /** No task is ever stuck: whatever the others have done, an unfinished one has an outcome it can go on with. */
  lemma CanGoOn(s: State, i: nat) returns (o: Outcome)
    requires Safety.Inv(s) && i < |s.tasks| && !s.tasks[i].Done?
    ensures CanStep(s.sh, s.tasks[i], o)
  {
    var id := FreshName(s.sh.workers.Keys);
    o := Outcome(false, "", id, 0);
    assert Safety.StageOk(s.sh, s.tasks[i]);
  }

  function Ranks(tasks: seq<Task>): nat {
    if tasks == [] then 0 else Ranks(tasks[..|tasks| - 1]) + Rank(tasks[|tasks| - 1])
  }

  lemma {:induction false} RanksUpdate(tasks: seq<Task>, i: nat, t: Task)
    requires i < |tasks|
    ensures Ranks(tasks[i := t]) == Ranks(tasks) - Rank(tasks[i]) + Rank(t)
  {
    var front := tasks[..|tasks| - 1];
    if i < |front| {
      RanksUpdate(front, i, t);
      assert tasks[i := t][..|tasks| - 1] == front[i := t];
    } else {
      assert tasks[i := t][..|tasks| - 1] == front;
    }
  }

  predicate IsRequest(e: Event) {
    e.Create? || e.Delete? || e.Sweep?
  }

  function Requests(events: seq<Event>): nat {
    if events == [] then 0 else Requests(events[..|events| - 1]) + (if IsRequest(events[|events| - 1]) then 1 else 0)
  }

  /** How many events of the run are steps that were possible when they came. */
  function StepsTaken(s: State, events: seq<Event>): nat {
    if events == [] then 0
    else
      var front, last := events[..|events| - 1], events[|events| - 1];
      var before := Exec(s, front);
      StepsTaken(s, front)
      + (if last.Step? && last.i < |before.tasks| && CanStep(before.sh, before.tasks[last.i], last.o) then 1 else 0)
  }

  lemma RanksFire(s: State, e: Event)
    ensures IsRequest(e) ==> Ranks(Fire(s, e).tasks) <= Ranks(s.tasks) + LONGEST_REQUEST
    ensures e.Step? && e.i < |s.tasks| && CanStep(s.sh, s.tasks[e.i], e.o) ==> Ranks(Fire(s, e).tasks) < Ranks(s.tasks)
    ensures !IsRequest(e) ==> Ranks(Fire(s, e).tasks) <= Ranks(s.tasks)
  {
    if IsRequest(e) {
      assert Fire(s, e).tasks[..|s.tasks|] == s.tasks;
    } else if e.Step? && e.i < |s.tasks| && CanStep(s.sh, s.tasks[e.i], e.o) {
      StepLowersRank(s.sh, s.maxWorkers, s.tasks[e.i], e.o);
      RanksUpdate(s.tasks, e.i, StepTask(s.sh, s.maxWorkers, s.tasks[e.i], e.o).1);
    }
  }

  /** However tasks interleave, they take no more than a fixed number of steps for each request that arrived. */
  lemma {:induction false} StepsAreBounded(s: State, events: seq<Event>)
    ensures StepsTaken(s, events) + Ranks(Exec(s, events).tasks) <= Ranks(s.tasks) + LONGEST_REQUEST * Requests(events)
  {
    if events != [] {
      var front, last := events[..|events| - 1], events[|events| - 1];
      StepsAreBounded(s, front);
      RanksFire(Exec(s, front), last);
    }
  }

  lemma {:induction false} RanksZeroIffQuiescent(s: State)
    ensures Ranks(s.tasks) == 0 <==> Quiescent(s)
    decreases |s.tasks|
  {
    if s.tasks != [] {
      var front, last := s.tasks[..|s.tasks| - 1], s.tasks[|s.tasks| - 1];
      RanksZeroIffQuiescent(s.(tasks := front));
      assert s.tasks == front + [last];
      assert last.Done? <==> Rank(last) == 0;
    }
  }

  lemma {:induction false} RequestsAreSet(events: seq<Event>)
    ensures Requests(events) ==
      |set k | 0 <= k < |events| && (events[k].Create? || events[k].Delete? || events[k].Sweep?)|
  {
    var all := set k | 0 <= k < |events| && (events[k].Create? || events[k].Delete? || events[k].Sweep?);
    if events == [] {
      assert all == {};
    } else {
      var front := events[..|events| - 1];
      RequestsAreSet(front);
      var fewer := set k | 0 <= k < |front| && (front[k].Create? || front[k].Delete? || front[k].Sweep?);
      assert all == if IsRequest(events[|front|]) then fewer + {|front|} else fewer;
    }
  }

  /** The `k`-th event was a step that was possible when it came. */
  ghost predicate TakenAt(s: State, events: seq<Event>, k: nat)
    requires k < |events|
  {
    var now, e := Exec(s, events[..k]), events[k];
    e.Step? && e.i < |now.tasks| && CanStep(now.sh, now.tasks[e.i], e.o)
  }

  lemma TakenAtFront(s: State, events: seq<Event>, k: nat)
    requires k < |events| - 1
    ensures TakenAt(s, events, k) <==> TakenAt(s, events[..|events| - 1], k)
  {
    hide Exec, CanStep;
    var front := events[..|events| - 1];
    assert events[..k] == front[..k] && events[k] == front[k];
  }

  ghost function TakenSet(s: State, events: seq<Event>): set<int> {
    set k | 0 <= k < |events| && TakenAt(s, events, k)
  }

  lemma TakenSetGrows(s: State, events: seq<Event>)
    requires events != []
    ensures var n := |events| - 1;
      TakenSet(s, events) == TakenSet(s, events[..n]) + (if TakenAt(s, events, n) then {n} else {})
  {
    hide TakenAt;
    var n := |events| - 1;
    forall k | 0 <= k < n ensures TakenAt(s, events, k) <==> TakenAt(s, events[..n], k) {
      TakenAtFront(s, events, k);
    }
  }

  lemma {:induction false} StepsAreSet(s: State, events: seq<Event>)
    ensures StepsTaken(s, events) == |TakenSet(s, events)|
  {
    hide Exec, CanStep;
    if events == [] {
      assert TakenSet(s, events) == {};
    } else {
      StepsAreSet(s, events[..|events| - 1]);
      TakenSetGrows(s, events);
    }
  }

  /**
   Every run ends. From a fresh system, `k` requests and whatever toggles come between them allow at most 17 k effective
   steps; and a run that can take no more effective steps has all its tasks finished.
   */
  lemma RequestsComeToRest(s0: State, events: seq<Event>)
    requires Initial(s0)
    ensures |set k | 0 <= k < |events| && TakenAt(s0, events, k)| <=
            17 * |set k | 0 <= k < |events| && (events[k].Create? || events[k].Delete? || events[k].Sweep?)|
    ensures StepsTaken(s0, events) == 17 * Requests(events) ==> Quiescent(Exec(s0, events))
    ensures !Quiescent(Exec(s0, events)) ==>
      exists i, o :: 0 <= i < |Exec(s0, events).tasks| && CanStep(Exec(s0, events).sh, Exec(s0, events).tasks[i], o)
  {
    StepsAreSet(s0, events);
    assert TakenSet(s0, events) == set k | 0 <= k < |events| && TakenAt(s0, events, k);
    RequestsAreSet(events);
    StepsAreBounded(s0, events);
    RanksZeroIffQuiescent(Exec(s0, events));
    Safety.InitialInv(s0);
    Safety.ExecInv(s0, events);
    var s := Exec(s0, events);
    if !Quiescent(s) {
      var t :| t in s.tasks && !t.Done?;
      var i :| 0 <= i < |s.tasks| && s.tasks[i] == t;
      var o := CanGoOn(s, i);
    }
  }

  /** From every reachable state the tasks under way can be run to their end, without further requests. */
  lemma {:induction false} CanComeToRest(s: State) returns (more: seq<Event>)
    requires Safety.Inv(s)
    ensures Quiescent(Exec(s, more)) && |more| <= Ranks(s.tasks) && forall e :: e in more ==> e.Step?
    decreases Ranks(s.tasks)
  {
    if Quiescent(s) {
      more := [];
    } else {
      var t :| t in s.tasks && !t.Done?;
      var i :| 0 <= i < |s.tasks| && s.tasks[i] == t;
      var o := CanGoOn(s, i);
      var e := Step(i, o);
      RanksFire(s, e);
      Safety.FireInv(s, e);
      var rest := CanComeToRest(Fire(s, e));
      more := [e] + rest;
      ExecConcat(s, [e], rest);
      assert [e][..0] == [];
      assert Exec(s, [e]) == Fire(Exec(s, [e][..0]), e);
    }
  }
}
