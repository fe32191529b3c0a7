/** The five worker states, the transition table, and the exact set of histories the table permits. */
module Lifecycle {

  datatype Status = Pending | Starting | Running | Idle | Terminating

  /** The moves the lifecycle permits. */
  predicate CanMove(from: Status, to: Status) {
    match from
    case Pending => to == Starting || to == Terminating
    case Starting => to == Running || to == Terminating
    case Running => to == Idle || to == Terminating
    case Idle => to == Running || to == Terminating
    case Terminating => false
  }

  /** The transition table lists exactly those moves. */
  function ValidTransitions(from: Status): (options: seq<Status>)
    ensures forall to :: to in options <==> CanMove(from, to)
  {
    match from
    case Pending => [Starting, Terminating]
    case Starting => [Running, Terminating]
    case Running => [Idle, Terminating]
    case Idle => [Running, Terminating]
    case Terminating => []
  }

  function Last(s: seq<Status>): Status
    requires |s| > 0
  {
    s[|s| - 1]
  }

  /** The states a worker has been in after `requests` were put to TransitionTo in turn; a refused one leaves no mark. */
  function History(requests: seq<Status>): (h: seq<Status>)
    ensures |h| > 0
  {
    if requests == [] then [Pending]
    else
      var h := History(requests[..|requests| - 1]);
      var next := requests[|requests| - 1];
      if CanMove(Last(h), next) then h + [next] else h
  }

  function Beat(i: nat): Status {
    if i % 2 == 0 then Running else Idle
  }

  /** PENDING, then perhaps STARTING and `n` alternations of RUNNING and IDLE, beginning with RUNNING. */
  function Body(started: bool, n: nat): (s: seq<Status>)
    ensures |s| == if started then n + 2 else 1
    ensures s[|s| - 1] == if !started then Pending else if n == 0 then Starting else Beat(n - 1)
    ensures s[0] == Pending
    ensures started ==> s[1] == Starting && forall i :: 0 <= i < n ==> s[i + 2] == Beat(i)
  {
    if !started then [Pending]
    else if n == 0 then [Pending, Starting]
    else Body(true, n - 1) + [Beat(n - 1)]
  }

  /** A body, then perhaps a final TERMINATING. */
  function Word(started: bool, n: nat, ended: bool): (s: seq<Status>) {
    if ended then Body(started, n) + [Terminating] else Body(started, n)
  }

  ghost predicate WellShaped(h: seq<Status>) {
    exists started: bool, n: nat, ended: bool :: h == Word(started, n, ended)
  }

  /** One accepted transition turns a well-shaped history into another. */
  lemma ExtendWord(started: bool, n: nat, ended: bool, next: Status)
    requires CanMove(Last(Word(started, n, ended)), next)
    ensures WellShaped(Word(started, n, ended) + [next])
  {
    if next == Terminating {
      assert Word(started, n, ended) + [next] == Word(started, n, true);
    } else if !started {
      assert Word(started, n, ended) + [next] == Word(true, 0, false);
    } else {
      assert Word(started, n, ended) + [next] == Word(true, n + 1, false);
    }
  }

  lemma {:induction false} HistoryIsWellShaped(requests: seq<Status>)
    ensures WellShaped(History(requests))
  {
    if requests == [] {
      assert History(requests) == Word(false, 0, false);
    } else {
      var front, next := requests[..|requests| - 1], requests[|requests| - 1];
      HistoryIsWellShaped(front);
      var h := History(front);
      var started: bool, n: nat, ended: bool :| h == Word(started, n, ended);
      if CanMove(Last(h), next) {
        ExtendWord(started, n, ended, next);
      }
    }
  }

  lemma HistorySnoc(requests: seq<Status>, next: Status)
    requires CanMove(Last(History(requests)), next)
    ensures History(requests + [next]) == History(requests) + [next]
  {
    assert (requests + [next])[..|requests|] == requests;
  }

  /** Asking for a word's own letters after the first produces the word: every shape is reachable. */
  lemma {:induction false} WordIsReachable(started: bool, n: nat, ended: bool)
    ensures History(Word(started, n, ended)[1..]) == Word(started, n, ended)
    decreases ended, started, n
  {
    if ended {
      WordIsReachable(started, n, false);
      AppendReachable(Body(started, n), Terminating);
    } else if started && n > 0 {
      WordIsReachable(true, n - 1, false);
      AppendReachable(Body(true, n - 1), Beat(n - 1));
    } else if started {
      WordIsReachable(false, 0, false);
      AppendReachable(Body(false, 0), Starting);
      assert Body(true, 0) == Body(false, 0) + [Starting];
    } else {
      assert Word(started, n, ended)[1..] == [];
    }
  }

  lemma AppendReachable(prev: seq<Status>, last: Status)
    requires |prev| > 0 && History(prev[1..]) == prev
    requires Last(prev) != Terminating
    requires last == Terminating || CanMove(Last(prev), last)
    ensures History((prev + [last])[1..]) == prev + [last]
  {
    assert (prev + [last])[1..] == prev[1..] + [last];
    HistorySnoc(prev[1..], last);
  }

  /** The histories NewWorkerState and TransitionTo can build are exactly the well-shaped words. */
  lemma HistoriesExactly(h: seq<Status>)
    ensures WellShaped(h) <==> exists requests :: History(requests) == h
  {
    if WellShaped(h) {
      var started: bool, n: nat, ended: bool :| h == Word(started, n, ended);
      WordIsReachable(started, n, ended);
    }
    if exists requests :: History(requests) == h {
      var requests :| History(requests) == h;
      HistoryIsWellShaped(requests);
    }
  }
}
