/**
 One request at a time, on whole-system states between requests: which states are sound, that every request leads from
 one sound state to another, and what the idle sweep removes.
 */
module Sequential {
  import opened Machine
  import opened Lifecycle
  import opened Workers
  import opened Accounts
  import opened Interleaving
  import opened Discipline
  import opened Requests
  import Safety

  function Between(sh: Shared, maxWorkers: int64): State {
    State(sh, [], maxWorkers)
  }

  /** A state between requests that satisfies the invariants of the lifecycle and of the books. */
  ghost predicate Sound(sh: Shared, maxWorkers: int64) {
    BooksInv(Between(sh, maxWorkers)) && Safety.Inv(Between(sh, maxWorkers))
  }

  /** With all tasks finished, the invariants speak of the shared state alone. */
  lemma SettledIsSound(s: State)
    requires BooksInv(s) && Safety.Inv(s) && Quiescent(s)
    ensures Sound(s.sh, s.maxWorkers)
  {
    SettledBooks(s);
    SettledSafety(s);
  }

  lemma SettledBooks(s: State)
    requires BooksInv(s) && Quiescent(s)
    ensures BooksInv(Between(s.sh, s.maxWorkers))
  {
    hide FleetOk, EntriesOk, Settled, RemovalsOnce;
    forall i | 0 <= i < |s.tasks| ensures s.tasks[i].Done? {
      assert s.tasks[i] in s.tasks;
    }
  }

  lemma SettledCovered(s: State)
    requires Safety.Covered(s) && Quiescent(s)
    ensures Safety.Covered(Between(s.sh, s.maxWorkers))
  {
    var sh, s' := s.sh, Between(s.sh, s.maxWorkers);
    assert forall i :: 0 <= i < |s.tasks| ==> s.tasks[i] in s.tasks && s.tasks[i].Done?;
    forall c | c in sh.containers && Safety.Ended(s', sh.containers[c]) ensures c in sh.terminated {
      assert Safety.Ended(s, sh.containers[c]);
      assert !Safety.Owes(s, sh.containers[c], c);
    }
  }

  lemma SettledAttended(s: State)
    requires Safety.Tracked(s) && Safety.KilledLeaves(s) && Safety.Attended(s) && Quiescent(s)
    ensures var s' := Between(s.sh, s.maxWorkers); Safety.Tracked(s') && Safety.KilledLeaves(s') && Safety.Attended(s')
  {
    assert forall w, c :: Recording(w, c) !in s.tasks;
    assert forall i :: 0 <= i < |s.tasks| ==> s.tasks[i] in s.tasks && s.tasks[i].Done?;
  }

  lemma SettledSafety(s: State)
    requires Safety.Inv(s) && Quiescent(s)
    ensures Safety.Inv(Between(s.sh, s.maxWorkers))
  {
    hide Safety.Covered, Safety.Tracked, Safety.KilledLeaves, Safety.Attended, Safety.Provisioned, Safety.RecordsOk;
    SettledCovered(s);
    SettledAttended(s);
  }

  lemma InitialIsSound(s: State)
    requires Initial(s)
    ensures Sound(s.sh, s.maxWorkers)
  {
    InitialBooks(s);
    Safety.InitialInv(s);
    SettledIsSound(s);
  }

  /**
   Every state in which a disciplined run comes to rest is sound, however its requests interleaved; so what is said below
   of a request, or of the idle sweep, from a sound state holds after every disciplined concurrent run.
   */
  lemma DisciplinedRunIsSound(s0: State, events: seq<Event>)
    requires Initial(s0) && DisciplinedRun(s0, events) && Quiescent(Exec(s0, events))
    ensures Sound(Exec(s0, events).sh, Exec(s0, events).maxWorkers)
  {
    InitialBooks(s0);
    Safety.InitialInv(s0);
    RunBooks(s0, events);
    Safety.ExecInv(s0, events);
    SettledIsSound(Exec(s0, events));
  }

  /** In a sound state counters and active lists agree with the pool, and containers with the pool's workers. */
  lemma SoundStateAgrees(sh: Shared, maxWorkers: int64)
    requires Sound(sh, maxWorkers)
    ensures BooksAgree(sh) && CapacitySafe(sh.fleet) && LedgersExact(sh.fleet) && NoDuplicates(sh.removals)
    ensures sh.pool <= sh.workers.Keys
    ensures forall w :: w in sh.pool ==> w in sh.workers && Safety.Ready(sh.workers[w].status)
    ensures forall c :: c in sh.containers && sh.containers[c] !in sh.pool ==> c in sh.terminated
  {
    SettledBooksAgree(Between(sh, maxWorkers));
    forall c | c in sh.containers && sh.containers[c] !in sh.pool ensures c in sh.terminated {
      assert Safety.Ended(Between(sh, maxWorkers), sh.containers[c]);
      assert !Safety.Owes(Between(sh, maxWorkers), sh.containers[c], c);
    }
  }

  /** A request run to its end keeps the state sound. */
  lemma RequestKeepsSound(sh: Shared, maxWorkers: int64, t: Task, sh': Shared, out: StartOutcome)
    requires Sound(sh, maxWorkers)
    requires t.Scheduling? || t.Finding? || t.Visiting?
    requires t.Scheduling? ==> t.model.vram >= 0
    requires Reaches(State(sh, [t], maxWorkers), 0, sh, t, sh', Done, out)
    ensures Sound(sh', maxWorkers)
  {
    hide BooksInv, Safety.Inv, Exec;
    var s := State(sh, [t], maxWorkers);
    assert At(s, 0, sh, t) == s;
    var events :| OwnSteps(events, 0) && Exec(s, events) == At(s, 0, sh', Done);
    SpawnBooks(Between(sh, maxWorkers), s);
    Safety.SpawnedInv(Between(sh, maxWorkers), s);
    OwnStepsAreSerial(s, events);
    SerialIsDisciplined(s, events);
    RunBooks(s, events);
    Safety.ExecInv(s, events);
    assert At(s, 0, sh', Done) == State(sh', [Done], maxWorkers);
    SettledIsSound(At(s, 0, sh', Done));
  }

  lemma OwnStepsAreSerial(s: State, events: seq<Event>)
    requires OwnSteps(events, 0)
    ensures SerialRun(s, events)
  {
    forall k | 0 <= k < |events| ensures SerialAt(s, events, k) {
      assert events[k] in events;
    }
  }

  lemma CreatedKeepsSound(
      sh: Shared, maxWorkers: int64, id: string, tenant: string, model: ModelConfig, uuid: string,
      out: StartOutcome, now: Instant)
    requires Sound(sh, maxWorkers) && model.vram >= 0
    requires Grants(sh.fleet, uuid, model.vram) && id !in sh.workers && NewContainer(sh, out)
    ensures Sound(Created(sh, maxWorkers, id, tenant, model, PlacementOn(sh.fleet, uuid, model.name), out, now), maxWorkers)
  {
    var t := Scheduling(tenant, model);
    CreatedIsRun(State(sh, [t], maxWorkers), 0, sh, id, tenant, model, uuid, out, now);
    RequestKeepsSound(sh, maxWorkers, t,
      Created(sh, maxWorkers, id, tenant, model, PlacementOn(sh.fleet, uuid, model.name), out, now), out);
  }

  /** CreateWorker with the answer Schedule gave: sound books stay sound, and its Allocate has room. */
  lemma CreateRequestKeepsSound(
      sh: Shared, maxWorkers: int64, id: string, tenant: string, model: ModelConfig, gpu: Placement,
      out: StartOutcome, now: Instant)
    requires Sound(sh, maxWorkers) && model.vram >= 0
    requires Answers(sh.fleet, model.name, model.vram, Some(gpu)) && id !in sh.workers && NewContainer(sh, out)
    ensures Sound(Created(sh, maxWorkers, id, tenant, model, gpu, out, now), maxWorkers)
    ensures Grants(Stored(sh, id, tenant, model, now).fleet, gpu.uuid, model.vram)
  {
    assert gpu == PlacementOn(sh.fleet, gpu.uuid, model.name);
    CreatedKeepsSound(sh, maxWorkers, id, tenant, model, gpu.uuid, out, now);
  }

  lemma DeletedKeepsSound(sh: Shared, maxWorkers: int64, w: string, now: Instant)
    requires Sound(sh, maxWorkers)
    ensures Sound(Deleted(sh, w, now), maxWorkers)
  {
    DeletedIsRun(State(sh, [Finding(w)], maxWorkers), 0, sh, w, now, PullFailed);
    RequestKeepsSound(sh, maxWorkers, Finding(w), Deleted(sh, w, now), PullFailed);
  }

  lemma EvictedKeepsSound(sh: Shared, maxWorkers: int64, w: string)
    requires Sound(sh, maxWorkers)
    requires w in sh.pool && w in sh.workers && sh.workers[w].status == Idle
    ensures Sound(Evicted(sh, w), maxWorkers)
  {
    EvictedIsRun(State(sh, [Visiting(w)], maxWorkers), 0, sh, w, 0, PullFailed);
    RequestKeepsSound(sh, maxWorkers, Visiting(w), Evicted(sh, w), PullFailed);
  }

  /** A worker that takes or finishes a request between two operations leaves the state sound. */
  lemma ToggledKeepsSound(sh: Shared, maxWorkers: int64, w: string, now: Instant)
    requires Sound(sh, maxWorkers)
    ensures Sound(Toggled(sh, w, now), maxWorkers)
  {
    ToggleBooks(Between(sh, maxWorkers), w, now);
    Safety.ToggledIsSimilar(sh, w, now);
    Safety.SimilarInv(Between(sh, maxWorkers), Between(Toggled(sh, w, now), maxWorkers));
  }

  // ----- the idle sweep

  /** The pool's workers that are IDLE and have been so for longer than the timeout. */
  ghost function Expired(sh: Shared, now: Instant, timeout: int64): set<string> {
    set w | w in sh.pool && w in sh.workers && IdleTooLong(sh.workers[w], now, timeout)
  }

  /** Who that is, on the clock's own terms; a timeout of the largest duration never passes. */
  lemma ExpiredIff(sh: Shared, now: Instant, timeout: int64, w: string)
    requires w in sh.pool && w in sh.workers
    ensures w in Expired(sh, now, timeout) <==>
      var rec := sh.workers[w];
      var last := if rec.metrics.Some? && rec.metrics.value.lastRequestAt.Some? then rec.metrics.value.lastRequestAt.value
                  else rec.updatedAt;
      rec.status == Idle && now - last > timeout && timeout < 0x7FFF_FFFF_FFFF_FFFF
  {
    ElapsedExceeds(now, LastActivity(sh.workers[w]), timeout);
  }

  /** The workers evicted one after the other. */
  function EvictedAll(sh: Shared, ids: seq<string>): Shared {
    if ids == [] then sh else Evicted(EvictedAll(sh, ids[..|ids| - 1]), ids[|ids| - 1])
  }

  /** A sweep touches nobody's record and nobody else's place in the pool, whatever the order of its visits. */
  lemma {:induction false} EvictedAllPool(sh: Shared, ids: seq<string>)
    requires sh.pool <= sh.workers.Keys
    ensures EvictedAll(sh, ids).pool == sh.pool - Elements(ids)
    ensures EvictedAll(sh, ids).workers == sh.workers
    ensures EvictedAll(sh, ids).containers == sh.containers
  {
    if ids == [] {
      assert Elements(ids) == {};
    } else {
      var front, last := ids[..|ids| - 1], ids[|ids| - 1];
      EvictedAllPool(sh, front);
      assert Elements(ids) == Elements(front) + {last} by {
        assert ids == front + [last];
      }
    }
  }

  lemma {:induction false} EvictedAllSound(sh: Shared, maxWorkers: int64, ids: seq<string>)
    requires Sound(sh, maxWorkers) && NoDuplicates(ids)
    requires forall w :: w in ids ==> w in sh.pool && w in sh.workers && sh.workers[w].status == Idle
    ensures Sound(EvictedAll(sh, ids), maxWorkers)
  {
    if ids != [] {
      var front, last := ids[..|ids| - 1], ids[|ids| - 1];
      assert last in ids && forall w :: w in front ==> w in ids;
      EvictedAllSound(sh, maxWorkers, front);
      EvictedAllPool(sh, front);
      assert last !in front;
      EvictedKeepsSound(EvictedAll(sh, front), maxWorkers, last);
    }
  }

  /** What a set of workers contributes to a GPU's load. */
  ghost function LoadOf(sh: Shared, u: string, ids: set<string>): int {
    Total(Loads(sh, u) - (Loads(sh, u).Keys - ids))
  }

  lemma {:induction false} TotalSplit(m: map<string, int>, ids: set<string>)
    requires ids <= m.Keys
    ensures Total(m) == Total(m - ids) + Total(m - (m.Keys - ids))
    decreases ids
  {
    if ids == {} {
      assert m - ids == m;
      assert m - (m.Keys - ids) == map[];
    } else {
      var k :| k in ids;
      TotalPull(m, k);
      TotalSplit(m - {k}, ids - {k});
      var part := m - (m.Keys - ids);
      TotalPull(part, k);
      assert part - {k} == (m - {k}) - ((m - {k}).Keys - (ids - {k}));
      assert m - ids == (m - {k}) - (ids - {k});
    }
  }

  /**
   The idle sweep is exact. From a sound state, whatever order it visits the pool in: the pool loses exactly the IDLE
   workers past the timeout, each GPU's counter drops by exactly their requirements on it, the books agree again, and
   every container those workers had has been terminated.
   */
  lemma SweepIsExact(sh: Shared, maxWorkers: int64, ids: seq<string>, now: Instant, timeout: int64)
    requires Sound(sh, maxWorkers)
    requires NoDuplicates(ids) && Elements(ids) == Expired(sh, now, timeout)
    ensures var after := EvictedAll(sh, ids);
      && Sound(after, maxWorkers) && BooksAgree(after)
      && after.pool == sh.pool - Expired(sh, now, timeout)
      && after.workers == sh.workers
      && after.fleet.Keys == sh.fleet.Keys
      && (forall u :: u in sh.fleet ==>
            after.fleet[u].gpu.allocatedVram ==
              sh.fleet[u].gpu.allocatedVram - LoadOf(sh, u, Expired(sh, now, timeout) * Residents(sh, u)))
      && (forall c :: c in sh.containers && sh.containers[c] in Expired(sh, now, timeout) ==> c in after.terminated)
    ensures forall w :: w in sh.pool && w in sh.workers ==>
      var rec := sh.workers[w];
      var last := if rec.metrics.Some? && rec.metrics.value.lastRequestAt.Some? then rec.metrics.value.lastRequestAt.value
                  else rec.updatedAt;
      w !in EvictedAll(sh, ids).pool <==> rec.status == Idle && now - last > timeout && timeout < 0x7FFF_FFFF_FFFF_FFFF
  {
    hide BooksInv, Safety.Inv;
    forall w | w in ids ensures w in sh.pool && w in sh.workers && sh.workers[w].status == Idle {
      assert w in Elements(ids);
    }
    forall w | w in sh.pool && w in sh.workers {
      ExpiredIff(sh, now, timeout, w);
    }
    SoundStateAgrees(sh, maxWorkers);
    EvictedAllSound(sh, maxWorkers, ids);
    EvictedAllPool(sh, ids);
    EvictedAllGPUs(sh, ids);
    var after := EvictedAll(sh, ids);
    SoundStateAgrees(after, maxWorkers);
    forall u | u in sh.fleet
      ensures after.fleet[u].gpu.allocatedVram ==
        sh.fleet[u].gpu.allocatedVram - LoadOf(sh, u, Expired(sh, now, timeout) * Residents(sh, u))
    {
      CounterDrops(sh, after, Expired(sh, now, timeout), u);
    }
  }

  lemma CounterDrops(sh: Shared, after: Shared, gone: set<string>, u: string)
    requires u in sh.fleet && sh.fleet[u].gpu.allocatedVram == Total(Loads(sh, u))
    requires u in after.fleet && after.fleet[u].gpu.allocatedVram == Total(Loads(after, u))
    requires after.pool == sh.pool - gone && after.workers == sh.workers
    ensures after.fleet[u].gpu.allocatedVram == sh.fleet[u].gpu.allocatedVram - LoadOf(sh, u, gone * Residents(sh, u))
  {
    LoadsShrink(sh, after, gone, u);
    TotalSplit(Loads(sh, u), gone * Residents(sh, u));
  }

  lemma LoadsShrink(sh: Shared, after: Shared, gone: set<string>, u: string)
    requires after.pool == sh.pool - gone && after.workers == sh.workers
    ensures Loads(after, u) == Loads(sh, u) - (gone * Residents(sh, u))
  {
    var m, n := Loads(after, u), Loads(sh, u) - (gone * Residents(sh, u));
    forall w ensures w in m <==> w in n {
      assert w in Residents(after, u) <==> w in Residents(sh, u) && w !in gone;
    }
    assert forall w :: w in m ==> m[w] == n[w];
  }

  lemma {:induction false} EvictedAllGPUs(sh: Shared, ids: seq<string>)
    ensures EvictedAll(sh, ids).fleet.Keys == sh.fleet.Keys
  {
    if ids != [] {
      EvictedAllGPUs(sh, ids[..|ids| - 1]);
    }
  }
}
