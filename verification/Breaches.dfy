/**
 The three places where the code can let the books and the pool part: a teardown, a deletion that comes before the
 assignment is recorded, and an allocation that rests on a stale schedule. For each, from any state whose books agree,
 exactly when they still agree afterwards; each condition is the guard of a branch the code itself takes.
 */
module Breaches {
  import opened Machine
  import opened Lifecycle
  import opened Workers
  import opened Accounts
  import opened Interleaving
  import opened Discipline
  import opened Requests
  import opened SystemBooks

  // ----- how the books move

  lemma {:induction false} TotalNonNegative(m: map<string, int>)
    requires forall k :: k in m ==> m[k] >= 0
    ensures Total(m) >= 0
    decreases |m|
  {
    if k :| k in m {
      TotalPull(m, k);
      TotalNonNegative(m - {k});
    }
  }

  lemma {:induction false} WithoutKeepsDistinct(s: seq<string>, x: string)
    requires NoDuplicates(s)
    ensures NoDuplicates(Without(s, x)) && Elements(Without(s, x)) == Elements(s) - {x}
  {
    if s != [] {
      var front, last := s[..|s| - 1], s[|s| - 1];
      WithoutKeepsDistinct(front, x);
      assert last !in front;
    }
  }

  /** From the one state to the other no worker changes its model or its GPU. */
  ghost predicate SamePlaces(sh: Shared, sh': Shared) {
    && sh'.workers.Keys == sh.workers.Keys
    && forall w :: w in sh.workers ==> sh'.workers[w].model == sh.workers[w].model && sh'.workers[w].gpu == sh.workers[w].gpu
  }

  lemma LoadsWithout(sh: Shared, sh': Shared, w: string, u: string)
    requires SamePlaces(sh, sh') && sh'.pool == sh.pool - {w}
    ensures Residents(sh', u) == Residents(sh, u) - {w}
    ensures Loads(sh', u) == Loads(sh, u) - {w}
  {
  }

  lemma LoadsWith(sh: Shared, sh': Shared, w: string, u: string)
    requires w !in sh.workers && w in sh'.workers && sh'.workers == sh.workers[w := sh'.workers[w]]
    requires sh'.pool == sh.pool + {w} && w !in sh.pool && sh'.workers[w].gpu.Some?
    ensures var here := sh'.workers[w].gpu.value.uuid == u;
      && Residents(sh', u) == Residents(sh, u) + (if here then {w} else {})
      && Loads(sh', u) == (if here then Loads(sh, u)[w := Requirement(sh'.workers[w])] else Loads(sh, u))
  {
  }

  lemma LoadsNonNegative(sh: Shared, u: string)
    requires forall w :: w in sh.workers ==> RecordAmountOk(sh.workers[w])
    ensures Total(Loads(sh, u)) >= 0
    ensures forall w :: w in Residents(sh, u) ==> Total(Loads(sh, u) - {w}) >= 0
  {
    TotalNonNegative(Loads(sh, u));
    forall w | w in Residents(sh, u) ensures Total(Loads(sh, u) - {w}) >= 0 {
      TotalNonNegative(Loads(sh, u) - {w});
    }
  }

  // ----- a teardown

  /** The teardown gets as far as calling Release on a registered GPU. */
  predicate Repays(sh: Shared, w: string)
    requires w in sh.workers
  {
    sh.workers[w].gpu.Some? && sh.workers[w].model.Some? && sh.workers[w].gpu.value.uuid in sh.fleet
  }

  /** A Release of the amount leaves the counter as it is. */
  predicate TakesNothing(counter: int64, amount: int64) {
    counter >= 0 && (amount == 0 || (counter == 0 && (amount > 0 || amount == MIN_INT64)))
  }

  /**
   The teardown does not upset the books. A worker in the pool gives back what it holds, with no clamp at zero and no
   overflow; for one that has left the pool already there is nothing to give back.
   */
  predicate TeardownIsHarmless(sh: Shared, w: string)
    requires w in sh.workers
  {
    var rec := sh.workers[w];
    if w in sh.pool then
      && (rec.gpu.Some? && rec.gpu.value.uuid in sh.fleet ==> rec.model.Some?)
      && (Repays(sh, w) ==> 0 <= sh.fleet[rec.gpu.value.uuid].gpu.allocatedVram - rec.model.value.vram <= MAX_INT64)
    else Repays(sh, w) ==> TakesNothing(sh.fleet[rec.gpu.value.uuid].gpu.allocatedVram, rec.model.value.vram)
  }

  /**
   When no requirement is negative: a teardown in the pool is harmless if the worker has a model, as CreateWorker gives
   every worker one; a repeated one exactly when the worker required nothing or the counter is at zero.
   */
  lemma UsualTeardown(sh: Shared, w: string)
    requires BooksAgree(sh) && w in sh.workers && sh.workers[w].model.Some?
    requires forall v :: v in sh.workers ==> RecordAmountOk(sh.workers[v])
    ensures w in sh.pool ==> TeardownIsHarmless(sh, w)
    ensures w !in sh.pool && Repays(sh, w) ==>
      (TeardownIsHarmless(sh, w) <==>
       sh.workers[w].model.value.vram == 0 || sh.fleet[sh.workers[w].gpu.value.uuid].gpu.allocatedVram == 0)
  {
    if Repays(sh, w) {
      var u := sh.workers[w].gpu.value.uuid;
      assert AgreesOn(sh, u);
      LoadsNonNegative(sh, u);
      if w in sh.pool {
        TotalPull(Loads(sh, u), w);
      }
    }
  }

  lemma WrappedParts(sh: Shared, w: string)
    requires w in sh.workers
    ensures var after, rec := Wrapped(sh, w), sh.workers[w];
      && after.workers == sh.workers && after.pool == sh.pool - {w} && after.fleet.Keys == sh.fleet.Keys
      && (!Repays(sh, w) ==> after.fleet == sh.fleet)
      && (Repays(sh, w) ==>
            after.fleet == sh.fleet[rec.gpu.value.uuid := Refund(sh.fleet[rec.gpu.value.uuid], w, rec.model.value.vram)])
  {
  }

  /** Away from the worker's GPU nothing changes. */
  lemma ElsewhereAgrees(sh: Shared, w: string, u: string)
    requires w in sh.workers && u in sh.fleet && AgreesOn(sh, u)
    requires !(sh.workers[w].gpu.Some? && sh.workers[w].gpu.value.uuid == u)
    ensures u in Wrapped(sh, w).fleet && AgreesOn(Wrapped(sh, w), u)
  {
    hide Refund, Wrapped;
    WrappedParts(sh, w);
    LoadsWithout(sh, Wrapped(sh, w), w, u);
    assert w !in Residents(sh, u);
    assert Loads(sh, u) - {w} == Loads(sh, u);
  }

  /** On the worker's own GPU. */
  lemma HomeAgreesIff(sh: Shared, w: string, u: string)
    requires w in sh.workers && u in sh.fleet && AgreesOn(sh, u)
    requires sh.workers[w].gpu.Some? && sh.workers[w].gpu.value.uuid == u
    ensures u in Wrapped(sh, w).fleet && (AgreesOn(Wrapped(sh, w), u) <==> TeardownIsHarmless(sh, w))
  {
    hide Wrapped;
    var gpu := sh.fleet[u].gpu;
    var rec := sh.workers[w];
    WrappedParts(sh, w);
    LoadsWithout(sh, Wrapped(sh, w), w, u);
    WithoutKeepsDistinct(gpu.active, w);
    if w in sh.pool {
      TotalPull(Loads(sh, u), w);
      assert w in Elements(gpu.active);
    } else {
      assert Loads(sh, u) - {w} == Loads(sh, u);
      assert w !in Elements(gpu.active);
    }
  }

  /** The end of a teardown, which is all there is to an idle sweep's. */
  lemma WrappedAgreesIff(sh: Shared, w: string)
    requires BooksAgree(sh) && w in sh.workers
    ensures BooksAgree(Wrapped(sh, w)) <==> TeardownIsHarmless(sh, w)
  {
    hide Wrapped, AgreesOn;
    WrappedParts(sh, w);
    forall u | u in sh.fleet
      ensures AgreesOn(Wrapped(sh, w), u) <==>
        (sh.workers[w].gpu.Some? && sh.workers[w].gpu.value.uuid == u ==> TeardownIsHarmless(sh, w))
    {
      if sh.workers[w].gpu.Some? && sh.workers[w].gpu.value.uuid == u {
        HomeAgreesIff(sh, w, u);
      } else {
        ElsewhereAgrees(sh, w, u);
      }
    }
  }

  /** A transition moves no books. */
  lemma TransitionedAgrees(sh: Shared, w: string, next: Status, now: Instant)
    requires w in sh.workers
    ensures BooksAgree(sh) ==> BooksAgree(Transitioned(sh, w, next, now))
  {
    var sh' := Transitioned(sh, w, next, now);
    forall u | u in sh.fleet && AgreesOn(sh, u) ensures AgreesOn(sh', u) {
      assert Residents(sh', u) == Residents(sh, u);
      assert Loads(sh', u) == Loads(sh, u);
    }
  }

  /**
   terminateWorker, the first or a repeated one. Run on a worker that is out of the pool already, it keeps the books right
   exactly when its Release has nothing to take; otherwise it takes VRAM that other workers hold.
   */
  lemma TeardownAgreesIff(sh: Shared, w: string, now: Instant)
    requires BooksAgree(sh) && w in sh.workers
    ensures BooksAgree(TornDown(sh, w, now)) <==> TeardownIsHarmless(sh, w)
  {
    TransitionedAgrees(sh, w, Terminating, now);
    WrappedAgreesIff(Transitioned(sh, w, Terminating, now), w);
  }

  // ----- a deletion before SetGPUAssignment

  /** The worker is out of the pool, on record with or without an assignment, and its reservation was asked for. */
  ghost predicate Abandoned(sh: Shared, after: Shared, id: string, model: ModelConfig, gpu: Placement) {
    && id !in sh.workers && id !in sh.pool && after.pool == sh.pool
    && id in after.workers && after.workers == sh.workers[id := after.workers[id]]
    && after.fleet == AllocateIn(sh.fleet, gpu.uuid, id, model.name, model.vram)
  }

  lemma AbandonedLoads(sh: Shared, after: Shared, id: string, model: ModelConfig, gpu: Placement, u: string)
    requires Abandoned(sh, after, id, model, gpu)
    ensures Residents(after, u) == Residents(sh, u) && Loads(after, u) == Loads(sh, u)
  {
    hide AllocateIn;
    assert Residents(after, u) == Residents(sh, u);
  }

  lemma AbandonedGranted(sh: Shared, after: Shared, id: string, model: ModelConfig, gpu: Placement)
    requires Abandoned(sh, after, id, model, gpu) && Grants(sh.fleet, gpu.uuid, model.vram)
    ensures !BooksAgree(after)
  {
    var active := after.fleet[gpu.uuid].gpu.active;
    assert active[|active| - 1] == id;
    assert id in Elements(active) && id !in Residents(after, gpu.uuid);
    assert !AgreesOn(after, gpu.uuid);
  }

  lemma AbandonedRefused(sh: Shared, after: Shared, id: string, model: ModelConfig, gpu: Placement)
    requires Abandoned(sh, after, id, model, gpu) && !Grants(sh.fleet, gpu.uuid, model.vram) && BooksAgree(sh)
    ensures BooksAgree(after)
  {
    hide Residents, Loads;
    forall u | u in sh.fleet ensures AgreesOn(after, u) {
      AbandonedLoads(sh, after, id, model, gpu, u);
      assert AgreesOn(sh, u);
    }
  }

  /** The deletion comes between AddWorker and Allocate. */
  function DeletedThenReserved(
      sh: Shared, id: string, tenant: string, model: ModelConfig, gpu: Placement, now: Instant, later: Instant): Shared
  {
    Reserved(Deleted(Stored(sh, id, tenant, model, now), id, later), id, model, gpu)
  }

  /** The deletion comes between Allocate and SetGPUAssignment. */
  function ReservedThenDeleted(
      sh: Shared, id: string, tenant: string, model: ModelConfig, gpu: Placement, now: Instant, later: Instant): Shared
  {
    Deleted(Reserved(Stored(sh, id, tenant, model, now), id, model, gpu), id, later)
  }

  /** A deletion that sees no assignment does not care whether the reservation has been made. */
  lemma DeletionMissesReservation(
      sh: Shared, id: string, tenant: string, model: ModelConfig, gpu: Placement, now: Instant, later: Instant)
    ensures ReservedThenDeleted(sh, id, tenant, model, gpu, now, later)
            == DeletedThenReserved(sh, id, tenant, model, gpu, now, later)
    ensures id in DeletedThenReserved(sh, id, tenant, model, gpu, now, later).workers
  {
    hide AllocateIn;
  }

  lemma DeletedIsAbandoned(
      sh: Shared, id: string, tenant: string, model: ModelConfig, gpu: Placement, now: Instant, later: Instant)
    requires id !in sh.workers && id !in sh.pool
    ensures id in DeletedThenReserved(sh, id, tenant, model, gpu, now, later).workers
    ensures Abandoned(sh, Assigned(DeletedThenReserved(sh, id, tenant, model, gpu, now, later), id, model, gpu), id, model, gpu)
  {
    hide AllocateIn;
    var deleted := Deleted(Stored(sh, id, tenant, model, now), id, later);
    assert deleted.pool == sh.pool && deleted.fleet == sh.fleet;
  }

  /**
   CreateWorker whose worker is deleted before SetGPUAssignment, whether before or after Allocate. The deletion finds no
   assignment and the start task then gives nothing back, so the books agree afterwards exactly when Allocate refuses.
   */
  lemma EarlyDeletionAgreesIff(
      sh: Shared, id: string, tenant: string, model: ModelConfig, gpu: Placement, now: Instant, later: Instant)
    requires BooksAgree(sh) && id !in sh.workers && id !in sh.pool
    ensures var before := DeletedThenReserved(sh, id, tenant, model, gpu, now, later);
      && id in before.workers
      && (BooksAgree(Assigned(before, id, model, gpu)) <==> !Grants(sh.fleet, gpu.uuid, model.vram))
    ensures var after := ReservedThenDeleted(sh, id, tenant, model, gpu, now, later);
      && id in after.workers
      && (BooksAgree(Assigned(after, id, model, gpu)) <==> !Grants(sh.fleet, gpu.uuid, model.vram))
  {
    hide BooksAgree, DeletedThenReserved, ReservedThenDeleted, Assigned, Abandoned, AllocateIn;
    DeletionMissesReservation(sh, id, tenant, model, gpu, now, later);
    DeletedIsAbandoned(sh, id, tenant, model, gpu, now, later);
    var end := Assigned(DeletedThenReserved(sh, id, tenant, model, gpu, now, later), id, model, gpu);
    if Grants(sh.fleet, gpu.uuid, model.vram) {
      AbandonedGranted(sh, end, id, model, gpu);
    } else {
      AbandonedRefused(sh, end, id, model, gpu);
    }
  }

  // ----- an allocation on a stale schedule

  lemma AdmittedParts(sh: Shared, id: string, tenant: string, model: ModelConfig, gpu: Placement, now: Instant, u: string)
    requires id !in sh.workers && id !in sh.pool
    ensures var after := Admitted(sh, id, tenant, model, gpu, now);
      && after.fleet == AllocateIn(sh.fleet, gpu.uuid, id, model.name, model.vram)
      && Residents(after, u) == Residents(sh, u) + (if gpu.uuid == u then {id} else {})
      && Loads(after, u) == (if gpu.uuid == u then Loads(sh, u)[id := model.vram] else Loads(sh, u))
  {
    hide AllocateIn, Residents, Loads;
    LoadsWith(sh, Admitted(sh, id, tenant, model, gpu, now), id, u);
  }

  lemma GrantedAgreesOn(sh: Shared, after: Shared, id: string, model: ModelConfig, u: string)
    requires u in sh.fleet && AgreesOn(sh, u) && WithinCapacity(sh.fleet[u].gpu) && Grants(sh.fleet, u, model.vram)
    requires id !in Residents(sh, u) && after.fleet == AllocateIn(sh.fleet, u, id, model.name, model.vram)
    requires Residents(after, u) == Residents(sh, u) + {id} && Loads(after, u) == Loads(sh, u)[id := model.vram]
    ensures AgreesOn(after, u)
  {
    hide Residents, Loads;
    var active := sh.fleet[u].gpu.active;
    TotalPull(Loads(after, u), id);
    assert Loads(after, u) - {id} == Loads(sh, u) by {
      assert Loads(sh, u).Keys == Residents(sh, u) by { LoadsKeys(sh, u); }
    }
    assert id !in Elements(active);
    assert Elements(active + [id]) == Elements(active) + {id};
  }

  lemma LoadsKeys(sh: Shared, u: string)
    ensures Loads(sh, u).Keys == Residents(sh, u)
  {
  }

  lemma RefusedAgreesOn(sh: Shared, after: Shared, id: string, u: string)
    requires u in sh.fleet && AgreesOn(sh, u) && u in after.fleet && after.fleet[u] == sh.fleet[u]
    requires id !in Residents(sh, u)
    requires id in Residents(after, u) || (Residents(after, u) == Residents(sh, u) && Loads(after, u) == Loads(sh, u))
    ensures AgreesOn(after, u) <==> id !in Residents(after, u)
  {
  }

  lemma AdmittedAgreesOn(
      sh: Shared, id: string, tenant: string, model: ModelConfig, gpu: Placement, now: Instant, u: string)
    requires u in sh.fleet && AgreesOn(sh, u) && WithinCapacity(sh.fleet[u].gpu)
    requires id !in sh.workers && id !in sh.pool
    ensures var after := Admitted(sh, id, tenant, model, gpu, now);
      u in after.fleet && (AgreesOn(after, u) <==> (u == gpu.uuid ==> Grants(sh.fleet, u, model.vram)))
  {
    hide Admitted, AgreesOn, Loads, Reserve;
    var after := Admitted(sh, id, tenant, model, gpu, now);
    AdmittedParts(sh, id, tenant, model, gpu, now, u);
    if u == gpu.uuid && Grants(sh.fleet, u, model.vram) {
      GrantedAgreesOn(sh, after, id, model, u);
    } else {
      RefusedAgreesOn(sh, after, id, u);
    }
  }

  /**
   CreateWorker with a placement of whatever age. On a registered GPU the books agree once the worker is admitted exactly
   when Allocate, whose result the code does not look at, finds room.
   */
  lemma AdmissionAgreesIff(sh: Shared, id: string, tenant: string, model: ModelConfig, gpu: Placement, now: Instant)
    requires BooksAgree(sh) && CapacitySafe(sh.fleet) && id !in sh.workers && id !in sh.pool
    ensures BooksAgree(Admitted(sh, id, tenant, model, gpu, now)) <==>
      (gpu.uuid in sh.fleet ==> Grants(sh.fleet, gpu.uuid, model.vram))
  {
    hide AgreesOn, Reserve;
    var after := Admitted(sh, id, tenant, model, gpu, now);
    forall u | u in sh.fleet
      ensures AgreesOn(after, u) <==> (u == gpu.uuid ==> Grants(sh.fleet, u, model.vram))
    {
      AdmittedAgreesOn(sh, id, tenant, model, gpu, now, u);
    }
  }
}
