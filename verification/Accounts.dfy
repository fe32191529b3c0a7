/**
 The VRAM books of a fleet of GPUs as values: what one registration, allocation or release does to them, and what
 every sequence of such steps, by any number of clients, keeps.

 Each locked section of the scheduler is one `Op`. Clients choose the arguments freely: an Allocate may rest on a
 Schedule answer that has gone stale, its result may be ignored, and a Release may be repeated or never have had an
 Allocate. Beside each GPU's record stands its ledger, the reservations granted on it and not yet released.
 */
module Accounts {
  import opened Machine

  datatype Reservation = Reservation(worker: string, model: string, amount: int64)

  datatype Gpu = Gpu(uuid: string, index: int, total: int64, allocatedVram: int64, loaded: set<string>, active: seq<string>)
  {
    function Free(): int64 {
      Sub64(total, allocatedVram)
    }

    predicate HasRoom(amount: int64) {
      Free() >= amount
    }
  }

  datatype Account = Account(gpu: Gpu, ledger: seq<Reservation>)

  type Fleet = map<string, Account>

  datatype Op =
    | Register(uuid: string, index: int, total: int64)
    | Schedule(model: string, amount: int64)
    | Allocate(uuid: string, worker: string, model: string, amount: int64)
    | Release(uuid: string, worker: string, amount: int64)

  // ----- what one step does

  function Without(s: seq<string>, x: string): (r: seq<string>)
    ensures forall y :: y in r <==> y in s && y != x
  {
    if s == [] then []
    else
      var front := Without(s[..|s| - 1], x);
      if s[|s| - 1] == x then front else front + [s[|s| - 1]]
  }

  lemma {:induction false} WithoutConcat(a: seq<string>, b: seq<string>, x: string)
    ensures Without(a + b, x) == Without(a, x) + Without(b, x)
  {
    if b == [] {
      assert a + b == a;
    } else {
      var k := |b| - 1;
      WithoutConcat(a, b[..k], x);
      assert (a + b)[..|a + b| - 1] == a + b[..k];
    }
  }

  /** Entry by entry: one of `x` goes, any other stays between what is left of the list before it and after it. */
  lemma WithoutKeepsPlaces(s: seq<string>, k: nat, x: string)
    requires k < |s|
    ensures Without(s, x) == Without(s[..k], x) + (if s[k] == x then [] else [s[k]]) + Without(s[k + 1..], x)
  {
    assert s == s[..k + 1] + s[k + 1..] && s[..k + 1][..k] == s[..k];
    WithoutConcat(s[..k + 1], s[k + 1..], x);
  }

  /** The ledger with the oldest reservation of `worker` for `amount` struck out, if there is one. */
  function Settle(ledger: seq<Reservation>, worker: string, amount: int64): seq<Reservation> {
    if ledger == [] then []
    else if ledger[0].worker == worker && ledger[0].amount == amount then ledger[1..]
    else [ledger[0]] + Settle(ledger[1..], worker, amount)
  }

  function NewAccount(uuid: string, index: int, total: int64): Account {
    Account(Gpu(uuid, index, total, 0, {}, []), [])
  }

  function Reserve(a: Account, worker: string, model: string, amount: int64): Account {
    Account(
      a.gpu.(allocatedVram := Add64(a.gpu.allocatedVram, amount),
             loaded := a.gpu.loaded + {model},
             active := a.gpu.active + [worker]),
      a.ledger + [Reservation(worker, model, amount)])
  }

  function Refund(a: Account, worker: string, amount: int64): Account {
    var rest := Sub64(a.gpu.allocatedVram, amount);
    Account(
      a.gpu.(allocatedVram := if rest < 0 then 0 else rest, active := Without(a.gpu.active, worker)),
      Settle(a.ledger, worker, amount))
  }

  /** Every GPU has empty books. */
  ghost predicate NewFleet(f: Fleet) {
    forall u :: u in f ==> f[u] == NewAccount(u, f[u].gpu.index, f[u].gpu.total) && f[u].gpu.total >= 0
  }

  predicate Grants(f: Fleet, uuid: string, amount: int64) {
    uuid in f && f[uuid].gpu.HasRoom(amount)
  }

  function RegisterIn(f: Fleet, uuid: string, index: int, total: int64): Fleet {
    f[uuid := NewAccount(uuid, index, total)]
  }

  function AllocateIn(f: Fleet, uuid: string, worker: string, model: string, amount: int64): Fleet {
    if Grants(f, uuid, amount) then f[uuid := Reserve(f[uuid], worker, model, amount)] else f
  }

  function ReleaseIn(f: Fleet, uuid: string, worker: string, amount: int64): Fleet {
    if uuid in f then f[uuid := Refund(f[uuid], worker, amount)] else f
  }

  function Apply(f: Fleet, op: Op): Fleet {
    match op
    case Register(uuid, index, total) => RegisterIn(f, uuid, index, total)
    case Schedule(_, _) => f
    case Allocate(uuid, worker, model, amount) => AllocateIn(f, uuid, worker, model, amount)
    case Release(uuid, worker, amount) => ReleaseIn(f, uuid, worker, amount)
  }

  function Run(f: Fleet, ops: seq<Op>): Fleet {
    if ops == [] then f else Apply(Run(f, ops[..|ops| - 1]), ops[|ops| - 1])
  }

  // ----- capacity

  ghost predicate WithinCapacity(g: Gpu) {
    0 <= g.allocatedVram <= g.total
  }

  ghost predicate CapacitySafe(f: Fleet) {
    forall u :: u in f ==> WithinCapacity(f[u].gpu)
  }

  predicate NonNegative(op: Op) {
    match op
    case Register(_, _, total) => total >= 0
    case Schedule(_, amount) => amount >= 0
    case Allocate(_, _, _, amount) => amount >= 0
    case Release(_, _, amount) => amount >= 0
  }

  /** Every machine addition and subtraction the step performs has the mathematical result. */
  ghost predicate NoOverflow(f: Fleet, op: Op) {
    match op
    case Register(_, _, _) => true
    case Schedule(_, _) => forall u :: u in f ==> Fits(f[u].gpu.total - f[u].gpu.allocatedVram)
    case Allocate(u, _, _, amount) =>
      u in f ==>
        && Fits(f[u].gpu.total - f[u].gpu.allocatedVram)
        && (Grants(f, u, amount) ==> Fits(f[u].gpu.allocatedVram + amount))
    case Release(u, _, amount) => u in f ==> Fits(f[u].gpu.allocatedVram - amount)
  }

  /** The `k`-th step of the run overflows nothing. */
  ghost predicate NoOverflowAt(f: Fleet, ops: seq<Op>, k: nat)
    requires k < |ops|
  {
    NoOverflow(Run(f, ops[..k]), ops[k])
  }

  lemma CapacityStep(f: Fleet, op: Op)
    requires CapacitySafe(f) && NonNegative(op)
    ensures CapacitySafe(Apply(f, op))
    ensures NoOverflow(f, op)
  {
    match op
    case Register(_, _, _) =>
    case Schedule(_, _) =>
    case Allocate(u, worker, model, amount) =>
      if Grants(f, u, amount) {
        assert WithinCapacity(Reserve(f[u], worker, model, amount).gpu);
      }
    case Release(u, worker, amount) =>
      if u in f {
        assert WithinCapacity(Refund(f[u], worker, amount).gpu);
      }
  }

  /** In every interleaving the counter stays between zero and the GPU's size, and no step ever overflows. */
  lemma {:induction false} RunKeepsCapacity(f: Fleet, ops: seq<Op>)
    requires CapacitySafe(f)
    requires forall op :: op in ops ==> NonNegative(op)
    ensures CapacitySafe(Run(f, ops))
    ensures forall k :: 0 <= k < |ops| ==> NoOverflowAt(f, ops, k)
  {
    if ops != [] {
      var front, last := ops[..|ops| - 1], ops[|ops| - 1];
      RunKeepsCapacity(f, front);
      assert last in ops;
      CapacityStep(Run(f, front), last);
      forall k | 0 <= k < |ops| ensures NoOverflowAt(f, ops, k) {
        assert ops[..k] == front[..k];
        assert k < |front| ==> NoOverflowAt(f, front, k);
      }
    }
  }

  /**
   The code does not refuse a negative amount. From books in range, an Allocate leaves them in range exactly when the
   amount gives back no more than is reserved: at once smaller, the grant drives the counter below zero.
   */
  lemma AllocateStaysInRangeIff(a: Account, worker: string, model: string, amount: int64)
    requires WithinCapacity(a.gpu)
    ensures a.gpu.HasRoom(amount) ==>
      (WithinCapacity(Reserve(a, worker, model, amount).gpu) <==> amount >= -a.gpu.allocatedVram)
    ensures amount < -a.gpu.allocatedVram ==> a.gpu.HasRoom(amount)
  {
  }

  /** A Release of a negative amount stays in range unless it lifts the counter over the total without wrapping. */
  lemma RefundStaysInRangeIff(a: Account, worker: string, amount: int64)
    requires WithinCapacity(a.gpu)
    ensures WithinCapacity(Refund(a, worker, amount).gpu) <==>
      !(a.gpu.total < a.gpu.allocatedVram - amount <= MAX_INT64)
  {
  }

  /** The amount keeps the counter of the GPU in range. */
  ghost predicate StaysInRange(f: Fleet, op: Op) {
    match op
    case Register(_, _, total) => total >= 0
    case Schedule(_, _) => true
    case Allocate(u, _, _, amount) => Grants(f, u, amount) ==> f[u].gpu.allocatedVram + amount >= 0
    case Release(u, _, amount) =>
      u in f ==> !(f[u].gpu.total < f[u].gpu.allocatedVram - amount <= MAX_INT64)
  }

  lemma CapacityStepIff(f: Fleet, op: Op)
    requires CapacitySafe(f)
    ensures CapacitySafe(Apply(f, op)) <==> StaysInRange(f, op)
  {
    match op
    case Register(u, index, total) =>
      assert Apply(f, op)[u] == NewAccount(u, index, total);
    case Schedule(_, _) =>
    case Allocate(u, worker, model, amount) =>
      if Grants(f, u, amount) {
        AllocateStaysInRangeIff(f[u], worker, model, amount);
        assert Apply(f, op)[u] == Reserve(f[u], worker, model, amount);
      }
    case Release(u, worker, amount) =>
      if u in f {
        RefundStaysInRangeIff(f[u], worker, amount);
        assert Apply(f, op)[u] == Refund(f[u], worker, amount);
      }
  }

  ghost predicate SafeAt(f: Fleet, ops: seq<Op>, k: nat)
    requires k <= |ops|
  {
    CapacitySafe(Run(f, ops[..k]))
  }

  ghost predicate InRangeAt(f: Fleet, ops: seq<Op>, k: nat)
    requires k < |ops|
  {
    StaysInRange(Run(f, ops[..k]), ops[k])
  }

  ghost predicate SafeThroughout(f: Fleet, ops: seq<Op>) {
    forall k :: 0 <= k <= |ops| ==> SafeAt(f, ops, k)
  }

  ghost predicate AllInRange(f: Fleet, ops: seq<Op>) {
    forall k :: 0 <= k < |ops| ==> InRangeAt(f, ops, k)
  }

  lemma SafeNextIff(f: Fleet, ops: seq<Op>, k: nat)
    requires k < |ops| && SafeAt(f, ops, k)
    ensures SafeAt(f, ops, k + 1) <==> InRangeAt(f, ops, k)
  {
    CapacityStepIff(Run(f, ops[..k]), ops[k]);
    assert ops[..k + 1][..k] == ops[..k];
  }

  /**
   Whatever amounts clients ask for, negative ones too: every counter stays in its range throughout a run exactly when
   each granted Allocate gives back no more than is reserved, each Release lifts no counter over its total without
   wrapping, and each GPU is registered with a total that is not negative.
   */
  lemma {:induction false} SafeThroughoutIff(f: Fleet, ops: seq<Op>)
    requires CapacitySafe(f)
    ensures SafeThroughout(f, ops) <==> AllInRange(f, ops)
  {
    if SafeThroughout(f, ops) {
      forall k | 0 <= k < |ops| ensures InRangeAt(f, ops, k) {
        assert SafeAt(f, ops, k) && SafeAt(f, ops, k + 1);
        SafeNextIff(f, ops, k);
      }
    }
    if AllInRange(f, ops) {
      assert SafeAt(f, ops, 0);
      var k := 0;
      while k < |ops|
        invariant 0 <= k <= |ops|
        invariant forall j :: 0 <= j <= k ==> SafeAt(f, ops, j)
      {
        assert InRangeAt(f, ops, k);
        SafeNextIff(f, ops, k);
        k := k + 1;
      }
    }
  }

  // ----- the ledger

  function Sum(ledger: seq<Reservation>): int {
    if ledger == [] then 0 else ledger[0].amount + Sum(ledger[1..])
  }

  predicate Holds(ledger: seq<Reservation>, worker: string, amount: int64) {
    exists r :: r in ledger && r.worker == worker && r.amount == amount
  }

  ghost predicate AmountsNonNegative(ledger: seq<Reservation>) {
    forall r :: r in ledger ==> r.amount >= 0
  }

  lemma {:induction false} SumSnoc(ledger: seq<Reservation>, r: Reservation)
    ensures Sum(ledger + [r]) == Sum(ledger) + r.amount
  {
    if ledger != [] {
      assert (ledger + [r])[1..] == ledger[1..] + [r];
      SumSnoc(ledger[1..], r);
    }
  }

  /** Settling strikes out one matching reservation when there is one, and nothing otherwise. */
  lemma {:induction false} SettleSum(ledger: seq<Reservation>, worker: string, amount: int64)
    ensures Sum(Settle(ledger, worker, amount)) ==
      Sum(ledger) - (if Holds(ledger, worker, amount) then amount else 0)
    ensures forall r :: r in Settle(ledger, worker, amount) ==> r in ledger
    ensures forall r :: r in ledger && !(r.worker == worker && r.amount == amount)
                        ==> r in Settle(ledger, worker, amount)
    ensures |Settle(ledger, worker, amount)| == |ledger| - (if Holds(ledger, worker, amount) then 1 else 0)
  {
    if ledger != [] {
      SettleSum(ledger[1..], worker, amount);
      assert ledger == [ledger[0]] + ledger[1..];
      if ledger[0].worker == worker && ledger[0].amount == amount {
        assert ledger[0] in ledger;
      } else {
        assert Holds(ledger, worker, amount) <==> Holds(ledger[1..], worker, amount);
      }
    }
  }

  lemma {:induction false} SumNonNegative(ledger: seq<Reservation>)
    requires AmountsNonNegative(ledger)
    ensures Sum(ledger) >= 0
    ensures forall r :: r in ledger ==> r.amount <= Sum(ledger)
  {
    if ledger != [] {
      assert forall r :: r in ledger[1..] ==> r in ledger;
      SumNonNegative(ledger[1..]);
      assert ledger[0] in ledger;
    }
  }

  ghost predicate Bounded(a: Account) {
    AmountsNonNegative(a.ledger) && a.gpu.allocatedVram <= Sum(a.ledger)
  }

  ghost predicate Exact(a: Account) {
    a.gpu.allocatedVram == Sum(a.ledger)
  }

  /** A release that pairs with an unreleased reservation of the same worker and amount on that GPU. */
  ghost predicate Paired(f: Fleet, op: Op) {
    op.Release? && op.uuid in f ==> Holds(f[op.uuid].ledger, op.worker, op.amount)
  }

  ghost predicate PairedAt(f: Fleet, ops: seq<Op>, k: nat)
    requires k < |ops|
  {
    Paired(Run(f, ops[..k]), ops[k])
  }

  ghost predicate AllPaired(f: Fleet, ops: seq<Op>) {
    forall k :: 0 <= k < |ops| ==> PairedAt(f, ops, k)
  }

  lemma AllPairedFront(f: Fleet, ops: seq<Op>)
    requires ops != [] && AllPaired(f, ops)
    ensures AllPaired(f, ops[..|ops| - 1])
    ensures Paired(Run(f, ops[..|ops| - 1]), ops[|ops| - 1])
  {
    var front := ops[..|ops| - 1];
    forall k | 0 <= k < |front| ensures PairedAt(f, front, k) {
      assert ops[..k] == front[..k];
      assert PairedAt(f, ops, k);
    }
    assert PairedAt(f, ops, |ops| - 1);
  }

  lemma ReserveKeepsBound(a: Account, worker: string, model: string, amount: int64)
    requires amount >= 0 && WithinCapacity(a.gpu) && Bounded(a) && a.gpu.HasRoom(amount)
    ensures Bounded(Reserve(a, worker, model, amount))
    ensures Exact(a) ==> Exact(Reserve(a, worker, model, amount))
  {
    SumSnoc(a.ledger, Reservation(worker, model, amount));
  }

  lemma RefundKeepsBound(a: Account, worker: string, amount: int64)
    requires amount >= 0 && WithinCapacity(a.gpu) && Bounded(a)
    ensures Bounded(Refund(a, worker, amount))
    ensures Exact(a) && Holds(a.ledger, worker, amount) ==>
      Exact(Refund(a, worker, amount)) && a.gpu.allocatedVram - amount >= 0
  {
    SettleSum(a.ledger, worker, amount);
    SumNonNegative(a.ledger);
    SumNonNegative(Settle(a.ledger, worker, amount));
  }

  /**
   Exact books stay exact over a release exactly when it is paired, or takes nothing because the amount or the
   counter is zero. The other releases are the ones that lose VRAM from the books.
   */
  lemma RefundStaysExactIff(a: Account, worker: string, amount: int64)
    requires amount >= 0 && WithinCapacity(a.gpu) && Bounded(a) && Exact(a)
    ensures Exact(Refund(a, worker, amount)) <==>
      Holds(a.ledger, worker, amount) || amount == 0 || a.gpu.allocatedVram == 0
  {
    SettleSum(a.ledger, worker, amount);
    RefundKeepsBound(a, worker, amount);
  }

  ghost predicate LedgersBound(f: Fleet) {
    forall u :: u in f ==> Bounded(f[u])
  }

  ghost predicate LedgersExact(f: Fleet) {
    forall u :: u in f ==> Exact(f[u])
  }

  /** In every interleaving each counter is at most the sum of the unreleased reservations. */
  lemma {:induction false} RunKeepsLedgerBound(f: Fleet, ops: seq<Op>)
    requires CapacitySafe(f) && LedgersBound(f)
    requires forall op :: op in ops ==> NonNegative(op)
    ensures LedgersBound(Run(f, ops))
  {
    if ops != [] {
      var front, last := ops[..|ops| - 1], ops[|ops| - 1];
      RunKeepsLedgerBound(f, front);
      RunKeepsCapacity(f, front);
      LedgerStep(Run(f, front), last);
    }
  }

  lemma LedgerStep(f: Fleet, op: Op)
    requires CapacitySafe(f) && LedgersBound(f) && NonNegative(op)
    ensures LedgersBound(Apply(f, op))
    ensures LedgersExact(f) && Paired(f, op) ==> LedgersExact(Apply(f, op))
  {
    match op
    case Register(_, _, _) =>
    case Schedule(_, _) =>
    case Allocate(u, worker, model, amount) =>
      if Grants(f, u, amount) {
        ReserveKeepsBound(f[u], worker, model, amount);
      }
    case Release(u, worker, amount) =>
      if u in f {
        RefundKeepsBound(f[u], worker, amount);
      }
  }

  /** The clamp at zero changes the result of the step. */
  predicate Clamps(f: Fleet, op: Op) {
    op.Release? && op.uuid in f && f[op.uuid].gpu.allocatedVram - op.amount < 0
  }

  ghost predicate ClampsAt(f: Fleet, ops: seq<Op>, k: nat)
    requires k < |ops|
  {
    Clamps(Run(f, ops[..k]), ops[k])
  }

  /** While every release is paired, each counter equals its ledger and the clamp at zero never fires. */
  lemma {:induction false} PairedRunsAreExact(f: Fleet, ops: seq<Op>)
    requires CapacitySafe(f) && LedgersBound(f) && LedgersExact(f)
    requires forall op :: op in ops ==> NonNegative(op)
    requires AllPaired(f, ops)
    ensures LedgersExact(Run(f, ops))
    ensures forall k :: 0 <= k < |ops| ==> !ClampsAt(f, ops, k)
  {
    if ops != [] {
      var front, last := ops[..|ops| - 1], ops[|ops| - 1];
      AllPairedFront(f, ops);
      PairedRunsAreExact(f, front);
      RunKeepsLedgerBound(f, front);
      RunKeepsCapacity(f, front);
      var g := Run(f, front);
      LedgerStep(g, last);
      if last.Release? && last.uuid in g {
        RefundKeepsBound(g[last.uuid], last.worker, last.amount);
      }
      forall k | 0 <= k < |ops| ensures !ClampsAt(f, ops, k) {
        assert ops[..k] == front[..k];
        assert k < |front| ==> !ClampsAt(f, front, k);
      }
    }
  }

  // ----- what the ledger stands for

  ghost predicate IsGrant(f: Fleet, ops: seq<Op>, k: nat, uuid: string, worker: string, amount: int64)
    requires k < |ops|
  {
    ops[k].Allocate? && ops[k].uuid == uuid && ops[k].worker == worker && ops[k].amount == amount
    && Grants(Run(f, ops[..k]), uuid, amount)
  }

  /** How many Allocates of the run reserved `amount` for `worker` on the GPU. */
  ghost function GrantCount(f: Fleet, ops: seq<Op>, uuid: string, worker: string, amount: int64): nat {
    if ops == [] then 0
    else
      GrantCount(f, ops[..|ops| - 1], uuid, worker, amount)
      + (if IsGrant(f, ops, |ops| - 1, uuid, worker, amount) then 1 else 0)
  }

  function ReleaseCount(ops: seq<Op>, uuid: string, worker: string, amount: int64): nat {
    if ops == [] then 0
    else
      ReleaseCount(ops[..|ops| - 1], uuid, worker, amount)
      + (if ops[|ops| - 1] == Release(uuid, worker, amount) then 1 else 0)
  }

  function EntryCount(ledger: seq<Reservation>, worker: string, amount: int64): nat {
    if ledger == [] then 0
    else (if ledger[0].worker == worker && ledger[0].amount == amount then 1 else 0)
         + EntryCount(ledger[1..], worker, amount)
  }

  lemma {:induction false} EntryCountSnoc(ledger: seq<Reservation>, r: Reservation, worker: string, amount: int64)
    ensures EntryCount(ledger + [r], worker, amount) ==
      EntryCount(ledger, worker, amount) + (if r.worker == worker && r.amount == amount then 1 else 0)
  {
    if ledger != [] {
      assert (ledger + [r])[1..] == ledger[1..] + [r];
      EntryCountSnoc(ledger[1..], r, worker, amount);
    }
  }

  lemma {:induction false} EntryCountSettle(ledger: seq<Reservation>, w: string, v: int64, worker: string, amount: int64)
    ensures EntryCount(Settle(ledger, w, v), worker, amount) ==
      EntryCount(ledger, worker, amount) - (if w == worker && v == amount && Holds(ledger, w, v) then 1 else 0)
    ensures Holds(ledger, worker, amount) <==> EntryCount(ledger, worker, amount) > 0
  {
    if ledger != [] {
      EntryCountSettle(ledger[1..], w, v, worker, amount);
      assert ledger == [ledger[0]] + ledger[1..];
      if ledger[0].worker == w && ledger[0].amount == v {
        assert ledger[0] in ledger;
      } else {
        assert Holds(ledger, w, v) <==> Holds(ledger[1..], w, v);
      }
      if ledger[0].worker == worker && ledger[0].amount == amount {
        assert ledger[0] in ledger;
      } else {
        assert Holds(ledger, worker, amount) <==> Holds(ledger[1..], worker, amount);
      }
    }
  }

  /**
   In a run without registrations in which every release is paired, the ledger holds as many reservations of a worker
   and amount as there were grants of them less releases of them.
   */
  lemma {:induction false} LedgerIsGrantsLessReleases(f: Fleet, ops: seq<Op>, uuid: string, worker: string, amount: int64)
    requires uuid in f && f[uuid].ledger == []
    requires forall op :: op in ops ==> !op.Register?
    requires AllPaired(f, ops)
    ensures uuid in Run(f, ops)
    ensures EntryCount(Run(f, ops)[uuid].ledger, worker, amount) ==
      GrantCount(f, ops, uuid, worker, amount) - ReleaseCount(ops, uuid, worker, amount)
  {
    if ops != [] {
      var front, last := ops[..|ops| - 1], ops[|ops| - 1];
      AllPairedFront(f, ops);
      LedgerIsGrantsLessReleases(f, front, uuid, worker, amount);
      var g := Run(f, front);
      assert last in ops;
      if last.Allocate? {
        EntryCountSnoc(g[uuid].ledger, Reservation(last.worker, last.model, last.amount), worker, amount);
      } else if last.Release? {
        EntryCountSettle(g[uuid].ledger, last.worker, last.amount, worker, amount);
      }
    }
  }

  // ----- exactly when whole runs keep the books

  /**
   A client's own tally for one GPU, worker and amount: its successful Allocates less its Releases, never below zero, and
   zero again when the GPU is registered anew.
   */
  ghost function Tally(f: Fleet, ops: seq<Op>, uuid: string, worker: string, amount: int64): nat {
    if ops == [] then 0
    else
      var front, last := ops[..|ops| - 1], ops[|ops| - 1];
      var before := Tally(f, front, uuid, worker, amount);
      if last.Register? && last.uuid == uuid then 0
      else if IsGrant(f, ops, |ops| - 1, uuid, worker, amount) then before + 1
      else if last == Release(uuid, worker, amount) && before > 0 then before - 1
      else before
  }

  /** What one step does to the ledger's entries for a worker and amount. */
  lemma EntriesStep(g: Fleet, op: Op, uuid: string, worker: string, amount: int64)
    requires uuid in g
    ensures var before, after := EntryCount(g[uuid].ledger, worker, amount), EntryCount(Apply(g, op)[uuid].ledger, worker, amount);
      after ==
        if op.Register? && op.uuid == uuid then 0
        else if op.Allocate? && op.uuid == uuid && op.worker == worker && op.amount == amount && Grants(g, uuid, amount)
        then before + 1
        else if op == Release(uuid, worker, amount) && before > 0 then before - 1
        else before
  {
    hide Settle, EntryCount;
    if op.Register? && op.uuid == uuid {
      NoEntries(worker, amount);
    } else if op.Allocate? && op.uuid == uuid && Grants(g, uuid, op.amount) {
      EntryCountSnoc(g[uuid].ledger, Reservation(op.worker, op.model, op.amount), worker, amount);
    } else if op.Release? && op.uuid == uuid {
      EntryCountSettle(g[uuid].ledger, op.worker, op.amount, worker, amount);
    }
  }

  lemma NoEntries(worker: string, amount: int64)
    ensures EntryCount([], worker, amount) == 0
  {
  }

  /** In every run, paired or not, the ledger holds what the tally counts. */
  lemma {:induction false} LedgerIsTally(f: Fleet, ops: seq<Op>, uuid: string, worker: string, amount: int64)
    requires uuid in f ==> f[uuid].ledger == []
    ensures uuid in Run(f, ops) ==>
      && EntryCount(Run(f, ops)[uuid].ledger, worker, amount) == Tally(f, ops, uuid, worker, amount)
      && (Holds(Run(f, ops)[uuid].ledger, worker, amount) <==> Tally(f, ops, uuid, worker, amount) > 0)
    ensures uuid !in Run(f, ops) ==> Tally(f, ops, uuid, worker, amount) == 0
  {
    hide EntryCount, Reserve, Refund, Holds;
    NoEntries(worker, amount);
    if ops != [] {
      var front, last := ops[..|ops| - 1], ops[|ops| - 1];
      LedgerIsTally(f, front, uuid, worker, amount);
      if uuid in Run(f, front) {
        EntriesStep(Run(f, front), last, uuid, worker, amount);
      }
    }
    if uuid in Run(f, ops) {
      EntryCountSettle(Run(f, ops)[uuid].ledger, worker, amount, worker, amount);
    }
  }

  ghost predicate ExactAt(f: Fleet, ops: seq<Op>, k: nat)
    requires k <= |ops|
  {
    LedgersExact(Run(f, ops[..k]))
  }

  /** If the `k`-th step is a release on a registered GPU, the tally covers it, or it has nothing to take. */
  ghost predicate AccountedAt(f: Fleet, ops: seq<Op>, k: nat)
    requires k < |ops|
  {
    var op, g := ops[k], Run(f, ops[..k]);
    op.Release? && op.uuid in g ==>
      Tally(f, ops[..k], op.uuid, op.worker, op.amount) > 0 || op.amount == 0 || g[op.uuid].gpu.allocatedVram == 0
  }

  /** The counters equal the unreleased reservations at every point of the run. */
  ghost predicate ExactThroughout(f: Fleet, ops: seq<Op>) {
    forall k :: 0 <= k <= |ops| ==> ExactAt(f, ops, k)
  }

  ghost predicate AllAccounted(f: Fleet, ops: seq<Op>) {
    forall k :: 0 <= k < |ops| ==> AccountedAt(f, ops, k)
  }

  /** What one step does to exact books, both ways. */
  lemma LedgerStepIff(f: Fleet, op: Op)
    requires CapacitySafe(f) && LedgersBound(f) && LedgersExact(f) && NonNegative(op)
    ensures LedgersExact(Apply(f, op)) <==>
      (op.Release? && op.uuid in f ==>
         Holds(f[op.uuid].ledger, op.worker, op.amount) || op.amount == 0 || f[op.uuid].gpu.allocatedVram == 0)
  {
    LedgerStep(f, op);
    if op.Release? && op.uuid in f {
      RefundStaysExactIff(f[op.uuid], op.worker, op.amount);
      assert Apply(f, op)[op.uuid] == Refund(f[op.uuid], op.worker, op.amount);
      assert forall u :: u in f && u != op.uuid ==> Apply(f, op)[u] == f[u];
    }
  }

  lemma ExactNextIff(f: Fleet, ops: seq<Op>, k: nat)
    requires NewFleet(f)
    requires forall op :: op in ops ==> NonNegative(op)
    requires k < |ops| && ExactAt(f, ops, k)
    ensures ExactAt(f, ops, k + 1) <==> AccountedAt(f, ops, k)
  {
    assert forall op :: op in ops[..k] ==> op in ops;
    RunKeepsCapacity(f, ops[..k]);
    RunKeepsLedgerBound(f, ops[..k]);
    LedgerStepIff(Run(f, ops[..k]), ops[k]);
    assert ops[..k + 1][..k] == ops[..k];
    if ops[k].Release? {
      LedgerIsTally(f, ops[..k], ops[k].uuid, ops[k].worker, ops[k].amount);
    }
  }

  /**
   From fresh GPUs, the counters equal the unreleased reservations at every point of a run exactly when every Release is
   covered by the client's own tally of that worker and amount on that GPU, or is of nothing, or meets a counter of zero.
   */
  lemma {:induction false} ExactThroughoutIff(f: Fleet, ops: seq<Op>)
    requires NewFleet(f)
    requires forall op :: op in ops ==> NonNegative(op)
    ensures ExactThroughout(f, ops) <==> AllAccounted(f, ops)
  {
    if ExactThroughout(f, ops) {
      forall k | 0 <= k < |ops| ensures AccountedAt(f, ops, k) {
        assert ExactAt(f, ops, k) && ExactAt(f, ops, k + 1);
        ExactNextIff(f, ops, k);
      }
    }
    if AllAccounted(f, ops) {
      var k := 0;
      while k < |ops|
        invariant 0 <= k <= |ops|
        invariant forall j :: 0 <= j <= k ==> ExactAt(f, ops, j)
      {
        assert AccountedAt(f, ops, k);
        ExactNextIff(f, ops, k);
        k := k + 1;
      }
    }
  }

  // ----- residency

  /** The `k`-th step put `model` on the GPU, and the GPU has not been registered anew since. */
  ghost predicate LoadedAt(f: Fleet, ops: seq<Op>, k: nat, uuid: string, model: string)
    requires k < |ops|
  {
    && ops[k].Allocate? && ops[k].uuid == uuid && ops[k].model == model
    && Grants(Run(f, ops[..k]), uuid, ops[k].amount)
    && forall j :: k < j < |ops| ==> !(ops[j].Register? && ops[j].uuid == uuid)
  }

  /** LoadedModels is exact history: the models successfully allocated on the GPU since it was registered. */
  lemma {:induction false} ResidencyIsHistory(f: Fleet, ops: seq<Op>, uuid: string, model: string)
    requires uuid in f ==> f[uuid].gpu.loaded == {}
    requires uuid in Run(f, ops)
    ensures model in Run(f, ops)[uuid].gpu.loaded <==> exists k :: 0 <= k < |ops| && LoadedAt(f, ops, k, uuid, model)
  {
    if ops != [] {
      var front, last := ops[..|ops| - 1], ops[|ops| - 1];
      var g := Run(f, front);
      assert ops[..|ops| - 1] == front;
      if last.Register? && last.uuid == uuid {
        assert forall k :: 0 <= k < |ops| - 1 ==> !LoadedAt(f, ops, k, uuid, model);
      } else {
        ResidencyIsHistory(f, front, uuid, model);
        forall k | 0 <= k < |front|
          ensures LoadedAt(f, ops, k, uuid, model) <==> LoadedAt(f, front, k, uuid, model)
        {
          assert ops[..k] == front[..k] && ops[k] == front[k];
          assert forall j :: k < j < |front| ==> ops[j] == front[j];
        }
        if model in g[uuid].gpu.loaded {
          var k :| 0 <= k < |front| && LoadedAt(f, front, k, uuid, model);
          assert LoadedAt(f, ops, k, uuid, model);
        }
        assert model in Run(f, ops)[uuid].gpu.loaded <==>
          model in g[uuid].gpu.loaded || LoadedAt(f, ops, |front|, uuid, model);
      }
    }
  }

  ghost predicate ResidencyCovers(f: Fleet) {
    forall u, r :: u in f && r in f[u].ledger ==> r.model in f[u].gpu.loaded
  }

  /** Every reservation still live has its model resident. */
  lemma {:induction false} RunKeepsResidency(f: Fleet, ops: seq<Op>)
    requires ResidencyCovers(f)
    ensures ResidencyCovers(Run(f, ops))
  {
    if ops != [] {
      var front, last := ops[..|ops| - 1], ops[|ops| - 1];
      RunKeepsResidency(f, front);
      var g := Run(f, front);
      if last.Release? && last.uuid in g {
        SettleSum(g[last.uuid].ledger, last.worker, last.amount);
      }
    }
  }

  /** A warm answer outlives every later allocation and release, whatever becomes of the room it was given for. */
  lemma {:induction false} WarmStaysWarm(f: Fleet, ops: seq<Op>, uuid: string, model: string)
    requires uuid in f && model in f[uuid].gpu.loaded
    requires forall op :: op in ops ==> !op.Register?
    ensures uuid in Run(f, ops) && model in Run(f, ops)[uuid].gpu.loaded
  {
    if ops != [] {
      WarmStaysWarm(f, ops[..|ops| - 1], uuid, model);
      assert ops[|ops| - 1] in ops;
    }
  }

  // ----- scheduling answers

  /** What Schedule reports: the GPU, whether the model is resident there, and the VRAM free on it. */
  datatype Placement = Placement(uuid: string, index: int, warm: bool, available: int64)

  ghost predicate WarmRoom(f: Fleet, model: string, amount: int64) {
    exists u :: Grants(f, u, amount) && model in f[u].gpu.loaded
  }

  ghost predicate AnyRoom(f: Fleet, amount: int64) {
    exists u :: Grants(f, u, amount)
  }

  /**
   The answers Schedule may give on a fixed state: none when no GPU has room; otherwise a GPU with room, warm when some
   GPU with room has the model, with the most free VRAM among the GPUs of its class that have room.
   */
  ghost predicate Answers(f: Fleet, model: string, amount: int64, answer: Option<Placement>) {
    match answer
    case None => !AnyRoom(f, amount)
    case Some(c) =>
      && Grants(f, c.uuid, amount)
      && c.index == f[c.uuid].gpu.index
      && c.available == f[c.uuid].gpu.Free()
      && c.warm == (model in f[c.uuid].gpu.loaded)
      && c.warm == WarmRoom(f, model, amount)
      && forall u :: Grants(f, u, amount) && (model in f[u].gpu.loaded) == c.warm ==> f[u].gpu.Free() <= c.available
  }

  /** Whatever order the GPUs are listed in, the warmth and the free VRAM of the answer are the same. */
  lemma AnswersAgree(f: Fleet, model: string, amount: int64, a: Option<Placement>, b: Option<Placement>)
    requires Answers(f, model, amount, a) && Answers(f, model, amount, b)
    ensures a.None? <==> b.None?
    ensures a.Some? ==> a.value.warm == b.value.warm && a.value.available == b.value.available
    ensures a.None? <==> !AnyRoom(f, amount)
    ensures a.Some? && a.value.warm <==> WarmRoom(f, model, amount)
  {
    if a.Some? {
      assert Grants(f, a.value.uuid, amount);
    }
    if b.Some? {
      assert Grants(f, b.value.uuid, amount);
    }
  }

  /** A smaller requirement never loses room. */
  lemma RoomIsMonotone(f: Fleet, u: string, less: int64, more: int64)
    requires less <= more && Grants(f, u, more)
    ensures Grants(f, u, less)
  {
  }
}
