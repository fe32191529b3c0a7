/** The network form of a worker: validation, and what survives the trip from one worker record to another. */
module Wire {
  import opened Machine
  import opened Lifecycle
  import opened Workers

  datatype WireModel = WireModel(name: string, version: string, vram: int64)

  datatype WireGPU = WireGPU(index: int, uuid: string, memory: int64)

  /** Below a second; digits past the ninth are not read. */
  type Nanos = n: int | 0 <= n < 1_000_000_000

  /** A timestamp text: a date-time of section 5.6 of RFC 3339, with or without a fraction of a second, or anything else. */
  datatype TimeText = DateTime(seconds: int, fraction: Nanos) | NotDateTime

  datatype WireMetrics = WireMetrics(uptimeSeconds: int, lastRequestAt: Option<TimeText>, totalRequests: int)

  datatype WireWorkerState = WireWorkerState(
    workerID: string,
    tenantID: string,
    status: string,
    model: Option<WireModel>,
    gpu: Option<WireGPU>,
    metrics: Option<WireMetrics>)

  datatype WireError =
    | NilMessage
    | MissingWorkerID
    | BadWorkerID
    | MissingTenantID
    | MissingStatus
    | UnknownStatus
    | MissingModelName
    | BadModelVRAM
    | BadLastRequestAt

  // ----- texts

  const SECOND: int := 1_000_000_000
  const FIRST_SECOND: int := -62_167_219_200  // 0000-01-01T00:00:00Z
  const LAST_SECOND: int := 253_402_300_799   // 9999-12-31T23:59:59Z

  predicate IsLeap(year: nat) {
    year % 4 == 0 && (year % 100 != 0 || year % 400 == 0)
  }

  /** The days from the first of January of year 0 to that of the year. */
  function DaysBefore(year: nat): int {
    if year == 0 then 0 else 365 * year + (year - 1) / 4 - (year - 1) / 100 + (year - 1) / 400 + 1
  }

  lemma YearLength(year: nat)
    ensures DaysBefore(year + 1) - DaysBefore(year) == if IsLeap(year) then 366 else 365
  {
    if year > 0 {
      Every4(year);
      Every100(year);
      Every400(year);
    }
    Nested(year);
  }

  lemma Every4(year: nat)
    requires year > 0
    ensures year / 4 - (year - 1) / 4 == if year % 4 == 0 then 1 else 0
  {
  }

  lemma Every100(year: nat)
    requires year > 0
    ensures year / 100 - (year - 1) / 100 == if year % 100 == 0 then 1 else 0
  {
  }

  lemma Every400(year: nat)
    requires year > 0
    ensures year / 400 - (year - 1) / 400 == if year % 400 == 0 then 1 else 0
  {
  }

  lemma MultipleOf100(n: nat, q: nat)
    requires n == 100 * q
    ensures n % 100 == 0
  {
  }

  lemma MultipleOf4(n: nat, q: nat)
    requires n == 4 * q
    ensures n % 4 == 0
  {
  }

  lemma Nested(year: nat)
    ensures year % 400 == 0 ==> year % 100 == 0
    ensures year % 100 == 0 ==> year % 4 == 0
  {
    if year % 400 == 0 {
      MultipleOf100(year, 4 * (year / 400));
    }
    if year % 100 == 0 {
      MultipleOf4(year, 25 * (year / 100));
    }
  }

  /** The two bounds are the first and the last second of the years with four digits. */
  lemma FourDigitYears()
    ensures FIRST_SECOND == -DaysBefore(1970) * 86_400
    ensures LAST_SECOND == (DaysBefore(10_000) - DaysBefore(1970)) * 86_400 - 1
  {
  }

  /** Formatting drops the sub-second part; a year without four digits gives a text that does not parse back. */
  function FormatTime(t: Instant): TimeText {
    if FIRST_SECOND <= t / SECOND <= LAST_SECOND then DateTime(t / SECOND, 0) else NotDateTime
  }

  function ParseTime(text: TimeText): Option<Instant> {
    match text
    case DateTime(seconds, fraction) => Some(seconds * SECOND + fraction)
    case NotDateTime => None
  }

  function Truncated(t: Instant): Instant {
    t - t % SECOND
  }

  lemma TimeRoundTrip(t: Instant)
    ensures ParseTime(FormatTime(t)) ==
      if FIRST_SECOND <= t / SECOND <= LAST_SECOND then Some(Truncated(t)) else None
    ensures Truncated(Truncated(t)) == Truncated(t) <= t < Truncated(t) + SECOND
    ensures Truncated(t) / SECOND == t / SECOND
  {
    assert t == (t / SECOND) * SECOND + t % SECOND;
    assert Truncated(t) == (t / SECOND) * SECOND;
  }

  /** A text read and written again names the same second, its fraction gone. */
  lemma TextRoundTrip(text: TimeText)
    requires text.DateTime? && FIRST_SECOND <= text.seconds <= LAST_SECOND
    ensures ParseTime(text).Some? && FormatTime(ParseTime(text).value) == text.(fraction := 0)
  {
    assert ParseTime(text).value / SECOND == text.seconds;
  }

  predicate IsHex(c: char) {
    '0' <= c <= '9' || 'a' <= c <= 'f' || 'A' <= c <= 'F'
  }

  /** The text form of section 4 of RFC 9562: 32 hexadecimal digits in groups of 8, 4, 4, 4 and 12. */
  predicate ValidateUUID(s: string) {
    && |s| == 36
    && forall i :: 0 <= i < 36 ==> if i in {8, 13, 18, 23} then s[i] == '-' else IsHex(s[i])
  }

  predicate AllHex(s: string) {
    forall i :: 0 <= i < |s| ==> IsHex(s[i])
  }

  /** A valid text is five groups of hexadecimal digits with hyphens between them. */
  lemma UUIDGroups(s: string)
    ensures ValidateUUID(s) <==> exists a: string, b: string, c: string, d: string, e: string ::
      && |a| == 8 && |b| == 4 && |c| == 4 && |d| == 4 && |e| == 12
      && AllHex(a) && AllHex(b) && AllHex(c) && AllHex(d) && AllHex(e)
      && s == a + "-" + b + "-" + c + "-" + d + "-" + e
  {
    if ValidateUUID(s) {
      var a, b, c, d, e := s[..8], s[9..13], s[14..18], s[19..23], s[24..];
      assert AllHex(a) && AllHex(b) && AllHex(c) && AllHex(d) && AllHex(e);
      assert s == a + "-" + b + "-" + c + "-" + d + "-" + e;
    }
  }

  function StatusText(s: Status): string {
    match s
    case Pending => "PENDING"
    case Starting => "STARTING"
    case Running => "RUNNING"
    case Idle => "IDLE"
    case Terminating => "TERMINATING"
  }

  function ParseStatus(text: string): Option<Status> {
    if text == "PENDING" then Some(Pending)
    else if text == "STARTING" then Some(Starting)
    else if text == "RUNNING" then Some(Running)
    else if text == "IDLE" then Some(Idle)
    else if text == "TERMINATING" then Some(Terminating)
    else None
  }

  lemma StatusRoundTrip(s: Status)
    ensures ParseStatus(StatusText(s)) == Some(s)
    ensures StatusText(s) != ""
  {
    assert StatusText(s)[0] in {'P', 'S', 'R', 'I', 'T'};
  }

  // ----- the operations

  function Validate(w: WireWorkerState): Option<WireError> {
    if w.workerID == "" then Some(MissingWorkerID)
    else if !ValidateUUID(w.workerID) then Some(BadWorkerID)
    else if w.tenantID == "" then Some(MissingTenantID)
    else if w.status == "" then Some(MissingStatus)
    else if ParseStatus(w.status).None? then Some(UnknownStatus)
    else if w.model.Some? && w.model.value.name == "" then Some(MissingModelName)
    else if w.model.Some? && w.model.value.vram <= 0 then Some(BadModelVRAM)
    else if w.metrics.Some? && w.metrics.value.lastRequestAt.Some?
            && ParseTime(w.metrics.value.lastRequestAt.value).None? then Some(BadLastRequestAt)
    else None
  }

  /** Which error a message gets: the first of these that applies. */
  lemma ValidateFields(m: WireWorkerState)
    ensures var err := Validate(m);
      var id, last := ValidateUUID(m.workerID), if m.metrics.Some? then m.metrics.value.lastRequestAt else None;
      var tenant := id && m.tenantID != "";
      var status := tenant && m.status in {"PENDING", "STARTING", "RUNNING", "IDLE", "TERMINATING"};
      var name := status && (m.model.Some? ==> m.model.value.name != "");
      var vram := name && (m.model.Some? ==> m.model.value.vram > 0);
      && (err == Some(MissingWorkerID) <==> m.workerID == "")
      && (err == Some(BadWorkerID) <==> m.workerID != "" && !id)
      && (err == Some(MissingTenantID) <==> id && !tenant)
      && (err == Some(MissingStatus) <==> tenant && m.status == "")
      && (err == Some(UnknownStatus) <==> tenant && m.status != "" && !status)
      && (err == Some(MissingModelName) <==> status && !name)
      && (err == Some(BadModelVRAM) <==> name && !vram)
      && (err == Some(BadLastRequestAt) <==> vram && last == Some(NotDateTime))
      && (err == None <==> vram && last != Some(NotDateTime))
  {
  }

  /** Whole seconds, cut toward zero. */
  function WholeSeconds(d: int): int {
    if d >= 0 then d / SECOND else -(-d / SECOND)
  }

  function ToWire(w: Worker, now: Instant): WireWorkerState {
    WireWorkerState(
      w.workerID,
      w.tenantID,
      StatusText(w.status),
      match w.model
      case None => None
      case Some(m) => Some(WireModel(m.name, m.version, m.vram)),
      match w.gpu
      case None => None
      case Some(g) => Some(WireGPU(g.index, g.uuid, g.memory)),
      match w.metrics
      case None => None
      case Some(m) =>
        Some(WireMetrics(
          WholeSeconds(Elapsed(now, w.createdAt)),
          if m.lastRequestAt.Some? then Some(FormatTime(m.lastRequestAt.value)) else None,
          m.totalRequests)))
  }

  /** What a worker's network form says. */
  lemma ToWireFields(w: Worker, now: Instant)
    ensures var m := ToWire(w, now);
      && m.workerID == w.workerID && m.tenantID == w.tenantID
      && m.status == (match w.status
                      case Pending => "PENDING"
                      case Starting => "STARTING"
                      case Running => "RUNNING"
                      case Idle => "IDLE"
                      case Terminating => "TERMINATING")
      && (m.model.Some? <==> w.model.Some?) && (m.gpu.Some? <==> w.gpu.Some?) && (m.metrics.Some? <==> w.metrics.Some?)
      && (w.model.Some? ==>
            && m.model.value.name == w.model.value.name && m.model.value.version == w.model.value.version
            && m.model.value.vram == w.model.value.vram)
      && (w.gpu.Some? ==>
            && m.gpu.value.index == w.gpu.value.index && m.gpu.value.uuid == w.gpu.value.uuid
            && m.gpu.value.memory == w.gpu.value.memory)
      && (w.metrics.Some? ==> m.metrics.value.totalRequests == w.metrics.value.totalRequests)
      && (w.metrics.Some? && 0 <= now - w.createdAt <= MAX_INT64 ==>
            var up := m.metrics.value.uptimeSeconds;
            up * 1_000_000_000 <= now - w.createdAt < (up + 1) * 1_000_000_000)
  {
  }

  function MergedMetrics(prior: Option<Metrics>, m: WireMetrics): Metrics {
    var base := if prior.Some? then prior.value else Metrics(0, None, 0);
    var text := m.lastRequestAt;
    base.(
      totalRequests := m.totalRequests,
      lastRequestAt :=
        if text.Some? && ParseTime(text.value).Some? then ParseTime(text.value) else base.lastRequestAt)
  }

  /** The receiver after a message that validates. */
  function Merged(w: Worker, wire: WireWorkerState, now: Instant): Worker
    requires Validate(wire).None?
  {
    w.(
      status := ParseStatus(wire.status).value,
      model :=
        if wire.model.Some?
        then Some(ModelConfig(wire.model.value.name, wire.model.value.version, wire.model.value.vram))
        else w.model,
      gpu :=
        if wire.gpu.Some?
        then Some(GPUAssignment(wire.gpu.value.index, wire.gpu.value.uuid, wire.gpu.value.memory))
        else w.gpu,
      metrics := if wire.metrics.Some? then Some(MergedMetrics(w.metrics, wire.metrics.value)) else w.metrics,
      updatedAt := now)
  }

  /** An accepted message, field by field. */
  lemma MergedFields(b: Worker, m: WireWorkerState, now: Instant)
    requires Validate(m).None?
    ensures var c := Merged(b, m, now);
      && c.status == (if m.status == "PENDING" then Pending else if m.status == "STARTING" then Starting
                      else if m.status == "RUNNING" then Running else if m.status == "IDLE" then Idle else Terminating)
      && c.updatedAt == now && c.containerID == b.containerID && c.lastHeartbeat == b.lastHeartbeat
      && c.model == (if m.model.None? then b.model
                     else Some(ModelConfig(m.model.value.name, m.model.value.version, m.model.value.vram)))
      && c.gpu == (if m.gpu.None? then b.gpu
                   else Some(GPUAssignment(m.gpu.value.index, m.gpu.value.uuid, m.gpu.value.memory)))
      && (m.metrics.None? ==> c.metrics == b.metrics)
    ensures m.metrics.Some? ==>
      var c, sent, was := Merged(b, m, now), m.metrics.value, b.metrics;
      && c.metrics.Some? && c.metrics.value.totalRequests == sent.totalRequests
      && c.metrics.value.uptimeSeconds == (if was.Some? then was.value.uptimeSeconds else 0)
      && (sent.lastRequestAt.None? ==> c.metrics.value.lastRequestAt == if was.Some? then was.value.lastRequestAt else None)
      && (sent.lastRequestAt.Some? ==>
            && sent.lastRequestAt.value.DateTime?
            && c.metrics.value.lastRequestAt ==
                 Some(sent.lastRequestAt.value.seconds * 1_000_000_000 + sent.lastRequestAt.value.fraction))
  {
  }

  method FromWire(w: WorkerState, message: Option<WireWorkerState>, now: Instant) returns (err: Option<WireError>)
    modifies w
    ensures err == if message.None? then Some(NilMessage) else Validate(message.value)
    ensures err.Some? ==> w.View() == old(w.View())
    ensures err.None? ==> w.View() == Merged(old(w.View()), message.value, now)
    // the same over the fields
    ensures message.None? ==> err == Some(NilMessage)
    ensures err.None? ==>
      var m := message.value;
      && w.status == (if m.status == "PENDING" then Pending else if m.status == "STARTING" then Starting
                      else if m.status == "RUNNING" then Running else if m.status == "IDLE" then Idle else Terminating)
      && w.updatedAt == now && w.containerID == old(w.containerID) && w.lastHeartbeat == old(w.lastHeartbeat)
      && w.model == (if m.model.None? then old(w.model)
                     else Some(ModelConfig(m.model.value.name, m.model.value.version, m.model.value.vram)))
      && w.gpu == (if m.gpu.None? then old(w.gpu)
                   else Some(GPUAssignment(m.gpu.value.index, m.gpu.value.uuid, m.gpu.value.memory)))
      && (m.metrics.None? ==> w.metrics == old(w.metrics))
    ensures err.None? && message.value.metrics.Some? ==>
      var m, was := message.value.metrics.value, old(w.metrics);
      && w.metrics.Some? && w.metrics.value.totalRequests == m.totalRequests
      && w.metrics.value.uptimeSeconds == (if was.Some? then was.value.uptimeSeconds else 0)
      && (m.lastRequestAt.None? ==> w.metrics.value.lastRequestAt == if was.Some? then was.value.lastRequestAt else None)
      && (m.lastRequestAt.Some? ==>
            && m.lastRequestAt.value.DateTime?
            && w.metrics.value.lastRequestAt ==
                 Some(m.lastRequestAt.value.seconds * 1_000_000_000 + m.lastRequestAt.value.fraction))
  {
    hide Merged, Validate;
    ghost var before := w.View();
    err := Receive(w, message, now);
    if err.None? {
      MergedFields(before, message.value, now);
    }
  }

  /** The steps of FromWire, under the write lock. */
  method Receive(w: WorkerState, message: Option<WireWorkerState>, now: Instant) returns (err: Option<WireError>)
    modifies w
    ensures err == if message.None? then Some(NilMessage) else Validate(message.value)
    ensures err.Some? ==> w.View() == old(w.View())
    ensures err.None? ==> w.View() == Merged(old(w.View()), message.value, now)
  {
    if message.None? {
      return Some(NilMessage);
    }
    var wire := message.value;
    err := Validate(wire);
    if err.Some? {
      return;
    }
    w.status := ParseStatus(wire.status).value;
    if wire.model.Some? {
      w.model := Some(ModelConfig(wire.model.value.name, wire.model.value.version, wire.model.value.vram));
    }
    if wire.gpu.Some? {
      w.gpu := Some(GPUAssignment(wire.gpu.value.index, wire.gpu.value.uuid, wire.gpu.value.memory));
    }
    if wire.metrics.Some? {
      if w.metrics.None? {
        w.metrics := Some(Metrics(0, None, 0));
      }
      w.metrics := Some(w.metrics.value.(totalRequests := wire.metrics.value.totalRequests));
      if wire.metrics.value.lastRequestAt.Some? {
        var t := ParseTime(wire.metrics.value.lastRequestAt.value);
        if t.Some? {
          w.metrics := Some(w.metrics.value.(lastRequestAt := t));
        }
      }
    }
    w.updatedAt := now;
  }

  // ----- what the trip preserves

  ghost predicate HasLastRequest(w: Worker) {
    w.metrics.Some? && w.metrics.value.lastRequestAt.Some?
  }

  function Request(w: Worker): Instant
    requires HasLastRequest(w)
  {
    w.metrics.value.lastRequestAt.value
  }

  /** A worker's own network form validates exactly when these fields are in order; its status never stands in the way. */
  lemma ToWireValidIff(a: Worker, now: Instant)
    ensures Validate(ToWire(a, now)).None? <==>
      && ValidateUUID(a.workerID)
      && a.tenantID != ""
      && (a.model.Some? ==> a.model.value.name != "" && a.model.value.vram > 0)
      && (HasLastRequest(a) ==> FIRST_SECOND <= Request(a) / SECOND <= LAST_SECOND)
  {
    StatusRoundTrip(a.status);
  }

  /** The message carries the sender's fields over; where it has none, the receiver keeps its own. */
  lemma RoundTrip(a: Worker, b: Worker, sent: Instant, received: Instant)
    requires Validate(ToWire(a, sent)).None?
    ensures var c := Merged(b, ToWire(a, sent), received);
      && c.status == a.status
      && c.model == (if a.model.Some? then a.model else b.model)
      && c.gpu == (if a.gpu.Some? then a.gpu else b.gpu)
      && (a.metrics.None? ==> c.metrics == b.metrics)
      && (a.metrics.Some? ==> c.metrics.Some? && c.metrics.value.totalRequests == a.metrics.value.totalRequests)
      && (HasLastRequest(a) ==> HasLastRequest(c) && Request(c) == Truncated(Request(a)))
      && (!HasLastRequest(a) ==> (HasLastRequest(c) <==> HasLastRequest(b)))
      && (!HasLastRequest(a) && HasLastRequest(b) ==> Request(c) == Request(b))
      && c.workerID == b.workerID && c.tenantID == b.tenantID && c.containerID == b.containerID
      && c.createdAt == b.createdAt && c.lastHeartbeat == b.lastHeartbeat && c.updatedAt == received
  {
    StatusRoundTrip(a.status);
    ToWireValidIff(a, sent);
    if HasLastRequest(a) {
      TimeRoundTrip(Request(a));
    }
  }

  /** Delivering the same message again changes nothing but the time of the update. */
  lemma RedeliveryChangesNothing(b: Worker, wire: WireWorkerState, first: Instant, second: Instant)
    requires Validate(wire).None?
    ensures Merged(Merged(b, wire, first), wire, second) == Merged(b, wire, first).(updatedAt := second)
  {
  }

  /**
   Let `c` be the receiver after the sender's message. Sending `c` to itself changes nothing more exactly when its
   last-request time is a whole second, which holds when the sender had such a time, or when neither side had one, or
   the receiver's own was whole. A third trip never changes anything.
   */
  lemma SecondTripChangesNothingIff(a: Worker, b: Worker, sent: Instant, t1: Instant, t2: Instant, t3: Instant)
    requires Validate(ToWire(a, sent)).None?
    requires Validate(ToWire(Merged(b, ToWire(a, sent), t1), t1)).None?
    ensures var c := Merged(b, ToWire(a, sent), t1);
      var d := Merged(c, ToWire(c, t1), t2);
      && (d == c.(updatedAt := t2) <==>
          HasLastRequest(a) || !HasLastRequest(b) || Request(b) % SECOND == 0)
      && Validate(ToWire(d, t2)).None?
      && Merged(d, ToWire(d, t2), t3) == d.(updatedAt := t3)
  {
    var c := Merged(b, ToWire(a, sent), t1);
    RoundTrip(a, b, sent, t1);
    RoundTrip(c, c, t1, t2);
    var d := Merged(c, ToWire(c, t1), t2);
    ToWireValidIff(c, t1);
    ToWireValidIff(d, t2);
    if HasLastRequest(a) {
      TimeRoundTrip(Request(a));
    }
    if HasLastRequest(c) {
      TimeRoundTrip(Request(c));
    }
    RoundTrip(d, d, t2, t3);
  }

  /** A message may set any status: the move it makes is a legal transition exactly when the table says so. */
  lemma MessageIgnoresTransitions(w: Worker, status: Status, now: Instant)
    requires ValidateUUID(w.workerID) && w.tenantID != ""
    ensures var wire := WireWorkerState(w.workerID, w.tenantID, StatusText(status), None, None, None);
      && Validate(wire).None?
      && Merged(w, wire, now).status == status
      && (Merged(w, wire, now) == Moved(w, status, now) <==>
          CanMove(w.status, status) || (w.status == status && w.updatedAt == now))
  {
    StatusRoundTrip(status);
  }
}
