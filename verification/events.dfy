/** The events table: rows, the relay columns, and the statements the service runs
    against it (app/db/models.py, app/api/routes.py, app/services/cleanup.py). */
module Events {
  import opened Common
  import opened Text
  import opened Relay

  type EventId = Str

  datatype RelayStatus = StatusScheduled | StatusSuccess | StatusFailed | StatusSkipped

  /** The relay columns; the two flags are stored as 0 or 1. */
  datatype RelayColumns = RelayColumns(
    status: Option<RelayStatus>,
    attempted: int,
    success: int,
    attempts: nat,
    reason: Option<Reason>,
    lastError: Option<ErrorText>,
    lastStatusCode: Option<int>,
    lastAttemptAt: Option<int>)

  datatype Event = Event(source: Str, receivedAt: int, key: Option<Str>, relay: RelayColumns)

  type Table = map<EventId, Event>

  // ---- Relay columns ---------------------------------------------------------

  /** The column defaults of a row inserted without a relay target. */
  const NO_RELAY := RelayColumns(None, 0, 0, 0, None, None, None, None)

  /** The columns of a row inserted with its relay still to run. */
  const SCHEDULED := NO_RELAY.(status := Some(StatusScheduled), reason := Some(Scheduled))

  /** The columns of a row inserted while the queue was already full. */
  const PRE_FULL := NO_RELAY.(status := Some(StatusSkipped), reason := Some(QueueFull),
                              lastError := Some(QueueIsFull))

  function QueueFullRelayResult(): RelayResult {
    RelayResult(false, false, Some(QueueFull), None, 0, Some(QueueIsFull), None)
  }

  /** The column values an outcome is persisted as. */
  function RelayUpdateValues(r: RelayResult): RelayColumns {
    var status := if r.success then StatusSuccess else StatusFailed;
    RelayColumns(
      Some(if !r.attempted then StatusSkipped else status),
      if r.attempted then 1 else 0,
      if r.success then 1 else 0,
      r.attempts, r.reason, r.lastError, r.statusCode, r.lastAttemptAt)
  }

  /** The relay part of a response, read back from the columns. */
  function EventRelayResult(c: RelayColumns): Option<RelayResult> {
    if c.status.None? then None
    else Some(RelayResult(c.attempted != 0, c.success != 0, c.reason, c.lastStatusCode,
                          c.attempts, c.lastError, c.lastAttemptAt))
  }

  /** The columns say this outcome, field by field. */
  predicate Says(c: RelayColumns, r: RelayResult) {
    && c.status == Some(if !r.attempted then StatusSkipped else if r.success then StatusSuccess else StatusFailed)
    && c.attempted == (if r.attempted then 1 else 0) && c.success == (if r.success then 1 else 0)
    && c.attempts == r.attempts && c.reason == r.reason && c.lastError == r.lastError
    && c.lastStatusCode == r.statusCode && c.lastAttemptAt == r.lastAttemptAt
  }

  /** What is persisted for an outcome reads back as that outcome. */
  lemma PersistedOutcomeReadsBack(r: RelayResult)
    ensures EventRelayResult(RelayUpdateValues(r)) == Some(r)
  {
  }

  /** The two ways to record a full queue store the same columns. */
  lemma QueueFullColumnsAgree()
    ensures RelayUpdateValues(QueueFullRelayResult()) == PRE_FULL
  {
  }

  predicate Terminal(c: RelayColumns) {
    c.status.Some? && c.status != Some(StatusScheduled)
  }

  /** The columns a row may hold: untouched, scheduled, or a consistent outcome
      whose status follows from its flags. */
  predicate ColumnsConsistent(c: RelayColumns, n: nat) {
    match c.status
    case None => c == NO_RELAY
    case Some(StatusScheduled) => c == SCHEDULED
    case Some(StatusSuccess) =>
      && c.attempted == 1 && c.success == 1 && 1 <= c.attempts <= n
      && c.lastStatusCode.Some? && 200 <= c.lastStatusCode.value < 300 && c.lastAttemptAt.Some?
      && c.reason == Some(Success) && c.lastError.None?
    case Some(StatusFailed) =>
      && c.attempted == 1 && c.success == 0 && c.attempts == n && c.lastError.Some? && c.lastAttemptAt.Some?
      && (c.lastStatusCode.Some? ==> !(200 <= c.lastStatusCode.value < 300))
      && c.reason in [Some(Non2xx), Some(Timeout), Some(ConnectionError), Some(HttpError)]
      && (c.reason == Some(Non2xx) ==> c.lastStatusCode.Some? && c.lastError == Some(BadStatus(c.lastStatusCode.value)))
    case Some(StatusSkipped) =>
      && c.attempted == 0 && c.success == 0 && c.attempts == 0
      && c.lastStatusCode.None? && c.lastAttemptAt.None?
      && (IsRefusal(c.reason) || c.reason == Some(QueueFull))
  }

  lemma UpdateValuesConsistent(r: RelayResult, n: nat)
    requires Consistent(r, n)
    ensures ColumnsConsistent(RelayUpdateValues(r), n) && Terminal(RelayUpdateValues(r))
  {
  }

  // ---- Statements ------------------------------------------------------------

  /** UPDATE ... WHERE id = `id`: no effect when there is no such row. */
  function BlindUpdate(t: Table, id: EventId, c: RelayColumns): Table {
    if id in t then t[id := t[id].(relay := c)] else t
  }

  predicate Holds(e: Event, source: Str, key: Str) {
    e.source == source && e.key == Some(key)
  }

  /** Whether inserting this row violates the primary key or the unique constraint
      on (source, idempotency key), which a missing key never does. */
  predicate Conflicts(t: Table, id: EventId, source: Str, key: Option<Str>) {
    id in t || (key.Some? && exists x :: x in t && Holds(t[x], source, key.value))
  }

  /** At most one row for each (source, key). */
  predicate UniqueKeys(t: Table) {
    forall x, y :: x in t && y in t && t[x].key.Some? && Holds(t[y], t[x].source, t[x].key.value) ==> x == y
  }

  /** The rows with `received_at` before the cutoff, and the others. */
  function Expired(t: Table, cutoff: int): Table { map id | id in t && t[id].receivedAt < cutoff :: t[id] }

  function Retained(t: Table, cutoff: int): Table { map id | id in t && !(t[id].receivedAt < cutoff) :: t[id] }

  /** The id of the row holding (source, key), when there is one. */
  ghost function Holder(t: Table, source: Str, key: Str): (r: Option<EventId>)
    ensures r.Some? ==> r.value in t && Holds(t[r.value], source, key)
    ensures r.None? ==> forall x :: x in t ==> !Holds(t[x], source, key)
  {
    if exists x :: x in t && Holds(t[x], source, key)
    then (var x :| x in t && Holds(t[x], source, key); Some(x)) else None
  }

  lemma HolderIs(t: Table, source: Str, key: Str, id: EventId)
    requires UniqueKeys(t) && id in t && Holds(t[id], source, key)
    ensures Holder(t, source, key) == Some(id)
  {
  }

  /** Both columns decide: a row is refused for its key exactly when a row of the same
      source has the same key, and a key that is missing is refused never. */
  lemma ConflictsMeans(t: Table, id: EventId, source: Str, key: Option<Str>)
    ensures Conflicts(t, id, source, key) <==>
      id in t || exists x :: x in t && t[x].source == source && t[x].key == key && t[x].key != None
  {
    if x :| x in t && t[x].source == source && t[x].key == key && t[x].key != None {
      assert Holds(t[x], source, key.value);
    }
  }
}
