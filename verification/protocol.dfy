/** Intake, queue, workers, cleanup and lifecycle as one state machine.

    One action is what runs between two points where something else may run: the
    await points of the event loop, and between two database transactions, where the
    cleanup process may come in. `Apply` is what the action does, `Enabled` when it can
    happen. Requests, finished jobs and cleaned rows are kept as history.
 */
module Protocol {
  import opened Common
  import opened Text
  import opened Relay
  import opened Events

  /** Settings; `relayOn` says whether a relay target is configured. */
  datatype Config = Config(relayOn: bool, queueSize: int, workerCount: int, maxAttempts: nat) {
    function Capacity(): nat { Max(queueSize, 1) }
    function Workers(): nat { Max(workerCount, 1) }
  }

  /** The event a request builds before it touches the database. */
  datatype Draft = Draft(id: EventId, source: Str, key: Option<Str>, receivedAt: int)

  datatype Answer = Answer(id: EventId, receivedAt: int, relay: Option<RelayResult>)

  /** How far one intake request has come. */
  datatype Request =
    | Arrived(draft: Draft)
    | Probed(draft: Draft, columns: RelayColumns)  // the queue has been probed
    | Conflicted(draft: Draft)                     // the insert hit a constraint
    | Stored(draft: Draft)                         // scheduled row committed, no job yet
    | Refused(draft: Draft)                        // the queue refused the job
    | Answered(draft: Draft, answer: Answer)
    | Rejected(draft: Draft)                       // ended in an error

  /** What a job has met so far: replies received, and the start of each attempt. */
  datatype Log = Log(replies: seq<Reply>, stamps: seq<int>)

  const NO_LOG := Log([], [])

  datatype Phase =
    | Resolving
    | Posting
    | Sleeping
    | Finishing(result: RelayResult)  // outcome returned, not yet written

  datatype Worker = Idle | Busy(id: EventId, log: Log, phase: Phase)

  datatype Ending = Persisted(result: RelayResult) | Raised | Cancelled | Dropped | Stranded

  /** A job that is over. */
  datatype Closed = Closed(id: EventId, log: Log, ending: Ending)

  datatype State = State(
    cfg: Config,
    client: bool,
    up: bool,
    table: Table,
    cleaned: Table,
    requests: seq<Request>,
    queue: seq<EventId>,
    unfinished: nat,
    pool: seq<Worker>,
    closed: seq<Closed>,
    accepted: seq<EventId>,     // jobs put on the present queue, in order
    started: seq<EventId>,      // jobs taken from the present queue, in order
    received: map<Str, nat>,
    attemptsTotal: nat,
    successesTotal: nat)

  /** What an intake request does next; `DbError` is a database exception other than a
      constraint violation, at the insert, the re-read, or the fallback's update. */
  datatype RequestStep = Probe | Insert | Reread | Enqueue | FallBack | DbError

  /** What a worker does next; `Fail` is an exception in its job, wherever it comes
      from: preflight, the request, or the database. */
  datatype WorkerStep =
    | Dequeue
    | Preflighted(verdict: Verdict, now: int)
    | Replied(reply: Reply)
    | Wake(now: int)
    | Persist
    | Fail

  datatype ServiceStep =
    | Arrive(draft: Draft)
    | Cleanup(cutoff: int)
    | StartClient
    | StopClient
    | StartDispatcher
    | StopDispatcher

  datatype Action =
    | ByRequest(r: nat, intake: RequestStep)
    | ByWorker(w: nat, work: WorkerStep)
    | ByService(service: ServiceStep)

  ghost function Init(cfg: Config): State {
    State(cfg, false, false, map[], map[], [], [], 0, [], [], [], [], map[], 0, 0)
  }

  /** Every id that was ever inserted. */
  function Used(s: State): set<EventId> { s.table.Keys + s.cleaned.Keys }

  function Count(m: map<Str, nat>, k: Str): nat { if k in m then m[k] else 0 }

  function AnswerFor(t: Table, id: EventId): Answer
    requires id in t
  {
    Answer(id, t[id].receivedAt, EventRelayResult(t[id].relay))
  }

  predicate Conflict(s: State, d: Draft) { Conflicts(s.table, d.id, d.source, d.key) }

  predicate KeyGiven(d: Draft) { d.key.Some? && d.key.value != [] }

  // ---- When an action can happen ---------------------------------------------

  predicate BusyIn(s: State, w: nat) { w < |s.pool| && s.pool[w].Busy? }

  predicate RequestEnabled(s: State, r: nat, step: RequestStep) {
    r < |s.requests| &&
    match step
    case Probe => s.requests[r].Arrived?
    // event ids are fresh: one that was used and removed does not come back
    case Insert => s.requests[r].Probed? && s.requests[r].draft.id !in s.cleaned
    case Reread => s.requests[r].Conflicted?
    case Enqueue => s.requests[r].Stored?
    case FallBack => s.requests[r].Refused?
    case DbError => s.requests[r].Probed? || s.requests[r].Conflicted? || s.requests[r].Refused?
  }

  predicate WorkerEnabled(s: State, w: nat, step: WorkerStep) {
    w < |s.pool| &&
    match step
    case Dequeue => s.pool[w].Idle? && s.queue != []
    case Preflighted(verdict, _) =>
      && s.pool[w].Busy? && s.pool[w].phase.Resolving?
      && (match verdict case Pass => s.client case Skip(result) => IsSkipped(result) case Raise => false)
    case Replied(reply) => s.pool[w].Busy? && s.pool[w].phase.Posting? && !reply.Unexpected?
    case Wake(_) => s.pool[w].Busy? && s.pool[w].phase.Sleeping?
    case Persist => s.pool[w].Busy? && s.pool[w].phase.Finishing?
    case Fail => s.pool[w].Busy?
  }

  predicate ServiceEnabled(s: State, step: ServiceStep) {
    match step
    case StopClient => !s.up
    case StartDispatcher => s.client
    // cancellation reaches a job at an await point, never between outcome and write
    case StopDispatcher => forall w :: 0 <= w < |s.pool| && s.pool[w].Busy? ==> !s.pool[w].phase.Finishing?
    case _ => true
  }

  predicate Enabled(s: State, a: Action) {
    match a
    case ByRequest(r, step) => RequestEnabled(s, r, step)
    case ByWorker(w, step) => WorkerEnabled(s, w, step)
    case ByService(step) => ServiceEnabled(s, step)
  }

  // ---- What an action does ---------------------------------------------------

  function SetRequest(s: State, r: nat, q: Request): State
    requires r < |s.requests|
  {
    s.(requests := s.requests[r := q])
  }

  predicate HasCapacity(s: State) { |s.queue| < s.cfg.Capacity() }

  /** `relay_queue_has_capacity` raises when the dispatcher is down. */
  function AfterProbe(s: State, d: Draft): Request {
    if !s.cfg.relayOn then Probed(d, NO_RELAY)
    else if !s.up then Rejected(d)
    else if HasCapacity(s) then Probed(d, SCHEDULED)
    else Probed(d, PRE_FULL)
  }

  function ApplyProbe(s: State, r: nat): State
    requires r < |s.requests|
  {
    SetRequest(s, r, AfterProbe(s, s.requests[r].draft))
  }

  function AfterInsert(s: State, d: Draft, columns: RelayColumns): Request {
    if Conflict(s, d) then
      if KeyGiven(d) then Conflicted(d) else Rejected(d)
    else if columns.status == Some(StatusScheduled) then Stored(d)
    else Answered(d, Answer(d.id, d.receivedAt, EventRelayResult(columns)))
  }

  function ApplyInsert(s: State, r: nat): State
    requires r < |s.requests| && s.requests[r].Probed?
  {
    var d := s.requests[r].draft;
    var columns := s.requests[r].columns;
    s.(requests := s.requests[r := AfterInsert(s, d, columns)],
       table := if Conflict(s, d) then s.table else s.table[d.id := Event(d.source, d.receivedAt, d.key, columns)],
       received := if Conflict(s, d) then s.received else s.received[d.source := Count(s.received, d.source) + 1])
  }

  ghost function AfterReread(s: State, d: Draft): Request {
    if d.key.None? then Rejected(d)
    else match Holder(s.table, d.source, d.key.value)
      case None => Rejected(d)
      case Some(x) => Answered(d, AnswerFor(s.table, x))
  }

  ghost function ApplyReread(s: State, r: nat): State
    requires r < |s.requests|
  {
    SetRequest(s, r, AfterReread(s, s.requests[r].draft))
  }

  /** `enqueue_relay_job` raises when the dispatcher is down, leaving the row with no job. */
  function AfterEnqueue(s: State, d: Draft): Request {
    if !s.up then Rejected(d)
    else if HasCapacity(s) then Answered(d, Answer(d.id, d.receivedAt, EventRelayResult(SCHEDULED)))
    else Refused(d)
  }

  function ApplyEnqueue(s: State, r: nat): State
    requires r < |s.requests|
  {
    var d := s.requests[r].draft;
    var job := if s.up && HasCapacity(s) then [d.id] else [];
    s.(requests := s.requests[r := AfterEnqueue(s, d)],
       queue := s.queue + job,
       accepted := s.accepted + job,
       unfinished := s.unfinished + |job|,
       closed := if s.up then s.closed else s.closed + [Closed(d.id, NO_LOG, Stranded)])
  }

  function ApplyFallBack(s: State, r: nat): State
    requires r < |s.requests|
  {
    var d := s.requests[r].draft;
    var columns := RelayUpdateValues(QueueFullRelayResult());
    s.(requests := s.requests[r := Answered(d, Answer(d.id, d.receivedAt, EventRelayResult(columns)))],
       table := BlindUpdate(s.table, d.id, columns))
  }

  /** The transaction is rolled back and the request fails; a row that was to be marked
      as skipped stays scheduled, with no job. */
  function ApplyDbError(s: State, r: nat): State
    requires r < |s.requests|
  {
    var d := s.requests[r].draft;
    s.(requests := s.requests[r := Rejected(d)],
       closed := if s.requests[r].Refused? then s.closed + [Closed(d.id, NO_LOG, Stranded)] else s.closed)
  }

  function ApplyDequeue(s: State, w: nat): State
    requires w < |s.pool| && s.queue != []
  {
    s.(pool := s.pool[w := Busy(s.queue[0], NO_LOG, Resolving)],
       queue := s.queue[1..],
       started := s.started + [s.queue[0]])
  }

  function ApplyPreflighted(s: State, w: nat, verdict: Verdict, now: int): State
    requires BusyIn(s, w) && !verdict.Raise?
  {
    var x := if verdict.Skip? then s.pool[w].(phase := Finishing(verdict.result))
             else s.pool[w].(log := Log([], [now]), phase := Posting);
    s.(pool := s.pool[w := x],
       attemptsTotal := s.attemptsTotal + if verdict.Skip? then 0 else 1)
  }

  function ApplyReplied(s: State, w: nat, reply: Reply): State
    requires BusyIn(s, w)
  {
    var log := Log(s.pool[w].log.replies + [reply], s.pool[w].log.stamps);
    var over := Is2xx(reply) || |log.replies| >= s.cfg.maxAttempts;
    var phase := if over && |log.replies| == |log.stamps| then Finishing(Conclude(log.replies, log.stamps))
                 else Sleeping;
    s.(pool := s.pool[w := Busy(s.pool[w].id, log, phase)],
       successesTotal := s.successesTotal + if Is2xx(reply) then 1 else 0)
  }

  function ApplyWake(s: State, w: nat, now: int): State
    requires BusyIn(s, w)
  {
    var log := s.pool[w].log;
    s.(pool := s.pool[w := Busy(s.pool[w].id, log.(stamps := log.stamps + [now]), Posting)],
       attemptsTotal := s.attemptsTotal + 1)
  }

  /** A worker is idle again and has called `task_done`. */
  function Release(s: State, w: nat, ending: Ending): State
    requires BusyIn(s, w)
  {
    s.(pool := s.pool[w := Idle],
       closed := s.closed + [Closed(s.pool[w].id, s.pool[w].log, ending)],
       unfinished := Max(s.unfinished - 1, 0))
  }

  function ApplyPersist(s: State, w: nat): State
    requires BusyIn(s, w) && s.pool[w].phase.Finishing?
  {
    var result := s.pool[w].phase.result;
    Release(s, w, Persisted(result)).(table := BlindUpdate(s.table, s.pool[w].id, RelayUpdateValues(result)))
  }

  function Drops(queue: seq<EventId>): seq<Closed> {
    if queue == [] then [] else Drops(queue[..|queue| - 1]) + [Closed(queue[|queue| - 1], NO_LOG, Dropped)]
  }

  function Cancels(pool: seq<Worker>): seq<Closed> {
    if pool == [] then []
    else match pool[|pool| - 1]
      case Idle => Cancels(pool[..|pool| - 1])
      case Busy(id, log, _) => Cancels(pool[..|pool| - 1]) + [Closed(id, log, Cancelled)]
  }

  function ApplyStopDispatcher(s: State): State {
    s.(up := false, queue := [], pool := [], unfinished := 0, accepted := [], started := [],
       closed := s.closed + Drops(s.queue) + Cancels(s.pool))
  }

  function ApplyStartDispatcher(s: State): State {
    s.(up := true,
       queue := if s.up then s.queue else [],
       unfinished := if s.up then s.unfinished else 0,
       accepted := if s.up then s.accepted else [],
       started := if s.up then s.started else [],
       pool := if s.up then s.pool else seq(s.cfg.Workers(), _ => Idle))
  }

  function ApplyCleanup(s: State, cutoff: int): State {
    s.(table := Retained(s.table, cutoff), cleaned := s.cleaned + Expired(s.table, cutoff))
  }

  ghost function ApplyRequest(s: State, r: nat, step: RequestStep): State
    requires RequestEnabled(s, r, step)
  {
    match step
    case Probe => ApplyProbe(s, r)
    case Insert => ApplyInsert(s, r)
    case Reread => ApplyReread(s, r)
    case Enqueue => ApplyEnqueue(s, r)
    case FallBack => ApplyFallBack(s, r)
    case DbError => ApplyDbError(s, r)
  }

  function ApplyWorker(s: State, w: nat, step: WorkerStep): State
    requires WorkerEnabled(s, w, step)
  {
    match step
    case Dequeue => ApplyDequeue(s, w)
    case Preflighted(verdict, now) => ApplyPreflighted(s, w, verdict, now)
    case Replied(reply) => ApplyReplied(s, w, reply)
    case Wake(now) => ApplyWake(s, w, now)
    case Persist => ApplyPersist(s, w)
    case Fail => Release(s, w, Raised)
  }

  function ApplyService(s: State, step: ServiceStep): State {
    match step
    case Arrive(draft) => s.(requests := s.requests + [Arrived(draft)])
    case Cleanup(cutoff) => ApplyCleanup(s, cutoff)
    case StartClient => s.(client := true)
    case StopClient => s.(client := false)
    case StartDispatcher => ApplyStartDispatcher(s)
    case StopDispatcher => ApplyStopDispatcher(s)
  }

  ghost function Apply(s: State, a: Action): State
    requires Enabled(s, a)
  {
    match a
    case ByRequest(r, step) => ApplyRequest(s, r, step)
    case ByWorker(w, step) => ApplyWorker(s, w, step)
    case ByService(step) => ApplyService(s, step)
  }

  // ---- Runs ------------------------------------------------------------------

  ghost predicate StepsTo(s: State, a: Action, t: State) { Enabled(s, a) && t == Apply(s, a) }

  ghost predicate StepAt(states: seq<State>, actions: seq<Action>, i: nat)
    requires |states| == |actions| + 1 && i < |actions|
  {
    StepsTo(states[i], actions[i], states[i + 1])
  }

  ghost predicate IsRun(states: seq<State>, actions: seq<Action>) {
    && |states| == |actions| + 1
    && forall i :: 0 <= i < |actions| ==> StepAt(states, actions, i)
  }
}
