/** The books: where each job is, and which row it will write. */
module Books {
  import opened Common
  import opened Events
  import opened Protocol
  import opened Tally

  // ---- Where a job is --------------------------------------------------------

  ghost function PendingOf(id: EventId): Request -> int {
    (q: Request) => if (q.Stored? || q.Refused?) && q.draft.id == id then 1 else 0
  }

  ghost function QueuedOf(id: EventId): EventId -> int {
    (x: EventId) => if x == id then 1 else 0
  }

  ghost function RunningOf(id: EventId): Worker -> int {
    (w: Worker) => if w.Busy? && w.id == id then 1 else 0
  }

  ghost function LostOf(id: EventId): Closed -> int {
    (c: Closed) => if !c.ending.Persisted? && c.id == id then 1 else 0
  }

  ghost function SavedOf(id: EventId): Closed -> int {
    (c: Closed) => if c.ending.Persisted? && c.id == id then 1 else 0
  }

  /** Requests that committed the row as scheduled and have not handed over a job. */
  ghost function Pending(s: State, id: EventId): int { Total(s.requests, PendingOf(id)) }

  ghost function Queued(s: State, id: EventId): int { Total(s.queue, QueuedOf(id)) }

  ghost function Running(s: State, id: EventId): int { Total(s.pool, RunningOf(id)) }

  /** Jobs that ended without writing: raised, cancelled, dropped or stranded. */
  ghost function Lost(s: State, id: EventId): int { Total(s.closed, LostOf(id)) }

  /** Jobs that ended by writing their outcome. */
  ghost function Saved(s: State, id: EventId): int { Total(s.closed, SavedOf(id)) }

  /** The jobs of `id` that have not written an outcome. */
  ghost function Live(s: State, id: EventId): int {
    Pending(s, id) + Queued(s, id) + Running(s, id) + Lost(s, id)
  }

  // ---- Conservation of jobs --------------------------------------------------

  /** Whether an action is an insert that succeeds. */
  ghost predicate IsInsert(s: State, a: Action)
    requires Enabled(s, a)
  {
    a.ByRequest? && a.intake.Insert? && !Conflict(s, s.requests[a.r].draft)
  }

  /** The id an action inserts as scheduled. */
  ghost function Opened(s: State, a: Action): Option<EventId>
    requires Enabled(s, a)
  {
    if IsInsert(s, a) && s.requests[a.r].columns.status == Some(StatusScheduled)
    then Some(s.requests[a.r].draft.id) else None
  }

  /** The id whose job an action brings to a written outcome. */
  ghost function Settled(s: State, a: Action): Option<EventId>
    requires Enabled(s, a)
  {
    match a
    case ByRequest(r, FallBack) => Some(s.requests[r].draft.id)
    case ByWorker(w, Persist) => Some(s.pool[w].id)
    case _ => None
  }

  ghost predicate DownIsEmpty(s: State) { !s.up ==> s.pool == [] && s.queue == [] }

  /** The books of `id` from s to t: a job opened, settled, or written in between. */
  ghost predicate Moves(s: State, t: State, id: EventId, begun: bool, settled: bool, written: bool) {
    && Live(t, id) + One(settled) == Live(s, id) + One(begun)
    && Saved(t, id) == Saved(s, id) + One(written)
  }

  lemma RequestMoves(s: State, r: nat, q: Request, id: EventId)
    requires r < |s.requests|
    ensures Total(s.requests[r := q], PendingOf(id)) == Pending(s, id) - PendingOf(id)(s.requests[r]) + PendingOf(id)(q)
  {
    TotalUpdate(s.requests, r, q, PendingOf(id));
  }

  lemma WorkerMoves(s: State, w: nat, x: Worker, id: EventId)
    requires w < |s.pool|
    ensures Total(s.pool[w := x], RunningOf(id)) == Running(s, id) - RunningOf(id)(s.pool[w]) + RunningOf(id)(x)
  {
    TotalUpdate(s.pool, w, x, RunningOf(id));
  }

  lemma Closes(s: State, c: Closed, id: EventId)
    ensures Total(s.closed + [c], LostOf(id)) == Lost(s, id) + LostOf(id)(c)
    ensures Total(s.closed + [c], SavedOf(id)) == Saved(s, id) + SavedOf(id)(c)
  {
    TotalAppend(s.closed, c, LostOf(id));
    TotalAppend(s.closed, c, SavedOf(id));
  }

  lemma ProbeMoves(s: State, r: nat, id: EventId)
    requires RequestEnabled(s, r, Probe)
    ensures Moves(s, ApplyProbe(s, r), id, false, false, false)
  {
    RequestMoves(s, r, ApplyProbe(s, r).requests[r], id);
  }

  lemma InsertMoves(s: State, r: nat, id: EventId)
    requires RequestEnabled(s, r, Insert)
    ensures Moves(s, ApplyInsert(s, r), id, Opened(s, ByRequest(r, Insert)) == Some(id), false, false)
  {
    RequestMoves(s, r, ApplyInsert(s, r).requests[r], id);
  }

  lemma RereadMoves(s: State, r: nat, id: EventId)
    requires RequestEnabled(s, r, Reread)
    ensures Moves(s, ApplyReread(s, r), id, false, false, false)
  {
    RequestMoves(s, r, ApplyReread(s, r).requests[r], id);
  }

  lemma EnqueueMoves(s: State, r: nat, id: EventId)
    requires RequestEnabled(s, r, Enqueue)
    ensures Moves(s, ApplyEnqueue(s, r), id, false, false, false)
  {
    var d := s.requests[r].draft;
    RequestMoves(s, r, ApplyEnqueue(s, r).requests[r], id);
    Closes(s, Closed(d.id, NO_LOG, Stranded), id);
    TotalAppend(s.queue, d.id, QueuedOf(id));
    assert s.queue + [] == s.queue;
  }

  lemma FallBackMoves(s: State, r: nat, id: EventId)
    requires RequestEnabled(s, r, FallBack)
    ensures Moves(s, ApplyFallBack(s, r), id, false, s.requests[r].draft.id == id, false)
  {
    RequestMoves(s, r, ApplyFallBack(s, r).requests[r], id);
  }

  lemma DbErrorMoves(s: State, r: nat, id: EventId)
    requires RequestEnabled(s, r, DbError)
    ensures Moves(s, ApplyDbError(s, r), id, false, false, false)
  {
    RequestMoves(s, r, ApplyDbError(s, r).requests[r], id);
    Closes(s, Closed(s.requests[r].draft.id, NO_LOG, Stranded), id);
  }

  lemma DequeueMoves(s: State, w: nat, id: EventId)
    requires WorkerEnabled(s, w, Dequeue)
    ensures Moves(s, ApplyDequeue(s, w), id, false, false, false)
  {
    WorkerMoves(s, w, Busy(s.queue[0], NO_LOG, Resolving), id);
    TotalHead(s.queue, QueuedOf(id));
  }

  lemma ReleaseMoves(s: State, w: nat, ending: Ending, id: EventId)
    requires BusyIn(s, w)
    ensures var written := ending.Persisted? && s.pool[w].id == id;
      Moves(s, Release(s, w, ending), id, false, written, written)
  {
    WorkerMoves(s, w, Idle, id);
    Closes(s, Closed(s.pool[w].id, s.pool[w].log, ending), id);
  }

  /** A worker that goes on with the job it has. */
  lemma ContinueMoves(s: State, w: nat, step: WorkerStep, id: EventId)
    requires WorkerEnabled(s, w, step) && (step.Preflighted? || step.Replied? || step.Wake?)
    ensures Moves(s, ApplyWorker(s, w, step), id, false, false, false)
  {
    WorkerMoves(s, w, ApplyWorker(s, w, step).pool[w], id);
  }

  lemma {:induction false} DropsAll(queue: seq<EventId>, id: EventId)
    ensures Total(Drops(queue), LostOf(id)) == Total(queue, QueuedOf(id))
    ensures Total(Drops(queue), SavedOf(id)) == 0
  {
    if queue != [] {
      DropsAll(queue[..|queue| - 1], id);
      assert Drops(queue)[..|Drops(queue)| - 1] == Drops(queue[..|queue| - 1]);
    }
  }

  lemma {:induction false} CancelsAll(pool: seq<Worker>, id: EventId)
    ensures Total(Cancels(pool), LostOf(id)) == Total(pool, RunningOf(id))
    ensures Total(Cancels(pool), SavedOf(id)) == 0
  {
    if pool != [] {
      var n := |pool| - 1;
      CancelsAll(pool[..n], id);
      if pool[n].Busy? { assert Cancels(pool)[..|Cancels(pool)| - 1] == Cancels(pool[..n]); }
    }
  }

  lemma {:induction false} AllIdleIsZero(pool: seq<Worker>, f: Worker -> int)
    requires f(Idle) == 0 && forall w :: 0 <= w < |pool| ==> pool[w] == Idle
    ensures Total(pool, f) == 0
  {
    if pool != [] {
      AllIdleIsZero(pool[..|pool| - 1], f);
    }
  }

  lemma StartMoves(s: State, id: EventId)
    requires DownIsEmpty(s)
    ensures Moves(s, ApplyStartDispatcher(s), id, false, false, false)
  {
    if !s.up { AllIdleIsZero(ApplyStartDispatcher(s).pool, RunningOf(id)); }
  }

  lemma StopMoves(s: State, id: EventId)
    ensures Moves(s, ApplyStopDispatcher(s), id, false, false, false)
  {
    var more := s.closed + Drops(s.queue);
    DropsAll(s.queue, id);
    CancelsAll(s.pool, id);
    TotalConcat(s.closed, Drops(s.queue), LostOf(id));
    TotalConcat(more, Cancels(s.pool), LostOf(id));
    TotalConcat(s.closed, Drops(s.queue), SavedOf(id));
    TotalConcat(more, Cancels(s.pool), SavedOf(id));
  }

  lemma RequestConserves(s: State, r: nat, step: RequestStep, id: EventId)
    requires RequestEnabled(s, r, step)
    ensures var a := ByRequest(r, step);
      Moves(s, ApplyRequest(s, r, step), id, Opened(s, a) == Some(id), Settled(s, a) == Some(id), false)
  {
    match step
    case Probe => ProbeMoves(s, r, id);
    case Insert => InsertMoves(s, r, id);
    case Reread => RereadMoves(s, r, id);
    case Enqueue => EnqueueMoves(s, r, id);
    case FallBack => FallBackMoves(s, r, id);
    case DbError => DbErrorMoves(s, r, id);
  }

  lemma WorkerConserves(s: State, w: nat, step: WorkerStep, id: EventId)
    requires WorkerEnabled(s, w, step)
    ensures var written := Settled(s, ByWorker(w, step)) == Some(id);
      Moves(s, ApplyWorker(s, w, step), id, false, written, written)
  {
    match step
    case Dequeue => DequeueMoves(s, w, id);
    case Persist => ReleaseMoves(s, w, Persisted(s.pool[w].phase.result), id);
    case Fail => ReleaseMoves(s, w, Raised, id);
    case _ => ContinueMoves(s, w, step, id);
  }

  lemma ServiceConserves(s: State, step: ServiceStep, id: EventId)
    requires DownIsEmpty(s)
    ensures Moves(s, ApplyService(s, step), id, false, false, false)
  {
    match step
    case Arrive(d) => TotalAppend(s.requests, Arrived(d), PendingOf(id));
    case StartDispatcher => StartMoves(s, id);
    case StopDispatcher => StopMoves(s, id);
    case _ =>
  }

  /** Jobs are conserved: an action moves jobs between places, and none appears or
      disappears except where a scheduled row is inserted or an outcome written. */
  lemma JobsConserved(s: State, a: Action, id: EventId)
    requires Enabled(s, a) && DownIsEmpty(s)
    ensures Moves(s, Apply(s, a), id, Opened(s, a) == Some(id), Settled(s, a) == Some(id),
                  a.ByWorker? && Settled(s, a) == Some(id))
  {
    match a
    case ByRequest(r, step) => RequestConserves(s, r, step, id);
    case ByWorker(w, step) => WorkerConserves(s, w, step, id);
    case ByService(step) => ServiceConserves(s, step, id);
  }

  /** A request about to fall back, and a worker about to write, hold a live job. */
  lemma SettledIsLive(s: State, a: Action)
    requires Enabled(s, a) && Settled(s, a).Some?
    ensures Live(s, Settled(s, a).value) >= 1
  {
    var id := Settled(s, a).value;
    PlacesNonNegative(s, id);
    if a.ByRequest? {
      TotalMember(s.requests, a.r, PendingOf(id));
    } else {
      TotalMember(s.pool, a.w, RunningOf(id));
    }
  }

  lemma PlacesNonNegative(s: State, id: EventId)
    ensures Pending(s, id) >= 0 && Queued(s, id) >= 0 && Running(s, id) >= 0 && Lost(s, id) >= 0 && Saved(s, id) >= 0
  {
    TotalNonNegative(s.requests, PendingOf(id));
    TotalNonNegative(s.queue, QueuedOf(id));
    TotalNonNegative(s.pool, RunningOf(id));
    TotalNonNegative(s.closed, LostOf(id));
    TotalNonNegative(s.closed, SavedOf(id));
  }

  // ---- Jobs and rows ---------------------------------------------------------

  predicate IsScheduled(t: Table, id: EventId) { id in t && t[id].relay.status == Some(StatusScheduled) }

  predicate NoRelay(t: Table, id: EventId) { id in t && t[id].relay.status.None? }

  /** An id has at most one job ever, and none before it is inserted; while its row
      exists, the row is scheduled exactly when that job has yet to write, and a row
      inserted with no relay target never has a job. */
  ghost predicate BalancedAt(s: State, id: EventId) {
    && Live(s, id) + Saved(s, id) <= One(id in Used(s))
    && (id in s.table ==> Live(s, id) == One(IsScheduled(s.table, id)))
    && (NoRelay(s.table, id) ==> Saved(s, id) == 0)
  }

  ghost predicate Balanced(s: State) {
    && s.table.Keys !! s.cleaned.Keys
    && forall id :: BalancedAt(s, id)
  }

  /** The id an action inserts. */
  ghost function Inserted(s: State, a: Action): Option<EventId>
    requires Enabled(s, a)
  {
    if IsInsert(s, a) then Some(s.requests[a.r].draft.id) else None
  }

  /** Only an insert, a fallback, a write, and a cleanup touch the table. */
  lemma RequestTableFrame(s: State, r: nat, step: RequestStep)
    requires RequestEnabled(s, r, step) && !step.Insert? && !step.FallBack?
    ensures ApplyRequest(s, r, step).table == s.table
  {
  }

  lemma WorkerTableFrame(s: State, w: nat, step: WorkerStep)
    requires WorkerEnabled(s, w, step) && !step.Persist?
    ensures ApplyWorker(s, w, step).table == s.table
  {
  }

  lemma CleanupKeepsUsed(s: State, cutoff: int)
    requires s.table.Keys !! s.cleaned.Keys
    ensures var t := ApplyService(s, Cleanup(cutoff)); t.table.Keys !! t.cleaned.Keys && Used(t) == Used(s)
  {
    var t := ApplyService(s, Cleanup(cutoff));
    forall id ensures id in Used(t) <==> id in Used(s) {}
  }

  lemma InsertRow(s: State, r: nat)
    requires RequestEnabled(s, r, Insert) && s.table.Keys !! s.cleaned.Keys
    ensures var t := ApplyInsert(s, r);
      var id := s.requests[r].draft.id;
      if Conflict(s, s.requests[r].draft) then t.table == s.table && t.cleaned == s.cleaned
      else id !in Used(s) && t.table.Keys == s.table.Keys + {id} && t.cleaned == s.cleaned
           && t.table == s.table[id := t.table[id]] && t.table[id].relay == s.requests[r].columns
  {
  }

  /** The row of `id` from s to t: inserted in between, as scheduled or not, or
      brought to a written outcome. */
  ghost predicate RowStep(s: State, t: State, id: EventId, inserted: bool, begun: bool, settled: bool) {
    && t.table.Keys !! t.cleaned.Keys
    && (id in Used(t) <==> id in Used(s) || inserted)
    && (inserted ==> id !in Used(s))
    && (id in t.table ==> id in s.table || inserted)
    && (NoRelay(t.table, id) ==> !settled && (inserted || NoRelay(s.table, id)))
    && (id in t.table ==> (IsScheduled(t.table, id) <==> begun || (IsScheduled(s.table, id) && !settled)))
  }

  lemma RequestRow(s: State, r: nat, step: RequestStep, id: EventId)
    requires RequestEnabled(s, r, step) && s.table.Keys !! s.cleaned.Keys
    ensures var a := ByRequest(r, step);
      RowStep(s, ApplyRequest(s, r, step), id,
              Inserted(s, a) == Some(id), Opened(s, a) == Some(id), Settled(s, a) == Some(id))
  {
    match step
    case Insert => InsertRow(s, r);
    case FallBack => assert ApplyFallBack(s, r).table.Keys == s.table.Keys;
    case _ => RequestTableFrame(s, r, step);
  }

  lemma WorkerRow(s: State, w: nat, step: WorkerStep, id: EventId)
    requires WorkerEnabled(s, w, step) && s.table.Keys !! s.cleaned.Keys
    ensures RowStep(s, ApplyWorker(s, w, step), id, false, false, Settled(s, ByWorker(w, step)) == Some(id))
  {
    match step
    case Persist => assert ApplyPersist(s, w).table.Keys == s.table.Keys;
    case _ => WorkerTableFrame(s, w, step);
  }

  lemma ServiceRow(s: State, step: ServiceStep, id: EventId)
    requires s.table.Keys !! s.cleaned.Keys
    ensures RowStep(s, ApplyService(s, step), id, false, false, false)
  {
    match step
    case Cleanup(cutoff) => CleanupKeepsUsed(s, cutoff);
    case _ =>
  }

  /** What an action does to the row of `id`. */
  lemma RowMoves(s: State, a: Action, id: EventId)
    requires Enabled(s, a) && s.table.Keys !! s.cleaned.Keys
    ensures RowStep(s, Apply(s, a), id, Inserted(s, a) == Some(id), Opened(s, a) == Some(id), Settled(s, a) == Some(id))
  {
    match a
    case ByRequest(r, step) => RequestRow(s, r, step, id);
    case ByWorker(w, step) => WorkerRow(s, w, step, id);
    case ByService(step) => ServiceRow(s, step, id);
  }

  lemma BalancedAtStep(s: State, a: Action, id: EventId)
    requires Balanced(s) && Enabled(s, a) && DownIsEmpty(s)
    ensures BalancedAt(Apply(s, a), id)
  {
    assert BalancedAt(s, id);
    JobsConserved(s, a, id);
    PlacesNonNegative(s, id);
    RowMoves(s, a, id);
    if Settled(s, a) == Some(id) {
      SettledIsLive(s, a);
    }
  }

  lemma BalancedStep(s: State, a: Action)
    requires Balanced(s) && Enabled(s, a) && DownIsEmpty(s)
    ensures Balanced(Apply(s, a))
  {
    forall id ensures BalancedAt(Apply(s, a), id) { BalancedAtStep(s, a, id); }
    RowMoves(s, a, []);
  }
}
