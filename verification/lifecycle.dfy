/** The main results about whole runs of the protocol: where jobs are, how rows
    evolve, what intake answers, and what the counters count. */
module Lifecycle {
  import opened Common
  import opened Relay
  import opened Events
  import opened Protocol
  import opened Tally
  import opened Books
  import opened Invariants
  import opened Runs

  // ---- Jobs and rows ---------------------------------------------------------

  /** In every reachable state a scheduled row has exactly one job, and it is in
      exactly one place: about to be handed over, queued, running, or lost. A row in
      any other status has no outstanding job, and no id has had more than one. */
  lemma EachScheduledRowHasOneJob(states: seq<State>, actions: seq<Action>, i: nat, id: EventId)
    requires Reachable(states, actions) && i < |states|
    ensures var s := states[i];
      var places := [Pending(s, id), Queued(s, id), Running(s, id), Lost(s, id)];
      && (forall p :: 0 <= p < 4 ==> 0 <= places[p] <= 1)
      && places[0] + places[1] + places[2] + places[3] + Saved(s, id) <= 1
      && (id in s.table ==>
            places[0] + places[1] + places[2] + places[3] == One(s.table[id].relay.status == Some(StatusScheduled)))
      && (id in s.table && Saved(s, id) == 1 ==> Terminal(s.table[id].relay))
  {
    InvHolds(states, actions, i);
    PlacesNonNegative(states[i], id);
    assert BalancedAt(states[i], id);
  }

  /** Every row of every reachable state holds a consistent set of relay columns: none
      yet, or those of an outcome that preflight, the retry loop or a full queue gives. */
  lemma RowsHoldConsistentOutcomes(states: seq<State>, actions: seq<Action>, i: nat, id: EventId)
    requires Reachable(states, actions) && i < |states| && id in states[i].table
    ensures var c, n := states[i].table[id].relay, states[i].cfg.maxAttempts;
      && ColumnsConsistent(c, n)
      && (Terminal(c) ==> EventRelayResult(c).Some? && Consistent(EventRelayResult(c).value, n)
                          && RelayUpdateValues(EventRelayResult(c).value) == c)
  {
    InvHolds(states, actions, i);
    var c := states[i].table[id].relay;
    if Terminal(c) { OutcomeReadsBackConsistent(c, states[i].cfg.maxAttempts); }
  }

  lemma OutcomeReadsBackConsistent(c: RelayColumns, n: nat)
    requires ColumnsConsistent(c, n) && Terminal(c)
    ensures EventRelayResult(c).Some? && Consistent(EventRelayResult(c).value, n)
    ensures RelayUpdateValues(EventRelayResult(c).value) == c
  {
  }

  // ---- Rows over time --------------------------------------------------------

  /** From s to t no row comes back or changes identity, and relay columns change
      only from scheduled to an outcome. */
  ghost predicate Evolves(s: State, t: State) {
    RowsKeep(s, t)
    && forall id :: id in s.table && id in t.table ==>
         t.table[id].relay == s.table[id].relay
         || (s.table[id].relay == SCHEDULED && Terminal(t.table[id].relay))
  }

  /** The blind write of an outcome meets a scheduled row, or none. */
  lemma SettledRowIsScheduled(s: State, a: Action)
    requires Inv(s) && Enabled(s, a) && Settled(s, a).Some?
    ensures var id := Settled(s, a).value; id in s.table ==> s.table[id].relay == SCHEDULED
  {
    var id := Settled(s, a).value;
    SettledIsLive(s, a);
    assert BalancedAt(s, id);
    if id in s.table { assert ColumnsConsistent(s.table[id].relay, s.cfg.maxAttempts); }
  }

  lemma EvolvesRequest(s: State, r: nat, step: RequestStep)
    requires Inv(s) && RequestEnabled(s, r, step)
    ensures Evolves(s, ApplyRequest(s, r, step))
  {
    RowsKeepRequest(s, r, step);
    match step
    case Insert => InsertRow(s, r);
    case FallBack => SettledRowIsScheduled(s, ByRequest(r, FallBack)); QueueFullColumnsAgree();
    case _ => RequestTableFrame(s, r, step);
  }

  lemma EvolvesWorker(s: State, w: nat, step: WorkerStep)
    requires Inv(s) && WorkerEnabled(s, w, step)
    ensures Evolves(s, ApplyWorker(s, w, step))
  {
    RowsKeepWorker(s, w, step);
    match step
    case Persist => SettledRowIsScheduled(s, ByWorker(w, Persist));
    case _ => WorkerTableFrame(s, w, step);
  }

  lemma EvolvesService(s: State, step: ServiceStep)
    requires s.table.Keys !! s.cleaned.Keys
    ensures Evolves(s, ApplyService(s, step))
  {
    RowsKeepService(s, step);
  }

  lemma EvolvesStep(s: State, a: Action)
    requires Inv(s) && Enabled(s, a)
    ensures Evolves(s, Apply(s, a))
  {
    match a
    case ByRequest(r, step) => EvolvesRequest(s, r, step);
    case ByWorker(w, step) => EvolvesWorker(s, w, step);
    case ByService(step) => EvolvesService(s, step);
  }

  lemma EvolvesTransitive(s: State, t: State, u: State)
    requires Evolves(s, t) && Evolves(t, u)
    ensures Evolves(s, u)
  {
    forall id | id in s.table && id in u.table
      ensures u.table[id].relay == s.table[id].relay
              || (s.table[id].relay == SCHEDULED && Terminal(u.table[id].relay))
    {
      assert id in t.table;
    }
  }

  /** The lifecycle of rows over whole runs. */
  lemma {:induction false} RowsEvolve(states: seq<State>, actions: seq<Action>, i: nat, j: nat)
    requires Reachable(states, actions) && i <= j < |states|
    ensures Evolves(states[i], states[j])
    decreases j
  {
    if i < j {
      RowsEvolve(states, actions, i, j - 1);
      EvolvesNext(states, actions, j - 1);
      EvolvesTransitive(states[i], states[j - 1], states[j]);
    }
  }

  lemma EvolvesNext(states: seq<State>, actions: seq<Action>, k: nat)
    requires Reachable(states, actions) && k < |actions|
    ensures Evolves(states[k], states[k + 1])
  {
    InvHolds(states, actions, k);
    assert StepAt(states, actions, k);
    EvolvesStep(states[k], actions[k]);
  }

  /** A row's relay columns change at most once, from scheduled to an outcome, and a
      row that is gone stays gone, whatever is written to its id later. */
  lemma RelayColumnsAreWrittenOnce(states: seq<State>, actions: seq<Action>, i: nat, j: nat, k: nat, id: EventId)
    requires Reachable(states, actions) && i <= j <= k < |states|
    ensures id in states[i].table && id !in states[j].table ==> id !in states[k].table
    ensures id in states[i].table && id in states[k].table ==> id in states[j].table
    ensures id in states[i].table && id in states[j].table && id in states[k].table ==>
      var before, middle, after := states[i].table[id].relay, states[j].table[id].relay, states[k].table[id].relay;
      && (before != middle ==> before == SCHEDULED && Terminal(middle) && after == middle)
      && (before != SCHEDULED ==> after == before)
  {
    RowsEvolve(states, actions, i, j);
    RowsEvolve(states, actions, j, k);
    RowsEvolve(states, actions, i, k);
  }

  /** Jobs that are over stay over. */
  lemma ClosedGrows(s: State, a: Action, t: State)
    requires StepsTo(s, a, t)
    ensures s.closed <= t.closed
  {
    match a
    case ByRequest(r, step) => RequestFrame(s, r, step);
    case ByWorker(w, step) => WorkerFrame(s, w, step);
    case ByService(step) =>
  }

  lemma LostGrows(s: State, t: State, id: EventId)
    requires s.closed <= t.closed
    ensures Lost(s, id) <= Lost(t, id)
  {
    var more := t.closed[|s.closed|..];
    assert t.closed == s.closed + more;
    TotalConcat(s.closed, more, LostOf(id));
    TotalNonNegative(more, LostOf(id));
  }

  lemma {:induction false} LostStaysLost(states: seq<State>, actions: seq<Action>, i: nat, j: nat, id: EventId)
    requires IsRun(states, actions) && i <= j < |states|
    ensures Lost(states[i], id) <= Lost(states[j], id)
    decreases j
  {
    if i < j {
      LostStaysLost(states, actions, i, j - 1, id);
      assert StepAt(states, actions, j - 1);
      ClosedGrows(states[j - 1], actions[j - 1], states[j]);
      LostGrows(states[j - 1], states[j], id);
    }
  }

  /** Nothing retries a job that raised, or that a shutdown dropped or cancelled: from
      then on, restarts included, its row stays scheduled for as long as it is there. */
  lemma LostJobsAreNeverRetried(states: seq<State>, actions: seq<Action>, i: nat, j: nat, id: EventId)
    requires Reachable(states, actions) && i <= j < |states| && Lost(states[i], id) >= 1
    ensures id in states[j].table ==> states[j].table[id].relay == SCHEDULED
    ensures Queued(states[j], id) == 0 && Running(states[j], id) == 0 && Saved(states[j], id) == 0
  {
    LostStaysLost(states, actions, i, j, id);
    InvHolds(states, actions, j);
    PlacesNonNegative(states[j], id);
    assert BalancedAt(states[j], id);
    if id in states[j].table {
      assert ColumnsConsistent(states[j].table[id].relay, states[j].cfg.maxAttempts);
    }
  }

  // ---- One job for each id -----------------------------------------------------

  ghost function OpenedBy(states: seq<State>, actions: seq<Action>, i: nat): Option<EventId>
    requires IsRun(states, actions) && i < |actions|
  {
    assert StepAt(states, actions, i);
    Opened(states[i], actions[i])
  }

  ghost function SettledBy(states: seq<State>, actions: seq<Action>, i: nat): Option<EventId>
    requires IsRun(states, actions) && i < |actions|
  {
    assert StepAt(states, actions, i);
    Settled(states[i], actions[i])
  }

  lemma UsedStays(states: seq<State>, actions: seq<Action>, i: nat, j: nat, id: EventId)
    requires Reachable(states, actions) && i <= j < |states| && id in Used(states[i])
    ensures id in Used(states[j])
  {
    RowsEvolve(states, actions, i, j);
  }

  /** An id is inserted at most once, so at most one action of a run opens its job. */
  lemma OpensOnce(states: seq<State>, actions: seq<Action>, i: nat, j: nat, id: EventId)
    requires Reachable(states, actions) && i < j < |actions|
    requires OpenedBy(states, actions, i) == Some(id)
    ensures OpenedBy(states, actions, j) != Some(id)
  {
    assert StepAt(states, actions, i) && StepAt(states, actions, j);
    InvHolds(states, actions, i);
    RowMoves(states[i], actions[i], id);
    UsedStays(states, actions, i + 1, j, id);
    InvHolds(states, actions, j);
    RowMoves(states[j], actions[j], id);
  }

  lemma NoJobStep(s: State, a: Action, t: State, id: EventId)
    requires Inv(s) && StepsTo(s, a, t) && id in Used(s) && Live(s, id) == 0
    ensures id in Used(t) && Live(t, id) == 0
    ensures Opened(s, a) != Some(id) && Settled(s, a) != Some(id)
  {
    JobsConserved(s, a, id);
    RowMoves(s, a, id);
    if Settled(s, a) == Some(id) { SettledIsLive(s, a); }
  }

  lemma {:induction false} NoJobStays(states: seq<State>, actions: seq<Action>, i: nat, j: nat, id: EventId)
    requires Reachable(states, actions) && i <= j < |states| && id in Used(states[i]) && Live(states[i], id) == 0
    ensures id in Used(states[j]) && Live(states[j], id) == 0
    decreases j
  {
    if i < j {
      NoJobStays(states, actions, i, j - 1, id);
      InvHolds(states, actions, j - 1);
      assert StepAt(states, actions, j - 1);
      NoJobStep(states[j - 1], actions[j - 1], states[j], id);
    }
  }

  /** At most one action of a run settles the job of an id, by writing its outcome or
      by the queue-full fallback, and none opens another one after that. */
  lemma SettlesOnce(states: seq<State>, actions: seq<Action>, i: nat, j: nat, id: EventId)
    requires Reachable(states, actions) && i < j < |actions|
    requires SettledBy(states, actions, i) == Some(id)
    ensures OpenedBy(states, actions, j) != Some(id) && SettledBy(states, actions, j) != Some(id)
  {
    SettlingEndsJob(states, actions, i, id);
    NoJobStays(states, actions, i + 1, j, id);
    InvHolds(states, actions, j);
    assert StepAt(states, actions, j);
    NoJobStep(states[j], actions[j], states[j + 1], id);
  }

  lemma SettlingEndsJob(states: seq<State>, actions: seq<Action>, i: nat, id: EventId)
    requires Reachable(states, actions) && i < |actions| && SettledBy(states, actions, i) == Some(id)
    ensures id in Used(states[i + 1]) && Live(states[i + 1], id) == 0
  {
    InvHolds(states, actions, i);
    assert StepAt(states, actions, i);
    SettlingStep(states[i], actions[i], states[i + 1], id);
  }

  lemma SettlingStep(s: State, a: Action, t: State, id: EventId)
    requires Inv(s) && StepsTo(s, a, t) && Settled(s, a) == Some(id)
    ensures id in Used(t) && Live(t, id) == 0
  {
    assert BalancedAt(s, id);
    JobsConserved(s, a, id);
    PlacesNonNegative(s, id);
    RowMoves(s, a, id);
    SettledIsLive(s, a);
  }

  // ---- Written outcomes --------------------------------------------------------

  predicate Wrote(c: Closed, id: EventId, columns: RelayColumns) {
    c.id == id && c.ending.Persisted? && columns == RelayUpdateValues(c.ending.result)
  }

  /** A job that has written its outcome finds it in its row, if the row is there. */
  ghost predicate WritesKept(s: State) {
    forall c :: 0 <= c < |s.closed| && s.closed[c].ending.Persisted? && s.closed[c].id in s.table ==>
      Wrote(s.closed[c], s.closed[c].id, s.table[s.closed[c].id].relay)
  }

  /** Every outcome in the table was written by a job of that event, but for rows that
      found the queue full. */
  ghost predicate WritesExplained(s: State) {
    forall id :: id in s.table && Terminal(s.table[id].relay) && s.table[id].relay != PRE_FULL ==>
      exists c :: 0 <= c < |s.closed| && Wrote(s.closed[c], id, s.table[id].relay)
  }

  lemma DropsUnwritten(queue: seq<EventId>)
    ensures forall c :: 0 <= c < |Drops(queue)| ==> !Drops(queue)[c].ending.Persisted?
  {
  }

  lemma CancelsUnwritten(pool: seq<Worker>)
    ensures forall c :: 0 <= c < |Cancels(pool)| ==> !Cancels(pool)[c].ending.Persisted?
  {
  }

  /** Only the step that writes an outcome ends a job as written. */
  lemma NewlyWritten(s: State, a: Action, t: State)
    requires StepsTo(s, a, t)
    ensures s.closed <= t.closed
    ensures forall c :: |s.closed| <= c < |t.closed| && t.closed[c].ending.Persisted? ==>
      && Settled(s, a) == Some(t.closed[c].id)
      && (t.closed[c].id in t.table ==> Wrote(t.closed[c], t.closed[c].id, t.table[t.closed[c].id].relay))
  {
    ClosedGrows(s, a, t);
    match a
    case ByRequest(r, step) => RequestFrame(s, r, step);
    case ByWorker(w, step) => WorkerFrame(s, w, step);
    case ByService(step) =>
      DropsUnwritten(s.queue);
      CancelsUnwritten(s.pool);
  }

  /** An id whose job has written its outcome is used, and has no job left. */
  lemma WrittenIsSettled(s: State, c: nat)
    requires Inv(s) && c < |s.closed| && s.closed[c].ending.Persisted?
    ensures s.closed[c].id in Used(s)
    ensures s.closed[c].id in s.table ==> s.table[s.closed[c].id].relay != SCHEDULED
  {
    var id := s.closed[c].id;
    PlacesNonNegative(s, id);
    TotalMember(s.closed, c, SavedOf(id));
    assert BalancedAt(s, id);
  }

  lemma WritesKeptStep(s: State, a: Action, t: State)
    requires Inv(s) && StepsTo(s, a, t) && WritesKept(s)
    ensures WritesKept(t)
  {
    NewlyWritten(s, a, t);
    EvolvesStep(s, a);
    forall c | 0 <= c < |t.closed| && t.closed[c].ending.Persisted? && t.closed[c].id in t.table
      ensures Wrote(t.closed[c], t.closed[c].id, t.table[t.closed[c].id].relay)
    {
      if c < |s.closed| {
        assert t.closed[c] == s.closed[c];
        WrittenIsSettled(s, c);
      }
    }
  }

  /** A row that turns terminal was inserted so, fell back, or was written by its job. */
  lemma TurnsTerminal(s: State, a: Action, t: State, id: EventId)
    requires Inv(s) && StepsTo(s, a, t) && id in t.table
    ensures Terminal(t.table[id].relay) && t.table[id].relay != PRE_FULL ==>
      || (id in s.table && t.table[id].relay == s.table[id].relay)
      || (|t.closed| == |s.closed| + 1 && Wrote(t.closed[|s.closed|], id, t.table[id].relay))
  {
    if !(id in s.table && t.table[id].relay == s.table[id].relay) {
      match a
      case ByRequest(r, step) =>
        assert RequestOk(s.requests[r]);
        RequestTurns(s, r, step, id);
      case ByWorker(w, step) => WorkerTurns(s, w, step, id);
      case ByService(step) => ServiceTurnsNone(s, step, id);
    }
  }

  lemma WorkerTurns(s: State, w: nat, step: WorkerStep, id: EventId)
    requires WorkerEnabled(s, w, step) && id in ApplyWorker(s, w, step).table
    requires id in s.table ==> ApplyWorker(s, w, step).table[id].relay != s.table[id].relay
    ensures var t := ApplyWorker(s, w, step);
      |t.closed| == |s.closed| + 1 && Wrote(t.closed[|s.closed|], id, t.table[id].relay)
  {
    if !step.Persist? { WorkerTableFrame(s, w, step); }
  }

  lemma ServiceTurnsNone(s: State, step: ServiceStep, id: EventId)
    requires id in ApplyService(s, step).table
    ensures id in s.table && ApplyService(s, step).table[id].relay == s.table[id].relay
  {
  }

  /** Intake makes a row terminal only as queue-full. */
  lemma RequestTurns(s: State, r: nat, step: RequestStep, id: EventId)
    requires RequestEnabled(s, r, step) && RequestOk(s.requests[r]) && id in ApplyRequest(s, r, step).table
    requires id in s.table ==> ApplyRequest(s, r, step).table[id].relay != s.table[id].relay
    ensures ApplyRequest(s, r, step).table[id].relay in [NO_RELAY, SCHEDULED, PRE_FULL]
  {
    QueueFullColumnsAgree();
    if !step.Insert? && !step.FallBack? { RequestTableFrame(s, r, step); }
  }

  lemma WritesExplainedStep(s: State, a: Action, t: State)
    requires Inv(s) && StepsTo(s, a, t) && WritesExplained(s)
    ensures WritesExplained(t)
  {
    ClosedGrows(s, a, t);
    forall id | id in t.table && Terminal(t.table[id].relay) && t.table[id].relay != PRE_FULL
      ensures exists c :: 0 <= c < |t.closed| && Wrote(t.closed[c], id, t.table[id].relay)
    {
      if id in s.table && t.table[id].relay == s.table[id].relay {
        var c :| 0 <= c < |s.closed| && Wrote(s.closed[c], id, s.table[id].relay);
        assert Wrote(t.closed[c], id, t.table[id].relay);
      } else {
        TurnsTerminal(s, a, t, id);
        assert Wrote(t.closed[|s.closed|], id, t.table[id].relay);
      }
    }
  }

  /** In every reachable state each written job's row holds the outcome of that very job,
      and each outcome a row holds was written by its own job or by a full queue. */
  lemma {:induction false} RowsHoldTheirOwnOutcome(states: seq<State>, actions: seq<Action>, i: nat)
    requires Reachable(states, actions) && i < |states|
    ensures WritesKept(states[i]) && WritesExplained(states[i])
  {
    if i > 0 {
      RowsHoldTheirOwnOutcome(states, actions, i - 1);
      InvHolds(states, actions, i - 1);
      assert StepAt(states, actions, i - 1);
      WritesKeptStep(states[i - 1], actions[i - 1], states[i]);
      WritesExplainedStep(states[i - 1], actions[i - 1], states[i]);
    }
  }

  /** The outcome of a written job, column by column: what its row holds is what the job
      met. No attempt leaves a skipped row; otherwise the columns report the attempts,
      of which a failed job has used all. */
  lemma WrittenRowsReport(states: seq<State>, actions: seq<Action>, i: nat, c: nat)
    requires Reachable(states, actions) && i < |states| && c < |states[i].closed|
    requires states[i].closed[c].ending.Persisted? && states[i].closed[c].id in states[i].table
    ensures var s := states[i];
      var row, log, r := s.table[s.closed[c].id].relay, s.closed[c].log, s.closed[c].ending.result;
      && Says(row, r)
      && |log.replies| == |log.stamps| <= s.cfg.maxAttempts
      && (if log.replies == [] then
            !r.attempted && !r.success && r.attempts == 0 && r.statusCode == None && r.lastAttemptAt == None
            && r.reason in [Some(UnsupportedScheme), Some(InvalidTargetUrl), Some(HostNotAllowed), Some(BlockedIp),
                            Some(DnsError), Some(QueueFull)]
          else ReportsAttempts(r, log.replies, log.stamps) && (!r.success ==> |log.replies| == s.cfg.maxAttempts))
  {
    InvHolds(states, actions, i);
    RowsHoldTheirOwnOutcome(states, actions, i);
    var job := states[i].closed[c];
    assert ClosedOk(job, states[i].cfg.maxAttempts);
    if job.log.replies != [] { ConcludeReports(job.log.replies, job.log.stamps); }
  }

  // ---- Idempotent intake -----------------------------------------------------

  /** The event a request will answer with, once that is decided. */
  ghost function ResolvedTo(q: Request): Option<(EventId, int)> {
    match q
    case Stored(d) => Some((d.id, d.receivedAt))
    case Refused(d) => Some((d.id, d.receivedAt))
    case Answered(_, answer) => Some((answer.id, answer.receivedAt))
    case _ => None
  }

  /** Atomic get-or-create, the meaning of intake. */
  ghost function GetOrCreate(t: Table, d: Draft, columns: RelayColumns): (Table, EventId) {
    if KeyGiven(d) && Holder(t, d.source, d.key.value).Some? then (t, Holder(t, d.source, d.key.value).value)
    else (t[d.id := Event(d.source, d.receivedAt, d.key, columns)], d.id)
  }

  ghost function ColumnsOf(q: Request): RelayColumns { if q.Probed? then q.columns else NO_RELAY }

  /** From s to t request r is decided as by an atomic get-or-create; when it finds
      an existing event, nothing but the request changes. */
  ghost predicate DecidedAtomically(s: State, t: State, r: nat)
    requires r < |s.requests| && r < |t.requests|
  {
    var (table, id) := GetOrCreate(s.table, s.requests[r].draft, ColumnsOf(s.requests[r]));
    && t.table == table && id in table
    && ResolvedTo(t.requests[r]) == Some((id, table[id].receivedAt))
    && (id in s.table ==> t == s.(requests := t.requests))
  }

  /** Intake linearizes: at the one action where a request's answer is decided, the
      table changes as by an atomic get-or-create and the answer is its result. */
  lemma IntakeIsGetOrCreate(s: State, a: Action, r: nat)
    requires Inv(s) && Enabled(s, a) && r < |s.requests|
    ensures r < |Apply(s, a).requests|
    ensures ResolvedTo(s.requests[r]).None? && ResolvedTo(Apply(s, a).requests[r]).Some? ==>
      DecidedAtomically(s, Apply(s, a), r)
  {
    OthersKeepRequests(s, a, r);
    if ResolvedTo(s.requests[r]).None? && ResolvedTo(Apply(s, a).requests[r]).Some? {
      DecidingStep(s, r, a.intake);
    }
  }

  /** Only its own steps change a request. */
  lemma OthersKeepRequests(s: State, a: Action, r: nat)
    requires Enabled(s, a) && r < |s.requests|
    ensures var t := Apply(s, a);
      r < |t.requests| && (!(a.ByRequest? && a.r == r) ==> t.requests[r] == s.requests[r])
  {
    match a
    case ByRequest(x, step) => RequestFrame(s, x, step);
    case ByWorker(w, step) => WorkerFrame(s, w, step);
    case ByService(step) =>
  }

  lemma DecidingStep(s: State, r: nat, step: RequestStep)
    requires Inv(s) && RequestEnabled(s, r, step)
    requires ResolvedTo(s.requests[r]).None? && ResolvedTo(ApplyRequest(s, r, step).requests[r]).Some?
    ensures DecidedAtomically(s, ApplyRequest(s, r, step), r)
  {
    assert RequestOk(s.requests[r]);
  }

  /** The request fails between its insert and its answer: its dispatcher has stopped,
      or the update that marks its row as skipped raised. */
  ghost predicate FailsAfterInsert(s: State, a: Action, r: nat)
    requires r < |s.requests|
  {
    || (s.requests[r].Stored? && !s.up && a == ByRequest(r, Enqueue))
    || (s.requests[r].Refused? && a == ByRequest(r, DbError))
  }

  /** A decision is never revised, except that a request that fails after its insert
      ends in an error; a request keeps its draft. */
  lemma DecisionsStay(s: State, a: Action, r: nat)
    requires Enabled(s, a) && r < |s.requests|
    ensures var t := Apply(s, a);
      && r < |t.requests| && t.requests[r].draft == s.requests[r].draft
      && (ResolvedTo(s.requests[r]).Some? ==>
            if FailsAfterInsert(s, a, r) then t.requests[r].Rejected?
            else ResolvedTo(t.requests[r]) == ResolvedTo(s.requests[r]))
      && (s.requests[r].Rejected? || s.requests[r].Answered? ==> t.requests[r] == s.requests[r])
  {
    OthersKeepRequests(s, a, r);
    if a.ByRequest? && a.r == r { OwnStepKeepsDecision(s, r, a.intake); }
  }

  lemma OwnStepKeepsDecision(s: State, r: nat, step: RequestStep)
    requires RequestEnabled(s, r, step)
    ensures var q := ApplyRequest(s, r, step).requests[r];
      && q.draft == s.requests[r].draft && !s.requests[r].Rejected? && !s.requests[r].Answered?
      && (ResolvedTo(s.requests[r]).Some? ==>
            if FailsAfterInsert(s, ByRequest(r, step), r) then q.Rejected?
            else ResolvedTo(q) == ResolvedTo(s.requests[r]))
  {
  }

  /** The event `id` holds the key of the draft. */
  ghost predicate HeldBy(s: State, d: Draft, id: EventId) {
    KeyGiven(d) && id in s.table && Holds(s.table[id], d.source, d.key.value)
  }

  /** Request r, of draft d, is undecided or answers with the event `id`. */
  ghost predicate AnswersOnly(s: State, r: nat, d: Draft, id: EventId) {
    && r < |s.requests| && s.requests[r].draft == d
    && (ResolvedTo(s.requests[r]).Some? ==>
          id in s.table && ResolvedTo(s.requests[r]) == Some((id, s.table[id].receivedAt)))
  }

  lemma SameAnswerStep(s: State, a: Action, r: nat, d: Draft, id: EventId)
    requires Inv(s) && Enabled(s, a) && HeldBy(s, d, id) && AnswersOnly(s, r, d, id)
    ensures r < |Apply(s, a).requests|
    ensures var q := Apply(s, a).requests[r];
      q.draft == d && (ResolvedTo(q).Some? ==> ResolvedTo(q) == Some((id, s.table[id].receivedAt)))
  {
    DecisionsStay(s, a, r);
    HolderIs(s.table, d.source, d.key.value, id);
    if ResolvedTo(s.requests[r]).None? && ResolvedTo(Apply(s, a).requests[r]).Some? {
      IntakeIsGetOrCreate(s, a, r);
    }
  }

  lemma SameAnswerNext(s: State, a: Action, t: State, r: nat, d: Draft, id: EventId)
    requires Inv(s) && StepsTo(s, a, t) && HeldBy(s, d, id) && HeldBy(t, d, id) && AnswersOnly(s, r, d, id)
    ensures AnswersOnly(t, r, d, id)
  {
    SameAnswerStep(s, a, r, d, id);
    RowsKeepStep(s, a);
  }

  /** All requests decided while an event holds their (source, key) answer with that
      event's id and received_at, however their steps interleave. */
  lemma {:induction false} SameAnswerWhileHeld(states: seq<State>, actions: seq<Action>, a: nat, b: nat, r: nat,
                                               id: EventId)
    requires Reachable(states, actions) && a <= b < |states|
    requires r < |states[a].requests| && ResolvedTo(states[a].requests[r]).None?
    requires forall k :: a <= k <= b ==> HeldBy(states[k], states[a].requests[r].draft, id)
    ensures AnswersOnly(states[b], r, states[a].requests[r].draft, id)
    decreases b
  {
    if a < b {
      SameAnswerWhileHeld(states, actions, a, b - 1, r, id);
      InvHolds(states, actions, b - 1);
      assert StepAt(states, actions, b - 1);
      SameAnswerNext(states[b - 1], actions[b - 1], states[b], r, states[a].requests[r].draft, id);
    }
  }

  /** At most one event holds a (source, key) in any reachable state. */
  lemma OneEventPerKey(states: seq<State>, actions: seq<Action>, i: nat, x: EventId, y: EventId)
    requires Reachable(states, actions) && i < |states| && x in states[i].table && y in states[i].table
    requires states[i].table[x].source == states[i].table[y].source
    requires states[i].table[x].key == states[i].table[y].key != None
    ensures x == y
  {
    InvHolds(states, actions, i);
  }

  /** A request that ends in an error before its row is stored leaves everything else
      as it was; one that does so later leaves a scheduled row whose job is lost.
      The re-read ends in an error exactly when the event it lost to is gone. */
  lemma RejectionChangesNothing(s: State, r: nat, step: RequestStep)
    requires Inv(s) && RequestEnabled(s, r, step)
    ensures var t := ApplyRequest(s, r, step);
      t.requests[r].Rejected? ==>
        if ResolvedTo(s.requests[r]).None? then t == s.(requests := t.requests)
        else t == s.(requests := t.requests, closed := s.closed + [Closed(s.requests[r].draft.id, NO_LOG, Stranded)])
    ensures step.Reread? ==>
      (ApplyRequest(s, r, step).requests[r].Rejected?
       <==> forall x :: x in s.table ==> !HeldBy(s, s.requests[r].draft, x))
  {
    assert RequestOk(s.requests[r]);
  }
}
