/** What holds in every reachable state, besides the books. */
module Invariants {
  import opened Common
  import opened Text
  import opened Relay
  import opened Events
  import opened Protocol
  import opened Tally
  import opened Books

  // ---- Frames ----------------------------------------------------------------

  /** What no intake step touches. */
  lemma RequestFrame(s: State, r: nat, step: RequestStep)
    requires RequestEnabled(s, r, step)
    ensures var t := ApplyRequest(s, r, step);
      && t.cfg == s.cfg && t.client == s.client && t.up == s.up
      && t.pool == s.pool && t.started == s.started && t.cleaned == s.cleaned
      && t.attemptsTotal == s.attemptsTotal && t.successesTotal == s.successesTotal
      && (step.Insert? || t.received == s.received)
      && (t.closed == s.closed || t.closed == s.closed + [Closed(s.requests[r].draft.id, NO_LOG, Stranded)])
      && |t.requests| == |s.requests| && t.requests == s.requests[r := t.requests[r]]
  {
  }

  /** What no worker step touches. */
  lemma WorkerFrame(s: State, w: nat, step: WorkerStep)
    requires WorkerEnabled(s, w, step)
    ensures var t := ApplyWorker(s, w, step);
      && t.cfg == s.cfg && t.client == s.client && t.up == s.up
      && t.requests == s.requests && t.cleaned == s.cleaned
      && t.received == s.received && t.accepted == s.accepted
      && |t.pool| == |s.pool| && t.pool == s.pool[w := t.pool[w]]
      && (t.closed == s.closed
          || (&& s.pool[w].Busy?
              && t.closed == s.closed + [Closed(s.pool[w].id, s.pool[w].log, t.closed[|s.closed|].ending)]))
  {
  }

  lemma QueueFrame(s: State, w: nat, step: WorkerStep)
    requires WorkerEnabled(s, w, step)
    ensures |ApplyWorker(s, w, step).queue| == |s.queue| - One(step.Dequeue?)
  {
  }

  // ---- Jobs in progress and finished -----------------------------------------

  predicate ProgressOk(log: Log, phase: Phase, n: nat) {
    match phase
    case Resolving => log == NO_LOG
    case Posting => |log.stamps| == |log.replies| + 1 <= n && NoneStops(log.replies, |log.replies|)
    case Sleeping => 1 <= |log.replies| == |log.stamps| < n && NoneStops(log.replies, |log.replies|)
    case Finishing(result) => FinishedOk(log, result, n)
  }

  /** A returned outcome is that of the attempts logged, or of none at all. */
  predicate FinishedOk(log: Log, result: RelayResult, n: nat) {
    && Consistent(result, n)
    && |log.replies| == |log.stamps| == result.attempts
    && (result.attempted ==>
          && |log.replies| >= 1 && NoneStops(log.replies, |log.replies| - 1)
          && !log.replies[|log.replies| - 1].Unexpected?
          && result == Conclude(log.replies, log.stamps))
  }

  predicate WorkerOk(w: Worker, n: nat) { w.Busy? ==> ProgressOk(w.log, w.phase, n) }

  predicate ClosedOk(c: Closed, n: nat) { c.ending.Persisted? ==> FinishedOk(c.log, c.ending.result, n) }

  ghost predicate JobsOk(s: State) {
    && s.cfg.maxAttempts >= 1
    && (forall w :: 0 <= w < |s.pool| ==> WorkerOk(s.pool[w], s.cfg.maxAttempts))
    && (forall c :: 0 <= c < |s.closed| ==> ClosedOk(s.closed[c], s.cfg.maxAttempts))
  }

  /** One more reply to a job that is posting ends it, or puts it to sleep. */
  lemma ReplyEnds(log: Log, reply: Reply, n: nat)
    requires ProgressOk(log, Posting, n) && !reply.Unexpected? && (Is2xx(reply) || |log.replies| + 1 == n)
    ensures var replies := log.replies + [reply];
      FinishedOk(Log(replies, log.stamps), Conclude(replies, log.stamps), n)
  {
    ConcludeConsistent(log.replies + [reply], log.stamps, n);
  }

  lemma ReplyContinues(log: Log, reply: Reply, n: nat)
    requires ProgressOk(log, Posting, n) && !Stops(reply) && |log.replies| + 1 < n
    ensures ProgressOk(Log(log.replies + [reply], log.stamps), Sleeping, n)
  {
  }

  lemma RepliedOk(s: State, w: nat, reply: Reply)
    requires BusyIn(s, w) && s.pool[w].phase.Posting? && !reply.Unexpected?
    requires ProgressOk(s.pool[w].log, s.pool[w].phase, s.cfg.maxAttempts)
    ensures WorkerOk(ApplyReplied(s, w, reply).pool[w], s.cfg.maxAttempts)
  {
    var log, n := s.pool[w].log, s.cfg.maxAttempts;
    if Is2xx(reply) || |log.replies| + 1 == n {
      ReplyEnds(log, reply, n);
    } else {
      ReplyContinues(log, reply, n);
    }
  }

  lemma WakeOk(s: State, w: nat, now: int)
    requires BusyIn(s, w) && s.pool[w].phase.Sleeping?
    requires ProgressOk(s.pool[w].log, s.pool[w].phase, s.cfg.maxAttempts)
    ensures WorkerOk(ApplyWake(s, w, now).pool[w], s.cfg.maxAttempts)
  {
  }

  lemma PreflightedOk(s: State, w: nat, verdict: Verdict, now: int)
    requires BusyIn(s, w) && s.pool[w].phase.Resolving? && s.cfg.maxAttempts >= 1
    requires ProgressOk(s.pool[w].log, s.pool[w].phase, s.cfg.maxAttempts)
    requires verdict.Pass? || (verdict.Skip? && IsSkipped(verdict.result))
    ensures WorkerOk(ApplyPreflighted(s, w, verdict, now).pool[w], s.cfg.maxAttempts)
  {
  }

  lemma ContinuesOk(s: State, w: nat, step: WorkerStep)
    requires JobsOk(s) && WorkerEnabled(s, w, step) && (step.Preflighted? || step.Replied? || step.Wake?)
    ensures WorkerOk(ApplyWorker(s, w, step).pool[w], s.cfg.maxAttempts)
  {
    assert WorkerOk(s.pool[w], s.cfg.maxAttempts);
    match step
    case Preflighted(verdict, now) => PreflightedOk(s, w, verdict, now);
    case Replied(reply) => RepliedOk(s, w, reply);
    case Wake(now) => WakeOk(s, w, now);
  }

  lemma DropsOk(queue: seq<EventId>, n: nat)
    ensures forall c :: 0 <= c < |Drops(queue)| ==> ClosedOk(Drops(queue)[c], n)
  {
  }

  lemma CancelsOk(pool: seq<Worker>, n: nat)
    ensures forall c :: 0 <= c < |Cancels(pool)| ==> ClosedOk(Cancels(pool)[c], n)
  {
  }

  lemma JobsOkWorker(s: State, w: nat, step: WorkerStep)
    requires JobsOk(s) && WorkerEnabled(s, w, step)
    ensures JobsOk(ApplyWorker(s, w, step))
  {
    WorkerFrame(s, w, step);
    assert WorkerOk(s.pool[w], s.cfg.maxAttempts);
    if step.Preflighted? || step.Replied? || step.Wake? { ContinuesOk(s, w, step); }
  }

  lemma JobsOkService(s: State, step: ServiceStep)
    requires JobsOk(s)
    ensures JobsOk(ApplyService(s, step))
  {
    if step.StopDispatcher? {
      DropsOk(s.queue, s.cfg.maxAttempts);
      CancelsOk(s.pool, s.cfg.maxAttempts);
    }
  }

  lemma JobsOkStep(s: State, a: Action)
    requires JobsOk(s) && Enabled(s, a)
    ensures JobsOk(Apply(s, a))
  {
    match a
    case ByRequest(r, step) => RequestFrame(s, r, step);
    case ByWorker(w, step) => JobsOkWorker(s, w, step);
    case ByService(step) => JobsOkService(s, step);
  }

  // ---- Rows ------------------------------------------------------------------

  predicate RequestOk(q: Request) {
    && (q.Probed? ==> q.columns == NO_RELAY || q.columns == SCHEDULED || q.columns == PRE_FULL)
    && (q.Conflicted? ==> KeyGiven(q.draft))
  }

  /** Every row's relay columns are consistent, and no key is held twice. */
  ghost predicate RowsOk(s: State) {
    && (forall r :: 0 <= r < |s.requests| ==> RequestOk(s.requests[r]))
    && (forall id :: id in s.table ==> ColumnsConsistent(s.table[id].relay, s.cfg.maxAttempts))
    && UniqueKeys(s.table)
  }

  lemma BlindUpdateOk(t: Table, id: EventId, r: RelayResult, n: nat)
    requires Consistent(r, n) && UniqueKeys(t)
    requires forall x :: x in t ==> ColumnsConsistent(t[x].relay, n)
    ensures var u := BlindUpdate(t, id, RelayUpdateValues(r));
      UniqueKeys(u) && forall x :: x in u ==> ColumnsConsistent(u[x].relay, n)
  {
    UpdateValuesConsistent(r, n);
    var u := BlindUpdate(t, id, RelayUpdateValues(r));
    forall x, y | x in u && y in u && u[x].key.Some? && Holds(u[y], u[x].source, u[x].key.value)
      ensures x == y
    {
      assert Holds(t[y], t[x].source, t[x].key.value);
    }
  }

  lemma InsertOk(s: State, r: nat)
    requires RowsOk(s) && RequestEnabled(s, r, Insert)
    ensures RowsOk(ApplyInsert(s, r))
  {
    var t := ApplyInsert(s, r).table;
    assert RequestOk(s.requests[r]);
    if !Conflict(s, s.requests[r].draft) {
      forall x, y | x in t && y in t && t[x].key.Some? && Holds(t[y], t[x].source, t[x].key.value)
        ensures x == y
      {
      }
    }
  }

  lemma RowsOkRequest(s: State, r: nat, step: RequestStep)
    requires RowsOk(s) && RequestEnabled(s, r, step)
    ensures RowsOk(ApplyRequest(s, r, step))
  {
    RequestFrame(s, r, step);
    match step
    case Insert => InsertOk(s, r);
    case FallBack => BlindUpdateOk(s.table, s.requests[r].draft.id, QueueFullRelayResult(), s.cfg.maxAttempts);
    case _ => RequestTableFrame(s, r, step);
  }

  lemma RowsOkWorker(s: State, w: nat, step: WorkerStep)
    requires RowsOk(s) && JobsOk(s) && WorkerEnabled(s, w, step)
    ensures RowsOk(ApplyWorker(s, w, step))
  {
    WorkerFrame(s, w, step);
    match step
    case Persist =>
      assert WorkerOk(s.pool[w], s.cfg.maxAttempts);
      BlindUpdateOk(s.table, s.pool[w].id, s.pool[w].phase.result, s.cfg.maxAttempts);
    case _ => WorkerTableFrame(s, w, step);
  }

  lemma RowsOkService(s: State, step: ServiceStep)
    requires RowsOk(s)
    ensures RowsOk(ApplyService(s, step))
  {
  }

  lemma RowsOkStep(s: State, a: Action)
    requires RowsOk(s) && JobsOk(s) && Enabled(s, a)
    ensures RowsOk(Apply(s, a))
  {
    match a
    case ByRequest(r, step) => RowsOkRequest(s, r, step);
    case ByWorker(w, step) => RowsOkWorker(s, w, step);
    case ByService(step) => RowsOkService(s, step);
  }

  // ---- The dispatcher --------------------------------------------------------

  ghost function BusyCount(w: Worker): int { One(w.Busy?) }

  /** Bounds on backlog and workers, task accounting, and first-in first-out order. */
  ghost predicate DispatcherOk(s: State) {
    && |s.pool| == (if s.up then s.cfg.Workers() else 0)
    && (if s.up then s.client && |s.queue| <= s.cfg.Capacity() else s.queue == [])
    && s.unfinished == |s.queue| + Total(s.pool, BusyCount)
    && s.accepted == s.started + s.queue
  }

  lemma DispatcherOkWorker(s: State, w: nat, step: WorkerStep)
    requires DispatcherOk(s) && WorkerEnabled(s, w, step)
    ensures DispatcherOk(ApplyWorker(s, w, step))
    ensures step.Persist? || step.Fail? ==> s.unfinished >= 1
  {
    TotalUpdate(s.pool, w, ApplyWorker(s, w, step).pool[w], BusyCount);
    TotalMember(s.pool, w, BusyCount);
    if step.Dequeue? { assert s.queue == [s.queue[0]] + s.queue[1..]; }
  }

  lemma DispatcherOkRequest(s: State, r: nat, step: RequestStep)
    requires DispatcherOk(s) && RequestEnabled(s, r, step)
    ensures DispatcherOk(ApplyRequest(s, r, step))
  {
    RequestFrame(s, r, step);
  }

  lemma DispatcherOkService(s: State, step: ServiceStep)
    requires DispatcherOk(s) && ServiceEnabled(s, step)
    ensures DispatcherOk(ApplyService(s, step))
  {
    if step.StartDispatcher? && !s.up { AllIdleIsZero(ApplyStartDispatcher(s).pool, BusyCount); }
  }

  lemma DispatcherOkStep(s: State, a: Action)
    requires DispatcherOk(s) && Enabled(s, a)
    ensures DispatcherOk(Apply(s, a))
  {
    match a
    case ByRequest(r, step) => DispatcherOkRequest(s, r, step);
    case ByWorker(w, step) => DispatcherOkWorker(s, w, step);
    case ByService(step) => DispatcherOkService(s, step);
  }

  // ---- Counters --------------------------------------------------------------

  ghost function Successes(replies: seq<Reply>): int {
    Total(replies, (r: Reply) => One(Is2xx(r)))
  }

  ghost function PostsIn(w: Worker): int { if w.Busy? then |w.log.stamps| else 0 }

  ghost function PostsMade(c: Closed): int { |c.log.stamps| }

  ghost function WinsIn(w: Worker): int { if w.Busy? then Successes(w.log.replies) else 0 }

  ghost function WinsMade(c: Closed): int { Successes(c.log.replies) }

  /** The relay counters are what the jobs in progress and the jobs that are over
      have attempted, and the 2xx responses they received. */
  ghost predicate RelayMetersOk(s: State) {
    && s.attemptsTotal == Total(s.pool, PostsIn) + Total(s.closed, PostsMade)
    && s.successesTotal == Total(s.pool, WinsIn) + Total(s.closed, WinsMade)
  }

  lemma {:induction false} DropsPostNothing(queue: seq<EventId>)
    ensures Total(Drops(queue), PostsMade) == 0 && Total(Drops(queue), WinsMade) == 0
  {
    if queue != [] {
      DropsPostNothing(queue[..|queue| - 1]);
      assert Drops(queue)[..|Drops(queue)| - 1] == Drops(queue[..|queue| - 1]);
    }
  }

  lemma {:induction false} CancelsKeepPosts(pool: seq<Worker>)
    ensures Total(Cancels(pool), PostsMade) == Total(pool, PostsIn)
    ensures Total(Cancels(pool), WinsMade) == Total(pool, WinsIn)
  {
    if pool != [] {
      var n := |pool| - 1;
      CancelsKeepPosts(pool[..n]);
      if pool[n].Busy? { assert Cancels(pool)[..|Cancels(pool)| - 1] == Cancels(pool[..n]); }
    }
  }

  lemma MetersOkContinue(s: State, w: nat, step: WorkerStep)
    requires RelayMetersOk(s) && JobsOk(s) && WorkerEnabled(s, w, step)
    requires step.Dequeue? || step.Preflighted? || step.Replied? || step.Wake?
    ensures RelayMetersOk(ApplyWorker(s, w, step))
  {
    var x := ApplyWorker(s, w, step).pool[w];
    assert WorkerOk(s.pool[w], s.cfg.maxAttempts);
    TotalUpdate(s.pool, w, x, PostsIn);
    TotalUpdate(s.pool, w, x, WinsIn);
    if step.Replied? { TotalAppend(s.pool[w].log.replies, step.reply, (r: Reply) => One(Is2xx(r))); }
  }

  lemma MetersOkRelease(s: State, w: nat, ending: Ending)
    requires RelayMetersOk(s) && BusyIn(s, w)
    ensures RelayMetersOk(Release(s, w, ending))
  {
    TotalUpdate(s.pool, w, Idle, PostsIn);
    TotalUpdate(s.pool, w, Idle, WinsIn);
    TotalAppend(s.closed, Closed(s.pool[w].id, s.pool[w].log, ending), PostsMade);
    TotalAppend(s.closed, Closed(s.pool[w].id, s.pool[w].log, ending), WinsMade);
  }

  lemma MetersOkStop(s: State)
    requires RelayMetersOk(s)
    ensures RelayMetersOk(ApplyStopDispatcher(s))
  {
    var more := s.closed + Drops(s.queue);
    DropsPostNothing(s.queue);
    CancelsKeepPosts(s.pool);
    TotalConcat(s.closed, Drops(s.queue), PostsMade);
    TotalConcat(s.closed, Drops(s.queue), WinsMade);
    TotalConcat(more, Cancels(s.pool), PostsMade);
    TotalConcat(more, Cancels(s.pool), WinsMade);
  }

  lemma MetersOkRequest(s: State, r: nat, step: RequestStep)
    requires RelayMetersOk(s) && RequestEnabled(s, r, step)
    ensures RelayMetersOk(ApplyRequest(s, r, step))
  {
    RequestFrame(s, r, step);
    TotalAppend(s.closed, Closed(s.requests[r].draft.id, NO_LOG, Stranded), PostsMade);
    TotalAppend(s.closed, Closed(s.requests[r].draft.id, NO_LOG, Stranded), WinsMade);
  }

  lemma MetersOkService(s: State, step: ServiceStep)
    requires RelayMetersOk(s) && DownIsEmpty(s)
    ensures RelayMetersOk(ApplyService(s, step))
  {
    if step.StopDispatcher? {
      MetersOkStop(s);
    } else if step.StartDispatcher? && !s.up {
      AllIdleIsZero(ApplyStartDispatcher(s).pool, PostsIn);
      AllIdleIsZero(ApplyStartDispatcher(s).pool, WinsIn);
    }
  }

  lemma RelayMetersOkStep(s: State, a: Action)
    requires RelayMetersOk(s) && JobsOk(s) && DownIsEmpty(s) && Enabled(s, a)
    ensures RelayMetersOk(Apply(s, a))
  {
    match a
    case ByRequest(r, step) => MetersOkRequest(s, r, step);
    case ByWorker(w, Persist) => MetersOkRelease(s, w, Persisted(s.pool[w].phase.result));
    case ByWorker(w, Fail) => MetersOkRelease(s, w, Raised);
    case ByWorker(w, step) => MetersOkContinue(s, w, step);
    case ByService(step) => MetersOkService(s, step);
  }

  function OfSource(t: Table, source: Str): set<EventId> { set id | id in t && t[id].source == source }

  /** The rows of a source ever inserted: those present and those cleaned up. */
  function EverInserted(t: Table, cleaned: Table, source: Str): nat {
    |OfSource(t, source)| + |OfSource(cleaned, source)|
  }

  ghost predicate ReceivedOk(s: State) {
    && s.table.Keys !! s.cleaned.Keys
    && forall source :: Count(s.received, source) == EverInserted(s.table, s.cleaned, source)
  }

  lemma InsertCounts(t: Table, id: EventId, e: Event, source: Str)
    requires id !in t
    ensures |OfSource(t[id := e], source)| == |OfSource(t, source)| + One(e.source == source)
  {
    if e.source == source {
      assert OfSource(t[id := e], source) == OfSource(t, source) + {id};
    } else {
      assert OfSource(t[id := e], source) == OfSource(t, source);
    }
  }

  lemma UpdateCounts(t: Table, id: EventId, c: RelayColumns, source: Str)
    ensures OfSource(BlindUpdate(t, id, c), source) == OfSource(t, source)
  {
  }

  lemma UnionCounts(a: Table, b: Table, source: Str)
    requires a.Keys !! b.Keys
    ensures |OfSource(a + b, source)| == |OfSource(a, source)| + |OfSource(b, source)|
  {
    assert OfSource(a + b, source) == OfSource(a, source) + OfSource(b, source);
    assert OfSource(a, source) !! OfSource(b, source);
  }

  lemma CleanupCounts(t: Table, cleaned: Table, cutoff: int, source: Str)
    requires t.Keys !! cleaned.Keys
    ensures EverInserted(Retained(t, cutoff), cleaned + Expired(t, cutoff), source) == EverInserted(t, cleaned, source)
  {
    assert t == Retained(t, cutoff) + Expired(t, cutoff);
    UnionCounts(Retained(t, cutoff), Expired(t, cutoff), source);
    UnionCounts(cleaned, Expired(t, cutoff), source);
  }

  lemma ReceivedOkInsert(s: State, r: nat, source: Str)
    requires ReceivedOk(s) && RequestEnabled(s, r, Insert)
    ensures var t := ApplyInsert(s, r);
      Count(t.received, source) == EverInserted(t.table, t.cleaned, source)
  {
    var t := ApplyInsert(s, r);
    var d := s.requests[r].draft;
    var e := Event(d.source, d.receivedAt, d.key, s.requests[r].columns);
    assert Count(s.received, source) == EverInserted(s.table, s.cleaned, source);
    if Conflict(s, d) {
      assert t.table == s.table && t.received == s.received;
    } else {
      assert t.table == s.table[d.id := e];
      InsertCounts(s.table, d.id, e, source);
    }
  }

  lemma ReceivedOkRequest(s: State, r: nat, step: RequestStep, source: Str)
    requires ReceivedOk(s) && RequestEnabled(s, r, step)
    ensures var t := ApplyRequest(s, r, step);
      Count(t.received, source) == EverInserted(t.table, t.cleaned, source)
  {
    RequestFrame(s, r, step);
    var d := s.requests[r].draft;
    match step
    case Insert => ReceivedOkInsert(s, r, source);
    case FallBack => UpdateCounts(s.table, d.id, RelayUpdateValues(QueueFullRelayResult()), source);
    case _ => RequestTableFrame(s, r, step);
  }

  lemma ReceivedOkWorker(s: State, w: nat, step: WorkerStep, source: Str)
    requires ReceivedOk(s) && WorkerEnabled(s, w, step)
    ensures var t := ApplyWorker(s, w, step);
      Count(t.received, source) == EverInserted(t.table, t.cleaned, source)
  {
    WorkerFrame(s, w, step);
    match step
    case Persist => UpdateCounts(s.table, s.pool[w].id, RelayUpdateValues(s.pool[w].phase.result), source);
    case _ => WorkerTableFrame(s, w, step);
  }

  lemma ReceivedOkService(s: State, step: ServiceStep, source: Str)
    requires ReceivedOk(s)
    ensures var t := ApplyService(s, step);
      Count(t.received, source) == EverInserted(t.table, t.cleaned, source)
  {
    if step.Cleanup? { CleanupCounts(s.table, s.cleaned, step.cutoff, source); }
  }

  lemma ReceivedOkStep(s: State, a: Action)
    requires ReceivedOk(s) && Enabled(s, a)
    ensures ReceivedOk(Apply(s, a))
  {
    RowMoves(s, a, []);
    forall source ensures var t := Apply(s, a); Count(t.received, source) == EverInserted(t.table, t.cleaned, source) {
      match a
      case ByRequest(r, step) => ReceivedOkRequest(s, r, step, source);
      case ByWorker(w, step) => ReceivedOkWorker(s, w, step, source);
      case ByService(step) => ReceivedOkService(s, step, source);
    }
  }

  // ---- Drafts ----------------------------------------------------------------

  /** While a request is between its insert and its answer, the row it inserted, if
      still there, is the one it drafted. */
  predicate DraftOk(s: State, q: Request) {
    q.Stored? || q.Refused? ==>
      && q.draft.id in Used(s)
      && (q.draft.id in s.table ==>
            var e := s.table[q.draft.id];
            e.source == q.draft.source && e.receivedAt == q.draft.receivedAt && e.key == q.draft.key)
  }

  ghost predicate DraftsOk(s: State) { forall r :: 0 <= r < |s.requests| ==> DraftOk(s, s.requests[r]) }

  /** Rows keep their identity, and removed rows stay removed. */
  ghost predicate RowsKeep(s: State, t: State) {
    forall id :: id in Used(s) ==>
      && id in Used(t)
      && (id in t.table ==>
            && id in s.table
            && t.table[id].source == s.table[id].source
            && t.table[id].receivedAt == s.table[id].receivedAt
            && t.table[id].key == s.table[id].key)
  }

  lemma RowsKeepRequest(s: State, r: nat, step: RequestStep)
    requires RequestEnabled(s, r, step) && s.table.Keys !! s.cleaned.Keys
    ensures RowsKeep(s, ApplyRequest(s, r, step))
  {
    RequestFrame(s, r, step);
    match step
    case Insert => InsertRow(s, r);
    case FallBack =>
    case _ => RequestTableFrame(s, r, step);
  }

  lemma RowsKeepWorker(s: State, w: nat, step: WorkerStep)
    requires WorkerEnabled(s, w, step)
    ensures RowsKeep(s, ApplyWorker(s, w, step))
  {
    WorkerFrame(s, w, step);
    match step
    case Persist =>
    case _ => WorkerTableFrame(s, w, step);
  }

  lemma RowsKeepService(s: State, step: ServiceStep)
    requires s.table.Keys !! s.cleaned.Keys
    ensures RowsKeep(s, ApplyService(s, step))
  {
    if step.Cleanup? { CleanupKeepsUsed(s, step.cutoff); }
  }

  lemma RowsKeepStep(s: State, a: Action)
    requires Enabled(s, a) && s.table.Keys !! s.cleaned.Keys
    ensures RowsKeep(s, Apply(s, a))
  {
    match a
    case ByRequest(r, step) => RowsKeepRequest(s, r, step);
    case ByWorker(w, step) => RowsKeepWorker(s, w, step);
    case ByService(step) => RowsKeepService(s, step);
  }

  lemma DraftsKept(s: State, t: State)
    requires DraftsOk(s) && RowsKeep(s, t)
    ensures forall r :: 0 <= r < |s.requests| ==> DraftOk(t, s.requests[r])
  {
    forall r | 0 <= r < |s.requests| ensures DraftOk(t, s.requests[r]) {
      assert DraftOk(s, s.requests[r]);
    }
  }

  lemma DraftOkRequest(s: State, r: nat, step: RequestStep)
    requires DraftsOk(s) && RequestEnabled(s, r, step) && s.table.Keys !! s.cleaned.Keys
    ensures DraftOk(ApplyRequest(s, r, step), ApplyRequest(s, r, step).requests[r])
  {
    RowsKeepRequest(s, r, step);
    assert DraftOk(s, s.requests[r]);
    if step.Insert? { InsertRow(s, r); }
  }

  lemma DraftsOkRequest(s: State, r: nat, step: RequestStep)
    requires DraftsOk(s) && RequestEnabled(s, r, step) && s.table.Keys !! s.cleaned.Keys
    ensures DraftsOk(ApplyRequest(s, r, step))
  {
    var t := ApplyRequest(s, r, step);
    RowsKeepRequest(s, r, step);
    DraftsKept(s, t);
    DraftOkRequest(s, r, step);
    RequestFrame(s, r, step);
    forall x | 0 <= x < |t.requests| ensures DraftOk(t, t.requests[x]) {
      if x != r { assert t.requests[x] == s.requests[x]; }
    }
  }

  lemma DraftsOkWorker(s: State, w: nat, step: WorkerStep)
    requires DraftsOk(s) && WorkerEnabled(s, w, step)
    ensures DraftsOk(ApplyWorker(s, w, step))
  {
    RowsKeepWorker(s, w, step);
    DraftsKept(s, ApplyWorker(s, w, step));
    WorkerFrame(s, w, step);
  }

  lemma DraftsOkService(s: State, step: ServiceStep)
    requires DraftsOk(s) && s.table.Keys !! s.cleaned.Keys
    ensures DraftsOk(ApplyService(s, step))
  {
    RowsKeepService(s, step);
    DraftsKept(s, ApplyService(s, step));
  }

  lemma DraftsOkStep(s: State, a: Action)
    requires DraftsOk(s) && Enabled(s, a) && s.table.Keys !! s.cleaned.Keys
    ensures DraftsOk(Apply(s, a))
  {
    match a
    case ByRequest(r, step) => DraftsOkRequest(s, r, step);
    case ByWorker(w, step) => DraftsOkWorker(s, w, step);
    case ByService(step) => DraftsOkService(s, step);
  }

  // ---- All of it -------------------------------------------------------------

  ghost predicate Inv(s: State) {
    && Balanced(s)
    && JobsOk(s)
    && RowsOk(s)
    && DispatcherOk(s)
    && RelayMetersOk(s)
    && ReceivedOk(s)
    && DraftsOk(s)
  }

  lemma InvInit(cfg: Config)
    requires cfg.maxAttempts >= 1
    ensures Inv(Init(cfg))
  {
    assert forall id :: BalancedAt(Init(cfg), id);
    assert forall source :: OfSource(map[], source) == {};
  }

  lemma InvStep(s: State, a: Action)
    requires Inv(s) && Enabled(s, a)
    ensures Inv(Apply(s, a))
  {
    BalancedStep(s, a);
    JobsOkStep(s, a);
    RowsOkStep(s, a);
    DispatcherOkStep(s, a);
    RelayMetersOkStep(s, a);
    ReceivedOkStep(s, a);
    DraftsOkStep(s, a);
  }

  /** Every state of every run that starts from the initial state is invariant. */
  lemma {:induction false} InvHolds(states: seq<State>, actions: seq<Action>, i: nat)
    requires IsRun(states, actions) && states[0] == Init(states[0].cfg) && states[0].cfg.maxAttempts >= 1
    requires i < |states|
    ensures Inv(states[i])
  {
    if i == 0 {
      InvInit(states[0].cfg);
    } else {
      InvHolds(states, actions, i - 1);
      assert StepAt(states, actions, i - 1);
      InvStep(states[i - 1], actions[i - 1]);
    }
  }
}
