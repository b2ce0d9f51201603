/** Main results about the dispatcher: backlog, order, task accounting, counters,
    and the queue-full fallback. */
module Dispatch {
  import opened Common
  import opened Text
  import opened Relay
  import opened Events
  import opened Protocol
  import opened Tally
  import opened Invariants
  import opened Runs

  // ---- Backlog, order and task accounting ------------------------------------

  /** Bounded backlog and workers; a running job always has an HTTP client. */
  lemma BacklogIsBounded(states: seq<State>, actions: seq<Action>, i: nat)
    requires Reachable(states, actions) && i < |states|
    ensures var s := states[i];
      && |s.queue| <= (if s.cfg.queueSize > 1 then s.cfg.queueSize else 1)
      && Total(s.pool, BusyCount) <= |s.pool|
      && |s.pool| == (if !s.up then 0 else if s.cfg.workerCount > 1 then s.cfg.workerCount else 1)
      && (s.pool != [] ==> s.client)
  {
    InvHolds(states, actions, i);
    BusyAtMostPool(states[i].pool);
  }

  /** The room there is: a probe finds some if and only if fewer jobs are queued than the
      configured queue size, or none when that is not positive. */
  lemma ProbeFindsRoomIff(s: State, d: Draft)
    requires s.cfg.relayOn && s.up
    ensures AfterProbe(s, d) == Probed(d, SCHEDULED) <==> |s.queue| == 0 || |s.queue| < s.cfg.queueSize
    ensures AfterEnqueue(s, d).Refused? <==> !(|s.queue| == 0 || |s.queue| < s.cfg.queueSize)
  {
  }

  lemma {:induction false} BusyAtMostPool(pool: seq<Worker>)
    ensures 0 <= Total(pool, BusyCount) <= |pool|
  {
    if pool != [] { BusyAtMostPool(pool[..|pool| - 1]); }
  }

  /** First in, first out: the jobs started are the first jobs accepted, in order. */
  lemma JobsStartInOrder(states: seq<State>, actions: seq<Action>, i: nat)
    requires Reachable(states, actions) && i < |states|
    ensures var s := states[i];
      s.started <= s.accepted && s.queue == s.accepted[|s.started|..]
  {
    InvHolds(states, actions, i);
  }

  /** The unfinished count is the queued and running jobs, so `task_done` never
      counts below zero: not when a job ends, and not when all of them are cancelled. */
  lemma TaskDoneNeverOverCounts(states: seq<State>, actions: seq<Action>, i: nat)
    requires Reachable(states, actions) && i < |states|
    ensures var s := states[i];
      && s.unfinished == |s.queue| + Total(s.pool, BusyCount)
      && (forall w :: BusyIn(s, w) ==> s.unfinished >= 1)
  {
    InvHolds(states, actions, i);
    var s := states[i];
    forall w | BusyIn(s, w) ensures s.unfinished >= 1 { TotalMember(s.pool, w, BusyCount); }
  }

  // ---- Counters --------------------------------------------------------------

  /** Attempts reported by the outcomes that were written. */
  ghost function AttemptsReported(c: Closed): int { if c.ending.Persisted? then c.ending.result.attempts else 0 }

  /** Attempts made by jobs that ended without writing. */
  ghost function AttemptsUnreported(c: Closed): int { if c.ending.Persisted? then 0 else |c.log.stamps| }

  ghost function SuccessesReported(c: Closed): int { One(c.ending.Persisted? && c.ending.result.success) }

  ghost function SuccessesUnreported(c: Closed): int { if c.ending.Persisted? then 0 else Successes(c.log.replies) }

  /** The attempts counter is the attempts of all written outcomes, of the jobs in
      progress, and of the jobs that failed or were cancelled; the successes counter
      is split the same way. */
  lemma RelayCountersConserved(states: seq<State>, actions: seq<Action>, i: nat)
    requires Reachable(states, actions) && i < |states|
    ensures var s := states[i];
      && s.attemptsTotal ==
           Total(s.closed, AttemptsReported) + Total(s.closed, AttemptsUnreported) + Total(s.pool, PostsIn)
      && s.successesTotal ==
           Total(s.closed, SuccessesReported) + Total(s.closed, SuccessesUnreported) + Total(s.pool, WinsIn)
  {
    InvHolds(states, actions, i);
    ClosedSplits(states[i].closed, states[i].cfg.maxAttempts);
  }

  lemma {:induction false} ClosedSplits(closed: seq<Closed>, n: nat)
    requires forall c :: 0 <= c < |closed| ==> ClosedOk(closed[c], n)
    ensures Total(closed, PostsMade) == Total(closed, AttemptsReported) + Total(closed, AttemptsUnreported)
    ensures Total(closed, WinsMade) == Total(closed, SuccessesReported) + Total(closed, SuccessesUnreported)
  {
    if closed != [] {
      var c := closed[|closed| - 1];
      ClosedSplits(closed[..|closed| - 1], n);
      assert ClosedOk(c, n);
      if c.ending.Persisted? && c.ending.result.attempted { LastDecides(c.log.replies); }
    }
  }

  /** Only the last reply of a finished job can be a 2xx. */
  lemma LastDecides(replies: seq<Reply>)
    requires |replies| >= 1 && NoneStops(replies, |replies| - 1)
    ensures Successes(replies) == One(Is2xx(replies[|replies| - 1]))
  {
    NoSuccesses(replies[..|replies| - 1]);
  }

  lemma {:induction false} NoSuccesses(replies: seq<Reply>)
    requires NoneStops(replies, |replies|)
    ensures Successes(replies) == 0
  {
    if replies != [] {
      NoSuccesses(replies[..|replies| - 1]);
    }
  }

  /** The received counter of a source is the rows inserted for it: those present
      and those cleaned up, which are never the same. */
  lemma ReceivedCounterConserved(states: seq<State>, actions: seq<Action>, i: nat, source: Str)
    requires Reachable(states, actions) && i < |states|
    ensures var s := states[i];
      && Count(s.received, source) == |OfSource(s.table, source)| + |OfSource(s.cleaned, source)|
      && OfSource(s.table, source) !! OfSource(s.cleaned, source)
  {
    InvHolds(states, actions, i);
    assert Count(states[i].received, source) == EverInserted(states[i].table, states[i].cleaned, source);
  }

  // ---- The queue-full fallback -----------------------------------------------

  /** With nothing running in between, a positive probe means the job is accepted:
      probe, insert and enqueue end with the job at the back of the queue. */
  lemma ProbeAgreesWithEnqueue(s: State, r: nat)
    requires RequestEnabled(s, r, Probe) && s.cfg.relayOn && s.up && HasCapacity(s)
    requires !Conflict(s, s.requests[r].draft) && s.requests[r].draft.id !in s.cleaned
    ensures var d := s.requests[r].draft;
      var s1 := ApplyProbe(s, r);
      RequestEnabled(s1, r, Insert) &&
      var s2 := ApplyInsert(s1, r);
      RequestEnabled(s2, r, Enqueue) &&
      var s3 := ApplyEnqueue(s2, r);
      && s3.queue == s.queue + [d.id]
      && s3.requests[r] == Answered(d, Answer(d.id, d.receivedAt, EventRelayResult(SCHEDULED)))
      && s3.table[d.id].relay == SCHEDULED
  {
  }

  /** Two new requests of different events, with room for one job left. */
  ghost predicate LastSlotContended(s: State, p: nat, q: nat) {
    && s.cfg.relayOn && s.up && |s.queue| == s.cfg.Capacity() - 1
    && p < |s.requests| && q < |s.requests| && p != q
    && s.requests[p].Arrived? && s.requests[q].Arrived?
    && s.requests[p].draft.id != s.requests[q].draft.id
    && s.requests[p].draft.key.None? && s.requests[q].draft.key.None?
    && s.requests[p].draft.id !in Used(s) && s.requests[q].draft.id !in Used(s)
  }

  /** Such states are reachable, for any two events. */
  lemma ContentionIsReachable(d: Draft, e: Draft, workers: int, n: nat)
    returns (states: seq<State>, actions: seq<Action>)
    requires d.id != e.id && d.key.None? && e.key.None? && n >= 1
    ensures Reachable(states, actions) && LastSlotContended(states[|states| - 1], 0, 1)
    ensures states[|states| - 1].requests == [Arrived(d), Arrived(e)]
  {
    var s0 := Init(Config(true, 1, workers, n));
    var s1 := ApplyService(s0, StartClient);
    var s2 := ApplyService(s1, StartDispatcher);
    var s3 := ApplyService(s2, Arrive(d));
    var s4 := ApplyService(s3, Arrive(e));
    actions := [ByService(StartClient), ByService(StartDispatcher), ByService(Arrive(d)), ByService(Arrive(e))];
    states := [s0, s1, s2, s3, s4];
  }

  /** Both probes find room, and both rows are stored as scheduled. */
  lemma ContentionStoresBoth(s: State, p: nat, q: nat) returns (s1: State, s2: State, s3: State, s4: State)
    requires LastSlotContended(s, p, q)
    ensures RequestEnabled(s, p, Probe) && s1 == ApplyRequest(s, p, Probe)
    ensures RequestEnabled(s1, q, Probe) && s2 == ApplyRequest(s1, q, Probe)
    ensures RequestEnabled(s2, p, Insert) && s3 == ApplyRequest(s2, p, Insert)
    ensures RequestEnabled(s3, q, Insert) && s4 == ApplyRequest(s3, q, Insert)
    ensures s4.queue == s.queue && s4.up && s4.cfg == s.cfg && |s4.requests| == |s.requests|
    ensures s4.requests[p] == Stored(s.requests[p].draft) && s4.requests[q] == Stored(s.requests[q].draft)
  {
    s1 := ApplyProbe(s, p);
    s2 := ApplyProbe(s1, q);
    assert s2 == s.(requests := s2.requests);
    s3 := ApplyInsert(s2, p);
    s4 := ApplyInsert(s3, q);
  }

  /** When both probe before either enqueues, the second finds the queue full after
      all: the fallback is reached from every such state. */
  lemma ContentionReachesFallback(s: State, p: nat, q: nat) returns (states: seq<State>)
    requires LastSlotContended(s, p, q)
    ensures IsRun(states, [ByRequest(p, Probe), ByRequest(q, Probe), ByRequest(p, Insert), ByRequest(q, Insert),
                           ByRequest(p, Enqueue), ByRequest(q, Enqueue)])
    ensures states[0] == s && q < |states[6].requests| && states[6].requests[q] == Refused(s.requests[q].draft)
  {
    var s1, s2, s3, s4 := ContentionStoresBoth(s, p, q);
    var s5 := ApplyRequest(s4, p, Enqueue);
    var s6 := ApplyRequest(s5, q, Enqueue);
    states := [s, s1, s2, s3, s4, s5, s6];
  }

  ghost predicate AcceptsJob(s: State, a: Action) { a.ByRequest? && a.intake.Enqueue? && s.up && HasCapacity(s) }

  ghost predicate StartsJob(a: Action) { a.ByWorker? && a.work.Dequeue? }

  /** Jobs accepted by the actions from i up to j. */
  ghost function AcceptedIn(states: seq<State>, actions: seq<Action>, i: nat, j: nat): nat
    requires i <= j <= |actions| < |states|
  {
    if i == j then 0 else AcceptedIn(states, actions, i, j - 1) + One(AcceptsJob(states[j - 1], actions[j - 1]))
  }

  /** Jobs taken from the queue by the actions from i up to j. */
  ghost function StartedIn(actions: seq<Action>, i: nat, j: nat): nat
    requires i <= j <= |actions|
  {
    if i == j then 0 else StartedIn(actions, i, j - 1) + One(StartsJob(actions[j - 1]))
  }

  lemma QueueLengthRequest(s: State, r: nat, step: RequestStep)
    requires RequestEnabled(s, r, step)
    ensures |ApplyRequest(s, r, step).queue| == |s.queue| + One(AcceptsJob(s, ByRequest(r, step)))
  {
  }

  lemma QueueLength(s: State, a: Action, t: State)
    requires StepsTo(s, a, t)
    ensures t.cfg == s.cfg
    ensures s.up && t.up ==> |t.queue| == |s.queue| + One(AcceptsJob(s, a)) - One(StartsJob(a))
  {
    match a
    case ByRequest(r, step) =>
      RequestFrame(s, r, step);
      QueueLengthRequest(s, r, step);
    case ByWorker(w, step) =>
      WorkerFrame(s, w, step);
      QueueFrame(s, w, step);
    case ByService(step) =>
  }

  ghost predicate UpThroughout(states: seq<State>, i: nat, j: nat)
    requires i <= j < |states|
  {
    forall k :: i <= k <= j ==> states[k].up
  }

  lemma {:induction false} BacklogGrows(states: seq<State>, actions: seq<Action>, i: nat, j: nat)
    requires IsRun(states, actions) && i <= j < |states|
    ensures states[j].cfg == states[i].cfg
    ensures UpThroughout(states, i, j) ==>
      |states[j].queue| == |states[i].queue| + AcceptedIn(states, actions, i, j) - StartedIn(actions, i, j)
    decreases j
  {
    if i < j {
      BacklogGrows(states, actions, i, j - 1);
      assert StepAt(states, actions, j - 1);
      QueueLength(states[j - 1], actions[j - 1], states[j]);
    }
  }

  /** When the fallback is reached: a job whose probe found room at i is refused at j if
      and only if the jobs accepted in between, less those started, took all that room.
      A stopped dispatcher ends the request in an error instead. */
  lemma FallbackIff(states: seq<State>, actions: seq<Action>, i: nat, j: nat, r: nat)
    requires Reachable(states, actions) && i < j < |actions| && UpThroughout(states, i, j)
    requires actions[i] == ByRequest(r, Probe) && r < |states[i + 1].requests|
    requires states[i + 1].requests[r] == Probed(states[i + 1].requests[r].draft, SCHEDULED)
    requires actions[j] == ByRequest(r, Enqueue)
    ensures r < |states[j + 1].requests|
    ensures states[j + 1].requests[r].Refused? <==>
      AcceptedIn(states, actions, i, j) - StartedIn(actions, i, j) >= states[i].cfg.Capacity() - |states[i].queue|
    ensures !states[j + 1].requests[r].Refused? ==> states[j + 1].requests[r].Answered?
    ensures |states[i].queue| < states[i].cfg.Capacity()
  {
    assert StepAt(states, actions, i) && StepAt(states, actions, j);
    BacklogGrows(states, actions, i, j);
  }

  /** The fallback's insert and update leave the same row, and give the same answer,
      as the single insert of a request that found the queue full at the probe. */
  lemma FallbackMatchesPreFullInsert(s: State, u: State, r: nat)
    requires Inv(s) && RequestEnabled(s, r, FallBack) && s.requests[r].draft.id in s.table
    requires RequestEnabled(u, r, Insert) && u.requests[r] == Probed(s.requests[r].draft, PRE_FULL)
    requires !Conflict(u, s.requests[r].draft)
    ensures var id := s.requests[r].draft.id;
      && ApplyFallBack(s, r).requests[r] == ApplyInsert(u, r).requests[r]
      && ApplyFallBack(s, r).table[id] == ApplyInsert(u, r).table[id]
      && ApplyFallBack(s, r).queue == s.queue
  {
    QueueFullColumnsAgree();
    assert DraftOk(s, s.requests[r]);
  }
}
