/** With no further jobs, the workers bring every accepted job to an end. */
module Drain {
  import opened Relay
  import opened Events
  import opened Protocol
  import opened Tally
  import opened Books
  import opened Invariants
  import opened Runs

  /** The steps a worker still has before it, at most: an attempt and a sleep for
      each attempt left, the preflight, and the write. */
  ghost function Remaining(n: nat): Worker -> int {
    (w: Worker) =>
      if w.Idle? then 0
      else match w.phase
        case Resolving => 2 * n + 1
        case Posting => 2 * (n - |w.log.replies|)
        case Sleeping => 2 * (n - |w.log.replies|) + 1
        case Finishing(_) => 1
  }

  /** The steps of a job not yet taken. */
  ghost function Whole(n: nat): EventId -> int {
    (x: EventId) => 2 * n + 2
  }

  /** A bound on the worker steps left. */
  ghost function Work(s: State): int {
    Total(s.queue, Whole(s.cfg.maxAttempts)) + Total(s.pool, Remaining(s.cfg.maxAttempts))
  }

  lemma WorkNonNegative(s: State)
    requires JobsOk(s)
    ensures Work(s) >= 0
  {
    var n := s.cfg.maxAttempts;
    forall x | x in s.pool ensures Remaining(n)(x) >= 0 {
      var w :| 0 <= w < |s.pool| && s.pool[w] == x;
      assert WorkerOk(s.pool[w], n);
    }
    TotalNonNegative(s.pool, Remaining(n));
    TotalNonNegative(s.queue, Whole(n));
  }

  /** The job a worker has, or takes, gets strictly closer to its end. */
  lemma WorkerAdvances(s: State, w: nat, step: WorkerStep)
    requires JobsOk(s) && WorkerEnabled(s, w, step)
    ensures var n := s.cfg.maxAttempts;
      var x := ApplyWorker(s, w, step).pool[w];
      if step.Dequeue? then Remaining(n)(x) == 2 * n + 1 else Remaining(n)(x) < Remaining(n)(s.pool[w])
  {
    assert WorkerOk(s.pool[w], s.cfg.maxAttempts);
  }

  lemma QueueWork(s: State, w: nat, step: WorkerStep)
    requires WorkerEnabled(s, w, step)
    ensures var f := Whole(s.cfg.maxAttempts);
      Total(ApplyWorker(s, w, step).queue, f) + (if step.Dequeue? then 2 * s.cfg.maxAttempts + 2 else 0)
        == Total(s.queue, f)
  {
    if step.Dequeue? { TotalHead(s.queue, Whole(s.cfg.maxAttempts)); }
  }

  /** Every worker step, failing or not, uses up work. */
  lemma WorkDecreases(s: State, w: nat, step: WorkerStep)
    requires JobsOk(s) && WorkerEnabled(s, w, step)
    ensures Work(ApplyWorker(s, w, step)) < Work(s)
  {
    var n := s.cfg.maxAttempts;
    WorkerFrame(s, w, step);
    WorkerAdvances(s, w, step);
    QueueWork(s, w, step);
    TotalUpdate(s.pool, w, ApplyWorker(s, w, step).pool[w], Remaining(n));
  }

  ghost predicate OnlyWorkers(actions: seq<Action>) {
    forall i :: 0 <= i < |actions| ==> actions[i].ByWorker?
  }

  ghost function WorkerSteps(actions: seq<Action>): nat {
    if actions == [] then 0
    else WorkerSteps(actions[..|actions| - 1]) + if actions[|actions| - 1].ByWorker? then 1 else 0
  }

  /** A worker's step, or one that leaves queue and workers alone: an arrival, a request
      that enqueues nothing, a cleanup. */
  ghost predicate Calm(s: State, a: Action, t: State) { a.ByWorker? || (t.queue == s.queue && t.pool == s.pool) }

  ghost predicate CalmAt(states: seq<State>, actions: seq<Action>, i: nat)
    requires i < |actions| < |states|
  {
    Calm(states[i], actions[i], states[i + 1])
  }

  ghost predicate CalmRun(states: seq<State>, actions: seq<Action>) {
    IsRun(states, actions)
    && forall i :: 0 <= i < |actions| ==> CalmAt(states, actions, i)
  }

  ghost function RaisedOf(id: EventId): Closed -> int {
    (c: Closed) => if c.ending.Raised? && c.id == id then 1 else 0
  }

  ghost function Accepted(s: State, id: EventId): int { Queued(s, id) + Running(s, id) }

  /** Jobs of `id` that ended because an exception was raised and logged. */
  ghost function FailedJobs(s: State, id: EventId): int { Total(s.closed, RaisedOf(id)) }

  /** From s to t the jobs of `id` that are accepted, failed, or written stay as many, and
      none fails unless `failing`. */
  ghost predicate EndsJobs(s: State, t: State, id: EventId, failing: bool) {
    && Accepted(t, id) + FailedJobs(t, id) + Saved(t, id) == Accepted(s, id) + FailedJobs(s, id) + Saved(s, id)
    && (!failing ==> FailedJobs(t, id) == FailedJobs(s, id))
  }

  lemma ReleaseEndsJob(s: State, w: nat, ending: Ending, id: EventId)
    requires BusyIn(s, w) && (ending.Persisted? || ending.Raised?)
    ensures EndsJobs(s, Release(s, w, ending), id, ending.Raised?)
  {
    var c := Closed(s.pool[w].id, s.pool[w].log, ending);
    WorkerMoves(s, w, Idle, id);
    TotalAppend(s.closed, c, RaisedOf(id));
    Closes(s, c, id);
  }

  lemma DequeueEndsNone(s: State, w: nat, id: EventId)
    requires WorkerEnabled(s, w, Dequeue)
    ensures EndsJobs(s, ApplyDequeue(s, w), id, false)
  {
    WorkerMoves(s, w, Busy(s.queue[0], NO_LOG, Resolving), id);
    TotalHead(s.queue, QueuedOf(id));
  }

  lemma ContinueEndsNone(s: State, w: nat, step: WorkerStep, id: EventId)
    requires WorkerEnabled(s, w, step) && (step.Preflighted? || step.Replied? || step.Wake?)
    ensures EndsJobs(s, ApplyWorker(s, w, step), id, false)
  {
    WorkerMoves(s, w, ApplyWorker(s, w, step).pool[w], id);
  }

  /** A worker step moves a job on, writes its outcome, or records it as failed. */
  lemma WorkersOnlyEndJobs(s: State, w: nat, step: WorkerStep, id: EventId)
    requires WorkerEnabled(s, w, step)
    ensures EndsJobs(s, ApplyWorker(s, w, step), id, step.Fail?)
  {
    match step
    case Dequeue => DequeueEndsNone(s, w, id);
    case Persist => ReleaseEndsJob(s, w, Persisted(s.pool[w].phase.result), id);
    case Fail => ReleaseEndsJob(s, w, Raised, id);
    case _ => ContinueEndsNone(s, w, step, id);
  }

  /** Other steps that leave queue and workers alone end no accepted job. */
  lemma OthersEndNoJob(s: State, a: Action, t: State, id: EventId)
    requires StepsTo(s, a, t) && !a.ByWorker? && Calm(s, a, t)
    ensures t.cfg == s.cfg && FailedJobs(t, id) == FailedJobs(s, id) && Saved(t, id) == Saved(s, id)
  {
    match a
    case ByRequest(r, step) =>
      var stranded := Closed(s.requests[r].draft.id, NO_LOG, Stranded);
      RequestFrame(s, r, step);
      TotalAppend(s.closed, stranded, RaisedOf(id));
      Closes(s, stranded, id);
    case ByService(step) =>
      if step.StopDispatcher? { assert s.closed + Drops([]) + Cancels([]) == s.closed; }
  }

  /** One step of a calm run. */
  lemma CalmStep(s: State, a: Action, t: State, id: EventId)
    requires Inv(s) && StepsTo(s, a, t) && Calm(s, a, t)
    ensures Work(t) + (if a.ByWorker? then 1 else 0) <= Work(s) && |t.pool| == |s.pool|
    ensures EndsJobs(s, t, id, true)
  {
    if a.ByWorker? {
      WorkDecreases(s, a.w, a.work);
      WorkerFrame(s, a.w, a.work);
      WorkersOnlyEndJobs(s, a.w, a.work, id);
    } else {
      OthersEndNoJob(s, a, t, id);
    }
  }

  lemma CalmPrefix(states: seq<State>, actions: seq<Action>, k: nat)
    requires CalmRun(states, actions) && k <= |actions|
    ensures CalmRun(states[..k + 1], actions[..k])
  {
    var ss, aa := states[..k + 1], actions[..k];
    forall i | 0 <= i < k ensures StepAt(ss, aa, i) { assert StepAt(states, actions, i); }
    forall i | 0 <= i < k ensures CalmAt(ss, aa, i) { assert CalmAt(states, actions, i); }
  }

  /** Whatever arrives, is refused, or is cleaned up in between, as long as no new job is
      enqueued the workers take no more steps than the work there was at the start; no
      worker is lost, and each job accepted has written its outcome, is recorded as
      failed, or is still accepted. */
  lemma {:induction false} DrainIsBounded(states: seq<State>, actions: seq<Action>, id: EventId)
    requires CalmRun(states, actions) && Inv(states[0])
    ensures var s, t := states[0], states[|actions|];
      && Inv(t) && WorkerSteps(actions) + Work(t) <= Work(s) && |t.pool| == |s.pool|
      && EndsJobs(s, t, id, true)
  {
    if actions != [] {
      var k := |actions| - 1;
      CalmPrefix(states, actions, k);
      DrainIsBounded(states[..k + 1], actions[..k], id);
      assert StepAt(states, actions, k) && CalmAt(states, actions, k);
      InvStep(states[k], actions[k]);
      CalmStep(states[k], actions[k], states[k + 1], id);
    }
  }

  ghost predicate Quiet(s: State) { forall w, step :: !WorkerEnabled(s, w, step) }

  /** While a job is queued or running some worker can take a step, and one that is
      not a failure; the workers are stuck only when there is nothing left to do. */
  lemma QuietMeansDone(s: State)
    requires Inv(s)
    ensures Quiet(s) <==> s.queue == [] && forall w :: 0 <= w < |s.pool| ==> s.pool[w].Idle?
    ensures !Quiet(s) ==> exists w, step :: WorkerEnabled(s, w, step) && !step.Fail?
  {
    if w :| 0 <= w < |s.pool| && s.pool[w].Busy? {
      BusyCanStep(s, w);
    } else if s.queue != [] {
      assert |s.pool| == s.cfg.Workers() && WorkerEnabled(s, 0, Dequeue);
    }
  }

  lemma BusyCanStep(s: State, w: nat)
    requires w < |s.pool| && s.pool[w].Busy? && DispatcherOk(s)
    ensures exists step :: WorkerEnabled(s, w, step) && !step.Fail?
  {
    var step := match s.pool[w].phase
      case Resolving => Preflighted(Pass, 0)
      case Posting => Replied(Response(200))
      case Sleeping => Wake(0)
      case Finishing(_) => Persist;
    assert WorkerEnabled(s, w, step);
  }

  lemma QuietHasNoJob(s: State, id: EventId)
    requires Inv(s) && Quiet(s)
    ensures Accepted(s, id) == 0
  {
    QuietMeansDone(s);
    AllIdleIsZero(s.pool, RunningOf(id));
  }

  /** When the workers of a calm run can go no further the queue is empty, every worker
      is still there and idle, and every job accepted has written its outcome or is
      recorded as failed. */
  lemma DrainCompletes(states: seq<State>, actions: seq<Action>, id: EventId)
    requires CalmRun(states, actions) && Inv(states[0]) && Quiet(states[|actions|])
    ensures var s, t := states[0], states[|actions|];
      && t.queue == [] && |t.pool| == |s.pool| && (forall w :: 0 <= w < |t.pool| ==> t.pool[w].Idle?)
      && FailedJobs(t, id) + Saved(t, id) == Accepted(s, id) + FailedJobs(s, id) + Saved(s, id)
      && WorkerSteps(actions) <= Work(s)
  {
    var t := states[|actions|];
    DrainIsBounded(states, actions, id);
    WorkNonNegative(t);
    QuietMeansDone(t);
    QuietHasNoJob(t, id);
  }

  /** From s to t every job accepted has written its outcome or is still accepted. */
  ghost predicate NoneFails(s: State, t: State) {
    forall id :: Accepted(t, id) + Saved(t, id) == Accepted(s, id) + Saved(s, id)
  }

  /** A step that brings the workers nearer to the end, without a failure. */
  lemma DrainStep(s: State) returns (a: Action, u: State)
    requires Inv(s) && !Quiet(s)
    ensures a.ByWorker? && StepsTo(s, a, u) && Inv(u) && 0 <= Work(u) < Work(s) && NoneFails(s, u)
  {
    QuietMeansDone(s);
    var w, step :| WorkerEnabled(s, w, step) && !step.Fail?;
    a, u := ByWorker(w, step), ApplyWorker(s, w, step);
    InvStep(s, a);
    WorkDecreases(s, w, step);
    WorkNonNegative(u);
    forall id ensures Accepted(u, id) + Saved(u, id) == Accepted(s, id) + Saved(s, id) {
      WorkersOnlyEndJobs(s, w, step, id);
    }
  }

  lemma NoneFailsTransitive(s: State, t: State, u: State)
    requires NoneFails(s, t) && NoneFails(t, u)
    ensures NoneFails(s, u)
  {
    forall id ensures Accepted(u, id) + Saved(u, id) == Accepted(s, id) + Saved(s, id) {
      assert Accepted(t, id) + Saved(t, id) == Accepted(s, id) + Saved(s, id);
    }
  }

  /** A run of at most `n` worker steps that leaves the workers with nothing to do. */
  ghost predicate Drains(s: State, t: State, states: seq<State>, actions: seq<Action>, n: int) {
    && Leads(s, t, states, actions) && OnlyWorkers(actions) && |actions| <= n
    && Inv(t) && Quiet(t) && NoneFails(s, t)
  }

  lemma DrainsAtOnce(s: State, n: nat)
    requires Inv(s) && Quiet(s)
    ensures Drains(s, s, [s], [], n)
  {
  }

  lemma DrainsFrom(s: State, a: Action, u: State, t: State, states: seq<State>, actions: seq<Action>, n: int)
    returns (ss: seq<State>, aa: seq<Action>)
    requires a.ByWorker? && StepsTo(s, a, u) && NoneFails(s, u) && Drains(u, t, states, actions, n)
    ensures Drains(s, t, ss, aa, n + 1)
  {
    ss, aa := Prepend(s, a, u, t, states, actions);
    NoneFailsTransitive(s, u, t);
  }

  lemma {:induction false} DrainRuns(s: State, n: nat) returns (t: State, states: seq<State>, actions: seq<Action>)
    requires Inv(s) && Work(s) <= n
    ensures Drains(s, t, states, actions, n)
    decreases n
  {
    if Quiet(s) {
      t, states, actions := s, [s], [];
      DrainsAtOnce(s, n);
    } else {
      var a, u := DrainStep(s);
      t, states, actions := DrainRuns(u, n - 1);
      states, actions := DrainsFrom(s, a, u, t, states, actions, n - 1);
    }
  }

  /** Such a run there always is, without a failure: from every state the workers can go
      on until they are done, and every job accepted so far has written its outcome. */
  lemma DrainExists(s: State) returns (t: State, states: seq<State>, actions: seq<Action>)
    requires Inv(s)
    ensures Leads(s, t, states, actions) && OnlyWorkers(actions) && Quiet(t) && |actions| <= Work(s)
    ensures forall id :: Saved(t, id) == Accepted(s, id) + Saved(s, id)
  {
    WorkNonNegative(s);
    t, states, actions := DrainRuns(s, Work(s));
    forall id ensures Saved(t, id) == Accepted(s, id) + Saved(s, id) {
      QuietHasNoJob(t, id);
      assert Accepted(t, id) + Saved(t, id) == Accepted(s, id) + Saved(s, id);
    }
  }
}
