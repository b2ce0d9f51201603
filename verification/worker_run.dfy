/** A worker's steps in the protocol, taken one after the other, are `relay_event`
    and the write of its outcome. */
module WorkerRun {
  import opened Common
  import opened Relay
  import opened Events
  import opened Protocol
  import opened Drain
  import opened Runs

  /** A run of worker steps from s to t. */
  ghost predicate WorkersLead(s: State, t: State, states: seq<State>, actions: seq<Action>) {
    Leads(s, t, states, actions) && OnlyWorkers(actions)
  }

  lemma LeadCons(s: State, w: nat, step: WorkerStep, u: State, t: State, states: seq<State>, actions: seq<Action>)
    returns (ss: seq<State>, aa: seq<Action>)
    requires WorkerEnabled(s, w, step) && u == ApplyWorker(s, w, step) && WorkersLead(u, t, states, actions)
    ensures WorkersLead(s, t, ss, aa)
  {
    ss, aa := Prepend(s, ByWorker(w, step), u, t, states, actions);
  }

  /** Worker w is waiting for the reply to attempt i + 1. */
  ghost predicate PostingAt(s: State, w: nat, replies: seq<Reply>, clock: seq<int>, i: nat) {
    && w < |s.pool| && s.pool[w].Busy?
    && i < s.cfg.maxAttempts <= |replies| && s.cfg.maxAttempts <= |clock|
    && s.pool[w].log == Log(replies[..i], clock[..i + 1]) && s.pool[w].phase == Posting
  }

  /** The state of a worker whose loop ended with attempt k: with an outcome, or in
      the attempt that raised. */
  ghost function EndAfter(id: EventId, replies: seq<Reply>, clock: seq<int>, k: nat): Worker
    requires 1 <= k <= |replies| && k <= |clock|
  {
    if replies[k - 1].Unexpected? then Busy(id, Log(replies[..k - 1], clock[..k]), Posting)
    else Busy(id, Log(replies[..k], clock[..k]), Finishing(Conclude(replies[..k], clock[..k])))
  }

  ghost function LoopEnd(id: EventId, replies: seq<Reply>, clock: seq<int>, n: nat): Worker
    requires 1 <= n <= |replies| && n <= |clock|
  {
    EndAfter(id, replies, clock, AttemptsMade(replies, n))
  }

  /** Attempt i + 1, not the last: a reply, a sleep, and the next attempt. */
  lemma RetryStep(s: State, w: nat, replies: seq<Reply>, clock: seq<int>, i: nat) returns (u: State, v: State)
    requires PostingAt(s, w, replies, clock, i) && !Stops(replies[i]) && i + 1 < s.cfg.maxAttempts
    ensures WorkerEnabled(s, w, Replied(replies[i])) && u == ApplyWorker(s, w, Replied(replies[i]))
    ensures WorkerEnabled(u, w, Wake(clock[i + 1])) && v == ApplyWorker(u, w, Wake(clock[i + 1]))
    ensures PostingAt(v, w, replies, clock, i + 1)
    ensures v == s.(pool := s.pool[w := v.pool[w]], attemptsTotal := s.attemptsTotal + 1)
    ensures v.pool[w].id == s.pool[w].id
  {
    assert replies[..i] + [replies[i]] == replies[..i + 1];
    u := ApplyReplied(s, w, replies[i]);
    assert clock[..i + 1] + [clock[i + 1]] == clock[..i + 2];
    v := ApplyWake(u, w, clock[i + 1]);
    assert v.pool == s.pool[w := v.pool[w]];
  }

  /** The state once the loop that is at attempt i + 1 has ended. */
  ghost function LoopDone(s: State, w: nat, replies: seq<Reply>, clock: seq<int>, i: nat): State
    requires PostingAt(s, w, replies, clock, i)
  {
    var k := AttemptsMade(replies, s.cfg.maxAttempts);
    s.(pool := s.pool[w := LoopEnd(s.pool[w].id, replies, clock, s.cfg.maxAttempts)],
       attemptsTotal := Max(s.attemptsTotal + (k - 1 - i), 0),
       successesTotal := s.successesTotal + One(Is2xx(replies[k - 1])))
  }

  lemma RetryKeepsEnd(s: State, w: nat, replies: seq<Reply>, clock: seq<int>, i: nat, v: State)
    requires PostingAt(s, w, replies, clock, i) && PostingAt(v, w, replies, clock, i + 1)
    requires v == s.(pool := s.pool[w := v.pool[w]], attemptsTotal := s.attemptsTotal + 1)
    requires v.pool[w].id == s.pool[w].id
    ensures LoopDone(v, w, replies, clock, i + 1) == LoopDone(s, w, replies, clock, i)
  {
    assert LoopDone(v, w, replies, clock, i + 1).pool == LoopDone(s, w, replies, clock, i).pool;
  }

  lemma LastReply(s: State, w: nat, replies: seq<Reply>, clock: seq<int>, i: nat)
    requires PostingAt(s, w, replies, clock, i) && !replies[i].Unexpected?
    requires Is2xx(replies[i]) || i + 1 == s.cfg.maxAttempts
    ensures ApplyReplied(s, w, replies[i]) ==
      s.(pool := s.pool[w := EndAfter(s.pool[w].id, replies, clock, i + 1)],
         successesTotal := s.successesTotal + One(Is2xx(replies[i])))
  {
    assert replies[..i] + [replies[i]] == replies[..i + 1];
  }

  lemma NothingAfterRaise(s: State, w: nat, replies: seq<Reply>, clock: seq<int>, i: nat)
    requires PostingAt(s, w, replies, clock, i) && replies[i].Unexpected?
    ensures s.pool == s.pool[w := EndAfter(s.pool[w].id, replies, clock, i + 1)]
  {
  }

  /** The attempt that ends the loop: nothing more to do if it raised, else one reply. */
  lemma LastAttempt(s: State, w: nat, replies: seq<Reply>, clock: seq<int>, i: nat)
    requires PostingAt(s, w, replies, clock, i) && i + 1 == AttemptsMade(replies, s.cfg.maxAttempts)
    ensures replies[i].Unexpected? ==> LoopDone(s, w, replies, clock, i) == s
    ensures !replies[i].Unexpected? ==> ApplyReplied(s, w, replies[i]) == LoopDone(s, w, replies, clock, i)
  {
    if replies[i].Unexpected? {
      NothingAfterRaise(s, w, replies, clock, i);
    } else {
      LastReply(s, w, replies, clock, i);
    }
  }

  /** From attempt i + 1 on, the worker's steps end as the retry loop does. */
  lemma {:induction false} StepsFollowLoop(s: State, w: nat, replies: seq<Reply>, clock: seq<int>, i: nat)
    returns (states: seq<State>, actions: seq<Action>)
    requires PostingAt(s, w, replies, clock, i) && i < AttemptsMade(replies, s.cfg.maxAttempts)
    ensures WorkersLead(s, LoopDone(s, w, replies, clock, i), states, actions)
    decreases s.cfg.maxAttempts - i
  {
    var t := LoopDone(s, w, replies, clock, i);
    if i + 1 < AttemptsMade(replies, s.cfg.maxAttempts) {
      var u, v := RetryStep(s, w, replies, clock, i);
      states, actions := StepsFollowLoop(v, w, replies, clock, i + 1);
      RetryKeepsEnd(s, w, replies, clock, i, v);
      states, actions := LeadCons(u, w, Wake(clock[i + 1]), v, t, states, actions);
      states, actions := LeadCons(s, w, Replied(replies[i]), u, t, states, actions);
    } else {
      LastAttempt(s, w, replies, clock, i);
      states, actions := [t], [];
      if !replies[i].Unexpected? {
        states, actions := LeadCons(s, w, Replied(replies[i]), t, t, states, actions);
      }
    }
  }

  /** The world one job meets. */
  datatype World = World(target: Target, policy: Policy, resolution: Resolution,
                         replies: seq<Reply>, clock: seq<int>, jitter: seq<real>, writeFails: bool)

  ghost predicate WorldFor(world: World, n: nat) {
    && 1 <= n <= |world.replies| && n <= |world.clock| && n <= |world.jitter| + 1
    && forall k :: 0 <= k < |world.jitter| ==> -0.2 <= world.jitter[k] <= 0.2
  }

  function VerdictOf(world: World): Verdict { PreflightVerdict(world.target, world.policy, world.resolution) }

  ghost function OutcomeIn(world: World, n: nat): Option<RelayResult>
    requires WorldFor(world, n)
  {
    EventOutcome(VerdictOf(world), true, world.replies, world.clock, n)
  }

  ghost function PostsOf(world: World, n: nat): nat
    requires WorldFor(world, n)
  {
    if VerdictOf(world).Pass? then AttemptsMade(world.replies, n) else 0
  }

  ghost function Wins(world: World, n: nat): nat
    requires WorldFor(world, n)
  {
    var out := OutcomeIn(world, n);
    if out.Some? && out.value.success then 1 else 0
  }

  ghost function LogIn(world: World, n: nat): Log
    requires WorldFor(world, n)
  {
    if !VerdictOf(world).Pass? then NO_LOG else LoopEnd([], world.replies, world.clock, n).log
  }

  /** How the job ends: its outcome written, or an exception logged. */
  ghost function EndingOf(world: World, n: nat): (ending: Ending)
    requires WorldFor(world, n)
    ensures ending.Persisted? || ending.Raised?
  {
    var out := OutcomeIn(world, n);
    if out.Some? && !world.writeFails then Persisted(out.value) else Raised
  }

  /** The state when the next job has ended, its steps counted. */
  function JobEnded(s: State, posts: nat, wins: nat, log: Log, ending: Ending): State
    requires s.queue != []
  {
    var id := s.queue[0];
    s.(queue := s.queue[1..],
       started := s.started + [id],
       unfinished := Max(s.unfinished - 1, 0),
       attemptsTotal := s.attemptsTotal + posts,
       successesTotal := s.successesTotal + wins,
       closed := s.closed + [Closed(id, log, ending)],
       table := if ending.Persisted? then BlindUpdate(s.table, id, RelayUpdateValues(ending.result)) else s.table)
  }

  ghost function JobDone(s: State, world: World): State
    requires WorldFor(world, s.cfg.maxAttempts) && s.queue != []
  {
    var n := s.cfg.maxAttempts;
    JobEnded(s, PostsOf(world, n), Wins(world, n), LogIn(world, n), EndingOf(world, n))
  }

  /** Where a worker's relay of its job ends: at an outcome to write, or at the point
      where an exception escapes. */
  ghost function RelayEnd(s: State, w: nat, world: World): Worker
    requires WorldFor(world, s.cfg.maxAttempts) && BusyIn(s, w)
  {
    match VerdictOf(world)
    case Raise => s.pool[w]
    case Skip(result) => Busy(s.pool[w].id, NO_LOG, Finishing(result))
    case Pass => LoopEnd(s.pool[w].id, world.replies, world.clock, s.cfg.maxAttempts)
  }

  ghost function RelayDone(s: State, w: nat, world: World): State
    requires WorldFor(world, s.cfg.maxAttempts) && BusyIn(s, w)
  {
    var n := s.cfg.maxAttempts;
    s.(pool := s.pool[w := RelayEnd(s, w, world)],
       attemptsTotal := s.attemptsTotal + PostsOf(world, n),
       successesTotal := s.successesTotal + Wins(world, n))
  }

  /** A relay succeeds when the last attempt it makes is answered by a 2xx. */
  lemma WinsOnPass(world: World, n: nat)
    requires WorldFor(world, n) && VerdictOf(world).Pass?
    ensures Wins(world, n) == One(Is2xx(world.replies[AttemptsMade(world.replies, n) - 1]))
  {
  }

  lemma FirstAttempt(s: State, w: nat, world: World) returns (u: State)
    requires WorldFor(world, s.cfg.maxAttempts) && BusyIn(s, w) && s.client && VerdictOf(world).Pass?
    requires s.pool[w] == Busy(s.pool[w].id, NO_LOG, Resolving)
    ensures WorkerEnabled(s, w, Preflighted(Pass, world.clock[0]))
    ensures u == ApplyWorker(s, w, Preflighted(Pass, world.clock[0])) && u.cfg == s.cfg
    ensures PostingAt(u, w, world.replies, world.clock, 0)
    ensures LoopDone(u, w, world.replies, world.clock, 0) == RelayDone(s, w, world)
  {
    u := ApplyPreflighted(s, w, Pass, world.clock[0]);
    assert world.replies[..0] == [] && world.clock[..1] == [world.clock[0]];
    WinsOnPass(world, s.cfg.maxAttempts);
    assert LoopDone(u, w, world.replies, world.clock, 0).pool == RelayDone(s, w, world).pool;
  }

  /** The first attempt begins, and the loop runs to its end. */
  lemma StepsFollowPass(s: State, w: nat, world: World) returns (states: seq<State>, actions: seq<Action>)
    requires WorldFor(world, s.cfg.maxAttempts) && BusyIn(s, w) && s.client && VerdictOf(world).Pass?
    requires s.pool[w] == Busy(s.pool[w].id, NO_LOG, Resolving)
    ensures WorkersLead(s, RelayDone(s, w, world), states, actions)
  {
    var u := FirstAttempt(s, w, world);
    states, actions := StepsFollowLoop(u, w, world.replies, world.clock, 0);
    states, actions := LeadCons(s, w, Preflighted(Pass, world.clock[0]), u, RelayDone(s, w, world), states, actions);
  }

  /** From a worker holding a job to the end of its relay. */
  lemma StepsFollowRelay(s: State, w: nat, world: World) returns (states: seq<State>, actions: seq<Action>)
    requires WorldFor(world, s.cfg.maxAttempts) && BusyIn(s, w) && s.client
    requires s.pool[w] == Busy(s.pool[w].id, NO_LOG, Resolving)
    ensures WorkersLead(s, RelayDone(s, w, world), states, actions)
  {
    var t := RelayDone(s, w, world);
    PreflightSkips(world.target, world.policy, world.resolution);
    match VerdictOf(world)
    case Raise =>
      assert t.pool == s.pool;
      states, actions := [s], [];
    case Skip(result) =>
      assert t == ApplyPreflighted(s, w, Skip(result), 0);
      states, actions := LeadCons(s, w, Preflighted(Skip(result), 0), t, t, [t], []);
    case Pass =>
      states, actions := StepsFollowPass(s, w, world);
  }

  lemma LeadEnd(s: State, t: State, states: seq<State>, actions: seq<Action>, w: nat, step: WorkerStep)
    returns (ss: seq<State>, aa: seq<Action>)
    requires WorkersLead(s, t, states, actions) && WorkerEnabled(t, w, step)
    ensures WorkersLead(s, ApplyWorker(t, w, step), ss, aa)
  {
    var u := ApplyWorker(t, w, step);
    OneAction(t, ByWorker(w, step));
    Join(s, t, u, states, actions, [t, u], [ByWorker(w, step)]);
    ss, aa := states + [t, u][1..], actions + [ByWorker(w, step)];
  }

  /** The last step of a job: the write, or the exception. */
  function LastStep(ending: Ending): WorkerStep { if ending.Persisted? then Persist else Fail }

  lemma RelayEndIs(s: State, w: nat, world: World)
    requires WorldFor(world, s.cfg.maxAttempts) && BusyIn(s, w)
    requires s.pool[w] == Busy(s.pool[w].id, NO_LOG, Resolving)
    ensures var x, ending := RelayEnd(s, w, world), EndingOf(world, s.cfg.maxAttempts);
      && x.Busy? && x.id == s.pool[w].id && x.log == LogIn(world, s.cfg.maxAttempts)
      && (ending.Persisted? ==> x.phase == Finishing(ending.result))
  {
  }

  /** A worker that has relayed its job has only to let go of it. */
  lemma LastStepEndsJob(s: State, t: State, w: nat, x: Worker, posts: nat, wins: nat, ending: Ending)
    requires w < |s.pool| && s.pool[w].Idle? && s.queue != []
    requires x.Busy? && x.id == s.queue[0] && (ending.Persisted? ==> x.phase == Finishing(ending.result))
    requires ending.Persisted? || ending.Raised?
    requires t == s.(pool := s.pool[w := x], queue := s.queue[1..], started := s.started + [s.queue[0]],
                     attemptsTotal := s.attemptsTotal + posts, successesTotal := s.successesTotal + wins)
    ensures WorkerEnabled(t, w, LastStep(ending))
    ensures ApplyWorker(t, w, LastStep(ending)) == JobEnded(s, posts, wins, x.log, ending)
  {
    assert t.pool[w := Idle] == s.pool;
  }

  /** An idle worker that takes the next job and runs it to its end, by itself, does
      what the worker loop, `relay_event` and the final write do. */
  lemma StepsRunJob(s: State, w: nat, world: World) returns (states: seq<State>, actions: seq<Action>)
    requires WorldFor(world, s.cfg.maxAttempts) && w < |s.pool| && s.pool[w].Idle? && s.queue != [] && s.client
    ensures WorkersLead(s, JobDone(s, world), states, actions)
  {
    var n := s.cfg.maxAttempts;
    var u := ApplyDequeue(s, w);
    var x, ending := RelayEnd(u, w, world), EndingOf(world, n);
    states, actions := StepsFollowRelay(u, w, world);
    RelayEndIs(u, w, world);
    assert u.pool[w := x] == s.pool[w := x];
    LastStepEndsJob(s, RelayDone(u, w, world), w, x, PostsOf(world, n), Wins(world, n), ending);
    states, actions := LeadEnd(u, RelayDone(u, w, world), states, actions, w, LastStep(ending));
    states, actions := LeadCons(s, w, Dequeue, u, JobDone(s, world), states, actions);
  }
}
