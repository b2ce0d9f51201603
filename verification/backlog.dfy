/** Queued jobs that are run to their ends one after another. */
module Backlog {
  import opened Common
  import opened Relay
  import opened Events
  import opened Protocol
  import opened Tally
  import opened Books
  import opened Invariants
  import opened WorkerRun

  // ---- Jobs run one after another --------------------------------------------

  ghost predicate WorldsFor(worlds: seq<World>, n: nat) {
    forall k :: 0 <= k < |worlds| ==> WorldFor(worlds[k], n)
  }

  /** The first |worlds| queued jobs, each run to its end before the next. */
  ghost function JobsDone(s: State, worlds: seq<World>): (t: State)
    requires WorldsFor(worlds, s.cfg.maxAttempts) && |worlds| <= |s.queue|
    ensures t.cfg == s.cfg && t.pool == s.pool && t.queue == s.queue[|worlds|..] && t.client == s.client && t.up == s.up
  {
    if worlds == [] then s else JobDone(JobsDone(s, worlds[..|worlds| - 1]), worlds[|worlds| - 1])
  }

  lemma JobsDoneNext(s: State, worlds: seq<World>, k: nat)
    requires WorldsFor(worlds, s.cfg.maxAttempts) && k < |worlds| <= |s.queue|
    ensures JobsDone(s, worlds[..k + 1]) == JobDone(JobsDone(s, worlds[..k]), worlds[k])
  {
    assert worlds[..k + 1][..k] == worlds[..k];
  }

  /** What a job run to its end leaves in the columns of its row. */
  ghost function ColumnsLeft(world: World, n: nat): RelayColumns
    requires WorldFor(world, n)
  {
    var ending := EndingOf(world, n);
    if ending.Persisted? then RelayUpdateValues(ending.result) else SCHEDULED
  }

  lemma {:induction false} QueuedOnce(queue: seq<EventId>, k: nat)
    requires k < |queue|
    ensures Total(queue, QueuedOf(queue[k])) >= 1
  {
    var m := |queue| - 1;
    if k < m {
      QueuedOnce(queue[..m], k);
    } else {
      TotalNonNegative(queue[..m], QueuedOf(queue[k]));
    }
  }

  lemma {:induction false} QueuedTwice(queue: seq<EventId>, j: nat, k: nat)
    requires j < k < |queue| && queue[j] == queue[k]
    ensures Total(queue, QueuedOf(queue[k])) >= 2
  {
    var m := |queue| - 1;
    if k < m {
      QueuedTwice(queue[..m], j, k);
    } else {
      QueuedOnce(queue[..m], j);
    }
  }

  /** Queued jobs are of different events, all still scheduled if still there. */
  lemma QueueIsDistinct(s: State)
    requires Inv(s)
    ensures forall j, k :: 0 <= j < k < |s.queue| ==> s.queue[j] != s.queue[k]
    ensures forall k :: 0 <= k < |s.queue| && s.queue[k] in s.table ==> s.table[s.queue[k]].relay == SCHEDULED
  {
    forall j, k | 0 <= j < k < |s.queue| ensures s.queue[j] != s.queue[k] {
      PlacesNonNegative(s, s.queue[k]);
      assert BalancedAt(s, s.queue[k]);
      if s.queue[j] == s.queue[k] { QueuedTwice(s.queue, j, k); }
    }
    forall k | 0 <= k < |s.queue| && s.queue[k] in s.table ensures s.table[s.queue[k]].relay == SCHEDULED {
      PlacesNonNegative(s, s.queue[k]);
      assert BalancedAt(s, s.queue[k]);
      QueuedOnce(s.queue, k);
      assert ColumnsConsistent(s.table[s.queue[k]].relay, s.cfg.maxAttempts);
    }
  }

  /** Row x of t after the first |worlds| jobs of s. */
  ghost predicate RowAfter(s: State, t: State, worlds: seq<World>, x: EventId)
    requires WorldsFor(worlds, s.cfg.maxAttempts) && |worlds| <= |s.queue|
  {
    x in s.table && x in t.table
    && (x !in s.queue[..|worlds|] ==> t.table[x] == s.table[x])
    && forall k :: 0 <= k < |worlds| && s.queue[k] == x ==>
         t.table[x] == s.table[x].(relay := ColumnsLeft(worlds[k], s.cfg.maxAttempts))
  }

  /** One more job touches the row of its event and no other. */
  lemma RowAfterNext(s: State, u: State, worlds: seq<World>, x: EventId)
    requires Inv(s) && WorldsFor(worlds, s.cfg.maxAttempts) && 1 <= |worlds| <= |s.queue|
    requires u.cfg == s.cfg && u.queue == s.queue[|worlds| - 1..]
    requires RowAfter(s, u, worlds[..|worlds| - 1], x)
    ensures RowAfter(s, JobDone(u, worlds[|worlds| - 1]), worlds, x)
  {
    var m := |worlds| - 1;
    var t := JobDone(u, worlds[m]);
    QueueIsDistinct(s);
    assert s.queue[..m + 1] == s.queue[..m] + [s.queue[m]];
    assert u.queue[0] == s.queue[m];
    if x == s.queue[m] {
      assert x !in s.queue[..m];
      assert s.table[x].(relay := SCHEDULED) == s.table[x];
    }
  }

  /** After a backlog has been worked off, every event that had a job holds the outcome
      of that job and of no other, and every other row is as it was. */
  lemma {:induction false} BacklogSettles(s: State, worlds: seq<World>)
    requires Inv(s) && WorldsFor(worlds, s.cfg.maxAttempts) && |worlds| <= |s.queue|
    ensures forall x :: x in s.table ==> RowAfter(s, JobsDone(s, worlds), worlds, x)
  {
    if worlds != [] {
      var m := |worlds| - 1;
      BacklogSettles(s, worlds[..m]);
      forall x | x in s.table ensures RowAfter(s, JobsDone(s, worlds), worlds, x) {
        RowAfterNext(s, JobsDone(s, worlds[..m]), worlds, x);
      }
    }
  }

  // ---- One job, field by field -----------------------------------------------

  /** What the relay of an event comes to: refused before any attempt, or the report of
      the attempts up to the first that stops the loop or the last one allowed; `None`
      when it raises. */
  ghost predicate Meets(world: World, n: nat, out: Option<RelayResult>)
    requires WorldFor(world, n)
  {
    if PreflightMeans(Pass, world.target, world.policy, world.resolution) then
      exists k :: 1 <= k <= n && NoneStops(world.replies, k - 1) && (k == n || Stops(world.replies[k - 1]))
                  && ReportsTrace(out, world.replies, world.clock, k)
    else
      PreflightMeans(if out.Some? then Skip(out.value) else Raise, world.target, world.policy, world.resolution)
  }

  /** A job run to its end, in an unchanged table when its write fails or its relay
      raises; otherwise the row of its event, if there, says the outcome, and no other
      row and no other field is touched. */
  ghost predicate JobLeaves(s: State, t: State, world: World)
    requires WorldFor(world, s.cfg.maxAttempts) && s.queue != []
  {
    var id := s.queue[0];
    && t.queue == s.queue[1..] && t.requests == s.requests && t.received == s.received
    && t.table.Keys == s.table.Keys
    && (forall x :: x in s.table && x != id ==> t.table[x] == s.table[x])
    && (world.writeFails ==> t.table == s.table)
    && exists out :: Meets(world, s.cfg.maxAttempts, out)
                     && (out.None? ==> t.table == s.table)
                     && (out.Some? && !world.writeFails && id in s.table ==>
                           t.table[id] == s.table[id].(relay := t.table[id].relay)
                           && Says(t.table[id].relay, out.value))
  }

  lemma OutcomeMeets(world: World, n: nat)
    requires WorldFor(world, n)
    ensures Meets(world, n, OutcomeIn(world, n))
  {
    VerdictMeans(world.target, world.policy, world.resolution);
    if VerdictOf(world).Pass? { OutcomeReportsTrace(world.replies, world.clock, n); }
  }

  lemma JobInFields(s: State, world: World)
    requires WorldFor(world, s.cfg.maxAttempts) && s.queue != []
    ensures JobLeaves(s, JobDone(s, world), world)
  {
    OutcomeMeets(world, s.cfg.maxAttempts);
  }
}
