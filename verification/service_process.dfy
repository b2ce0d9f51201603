/** The service process: the module globals of app/services/relay.py and the database,
    as fields that its operations reassign.

    Every method runs to its end by itself, which is one of the runs of the protocol;
    `model` is the state that run has reached, and `Valid` ties the fields to it.
 */
module ServiceProcess {
  import opened Common
  import opened Text
  import opened Relay
  import opened Events
  import opened Calendar
  import opened IsoTimestamp
  import opened Protocol
  import opened Dispatch
  import Listing
  import opened Runs
  import opened WorkerRun
  import opened Backlog
  import opened IntakeRun

  // ---- The retention window ----------------------------------------------------

  /** Date and time of day of an instant, in UTC. */
  function PartsAt(t: int): Parts
    requires InRange(t)
  {
    PartsOf(Stamp(t, None))
  }

  /** The date so many days earlier is in the calendar. */
  predicate HasDaysEarlier(now: int, days: int)
    requires InRange(now)
  {
    0 <= Ordinal(PartsAt(now).date) - days < DAYS
  }

  /** The same time of day so many days earlier. */
  function DaysEarlier(now: int, days: int): int
    requires InRange(now) && HasDaysEarlier(now, days)
  {
    Assemble(Parts(FromOrdinal(Ordinal(PartsAt(now).date) - days), PartsAt(now).clock, None)).local
  }

  /** Taking off whole days of 24 hours is going back in the calendar, with the same
      clock reading, and leaves the calendar together with it. */
  lemma CutoffIsDaysEarlier(now: int, days: int)
    requires InRange(now)
    ensures InRange(now - days * MICROS_PER_DAY) <==> HasDaysEarlier(now, days)
    ensures HasDaysEarlier(now, days) ==> now - days * MICROS_PER_DAY == DaysEarlier(now, days)
  {
    assert now == now / MICROS_PER_DAY * MICROS_PER_DAY + now % MICROS_PER_DAY;
  }

  /** `left` holds the rows of `t` received at `cutoff` or later, as they were. */
  ghost predicate KeptFrom(cutoff: int, t: Table, left: Table) {
    && (forall id :: id in left <==> id in t && t[id].receivedAt >= cutoff)
    && (forall id :: id in left ==> left[id] == t[id])
  }

  lemma RetainedMeans(t: Table, cutoff: int)
    ensures KeptFrom(cutoff, t, Retained(t, cutoff))
  {
  }

  /** `now - timedelta(days=days)`; `None` is its overflow. */
  method StartOfWindow(now: int, days: int) returns (cutoff: Option<int>)
    requires InRange(now)
    ensures cutoff == if HasDaysEarlier(now, days) then Some(DaysEarlier(now, days)) else None
  {
    CutoffIsDaysEarlier(now, days);
    var t := now - days * MICROS_PER_DAY;
    cutoff := if InRange(t) then Some(t) else None;
  }

  // ---- The steps of the process ----------------------------------------------

  ghost predicate AllIdle(s: State) { forall w :: 0 <= w < |s.pool| ==> s.pool[w].Idle? }

  lemma ReachedStartup(s: State)
    requires Reached(s)
    ensures Reached(ApplyStartDispatcher(s.(client := true)))
  {
    ReachedStep(s, ByService(StartClient));
    ReachedStep(s.(client := true), ByService(StartDispatcher));
  }

  lemma ReachedShutdown(s: State)
    requires Reached(s) && AllIdle(s)
    ensures Reached(ApplyStopDispatcher(s).(client := false))
  {
    ReachedStep(s, ByService(StopDispatcher));
    ReachedStep(ApplyStopDispatcher(s), ByService(StopClient));
  }

  lemma ReachedIntake(s: State, d: Draft)
    requires Reached(s) && d.id !in s.cleaned
    ensures Reached(IntakeDone(s, d)) && UniqueKeys(s.table)
  {
    ReachedInv(s);
    var states, actions := StepsRunIntake(s, d);
    ReachedFurther(s, IntakeDone(s, d), states, actions);
  }

  lemma ReachedCleanup(s: State, cutoff: int)
    requires Reached(s)
    ensures Reached(ApplyCleanup(s, cutoff))
  {
    ReachedStep(s, ByService(Cleanup(cutoff)));
  }

  /** A worker that is up can run a job, and is counted for it. */
  lemma ReachedJob(s: State, world: World)
    requires Reached(s) && WorldFor(world, s.cfg.maxAttempts) && s.queue != [] && s.pool != [] && s.pool[0].Idle?
    ensures s.client && s.unfinished >= 1 && Reached(JobDone(s, world))
  {
    ReachedInv(s);
    BusyAtMostPool(s.pool);
    var states, actions := StepsRunJob(s, 0, world);
    ReachedFurther(s, JobDone(s, world), states, actions);
  }

  method RelayIn(world: World, client: bool, n: nat)
    returns (result: Option<RelayResult>, attempts: nat, successes: nat)
    requires WorldFor(world, n) && client
    ensures result == OutcomeIn(world, n) && attempts == PostsOf(world, n) && successes == Wins(world, n)
  {
    result, attempts, successes := RelayEvent(world.target, world.policy, world.resolution, client, n,
                                              world.replies, world.clock, world.jitter);
  }

  // ---- The process -----------------------------------------------------------

  class Service {
    const cfg: Config
    var client: bool                  // whether `_client` is set
    var queue: Option<seq<EventId>>   // `_dispatch_queue`, as the ids of its jobs
    var workers: nat                  // the length of `_dispatch_workers`
    var unfinished: nat
    var table: Table
    var received: map<Str, nat>       // EVENTS_RECEIVED_TOTAL
    var attemptsTotal: nat
    var successesTotal: nat
    ghost var model: State

    ghost predicate Tied()
      reads this
    {
      && model.cfg == cfg && model.client == client && model.up == queue.Some?
      && model.queue == (if queue.Some? then queue.value else [])
      && |model.pool| == workers && workers == (if queue.Some? then cfg.Workers() else 0)
      && AllIdle(model) && model.unfinished == unfinished
      && model.table == table && model.received == received
      && model.attemptsTotal == attemptsTotal && model.successesTotal == successesTotal
    }

    ghost predicate Valid()
      reads this
    {
      Tied() && Reached(model)
    }

    constructor (cfg: Config)
      requires cfg.maxAttempts >= 1
      ensures Valid() && model == Init(cfg) && this.cfg == cfg
    {
      this.cfg := cfg;
      client, queue, workers, unfinished, table := false, None, 0, 0, map[];
      received, attemptsTotal, successesTotal := map[], 0, 0;
      model := Init(cfg);
      ReachedInit(cfg);
    }

    /** What `lifespan` does first: the client, then the dispatcher. */
    method Startup()
      requires Valid()
      modifies this
      ensures Valid() && model == ApplyStartDispatcher(old(model).(client := true))
      ensures client && queue == Some(if old(queue).Some? then old(queue).value else [])
      ensures workers == if cfg.workerCount > 1 then cfg.workerCount else 1
    {
      ReachedStartup(model);
      model := ApplyStartDispatcher(model.(client := true));
      client := true;
      if queue.None? {
        queue, workers, unfinished := Some([]), cfg.Workers(), 0;
      }
    }

    /** What `lifespan` does last: the dispatcher, then the client. Queued jobs are
        dropped and their rows stay scheduled. */
    method Shutdown()
      requires Valid()
      modifies this
      ensures Valid() && model == ApplyStopDispatcher(old(model)).(client := false)
      ensures !client && queue == None && workers == 0 && table == old(table)
    {
      ReachedShutdown(model);
      model := ApplyStopDispatcher(model).(client := false);
      queue, workers, unfinished := None, 0, 0;
      client := false;
    }

    /** Deletes what is older than the retention window, and says how much that was;
        `None` when that window reaches back beyond the calendar, and nothing is deleted. */
    method CleanupOldEvents(now: int, retentionDays: int) returns (deleted: Option<nat>)
      requires Valid() && InRange(now)
      modifies this
      ensures Valid()
      ensures deleted.Some? <==> HasDaysEarlier(now, retentionDays)
      ensures deleted.None? ==> model == old(model) && table == old(table)
      ensures deleted.Some? ==>
        && model == ApplyCleanup(old(model), DaysEarlier(now, retentionDays))
        && deleted.value == |old(table)| - |table|
        && KeptFrom(DaysEarlier(now, retentionDays), old(table), table)
    {
      var cutoff := StartOfWindow(now, retentionDays);
      if cutoff.None? { return None; }
      var rowcount := DeleteBefore(cutoff.value);
      deleted := Some(rowcount);
    }

    /** `delete ... where received_at < cutoff`. */
    method DeleteBefore(cutoff: int) returns (rowcount: nat)
      requires Valid()
      modifies this
      ensures Valid() && model == ApplyCleanup(old(model), cutoff)
      ensures rowcount == |old(table)| - |table|
      ensures KeptFrom(cutoff, old(table), table)
    {
      ReachedCleanup(model, cutoff);
      model := ApplyCleanup(model, cutoff);
      Listing.CleanupPartitions(table, cutoff);
      rowcount := |Expired(table, cutoff)|;
      RetainedMeans(table, cutoff);
      table := Retained(table, cutoff);
    }

    /** `select ... where source = and idempotency_key =`, at most one row. */
    method FindByKey(source: Str, key: Str) returns (found: Option<EventId>)
      requires UniqueKeys(table)
      ensures found == Holder(table, source, key)
      ensures found.Some? ==> found.value in table && table[found.value].source == source
                              && table[found.value].key == Some(key)
      ensures found.None? ==> forall x :: x in table ==> table[x].source != source || table[x].key != Some(key)
    {
      if x :| x in table && Holds(table[x], source, key) {
        HolderIs(table, source, key, x);
        return Some(x);
      }
      found := None;
    }

    /** Answers a constraint violation from the row that holds the key. */
    method AnswerConflict(d: Draft) returns (answer: Option<Answer>)
      requires UniqueKeys(table)
      ensures answer == OnConflict(table, d)
      ensures answer.Some? ==> SameKey(table, d, answer.value.id) && d.key != Some([])
                               && AnswerOf(answer.value, answer.value.id, table[answer.value.id])
      ensures answer.None? ==> d.key == None || d.key == Some([]) || forall x :: !SameKey(table, d, x)
    {
      if d.key.None? || d.key.value == [] { return None; }
      var existing := FindByKey(d.source, d.key.value);
      if existing.None? { return None; }
      answer := Some(AnswerFor(table, existing.value));
    }

    /** Puts the job on the queue, or records that there was no room for it. */
    method HandOver(id: EventId) returns (columns: RelayColumns)
      requires queue.Some?
      modifies `queue, `unfinished, `table
      ensures var room := |old(queue).value| == 0 || |old(queue).value| < cfg.queueSize;
        && columns == (if room then SCHEDULED else PRE_FULL)
        && queue == (if room then Some(old(queue).value + [id]) else old(queue))
        && unfinished == old(unfinished) + (if room then 1 else 0)
        && table == (if room then old(table) else BlindUpdate(old(table), id, PRE_FULL))
    {
      if |queue.value| < cfg.Capacity() {
        queue, unfinished := Some(queue.value + [id]), unfinished + 1;
        return SCHEDULED;
      }
      columns := RelayUpdateValues(QueueFullRelayResult());
      table := BlindUpdate(table, id, columns);
    }

    /** Handles one webhook; `None` is an error response. */
    method CreateEvent(d: Draft) returns (answer: Option<Answer>)
      requires Valid() && d.id !in model.cleaned
      modifies this
      ensures Valid() && model == IntakeDone(old(model), d)
      ensures answer == Decision(old(model), d)
      ensures d.id !in old(table) ==>
        (d.id in table <==> !(cfg.relayOn && old(queue) == None) && forall x :: !SameKey(old(table), d, x))
      ensures answer.Some? ==> answer.value.id in table && table[answer.value.id].source == d.source
                               && table[answer.value.id].key == d.key
    {
      ReachedIntake(model, d);
      if d.id !in table { ConflictIffSameKey(model, d); }
      model := IntakeDone(model, d);

      var columns := NO_RELAY;
      if cfg.relayOn {
        if queue.None? { return None; }
        columns := if |queue.value| < cfg.Capacity() then SCHEDULED else PRE_FULL;
      }
      if Conflicts(table, d.id, d.source, d.key) {
        answer := AnswerConflict(d);
        return;
      }
      table := table[d.id := Event(d.source, d.receivedAt, d.key, columns)];
      received := received[d.source := Count(received, d.source) + 1];
      if columns == SCHEDULED {
        columns := HandOver(d.id);
      }
      answer := Some(Answer(d.id, d.receivedAt, EventRelayResult(columns)));
    }

    /** A worker takes the next job, relays its event, and writes the outcome. */
    method RunNextJob(world: World)
      requires Valid() && queue.Some? && queue.value != [] && WorldFor(world, cfg.maxAttempts)
      modifies this
      ensures Valid() && model == JobDone(old(model), world)
      ensures JobLeaves(old(model), model, world) && (world.writeFails ==> table == old(table))
    {
      ReachedJob(model, world);
      JobInFields(model, world);
      model := JobDone(model, world);

      var id := queue.value[0];
      queue := Some(queue.value[1..]);
      var result, attempts, successes := RelayIn(world, client, cfg.maxAttempts);
      attemptsTotal, successesTotal := attemptsTotal + attempts, successesTotal + successes;
      if result.Some? && !world.writeFails {
        table := BlindUpdate(table, id, RelayUpdateValues(result.value));
      }
      unfinished := unfinished - 1;
    }

    /** The worker loop, over the jobs that are queued when it starts. */
    method RunJobs(worlds: seq<World>)
      requires Valid() && queue.Some? && |worlds| <= |queue.value| && WorldsFor(worlds, cfg.maxAttempts)
      modifies this
      ensures Valid() && model == JobsDone(old(model), worlds)
    {
      ghost var before := model;
      for k := 0 to |worlds|
        invariant Valid() && model == JobsDone(before, worlds[..k])
      {
        JobsDoneNext(before, worlds, k);
        RunNextJob(worlds[k]);
      }
      assert worlds[..|worlds|] == worlds;
    }
  }
}
