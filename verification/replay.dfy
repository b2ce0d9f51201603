/** When the repeat of an idempotency key replays the first response, over whole runs. */
module Replay {
  import opened Common
  import opened Relay
  import opened Events
  import opened Protocol
  import opened Tally
  import opened Books
  import opened Invariants
  import opened Runs
  import opened Lifecycle

  // ---- The event replayed ---------------------------------------------------------

  /** What keeps request r from replaying the event x: the dispatcher down at its
      probe, the event gone at its insert or its re-read, a database exception. */
  ghost predicate Spoils(s: State, a: Action, r: nat, x: EventId) {
    a.ByRequest? && a.r == r &&
    match a.intake
    case Probe => s.cfg.relayOn && !s.up
    case Insert => x !in s.table
    case Reread => x !in s.table
    case DbError => true
    case _ => false
  }

  /** Some action from a up to b does so. */
  ghost predicate Spoiled(states: seq<State>, actions: seq<Action>, a: nat, b: nat, r: nat, x: EventId)
    requires a <= b <= |actions| < |states|
  {
    a < b && (Spoils(states[b - 1], actions[b - 1], r, x) || Spoiled(states, actions, a, b - 1, r, x))
  }

  /** The event x, received at `at`, held the key of the draft; it is there or gone. */
  ghost predicate HeldOrGone(s: State, d: Draft, x: EventId, at: int) {
    && x in Used(s) && d.key.Some?
    && (x in s.table ==> Holds(s.table[x], d.source, d.key.value) && s.table[x].receivedAt == at)
  }

  /** Where request r can stand, given whether something has spoiled the replay of x. */
  ghost predicate Fate(s: State, r: nat, d: Draft, x: EventId, at: int, spoiled: bool) {
    r < |s.requests| && s.requests[r].draft == d &&
    match s.requests[r]
    case Arrived(_) => !spoiled
    case Probed(_, _) => !spoiled
    case Conflicted(_) => KeyGiven(d) && (spoiled ==> x !in s.table)
    case Stored(_) => spoiled && d.id != x
    case Refused(_) => spoiled && d.id != x
    case Answered(_, answer) =>
      (answer.id == x <==> KeyGiven(d) && !spoiled) && (answer.id == x ==> answer.receivedAt == at)
    case Rejected(_) => KeyGiven(d) ==> spoiled
  }

  lemma OwnStepKeepsFate(s: State, r: nat, step: RequestStep, d: Draft, x: EventId, at: int, spoiled: bool)
    requires Inv(s) && RequestEnabled(s, r, step) && Fate(s, r, d, x, at, spoiled) && HeldOrGone(s, d, x, at)
    ensures Fate(ApplyRequest(s, r, step), r, d, x, at, spoiled || Spoils(s, ByRequest(r, step), r, x))
  {
    assert RequestOk(s.requests[r]);
    if x in s.table { HolderIs(s.table, d.source, d.key.value, x); }
  }

  lemma StepKeepsFate(s: State, a: Action, t: State, r: nat, d: Draft, x: EventId, at: int, spoiled: bool)
    requires Inv(s) && StepsTo(s, a, t) && Fate(s, r, d, x, at, spoiled) && HeldOrGone(s, d, x, at)
    ensures Fate(t, r, d, x, at, spoiled || Spoils(s, a, r, x)) && HeldOrGone(t, d, x, at)
  {
    RowsKeepStep(s, a);
    OthersKeepRequests(s, a, r);
    if a.ByRequest? && a.r == r { OwnStepKeepsFate(s, r, a.intake, d, x, at, spoiled); }
  }

  lemma FateNext(states: seq<State>, actions: seq<Action>, k: nat, r: nat, d: Draft, x: EventId, at: int, spoiled: bool)
    requires Reachable(states, actions) && k < |actions|
    requires Fate(states[k], r, d, x, at, spoiled) && HeldOrGone(states[k], d, x, at)
    ensures Fate(states[k + 1], r, d, x, at, spoiled || Spoils(states[k], actions[k], r, x))
    ensures HeldOrGone(states[k + 1], d, x, at)
  {
    InvHolds(states, actions, k);
    assert StepAt(states, actions, k);
    StepKeepsFate(states[k], actions[k], states[k + 1], r, d, x, at, spoiled);
  }

  lemma {:induction false} FateAlong(states: seq<State>, actions: seq<Action>, a: nat, b: nat, r: nat,
                                     d: Draft, x: EventId, at: int)
    requires Reachable(states, actions) && a <= b < |states| && r < |states[a].requests|
    requires states[a].requests[r] == Arrived(d) && HeldOrGone(states[a], d, x, at)
    ensures Fate(states[b], r, d, x, at, Spoiled(states, actions, a, b, r, x)) && HeldOrGone(states[b], d, x, at)
    decreases b
  {
    if a < b {
      FateAlong(states, actions, a, b - 1, r, d, x, at);
      FateNext(states, actions, b - 1, r, d, x, at, Spoiled(states, actions, a, b - 1, r, x));
    }
  }

  ghost predicate Over(q: Request) { q.Answered? || q.Rejected? }

  /** The exact condition of the replay: a request whose key an event holds when it
      arrives ends with that event's id and received_at if and only if the key is not
      the empty string, the dispatcher is not down at its probe, the event is still
      there at its insert and its re-read, and the database raises nothing else. */
  lemma RepeatedKeyReplaysIff(states: seq<State>, actions: seq<Action>, a: nat, b: nat, r: nat, x: EventId)
    requires Reachable(states, actions) && a <= b < |states| && r < |states[a].requests|
    requires states[a].requests[r].Arrived? && states[a].requests[r].draft.key.Some? && x in states[a].table
    requires Holds(states[a].table[x], states[a].requests[r].draft.source, states[a].requests[r].draft.key.value)
    ensures r < |states[b].requests|
    ensures Over(states[b].requests[r]) ==>
      (ResolvedTo(states[b].requests[r]) == Some((x, states[a].table[x].receivedAt))
       <==> states[a].requests[r].draft.key.value != [] && !Spoiled(states, actions, a, b, r, x))
  {
    FateAlong(states, actions, a, b, r, states[a].requests[r].draft, x, states[a].table[x].receivedAt);
  }

  /** A service with no relay target to which d has been sent and stored, and e sent. */
  lemma SecondArrives(d: Draft, e: Draft) returns (states: seq<State>, actions: seq<Action>)
    requires d.id != e.id
    ensures Reachable(states, actions) && |actions| == 4 && !states[4].cfg.relayOn
    ensures states[4].table == map[d.id := Event(d.source, d.receivedAt, d.key, NO_RELAY)] && states[4].cleaned == map[]
    ensures |states[4].requests| == 2 && states[4].requests[1] == Arrived(e)
  {
    var s0 := Init(Config(false, 1, 1, 1));
    var s1 := ApplyService(s0, Arrive(d));
    var s2 := ApplyRequest(s1, 0, Probe);
    var s3 := ApplyRequest(s2, 0, Insert);
    var s4 := ApplyService(s3, Arrive(e));
    states := [s0, s1, s2, s3, s4];
    actions := [ByService(Arrive(d)), ByRequest(0, Probe), ByRequest(0, Insert), ByService(Arrive(e))];
  }

  /** An empty key is stored, and its repeat ends in an error. */
  lemma EmptyKeyIsNotReplayed(d: Draft, e: Draft) returns (states: seq<State>, actions: seq<Action>)
    requires d.id != e.id && d.source == e.source && d.key == e.key == Some([])
    ensures Reachable(states, actions) && |actions| == 6
    ensures d.id in states[4].table && |states[6].requests| == 2 && states[6].requests[1] == Rejected(e)
  {
    states, actions := SecondArrives(d, e);
    var s5 := ApplyRequest(states[4], 1, Probe);
    assert Holds(s5.table[d.id], e.source, e.key.value);
    var s6 := ApplyRequest(s5, 1, Insert);
    var steps := [ByRequest(1, Probe), ByRequest(1, Insert)];
    Join(states[0], states[4], s6, states, actions, [states[4], s5, s6], steps);
    states, actions := states + [states[4], s5, s6][1..], actions + steps;
  }

  /** A key is held at the insert, and its event cleaned up before the re-read. */
  lemma CleanedKeyIsNotReplayed(d: Draft, e: Draft) returns (states: seq<State>, actions: seq<Action>)
    requires d.id != e.id && d.source == e.source && d.key == e.key && KeyGiven(e)
    ensures Reachable(states, actions) && |actions| == 8
    ensures d.id in states[6].table && |states[8].requests| == 2 && states[8].requests[1] == Rejected(e)
  {
    states, actions := SecondArrives(d, e);
    var s5 := ApplyRequest(states[4], 1, Probe);
    assert Holds(s5.table[d.id], e.source, e.key.value);
    var s6 := ApplyRequest(s5, 1, Insert);
    var s7 := ApplyService(s6, Cleanup(d.receivedAt + 1));
    var s8 := ApplyRequest(s7, 1, Reread);
    var steps := [ByRequest(1, Probe), ByRequest(1, Insert), ByService(Cleanup(d.receivedAt + 1)),
                  ByRequest(1, Reread)];
    Join(states[0], states[4], s8, states, actions, [states[4], s5, s6, s7, s8], steps);
    states, actions := states + [states[4], s5, s6, s7, s8][1..], actions + steps;
  }

  // ---- Answers and rows ------------------------------------------------------

  /** An answer names a row with the request's own source and key, while it is there. */
  ghost predicate AnswerFits(s: State, q: Request) {
    q.Answered? ==>
      && q.answer.id in Used(s)
      && (q.answer.id in s.table ==>
            && s.table[q.answer.id].source == q.draft.source && s.table[q.answer.id].key == q.draft.key
            && s.table[q.answer.id].receivedAt == q.answer.receivedAt)
      && (q.answer.id != q.draft.id ==> q.draft.key.Some? && q.draft.key.value != [])
  }

  lemma OwnStepFits(s: State, r: nat, step: RequestStep)
    requires Inv(s) && RequestEnabled(s, r, step)
    ensures AnswerFits(ApplyRequest(s, r, step), ApplyRequest(s, r, step).requests[r])
  {
    assert RequestOk(s.requests[r]) && DraftOk(s, s.requests[r]);
    RowsKeepRequest(s, r, step);
    if step.Insert? { InsertRow(s, r); }
  }

  lemma AnswerFitsStep(s: State, a: Action, t: State, r: nat)
    requires Inv(s) && StepsTo(s, a, t) && r < |t.requests| && (r < |s.requests| ==> AnswerFits(s, s.requests[r]))
    ensures AnswerFits(t, t.requests[r])
  {
    if a.ByRequest? && a.r == r {
      OwnStepFits(s, r, a.intake);
    } else {
      if r < |s.requests| { OthersKeepRequests(s, a, r); } else { OnlyArrivalsAdd(s, a, t); }
      RowsKeepStep(s, a);
    }
  }

  lemma OnlyArrivalsAdd(s: State, a: Action, t: State)
    requires StepsTo(s, a, t)
    ensures |s.requests| <= |t.requests|
    ensures forall r :: |s.requests| <= r < |t.requests| ==> t.requests[r].Arrived?
  {
    match a
    case ByRequest(r, step) => RequestFrame(s, r, step);
    case ByWorker(w, step) => WorkerFrame(s, w, step);
    case ByService(step) =>
  }

  /** In every reachable state the event a request was answered with has, if it is still
      there, that request's source and key and the received_at of the answer; and only a
      request with a non-empty key is answered with an event other than its own. */
  lemma {:induction false} AnswersFitTheirRows(states: seq<State>, actions: seq<Action>, i: nat, r: nat)
    requires Reachable(states, actions) && i < |states| && r < |states[i].requests|
    ensures AnswerFits(states[i], states[i].requests[r])
    decreases i
  {
    if i > 0 {
      if r < |states[i - 1].requests| { AnswersFitTheirRows(states, actions, i - 1, r); }
      InvHolds(states, actions, i - 1);
      assert StepAt(states, actions, i - 1);
      AnswerFitsStep(states[i - 1], actions[i - 1], states[i], r);
    }
  }

  // ---- The whole response ----------------------------------------------------

  /** How the answer of request q, which has inserted the row of its own draft, and the
      row agree: a pending request's row is scheduled; one that was answered as scheduled
      has a row that is scheduled or settled; any other answer is what the row holds. */
  ghost predicate OwnAnswer(s: State, q: nat, d: Draft) {
    && q < |s.requests| && s.requests[q].draft == d && d.id in Used(s)
    && (d.id in s.table ==> s.table[d.id].receivedAt == d.receivedAt)
    && match s.requests[q]
       case Stored(_) => d.id in s.table ==> s.table[d.id].relay == SCHEDULED
       case Refused(_) => d.id in s.table ==> s.table[d.id].relay == SCHEDULED
       case Answered(_, answer) =>
         && answer.id == d.id && answer.receivedAt == d.receivedAt
         && (d.id in s.table ==> AnswerAgrees(answer, s.table[d.id].relay))
       case Rejected(_) => true
       case _ => false
  }

  predicate AnswerAgrees(answer: Answer, c: RelayColumns) {
    if answer.relay == EventRelayResult(SCHEDULED) then c == SCHEDULED || Terminal(c)
    else c != SCHEDULED && EventRelayResult(c) == answer.relay
  }

  /** A settled row never reads back as a scheduled one. */
  lemma SettledReadsDifferently(c: RelayColumns, n: nat)
    requires ColumnsConsistent(c, n) && Terminal(c)
    ensures EventRelayResult(c) != EventRelayResult(SCHEDULED)
  {
  }

  lemma PendingIsScheduled(s: State, q: nat)
    requires Inv(s) && q < |s.requests| && (s.requests[q].Stored? || s.requests[q].Refused?)
    ensures var id := s.requests[q].draft.id; id in s.table ==> s.table[id].relay == SCHEDULED
  {
    var id := s.requests[q].draft.id;
    PlacesNonNegative(s, id);
    TotalMember(s.requests, q, PendingOf(id));
    assert BalancedAt(s, id);
    if id in s.table { assert ColumnsConsistent(s.table[id].relay, s.cfg.maxAttempts); }
  }

  lemma InsertAnswers(s: State, q: nat)
    requires Inv(s) && RequestEnabled(s, q, Insert) && !Conflict(s, s.requests[q].draft)
    ensures OwnAnswer(ApplyInsert(s, q), q, s.requests[q].draft)
  {
    assert RequestOk(s.requests[q]);
  }

  lemma OwnStepAnswers(s: State, q: nat, step: RequestStep, d: Draft)
    requires RequestEnabled(s, q, step) && OwnAnswer(s, q, d)
    ensures OwnAnswer(ApplyRequest(s, q, step), q, d)
  {
    QueueFullColumnsAgree();
    if !step.FallBack? { RequestTableFrame(s, q, step); }
  }

  lemma OwnAnswerStep(s: State, a: Action, t: State, q: nat, d: Draft)
    requires Inv(s) && Inv(t) && StepsTo(s, a, t) && OwnAnswer(s, q, d)
    ensures OwnAnswer(t, q, d)
  {
    if a.ByRequest? && a.r == q {
      OwnStepAnswers(s, q, a.intake, d);
    } else {
      OthersKeepRequests(s, a, q);
      EvolvesStep(s, a);
      if s.requests[q].Stored? || s.requests[q].Refused? { PendingIsScheduled(t, q); }
    }
  }

  lemma {:induction false} OwnAnswerAlong(states: seq<State>, actions: seq<Action>, i: nat, k: nat, q: nat, d: Draft)
    requires Reachable(states, actions) && i <= k < |states| && OwnAnswer(states[i], q, d)
    ensures OwnAnswer(states[k], q, d)
    decreases k
  {
    if i < k {
      OwnAnswerAlong(states, actions, i, k - 1, q, d);
      InvHolds(states, actions, k - 1);
      InvHolds(states, actions, k);
      assert StepAt(states, actions, k - 1);
      OwnAnswerStep(states[k - 1], actions[k - 1], states[k], q, d);
    }
  }

  lemma {:induction false} OverStays(states: seq<State>, actions: seq<Action>, i: nat, k: nat, r: nat)
    requires Reachable(states, actions) && i <= k < |states| && r < |states[i].requests| && Over(states[i].requests[r])
    ensures r < |states[k].requests| && states[k].requests[r] == states[i].requests[r]
    decreases k
  {
    if i < k {
      OverStays(states, actions, i, k - 1, r);
      assert StepAt(states, actions, k - 1);
      DecisionsStay(states[k - 1], actions[k - 1], r);
    }
  }

  /** Action i inserts the row of request q. */
  ghost predicate InsertsRow(states: seq<State>, actions: seq<Action>, i: nat, q: nat)
    requires IsRun(states, actions) && i < |actions|
  {
    q < |states[i].requests| && actions[i] == ByRequest(q, Insert) && !Conflict(states[i], states[i].requests[q].draft)
  }

  lemma InsertedAnswers(states: seq<State>, actions: seq<Action>, i: nat, q: nat)
    requires Reachable(states, actions) && i < |actions| && InsertsRow(states, actions, i, q)
    ensures states[i].requests[q].draft.id !in Used(states[i])
    ensures OwnAnswer(states[i + 1], q, states[i].requests[q].draft)
  {
    InvHolds(states, actions, i);
    assert StepAt(states, actions, i);
    InsertRow(states[i], q);
    InsertAnswers(states[i], q);
  }

  /** What a re-read answered, if the request ended with an answer. */
  lemma RereadAnswers(states: seq<State>, actions: seq<Action>, j: nat, b: nat, r: nat)
    requires Reachable(states, actions) && j < b < |states| && actions[j] == ByRequest(r, Reread)
    requires r < |states[b].requests| && states[b].requests[r].Answered?
    ensures var answer := states[b].requests[r].answer;
      answer.id in states[j].table && answer == AnswerFor(states[j].table, answer.id)
  {
    assert StepAt(states, actions, j);
    OverStays(states, actions, j + 1, b, r);
  }

  /** The whole response: of two answered requests, q that inserted the event and r that
      replays it, r's response is q's if and only if the row was scheduled at r's re-read
      exactly when q's response says that it is. So a repeat of a request answered as
      scheduled gives the same response until the job is settled, and no longer. */
  lemma WholeReplayIff(states: seq<State>, actions: seq<Action>, i: nat, j: nat, b: nat, q: nat, r: nat)
    requires Reachable(states, actions) && i < b && j < b < |states|
    requires InsertsRow(states, actions, i, q) && actions[j] == ByRequest(r, Reread)
    requires q < |states[b].requests| && states[b].requests[q].Answered?
    requires r < |states[b].requests| && states[b].requests[r].Answered?
    requires states[b].requests[r].answer.id == states[i].requests[q].draft.id
    ensures states[b].requests[r].answer == states[b].requests[q].answer <==>
      (IsScheduled(states[j].table, states[i].requests[q].draft.id)
       <==> states[b].requests[q].answer.relay == EventRelayResult(SCHEDULED))
  {
    var d := states[i].requests[q].draft;
    InsertedAnswers(states, actions, i, q);
    RereadAnswers(states, actions, j, b, r);
    if j <= i { UsedStays(states, actions, j, i, d.id); }
    OwnAnswerAlong(states, actions, i + 1, j, q, d);
    OwnAnswerAlong(states, actions, i + 1, b, q, d);
    if Over(states[j].requests[q]) { OverStays(states, actions, j, b, q); }
    InvHolds(states, actions, j);
    RereadCompares(states[j], q, d, states[b].requests[q].answer);
  }

  lemma RereadCompares(s: State, q: nat, d: Draft, answer: Answer)
    requires Inv(s) && OwnAnswer(s, q, d) && d.id in s.table && !s.requests[q].Rejected?
    requires answer.id == d.id && answer.receivedAt == d.receivedAt
    requires s.requests[q].Answered? ==> s.requests[q].answer == answer
    ensures AnswerFor(s.table, d.id) == answer <==>
      (IsScheduled(s.table, d.id) <==> answer.relay == EventRelayResult(SCHEDULED))
  {
    var c := s.table[d.id].relay;
    assert ColumnsConsistent(c, s.cfg.maxAttempts);
    if Terminal(c) { SettledReadsDifferently(c, s.cfg.maxAttempts); }
  }

  // ---- A settled row replays differently -------------------------------------

  /** A service with one free slot that has answered d as scheduled. */
  ghost predicate JustScheduled(s: State, d: Draft) {
    && s.cfg == Config(true, 1, 1, 1) && s.client && s.up && s.queue == [d.id] && s.pool == [Idle]
    && s.table == map[d.id := Event(d.source, d.receivedAt, d.key, SCHEDULED)] && s.cleaned == map[]
    && s.requests == [Answered(d, Answer(d.id, d.receivedAt, EventRelayResult(SCHEDULED)))]
  }

  lemma SchedulesFirst(d: Draft) returns (s: State, states: seq<State>, actions: seq<Action>)
    ensures Reachable(states, actions) && Leads(states[0], s, states, actions) && |actions| == 6
    ensures JustScheduled(s, d)
  {
    var s0 := Init(Config(true, 1, 1, 1));
    var s1 := ApplyService(s0, StartClient);
    var s2 := ApplyService(s1, StartDispatcher);
    var s3 := ApplyService(s2, Arrive(d));
    var s4 := ApplyRequest(s3, 0, Probe);
    var s5 := ApplyRequest(s4, 0, Insert);
    s := ApplyRequest(s5, 0, Enqueue);
    assert s.pool == [Idle];
    states := [s0, s1, s2, s3, s4, s5, s];
    actions := [ByService(StartClient), ByService(StartDispatcher), ByService(Arrive(d)),
                ByRequest(0, Probe), ByRequest(0, Insert), ByRequest(0, Enqueue)];
  }

  const BLOCKED := Skipped(BlockedIp, None)

  /** The job is skipped and written, before a repeat e arrives. */
  lemma SettlesThenRepeats(s: State, d: Draft, e: Draft) returns (t: State, states: seq<State>, actions: seq<Action>)
    requires JustScheduled(s, d) && d.id != e.id
    ensures Leads(s, t, states, actions) && |actions| == 4
    ensures t.up && t.cleaned == map[] && t.requests == s.requests + [Arrived(e)]
    ensures t.table == map[d.id := Event(d.source, d.receivedAt, d.key, RelayUpdateValues(BLOCKED))]
  {
    var s1 := ApplyWorker(s, 0, Dequeue);
    var s2 := ApplyWorker(s1, 0, Preflighted(Skip(BLOCKED), 0));
    var s3 := ApplyWorker(s2, 0, Persist);
    t := ApplyService(s3, Arrive(e));
    states := [s, s1, s2, s3, t];
    actions := [ByWorker(0, Dequeue), ByWorker(0, Preflighted(Skip(BLOCKED), 0)), ByWorker(0, Persist),
                ByService(Arrive(e))];
  }

  lemma RepeatReadsRow(s: State, d: Draft, e: Draft, c: RelayColumns)
    returns (t: State, states: seq<State>, actions: seq<Action>)
    requires s.up && s.cleaned == map[] && s.table == map[d.id := Event(d.source, d.receivedAt, d.key, c)]
    requires |s.requests| == 2 && s.requests[1] == Arrived(e)
    requires d.id != e.id && d.source == e.source && d.key == e.key && KeyGiven(e)
    ensures Leads(s, t, states, actions) && |actions| == 3
    ensures t.requests == [s.requests[0], Answered(e, Answer(d.id, d.receivedAt, EventRelayResult(c)))]
  {
    assert Holds(s.table[d.id], e.source, e.key.value);
    HolderIs(s.table, e.source, e.key.value, d.id);
    var s1 := ApplyRequest(s, 1, Probe);
    var s2 := ApplyRequest(s1, 1, Insert);
    t := ApplyRequest(s2, 1, Reread);
    states := [s, s1, s2, t];
    actions := [ByRequest(1, Probe), ByRequest(1, Insert), ByRequest(1, Reread)];
  }

  /** A run in which the repeat of a key replays the event and its received_at, and yet
      answers otherwise than the first request did: the job was settled in between. */
  lemma SettledReplayDiffers(d: Draft, e: Draft) returns (states: seq<State>, actions: seq<Action>)
    requires d.id != e.id && d.source == e.source && d.key == e.key && KeyGiven(e)
    ensures Reachable(states, actions) && |actions| == 13 && |states[13].requests| == 2
    ensures states[13].requests[0] == Answered(d, Answer(d.id, d.receivedAt, EventRelayResult(SCHEDULED)))
    ensures states[13].requests[1] == Answered(e, Answer(d.id, d.receivedAt, Some(BLOCKED)))
    ensures states[13].requests[0].answer != states[13].requests[1].answer
  {
    var s, t, u, states1, actions1, states2, actions2;
    s, states, actions := SchedulesFirst(d);
    t, states1, actions1 := SettlesThenRepeats(s, d, e);
    u, states2, actions2 := RepeatReadsRow(t, d, e, RelayUpdateValues(BLOCKED));
    Join(states[0], s, t, states, actions, states1, actions1);
    Join(states[0], t, u, states + states1[1..], actions + actions1, states2, actions2);
    states, actions := states + states1[1..] + states2[1..], actions + actions1 + actions2;
  }
}
