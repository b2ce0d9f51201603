/** One intake request that nothing interrupts: its steps in the protocol, taken one
    after the other, are `create_event`. */
module IntakeRun {
  import opened Common
  import opened Relay
  import opened Events
  import opened Protocol
  import opened Runs

  /** The columns the row is inserted with. */
  function InitialColumns(relayOn: bool, room: bool): RelayColumns {
    if !relayOn then NO_RELAY else if room then SCHEDULED else PRE_FULL
  }

  /** The response to an event that violates a constraint. */
  ghost function OnConflict(t: Table, d: Draft): Option<Answer> {
    if !KeyGiven(d) then None
    else match Holder(t, d.source, d.key.value)
      case None => None
      case Some(x) => Some(AnswerFor(t, x))
  }

  /** The response to an event that is new, or that is already there. */
  ghost function Decision(s: State, d: Draft): Option<Answer> {
    if s.cfg.relayOn && !s.up then None
    else if Conflict(s, d) then OnConflict(s.table, d)
    else Some(Answer(d.id, d.receivedAt, EventRelayResult(InitialColumns(s.cfg.relayOn, HasCapacity(s)))))
  }

  ghost predicate Inserts(s: State, d: Draft) { !(s.cfg.relayOn && !s.up) && !Conflict(s, d) }

  /** The state after the request: either nothing but the request is new, or there is
      one row more, counted, and one job more if there was room for it. */
  ghost function IntakeDone(s: State, d: Draft): State {
    var answer := Decision(s, d);
    var columns := InitialColumns(s.cfg.relayOn, HasCapacity(s));
    var inserts := Inserts(s, d);
    var job := if inserts && columns == SCHEDULED then [d.id] else [];
    s.(requests := s.requests + [if answer.Some? then Answered(d, answer.value) else Rejected(d)],
       table := if inserts then s.table[d.id := Event(d.source, d.receivedAt, d.key, columns)] else s.table,
       received := if inserts then s.received[d.source := Count(s.received, d.source) + 1] else s.received,
       queue := s.queue + job,
       accepted := s.accepted + job,
       unfinished := s.unfinished + |job|)
  }

  /** The request as it stands after the probe. */
  ghost function ProbedState(s: State, d: Draft): State {
    s.(requests := s.requests + [AfterProbe(s, d)])
  }

  ghost function InsertedState(s: State, d: Draft): State
    requires !(s.cfg.relayOn && !s.up)
  {
    var columns := InitialColumns(s.cfg.relayOn, HasCapacity(s));
    var inserts := Inserts(s, d);
    s.(requests := s.requests + [AfterInsert(s, d, columns)],
       table := if inserts then s.table[d.id := Event(d.source, d.receivedAt, d.key, columns)] else s.table,
       received := if inserts then s.received[d.source := Count(s.received, d.source) + 1] else s.received)
  }

  lemma ProbeStep(s: State, d: Draft)
    ensures var s0, r := ApplyService(s, Arrive(d)), |s.requests|;
      RequestEnabled(s0, r, Probe) && ApplyProbe(s0, r) == ProbedState(s, d)
  {
    assert ApplyProbe(ApplyService(s, Arrive(d)), |s.requests|).requests == ProbedState(s, d).requests;
  }

  lemma InsertStep(s: State, d: Draft)
    requires !(s.cfg.relayOn && !s.up) && d.id !in s.cleaned
    ensures var s1, r := ProbedState(s, d), |s.requests|;
      RequestEnabled(s1, r, Insert) && ApplyInsert(s1, r) == InsertedState(s, d)
  {
    assert ApplyInsert(ProbedState(s, d), |s.requests|).requests == InsertedState(s, d).requests;
  }

  /** The last step, if the answer is not there yet. */
  lemma FinalStep(s: State, d: Draft) returns (states: seq<State>, actions: seq<Action>)
    requires !(s.cfg.relayOn && !s.up) && d.id !in s.cleaned
    ensures Leads(InsertedState(s, d), IntakeDone(s, d), states, actions)
  {
    var s2, t, r := InsertedState(s, d), IntakeDone(s, d), |s.requests|;
    states, actions := [t], [];
    if s2.requests[r].Conflicted? {
      assert ApplyReread(s2, r).requests == t.requests;
      states, actions := Prepend(s2, ByRequest(r, Reread), t, t, states, actions);
    } else if s2.requests[r].Stored? {
      assert ApplyEnqueue(s2, r).requests == t.requests;
      states, actions := Prepend(s2, ByRequest(r, Enqueue), t, t, states, actions);
    } else {
      assert s2.requests == t.requests;
    }
  }

  lemma StepsRunIntake(s: State, d: Draft) returns (states: seq<State>, actions: seq<Action>)
    requires d.id !in s.cleaned
    ensures Leads(s, IntakeDone(s, d), states, actions)
  {
    var s0, t, r := ApplyService(s, Arrive(d)), IntakeDone(s, d), |s.requests|;
    var s1 := ProbedState(s, d);
    ProbeStep(s, d);
    if s.cfg.relayOn && !s.up {
      assert s1 == t;
      states, actions := [t], [];
    } else {
      InsertStep(s, d);
      states, actions := FinalStep(s, d);
      states, actions := Prepend(s1, ByRequest(r, Insert), InsertedState(s, d), t, states, actions);
    }
    states, actions := Prepend(s0, ByRequest(r, Probe), s1, t, states, actions);
    states, actions := Prepend(s, ByService(Arrive(d)), s0, t, states, actions);
  }

  /** A request that nothing interrupts replays the event that holds its key if and only
      if the key is not the empty string and no stopped dispatcher refuses the request. */
  lemma UninterruptedReplayIff(s: State, d: Draft, x: EventId)
    requires UniqueKeys(s.table) && d.key.Some? && x in s.table && Holds(s.table[x], d.source, d.key.value)
    ensures Decision(s, d) == Some(AnswerFor(s.table, x)) <==> d.key.value != [] && !(s.cfg.relayOn && !s.up)
    ensures Decision(s, d) == None <==> d.key.value == [] || (s.cfg.relayOn && !s.up)
    ensures !Inserts(s, d)
  {
    HolderIs(s.table, d.source, d.key.value, x);
  }

  // ---- Intake, field by field ------------------------------------------------

  /** A row of the draft's own source with the draft's own key. */
  ghost predicate SameKey(t: Table, d: Draft, x: EventId) {
    x in t && t[x].source == d.source && t[x].key == d.key && d.key != None
  }

  /** The row of a new event: its own source, key and time, and a relay part that says
      whether it is to be relayed. */
  ghost predicate NewRow(s: State, d: Draft, e: Event) {
    var room := |s.queue| < (if s.cfg.queueSize > 1 then s.cfg.queueSize else 1);
    && e.source == d.source && e.receivedAt == d.receivedAt && e.key == d.key
    && e.relay.status == (if !s.cfg.relayOn then None else Some(if room then StatusScheduled else StatusSkipped))
    && e.relay.reason == (if !s.cfg.relayOn then None else Some(if room then Scheduled else QueueFull))
    && e.relay.lastError == (if s.cfg.relayOn && !room then Some(QueueIsFull) else None)
    && e.relay.attempted == 0 && e.relay.success == 0 && e.relay.attempts == 0
    && e.relay.lastStatusCode == None && e.relay.lastAttemptAt == None
  }

  /** The response about a row, read from its fields. */
  ghost predicate AnswerOf(answer: Answer, x: EventId, e: Event) {
    && answer.id == x && answer.receivedAt == e.receivedAt
    && (answer.relay.None? <==> e.relay.status == None)
    && (answer.relay.Some? ==>
          var r := answer.relay.value;
          && (r.attempted <==> e.relay.attempted != 0) && (r.success <==> e.relay.success != 0)
          && r.reason == e.relay.reason && r.statusCode == e.relay.lastStatusCode && r.attempts == e.relay.attempts
          && r.lastError == e.relay.lastError && r.lastAttemptAt == e.relay.lastAttemptAt)
  }

  lemma ConflictIffSameKey(s: State, d: Draft)
    requires d.id !in s.table
    ensures Conflict(s, d) <==> exists x :: SameKey(s.table, d, x)
  {
    ConflictsMeans(s.table, d.id, d.source, d.key);
    if Conflict(s, d) {
      var x :| x in s.table && s.table[x].source == d.source && s.table[x].key == d.key && s.table[x].key != None;
      assert SameKey(s.table, d, x);
    }
  }

  /** The event is new: it is stored, counted, handed over if there is room, answered. */
  ghost predicate StoredAsNew(s: State, d: Draft, t: State, q: Request) {
    && d.id in t.table && NewRow(s, d, t.table[d.id]) && q.Answered? && AnswerOf(q.answer, d.id, t.table[d.id])
    && (forall x :: x in t.table ==> x in s.table || x == d.id)
    && Count(t.received, d.source) == Count(s.received, d.source) + 1
    && t.queue == s.queue + if t.table[d.id].relay.status == Some(StatusScheduled) then [d.id] else []
  }

  /** Nothing is stored; a key already held is answered from its row, unless it is empty. */
  ghost predicate NotStored(s: State, d: Draft, t: State, q: Request, refused: bool) {
    && t == s.(requests := t.requests)
    && (q.Answered? <==> !refused && d.key != Some([])) && (q.Answered? || q.Rejected?)
    && (q.Answered? ==> SameKey(s.table, d, q.answer.id) && AnswerOf(q.answer, q.answer.id, s.table[q.answer.id]))
  }

  lemma ConflictAnswer(s: State, d: Draft, x: EventId)
    requires UniqueKeys(s.table) && SameKey(s.table, d, x)
    ensures OnConflict(s.table, d).Some? <==> d.key != Some([])
    ensures OnConflict(s.table, d).Some? ==>
      var answer := OnConflict(s.table, d).value; answer.id == x && AnswerOf(answer, x, s.table[x])
  {
    HolderIs(s.table, d.source, d.key.value, x);
  }

  lemma NewIsStored(s: State, d: Draft)
    requires d.id !in s.table && !(s.cfg.relayOn && !s.up) && forall x :: !SameKey(s.table, d, x)
    ensures StoredAsNew(s, d, IntakeDone(s, d), IntakeDone(s, d).requests[|s.requests|])
  {
    ConflictIffSameKey(s, d);
  }

  lemma HeldIsNotStored(s: State, d: Draft)
    requires UniqueKeys(s.table) && d.id !in s.table
    requires (s.cfg.relayOn && !s.up) || exists x :: SameKey(s.table, d, x)
    ensures NotStored(s, d, IntakeDone(s, d), IntakeDone(s, d).requests[|s.requests|], s.cfg.relayOn && !s.up)
  {
    ConflictIffSameKey(s, d);
    assert s.queue + [] == s.queue && s.accepted + [] == s.accepted;
    if x :| SameKey(s.table, d, x) { ConflictAnswer(s, d, x); }
  }

  /** A new event is stored if and only if the request is not refused by a stopped
      dispatcher and no row of the same source has the same key; a key already held is
      answered from that row, unless it is the empty string; all else stays as it was. */
  lemma IntakeInFields(s: State, d: Draft)
    requires UniqueKeys(s.table) && d.id !in s.table
    ensures var t, q := IntakeDone(s, d), IntakeDone(s, d).requests[|s.requests|];
      var refused := s.cfg.relayOn && !s.up;
      && |t.requests| == |s.requests| + 1 && q.draft == d
      && (forall x :: x in s.table ==> x in t.table && t.table[x] == s.table[x])
      && (if !refused && forall x :: !SameKey(s.table, d, x) then StoredAsNew(s, d, t, q)
          else NotStored(s, d, t, q, refused))
  {
    if !(s.cfg.relayOn && !s.up) && forall x :: !SameKey(s.table, d, x) {
      NewIsStored(s, d);
    } else {
      HeldIsNotStored(s, d);
    }
  }
}
