/** The receiver of the performance harness, which fails every so many requests on
    purpose (perf/receivers/receiver_server.py), alone and behind the relay. */
module Receiver {
  import opened Common
  import opened Relay
  import opened Tally

  datatype Mode = Fast | Slow | Flaky

  datatype Setup = Setup(mode: Mode, failEvery: int)

  predicate ValidSetup(u: Setup) { u.failEvery >= 1 }

  predicate ShouldFail(u: Setup, number: nat)
    requires ValidSetup(u)
  {
    u.mode == Flaky && number % u.failEvery == 0
  }

  // ---- Handler threads -------------------------------------------------------

  /** The shared counters. A handler takes the next number, and later, on its own
      thread, records its outcome; `done[i]` says whether number i + 1 has. */
  datatype Counts = Counts(done: seq<bool>, total: nat, failed: nat)

  datatype Step = Take | Record(number: nat)

  const FRESH := Counts([], 0, 0)

  predicate CanStep(c: Counts, step: Step) {
    step.Record? ==> 1 <= step.number <= |c.done| && !c.done[step.number - 1]
  }

  function TakeStep(u: Setup, c: Counts, step: Step): Counts
    requires ValidSetup(u) && CanStep(c, step)
  {
    match step
    case Take => c.(done := c.done + [false])
    case Record(n) =>
      Counts(c.done[n - 1 := true], c.total + 1, if ShouldFail(u, n) then c.failed + 1 else c.failed)
  }

  /** The counters after any interleaving of the handlers' steps. */
  ghost predicate Interleaving(u: Setup, counts: seq<Counts>, steps: seq<Step>)
    requires ValidSetup(u)
  {
    && |counts| == |steps| + 1 && counts[0] == FRESH
    && forall i :: 0 <= i < |steps| ==>
         CanStep(counts[i], steps[i]) && counts[i + 1] == TakeStep(u, counts[i], steps[i])
  }

  ghost function Recorded(done: seq<bool>): int { Total(done, One) }

  /** The recorded numbers that had to fail. */
  ghost function RecordedFailures(u: Setup, done: seq<bool>): int
    requires ValidSetup(u)
  {
    if done == [] then 0
    else RecordedFailures(u, done[..|done| - 1]) + One(done[|done| - 1] && ShouldFail(u, |done|))
  }

  ghost predicate Tallied(u: Setup, c: Counts)
    requires ValidSetup(u)
  {
    c.total == Recorded(c.done) && c.failed == RecordedFailures(u, c.done)
  }

  lemma {:induction false} RecordingCounts(u: Setup, done: seq<bool>, i: nat)
    requires ValidSetup(u) && i < |done| && !done[i]
    ensures RecordedFailures(u, done[i := true]) == RecordedFailures(u, done) + One(ShouldFail(u, i + 1))
  {
    var n := |done| - 1;
    if i == n {
      assert done[i := true][..n] == done[..n];
    } else {
      RecordingCounts(u, done[..n], i);
      assert done[i := true][..n] == done[..n][i := true];
    }
  }

  lemma StepKeepsTally(u: Setup, c: Counts, step: Step)
    requires ValidSetup(u) && Tallied(u, c) && CanStep(c, step)
    ensures Tallied(u, TakeStep(u, c, step))
  {
    match step
    case Take =>
      TotalAppend(c.done, false, One);
      assert (c.done + [false])[..|c.done|] == c.done;
    case Record(n) =>
      TotalUpdate(c.done, n - 1, true, One);
      RecordingCounts(u, c.done, n - 1);
  }

  // ---- Multiples -------------------------------------------------------------

  lemma DivisionIsUnique(n: int, f: int, q: int, r: int)
    requires f >= 1 && 0 <= r < f && n == q * f + r
    ensures n / f == q && n % f == r
  {
    var d := n / f - q;
    assert d * f == r - n % f;
    assert d >= 1 ==> d * f >= f;
    assert d <= -1 ==> d * f <= -f;
  }

  /** From n to n + 1 the quotient grows exactly at a multiple. */
  lemma QuotientStep(n: nat, f: int)
    requires f >= 1
    ensures (n + 1) / f == n / f + One((n + 1) % f == 0)
    ensures f >= 2 && (n + 1) % f == 0 ==> (n + 2) % f != 0
  {
    var q, r := n / f, n % f;
    assert n == q * f + r;
    if r + 1 < f {
      DivisionIsUnique(n + 1, f, q, r + 1);
    } else {
      assert n + 1 == (q + 1) * f;
      DivisionIsUnique(n + 1, f, q + 1, 0);
      if f >= 2 { DivisionIsUnique(n + 2, f, q + 1, 1); }
    }
  }

  lemma {:induction false} FailuresAreMultiples(u: Setup, done: seq<bool>)
    requires ValidSetup(u)
    ensures RecordedFailures(u, done) <= |done| / u.failEvery
    ensures 0 <= Recorded(done) <= |done|
    ensures (forall i :: 0 <= i < |done| ==> done[i]) ==>
      Recorded(done) == |done| && RecordedFailures(u, done) == if u.mode == Flaky then |done| / u.failEvery else 0
  {
    if done == [] {
      DivisionIsUnique(0, u.failEvery, 0, 0);
    } else {
      FailuresAreMultiples(u, done[..|done| - 1]);
      QuotientStep(|done| - 1, u.failEvery);
    }
  }

  /** Under any interleaving of the handler threads, the totals never run ahead of the
      numbers issued, and once every handler has recorded its outcome they are exact:
      in flaky mode every multiple of FAIL_EVERY failed, and nothing else. */
  lemma {:induction false} CountsAreExact(u: Setup, counts: seq<Counts>, steps: seq<Step>, i: nat)
    requires ValidSetup(u) && Interleaving(u, counts, steps) && i < |counts|
    ensures var c := counts[i];
      && Tallied(u, c)
      && c.total <= |c.done| && c.failed <= |c.done| / u.failEvery
      && ((forall k :: 0 <= k < |c.done| ==> c.done[k]) ==>
            c.total == |c.done| && c.failed == if u.mode == Flaky then |c.done| / u.failEvery else 0)
  {
    if i > 0 {
      CountsAreExact(u, counts, steps, i - 1);
      StepKeepsTally(u, counts[i - 1], steps[i - 1]);
    }
    FailuresAreMultiples(u, counts[i].done);
  }

  // ---- The server object -----------------------------------------------------

  datatype Status = Http(code: int, number: nat) | NotFound

  /** The process-wide counters, with the history the threads leave behind. */
  class Server {
    const u: Setup
    var counter: nat
    var total: nat
    var failed: nat
    ghost var done: seq<bool>

    ghost predicate Valid()
      reads this
    {
      ValidSetup(u) && counter == |done| && Tallied(u, Counts(done, total, failed))
    }

    /** FAIL_EVERY is at least one whatever the environment says. */
    constructor (mode: Mode, failEvery: int)
      ensures Valid() && counter == total == failed == 0 && u == Setup(mode, Max(1, failEvery))
    {
      u := Setup(mode, Max(1, failEvery));
      counter, total, failed, done := 0, 0, 0, [];
    }

    /** `next(_counter)`: the atomic start of a handler. */
    method Next() returns (number: nat)
      requires Valid()
      modifies this`counter, this`done
      ensures Valid() && number == counter == old(counter) + 1
      ensures Counts(done, total, failed) == TakeStep(u, old(Counts(done, total, failed)), Take)
    {
      StepKeepsTally(u, Counts(done, total, failed), Take);
      counter := counter + 1;
      done := done + [false];
      number := counter;
    }

    /** `_record`, under the lock, by the handler that was given `number`. */
    method RecordOutcome(ghost number: nat, failure: bool)
      requires Valid() && CanStep(Counts(done, total, failed), Record(number)) && failure == ShouldFail(u, number)
      modifies this`total, this`failed, this`done
      ensures Valid()
      ensures Counts(done, total, failed) == TakeStep(u, old(Counts(done, total, failed)), Record(number))
    {
      StepKeepsTally(u, Counts(done, total, failed), Record(number));
      total := total + 1;
      if failure { failed := failed + 1; }
      done := done[number - 1 := true];
    }

    /** do_POST, with no other handler in between. */
    method DoPost(ingest: bool) returns (status: Status)
      requires Valid()
      modifies this
      ensures Valid()
      ensures !ingest ==> status == NotFound && counter == old(counter) && total == old(total) && failed == old(failed)
      ensures ingest ==>
        && status == Http(if ShouldFail(u, old(counter) + 1) then 503 else 200, old(counter) + 1)
        && counter == old(counter) + 1 && total == old(total) + 1
        && failed == old(failed) + One(ShouldFail(u, old(counter) + 1))
        && (status.code == 503 <==> u.mode == Flaky && status.number % u.failEvery == 0)
        && ReplyTo(u, status.number) == Response(status.code)
    {
      if !ingest { return NotFound; }
      var number := Next();
      var shouldFail := u.mode == Flaky && number % u.failEvery == 0;
      RecordOutcome(number, shouldFail);
      status := Http(if shouldFail then 503 else 200, number);
    }
  }

  // ---- Behind the relay ------------------------------------------------------

  /** What the relay makes of request `number`. */
  function ReplyTo(u: Setup, number: nat): Reply
    requires ValidSetup(u)
  {
    Response(if ShouldFail(u, number) then 503 else 200)
  }

  /** What attempts k + 1, k + 2, ... meet when the receiver has answered k requests
      and no one else sends any. */
  function Replies(u: Setup, k: nat, n: nat): (replies: seq<Reply>)
    requires ValidSetup(u)
    ensures |replies| == n && forall i :: 0 <= i < n ==> replies[i] == ReplyTo(u, k + i + 1)
  {
    seq(n, i requires 0 <= i < n => ReplyTo(u, k + i + 1))
  }

  /** A job succeeds at its first attempt, or at its second when the first meets a
      multiple of FAIL_EVERY. */
  lemma JobAttempts(u: Setup, k: nat, n: nat, clock: seq<int>)
    requires ValidSetup(u) && u.mode == Flaky && u.failEvery >= 2 && 2 <= n <= |clock|
    ensures var attempts := if (k + 1) % u.failEvery == 0 then 2 else 1;
      && AttemptsMade(Replies(u, k, n), n) == attempts
      && LoopOutcome(Replies(u, k, n), clock, n) ==
           Some(RelayResult(true, true, Some(Success), Some(200), attempts, None, Some(clock[attempts - 1])))
  {
    var replies := Replies(u, k, n);
    QuotientStep(k, u.failEvery);
    var attempts := if (k + 1) % u.failEvery == 0 then 2 else 1;
    assert replies[0] == ReplyTo(u, k + 1) && replies[1] == ReplyTo(u, k + 2);
    AttemptsMadeIs(replies, n, attempts);
    SuccessIffTimely2xx(replies, clock, n);
  }

  /** With at least two attempts allowed, every job succeeds, and within two, exactly
      when FAIL_EVERY is at least two. */
  lemma EveryJobSucceedsIff(u: Setup, n: nat, clock: seq<int>)
    requires ValidSetup(u) && u.mode == Flaky && 2 <= n <= |clock|
    ensures (forall k: nat :: var out := LoopOutcome(Replies(u, k, n), clock, n);
               out.Some? && out.value.success && out.value.attempts <= 2) <==> u.failEvery >= 2
  {
    if u.failEvery >= 2 {
      forall k: nat ensures var out := LoopOutcome(Replies(u, k, n), clock, n);
        out.Some? && out.value.success && out.value.attempts <= 2
      {
        JobAttempts(u, k, n, clock);
      }
    } else {
      var replies := Replies(u, 0, n);
      assert forall j :: 0 <= j < n ==> replies[j] == Response(503);
      FailureReportsFinalAttempt(replies, clock, n);
    }
  }

  /** The requests the receiver has seen after `jobs` jobs, one after the other. */
  function Seen(u: Setup, jobs: nat, n: nat): nat
    requires ValidSetup(u) && n >= 1
  {
    if jobs == 0 then 0
    else
      var k := Seen(u, jobs - 1, n);
      k + AttemptsMade(Replies(u, k, n), n)
  }

  /** The price of the failures: T requests carry m jobs exactly when T - T / FAIL_EVERY
      is m, so retries add one request in every FAIL_EVERY. */
  lemma {:induction false} RequestsForJobs(u: Setup, jobs: nat, n: nat)
    requires ValidSetup(u) && u.mode == Flaky && u.failEvery >= 2 && n >= 2
    ensures var t := Seen(u, jobs, n); t - t / u.failEvery == jobs
  {
    if jobs == 0 {
      DivisionIsUnique(0, u.failEvery, 0, 0);
    } else {
      RequestsForJobs(u, jobs - 1, n);
      var k := Seen(u, jobs - 1, n);
      JobAttempts(u, k, n, seq(n, _ => 0));
      QuotientStep(k, u.failEvery);
      QuotientStep(k + 1, u.failEvery);
    }
  }
}
