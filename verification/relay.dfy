/** Outbound relay of one event: target preflight, the retry loop, and its
    outcome (app/services/relay.py).

    The world is a parameter: `replies[k]` is what attempt k + 1 meets, `clock[k]`
    the time at which it starts, `jitter[k]` the random factor of the sleep after it.
 */
module Relay {
  import opened Common

  // ---- Outcomes --------------------------------------------------------------

  /** What one POST meets. `Unexpected` is an exception outside the HTTP error
      hierarchy: the retry loop does not catch it. */
  datatype Reply =
    | Response(status: int)
    | TimedOut(message: string)
    | ConnectFailed(message: string)
    | HttpFailed(message: string)
    | Unexpected

  datatype Reason =
    | Scheduled | QueueFull
    | UnsupportedScheme | InvalidTargetUrl | HostNotAllowed | BlockedIp | DnsError
    | Success | Non2xx | Timeout | ConnectionError | HttpError

  /** The `last_error` text: an exception message, "non-2xx response: <code>", or
      "relay queue is full". */
  datatype ErrorText = Message(text: string) | BadStatus(code: int) | QueueIsFull

  datatype RelayResult = RelayResult(
    attempted: bool,
    success: bool,
    reason: Option<Reason>,
    statusCode: Option<int>,
    attempts: nat,
    lastError: Option<ErrorText>,
    lastAttemptAt: Option<int>)

  predicate Is2xx(r: Reply) { r.Response? && 200 <= r.status < 300 }

  /** The replies after which the loop makes no further attempt. */
  predicate Stops(r: Reply) { Is2xx(r) || r.Unexpected? }

  predicate NoneStops(replies: seq<Reply>, k: nat)
    requires k <= |replies|
  {
    forall j :: 0 <= j < k ==> !Stops(replies[j])
  }

  function OrElse(message: string, default: string): string {
    if message == "" then default else message
  }

  /** The `reason` a reply leaves in the loop's local variable. */
  function ReasonOf(r: Reply): Reason {
    match r
    case Response(c) => if 200 <= c < 300 then Success else Non2xx
    case TimedOut(_) => Timeout
    case ConnectFailed(_) => ConnectionError
    case HttpFailed(_) => HttpError
    case Unexpected => HttpError
  }

  /** The `last_error` a reply leaves in the loop's local variable. */
  function ErrorOf(r: Reply): ErrorText {
    match r
    case Response(c) => BadStatus(c)
    case TimedOut(m) => Message(OrElse(m, "timeout"))
    case ConnectFailed(m) => Message(OrElse(m, "connection error"))
    case HttpFailed(m) => Message(m)
    case Unexpected => Message("")
  }

  /** The status code of the most recent response, however old. */
  function LastStatus(replies: seq<Reply>): Option<int> {
    if replies == [] then None
    else if replies[|replies| - 1].Response? then Some(replies[|replies| - 1].status)
    else LastStatus(replies[..|replies| - 1])
  }

  lemma LastStatusNext(replies: seq<Reply>, k: nat)
    requires k < |replies|
    ensures LastStatus(replies[..k + 1]) ==
      if replies[k].Response? then Some(replies[k].status) else LastStatus(replies[..k])
  {
    assert replies[..k + 1][..k] == replies[..k];
  }

  /** It is that of the last response, and of no later reply; none without a response. */
  lemma {:induction false} LastStatusIsLatest(replies: seq<Reply>)
    ensures LastStatus(replies).None? <==> forall k :: 0 <= k < |replies| ==> !replies[k].Response?
    ensures LastStatus(replies).Some? ==>
      exists k :: 0 <= k < |replies| && replies[k] == Response(LastStatus(replies).value)
                  && forall j :: k < j < |replies| ==> !replies[j].Response?
  {
    if replies != [] {
      var m := |replies| - 1;
      var before := replies[..m];
      LastStatusIsLatest(before);
      if replies[m].Response? {
        assert replies[m] == Response(LastStatus(replies).value);
      } else if LastStatus(before).Some? {
        var k :| 0 <= k < m && before[k] == Response(LastStatus(before).value)
                 && forall j :: k < j < m ==> !before[j].Response?;
        assert replies[k] == Response(LastStatus(replies).value);
        forall j | k < j < |replies| ensures !replies[j].Response? {
          if j < m { assert before[j] == replies[j]; }
        }
      }
    }
  }

  /** The number of attempts made when at most `n` are allowed. */
  function AttemptsMade(replies: seq<Reply>, n: nat): (k: nat)
    requires 1 <= n <= |replies|
    ensures 1 <= k <= n
    ensures NoneStops(replies, k - 1)
    ensures k < n ==> Stops(replies[k - 1])
    decreases n
  {
    if Stops(replies[0]) || n == 1 then 1
    else
      var k := AttemptsMade(replies[1..], n - 1);
      assert forall j :: 0 < j < k ==> replies[j] == replies[1..][j - 1];
      k + 1
  }

  /** The result the loop returns after the attempts in `replies`, the last of
      which was answered by a 2xx or was the last one allowed. */
  function Conclude(replies: seq<Reply>, stamps: seq<int>): RelayResult
    requires 1 <= |replies| == |stamps|
  {
    var last := replies[|replies| - 1];
    var at := Some(stamps[|replies| - 1]);
    if Is2xx(last) then
      RelayResult(true, true, Some(Success), Some(last.status), |replies|, None, at)
    else
      RelayResult(true, false, Some(ReasonOf(last)), LastStatus(replies), |replies|, Some(ErrorOf(last)), at)
  }

  /** The outcome when attempt k is the last one made; `None` when it raised. */
  function OutcomeAfter(replies: seq<Reply>, clock: seq<int>, k: nat): Option<RelayResult>
    requires 1 <= k <= |replies| && k <= |clock|
  {
    if replies[k - 1].Unexpected? then None else Some(Conclude(replies[..k], clock[..k]))
  }

  /** The outcome of the retry loop; `None` when an exception escapes it. */
  function LoopOutcome(replies: seq<Reply>, clock: seq<int>, n: nat): Option<RelayResult>
    requires 1 <= n <= |replies| && n <= |clock|
  {
    OutcomeAfter(replies, clock, AttemptsMade(replies, n))
  }

  /** `AttemptsMade` is determined by its contract. */
  lemma AttemptsMadeIs(replies: seq<Reply>, n: nat, k: nat)
    requires 1 <= k <= n <= |replies|
    requires NoneStops(replies, k - 1)
    requires k == n || Stops(replies[k - 1])
    ensures AttemptsMade(replies, n) == k
  {
  }

  lemma SuccessAt(replies: seq<Reply>, clock: seq<int>, n: nat, k: nat)
    requires k < n <= |replies| && n <= |clock| && Is2xx(replies[k]) && NoneStops(replies, k)
    ensures AttemptsMade(replies, n) == k + 1
    ensures LoopOutcome(replies, clock, n) ==
      Some(RelayResult(true, true, Some(Success), Some(replies[k].status), k + 1, None, Some(clock[k])))
  {
    AttemptsMadeIs(replies, n, k + 1);
  }

  /** Success exactly when a 2xx arrives within the attempts allowed and no
      unexpected exception comes before it; `attempts` is then its position. */
  lemma SuccessIffTimely2xx(replies: seq<Reply>, clock: seq<int>, n: nat)
    requires 1 <= n <= |replies| && n <= |clock|
    ensures var out := LoopOutcome(replies, clock, n);
      (out.Some? && out.value.success) <==> exists k :: 0 <= k < n && Is2xx(replies[k]) && NoneStops(replies, k)
    ensures forall k :: 0 <= k < n && Is2xx(replies[k]) && NoneStops(replies, k) ==>
      LoopOutcome(replies, clock, n) ==
        Some(RelayResult(true, true, Some(Success), Some(replies[k].status), k + 1, None, Some(clock[k])))
  {
    var m := AttemptsMade(replies, n);
    if Is2xx(replies[m - 1]) {
      assert 0 <= m - 1 < n && Is2xx(replies[m - 1]) && NoneStops(replies, m - 1);
    }
    forall k | 0 <= k < n && Is2xx(replies[k]) && NoneStops(replies, k)
      ensures LoopOutcome(replies, clock, n) ==
        Some(RelayResult(true, true, Some(Success), Some(replies[k].status), k + 1, None, Some(clock[k])))
    {
      SuccessAt(replies, clock, n, k);
    }
  }

  lemma OutcomeAfterFailure(replies: seq<Reply>, clock: seq<int>, n: nat)
    requires 1 <= n <= |replies| && n <= |clock| && !Stops(replies[n - 1])
    ensures OutcomeAfter(replies, clock, n) ==
      Some(RelayResult(true, false, Some(ReasonOf(replies[n - 1])), LastStatus(replies[..n]), n,
                       Some(ErrorOf(replies[n - 1])), Some(clock[n - 1])))
  {
  }

  lemma FailureAt(replies: seq<Reply>, clock: seq<int>, n: nat)
    requires 1 <= n <= |replies| && n <= |clock| && NoneStops(replies, n)
    ensures AttemptsMade(replies, n) == n
    ensures LoopOutcome(replies, clock, n) ==
      Some(RelayResult(true, false, Some(ReasonOf(replies[n - 1])), LastStatus(replies[..n]), n,
                       Some(ErrorOf(replies[n - 1])), Some(clock[n - 1])))
  {
    AttemptsMadeIs(replies, n, n);
    OutcomeAfterFailure(replies, clock, n);
  }

  /** A failed outcome used every attempt; its reason and error are those of the
      final attempt, while its status code is that of the last response received,
      which may belong to an earlier attempt. */
  lemma FailureReportsFinalAttempt(replies: seq<Reply>, clock: seq<int>, n: nat)
    requires 1 <= n <= |replies| && n <= |clock|
    ensures var out := LoopOutcome(replies, clock, n);
      (out.Some? && !out.value.success) <==> NoneStops(replies, n)
    ensures NoneStops(replies, n) ==>
      LoopOutcome(replies, clock, n) ==
        Some(RelayResult(true, false, Some(ReasonOf(replies[n - 1])), LastStatus(replies[..n]), n,
                         Some(ErrorOf(replies[n - 1])), Some(clock[n - 1])))
  {
    if NoneStops(replies, n) {
      FailureAt(replies, clock, n);
    } else {
      assert Stops(replies[AttemptsMade(replies, n) - 1]);
    }
  }

  /** What a failed outcome says of the reply to its final attempt. */
  predicate ReportsReply(r: RelayResult, last: Reply) {
    match last
    case Response(c) => r.reason == Some(Non2xx) && r.lastError == Some(BadStatus(c)) && r.statusCode == Some(c)
    case TimedOut(m) => r.reason == Some(Timeout) && r.lastError == Some(Message(if m == "" then "timeout" else m))
    case ConnectFailed(m) =>
      r.reason == Some(ConnectionError) && r.lastError == Some(Message(if m == "" then "connection error" else m))
    case HttpFailed(m) => r.reason == Some(HttpError) && r.lastError == Some(Message(m))
    case Unexpected => false
  }

  /** The outcome of the attempts in `replies`, field by field. */
  ghost predicate ReportsAttempts(r: RelayResult, replies: seq<Reply>, stamps: seq<int>)
    requires 1 <= |replies| == |stamps|
  {
    var last := replies[|replies| - 1];
    && r.attempted && r.attempts == |replies| && r.lastAttemptAt == Some(stamps[|replies| - 1])
    && (r.success <==> last.Response? && 200 <= last.status < 300)
    && (if r.success then r.reason == Some(Success) && r.statusCode == Some(last.status) && r.lastError == None
        else ReportsReply(r, last))
    && (r.statusCode.None? <==> forall k :: 0 <= k < |replies| ==> !replies[k].Response?)
    && (r.statusCode.Some? ==>
          exists k :: 0 <= k < |replies| && replies[k] == Response(r.statusCode.value)
                      && forall j :: k < j < |replies| ==> !replies[j].Response?)
  }

  /** What the loop returns after attempt k of the trace; nothing when it raised. */
  ghost predicate ReportsTrace(out: Option<RelayResult>, replies: seq<Reply>, clock: seq<int>, k: nat)
    requires 1 <= k <= |replies| && k <= |clock|
  {
    && (out.None? <==> replies[k - 1].Unexpected?)
    && (out.Some? ==> ReportsAttempts(out.value, replies[..k], clock[..k]))
  }

  lemma ConcludeReports(replies: seq<Reply>, stamps: seq<int>)
    requires 1 <= |replies| == |stamps| && !replies[|replies| - 1].Unexpected?
    ensures ReportsAttempts(Conclude(replies, stamps), replies, stamps)
  {
    var m := |replies| - 1;
    LastStatusIsLatest(replies);
    if replies[m].Response? { assert replies[m] == Response(replies[m].status); }
  }

  /** The outcome of the loop, in terms of the trace alone: it is that of the attempts up
      to the first 2xx or, without one, of all those allowed; and there is none when an
      exception that the loop does not catch comes first. */
  lemma OutcomeReportsTrace(replies: seq<Reply>, clock: seq<int>, n: nat)
    requires 1 <= n <= |replies| && n <= |clock|
    ensures ReportsTrace(LoopOutcome(replies, clock, n), replies, clock, AttemptsMade(replies, n))
  {
    var k := AttemptsMade(replies, n);
    if !replies[k - 1].Unexpected? { ConcludeReports(replies[..k], clock[..k]); }
  }

  // ---- Backoff ---------------------------------------------------------------

  const BASE_DELAY: real := 0.2
  const FACTOR: real := 2.0
  const DELAY_CAP: real := 1.6
  const DELAY_FLOOR: real := 0.01

  /** FACTOR to the power k. */
  function Power(k: nat): real {
    if k == 0 then 1.0 else FACTOR * Power(k - 1)
  }

  /** The delay after attempt `attempt`, before jitter. */
  function NominalDelay(attempt: nat): real
    requires 1 <= attempt
  {
    var delay := BASE_DELAY * Power(attempt - 1);
    if delay < DELAY_CAP then delay else DELAY_CAP
  }

  function NominalTotal(m: nat): real {
    if m == 0 then 0.0 else NominalTotal(m - 1) + NominalDelay(m)
  }

  function Sum(xs: seq<real>): real {
    if xs == [] then 0.0 else Sum(xs[..|xs| - 1]) + xs[|xs| - 1]
  }

  lemma {:induction false} PowerGrows(k: nat)
    ensures Power(k) >= 1.0
    ensures k >= 3 ==> Power(k) >= 8.0
  {
    if k > 0 { PowerGrows(k - 1); }
    if k == 3 {
      assert Power(1) == 2.0 && Power(2) == 4.0 && Power(3) == 8.0;
    }
  }

  /** Nominal delays double from 0.2 up to the cap, which is reached at the fourth. */
  lemma NominalDelayValues(attempt: nat)
    requires 1 <= attempt
    ensures NominalDelay(attempt) == if attempt == 1 then 0.2 else if attempt == 2 then 0.4
                                     else if attempt == 3 then 0.8 else 1.6
  {
    assert Power(0) == 1.0 && Power(1) == 2.0 && Power(2) == 4.0;
    if attempt >= 4 { PowerGrows(attempt - 1); }
  }

  lemma {:induction false} NominalDelayMonotone(a: nat, b: nat)
    requires 1 <= a <= b
    ensures 0.2 <= NominalDelay(a) <= NominalDelay(b) <= DELAY_CAP
  {
    NominalDelayValues(a);
    NominalDelayValues(b);
  }

  /** The closed form of the total nominal delay, geometric and then linear. */
  lemma {:induction false} NominalTotalClosedForm(m: nat)
    ensures m <= 4 ==> NominalTotal(m) == 0.2 * (Power(m) - 1.0)
    ensures m >= 4 ==> NominalTotal(m) == 3.0 + 1.6 * ((m - 4) as real)
  {
    if m > 0 {
      NominalTotalClosedForm(m - 1);
      NominalDelayValues(m);
    }
    assert Power(0) == 1.0 && Power(1) == 2.0;
    assert Power(2) == 4.0 && Power(3) == 8.0;
    assert Power(4) == 2.0 * Power(3);
  }

  lemma Product(x: real, y: real)
    requires x >= 0.0 && y >= 0.0
    ensures x * y >= 0.0
  {
  }

  function WithJitter(delay: real, jitter: real): real { delay * (1.0 + jitter) }

  /** Jitter moves a delay by at most 20 percent, and never below the floor. */
  lemma JitterBounds(delay: real, jitter: real)
    requires 0.2 <= delay && -0.2 <= jitter <= 0.2
    ensures 0.8 * delay <= WithJitter(delay, jitter) <= 1.2 * delay
    ensures WithJitter(delay, jitter) > DELAY_FLOOR
    ensures WithJitter(delay, jitter) == delay + delay * jitter
  {
    Product(delay, jitter + 0.2);
    Product(delay, 0.2 - jitter);
    assert delay * (jitter + 0.2) == delay * jitter + 0.2 * delay;
    assert delay * (0.2 - jitter) == 0.2 * delay - delay * jitter;
    assert WithJitter(delay, jitter) == delay + delay * jitter;
  }

  /** The sleep after attempt `attempt`, when the random factor is 1 + `jitter`. */
  function SleepAfter(attempt: nat, jitter: real): real
    requires 1 <= attempt
  {
    WithJitter(NominalDelay(attempt), jitter)
  }

  lemma SleepBounds(attempt: nat, jitter: real)
    requires 1 <= attempt && -0.2 <= jitter <= 0.2
    ensures 0.8 * NominalDelay(attempt) <= SleepAfter(attempt, jitter) <= 1.2 * NominalDelay(attempt)
  {
    NominalDelayMonotone(attempt, attempt);
    JitterBounds(NominalDelay(attempt), jitter);
  }

  /** Jitter, and the floor of 0.01 seconds, which never binds. */
  method Jittered(delay: real, jitter: real) returns (sleep: real)
    requires 0.2 <= delay && -0.2 <= jitter <= 0.2
    ensures sleep == WithJitter(delay, jitter) == delay + delay * jitter
  {
    JitterBounds(delay, jitter);
    sleep := WithJitter(delay, jitter);
    if sleep < DELAY_FLOOR { sleep := DELAY_FLOOR; }
  }

  /** The sleep taken after attempt `attempt`. */
  method Backoff(attempt: nat, jitter: real) returns (sleep: real)
    requires 1 <= attempt && -0.2 <= jitter <= 0.2
    ensures sleep == SleepAfter(attempt, jitter)
  {
    NominalDelayMonotone(attempt, attempt);
    sleep := Jittered(NominalDelay(attempt), jitter);
  }

  /** The first m sleeps of a relay. */
  function SleepsTaken(jitter: seq<real>, m: nat): (sleeps: seq<real>)
    requires m <= |jitter|
    ensures |sleeps| == m
  {
    if m == 0 then [] else SleepsTaken(jitter, m - 1) + [SleepAfter(m, jitter[m - 1])]
  }

  /** The time spent sleeping is within 20 percent of the nominal total, whatever
      the jitter: with four attempts, between 1.12 and 1.68 seconds. */
  lemma {:induction false} TotalSleepBounds(jitter: seq<real>, m: nat)
    requires m <= |jitter| && forall k :: 0 <= k < |jitter| ==> -0.2 <= jitter[k] <= 0.2
    ensures 0.8 * NominalTotal(m) <= Sum(SleepsTaken(jitter, m)) <= 1.2 * NominalTotal(m)
    ensures m == 3 ==> 1.12 <= Sum(SleepsTaken(jitter, m)) <= 1.68
  {
    if m > 0 {
      TotalSleepBounds(jitter, m - 1);
      SleepBounds(m, jitter[m - 1]);
      assert SleepsTaken(jitter, m)[..m - 1] == SleepsTaken(jitter, m - 1);
    }
    if m == 3 {
      NominalTotalClosedForm(3);
      assert Power(2) == 4.0 && Power(3) == 8.0;
    }
  }

  // ---- The retry loop --------------------------------------------------------

  /** The loop's local variables after `a` attempts, none of which stopped it. */
  ghost predicate LoopState(replies: seq<Reply>, clock: seq<int>, a: nat, lastStatus: Option<int>, reason: Reason,
                            lastError: Option<ErrorText>, lastAttemptAt: Option<int>)
    requires a <= |replies| && a <= |clock|
  {
    && NoneStops(replies, a) && lastStatus == LastStatus(replies[..a])
    && (a > 0 ==> reason == ReasonOf(replies[a - 1]) && lastError == Some(ErrorOf(replies[a - 1]))
                  && lastAttemptAt == Some(clock[a - 1]))
  }

  lemma LoopStateNext(replies: seq<Reply>, clock: seq<int>, a: nat, before: Option<int>, after: Option<int>)
    requires a < |replies| && a < |clock| && NoneStops(replies, a) && before == LastStatus(replies[..a])
    requires !Stops(replies[a]) && after == if replies[a].Response? then Some(replies[a].status) else before
    ensures LoopState(replies, clock, a + 1, after, ReasonOf(replies[a]), Some(ErrorOf(replies[a])), Some(clock[a]))
  {
    LastStatusNext(replies, a);
  }

  /** What the method has to return when attempt k is the last one. */
  ghost predicate EndsWith(replies: seq<Reply>, clock: seq<int>, n: nat, k: nat, result: Option<RelayResult>)
    requires 1 <= k <= n <= |replies| && n <= |clock|
  {
    && AttemptsMade(replies, n) == k && LoopOutcome(replies, clock, n) == result
    && ReportsTrace(result, replies, clock, k)
  }

  lemma EndsInSuccess(replies: seq<Reply>, clock: seq<int>, n: nat, k: nat)
    requires 1 <= k <= n <= |replies| && n <= |clock| && NoneStops(replies, k - 1) && Is2xx(replies[k - 1])
    ensures EndsWith(replies, clock, n, k,
                     Some(RelayResult(true, true, Some(Success), Some(replies[k - 1].status), k, None,
                                      Some(clock[k - 1]))))
  {
    SuccessAt(replies, clock, n, k - 1);
    OutcomeReportsTrace(replies, clock, n);
  }

  lemma EndsInRaise(replies: seq<Reply>, clock: seq<int>, n: nat, k: nat)
    requires 1 <= k <= n <= |replies| && n <= |clock| && NoneStops(replies, k - 1) && replies[k - 1].Unexpected?
    ensures EndsWith(replies, clock, n, k, None)
  {
    AttemptsMadeIs(replies, n, k);
    OutcomeReportsTrace(replies, clock, n);
  }

  lemma EndsInFailure(replies: seq<Reply>, clock: seq<int>, n: nat, lastStatus: Option<int>, reason: Reason,
                      lastError: Option<ErrorText>, lastAttemptAt: Option<int>)
    requires 1 <= n <= |replies| && n <= |clock|
    requires LoopState(replies, clock, n, lastStatus, reason, lastError, lastAttemptAt)
    ensures EndsWith(replies, clock, n, n,
                     Some(RelayResult(true, false, Some(reason), lastStatus, n, lastError, lastAttemptAt)))
  {
    FailureAt(replies, clock, n);
    OutcomeReportsTrace(replies, clock, n);
  }

  /** The retry loop of `relay_event`. Besides the outcome it reports the sleeps it
      took and what it added to the two relay counters. */
  method RelayAttempts(n: nat, replies: seq<Reply>, clock: seq<int>, jitter: seq<real>)
    returns (result: Option<RelayResult>, sleeps: seq<real>, attemptsAdded: nat, successesAdded: nat)
    requires 1 <= n <= |replies| && n <= |clock| && n <= |jitter| + 1
    requires forall k :: 0 <= k < |jitter| ==> -0.2 <= jitter[k] <= 0.2
    ensures result == LoopOutcome(replies, clock, n)
    ensures attemptsAdded == AttemptsMade(replies, n)
    ensures ReportsTrace(result, replies, clock, attemptsAdded)
    ensures successesAdded == if result.Some? && result.value.success then 1 else 0
    ensures sleeps == SleepsTaken(jitter, attemptsAdded - 1)
  {
    var lastStatus: Option<int> := None;
    var lastError: Option<ErrorText> := None;
    var reason := Non2xx;
    var lastAttemptAt: Option<int> := None;
    sleeps, attemptsAdded, successesAdded := [], 0, 0;

    for attempt := 1 to n + 1
      invariant attemptsAdded == attempt - 1 && successesAdded == 0
      invariant LoopState(replies, clock, attempt - 1, lastStatus, reason, lastError, lastAttemptAt)
      invariant sleeps == SleepsTaken(jitter, Min(attempt - 1, n - 1))
    {
      ghost var statusBefore := lastStatus;
      attemptsAdded := attemptsAdded + 1;
      lastAttemptAt := Some(clock[attempt - 1]);
      match replies[attempt - 1] {
        case Response(status) =>
          lastStatus := Some(status);
          if 200 <= status < 300 {
            successesAdded := successesAdded + 1;
            EndsInSuccess(replies, clock, n, attempt);
            return Some(RelayResult(true, true, Some(Success), Some(status), attempt, None, lastAttemptAt)),
                   sleeps, attemptsAdded, successesAdded;
          }
          reason, lastError := Non2xx, Some(BadStatus(status));
        case TimedOut(message) =>
          reason, lastError := Timeout, Some(Message(OrElse(message, "timeout")));
        case ConnectFailed(message) =>
          reason, lastError := ConnectionError, Some(Message(OrElse(message, "connection error")));
        case HttpFailed(message) =>
          reason, lastError := HttpError, Some(Message(message));
        case Unexpected =>
          EndsInRaise(replies, clock, n, attempt);
          return None, sleeps, attemptsAdded, successesAdded;
      }
      LoopStateNext(replies, clock, attempt - 1, statusBefore, lastStatus);
      if attempt < n {
        var sleep := Backoff(attempt, jitter[attempt - 1]);
        sleeps := sleeps + [sleep];
      }
    }
    EndsInFailure(replies, clock, n, lastStatus, reason, lastError, lastAttemptAt);
    result := Some(RelayResult(true, false, Some(reason), lastStatus, n, lastError, lastAttemptAt));
  }

  // ---- Preflight -------------------------------------------------------------

  /** What the address tables say of one resolved address; `Malformed` makes the
      check raise instead of answering. */
  datatype Address = Public | Blocked | Malformed

  /** What name resolution gives; `ResolverRaises` is any exception but the name error
      that preflight catches. */
  datatype Resolution = Addresses(ips: seq<Address>) | NameError(message: string) | ResolverRaises

  /** The target URL once parsed, scheme and host in lower case. */
  datatype Target = Target(scheme: string, host: string)

  datatype Policy = Policy(allowHosts: set<string>, allowPrivateIps: bool)

  datatype Verdict = Pass | Skip(result: RelayResult) | Raise

  function Skipped(reason: Reason, error: Option<ErrorText>): RelayResult {
    RelayResult(false, false, Some(reason), None, 0, error, None)
  }

  /** The reasons for which preflight refuses a target. */
  predicate IsRefusal(reason: Option<Reason>) {
    reason in [Some(UnsupportedScheme), Some(InvalidTargetUrl), Some(HostNotAllowed), Some(BlockedIp), Some(DnsError)]
  }

  predicate IsSkipped(r: RelayResult) { IsRefusal(r.reason) && r == Skipped(r.reason.value, r.lastError) }

  /** The checks that precede name resolution. */
  function StaticVerdict(target: Target, policy: Policy): Verdict {
    if target.scheme != "http" && target.scheme != "https" then Skip(Skipped(UnsupportedScheme, None))
    else if target.host == "" then Skip(Skipped(InvalidTargetUrl, None))
    else if policy.allowHosts != {} && target.host !in policy.allowHosts then Skip(Skipped(HostNotAllowed, None))
    else Pass
  }

  /** The verdict on the resolved addresses, in the order they are visited. */
  function AddressVerdict(ips: seq<Address>): Verdict {
    if ips == [] then Pass
    else match ips[0]
      case Public => AddressVerdict(ips[1..])
      case Blocked => Skip(Skipped(BlockedIp, None))
      case Malformed => Raise
  }

  function PreflightVerdict(target: Target, policy: Policy, resolution: Resolution): Verdict {
    var verdict := StaticVerdict(target, policy);
    if !verdict.Pass? then verdict
    else match resolution
      case NameError(m) => Skip(Skipped(DnsError, Some(Message(m))))
      case ResolverRaises => Raise
      case Addresses(ips) => if policy.allowPrivateIps then Pass else AddressVerdict(ips)
  }

  /** The checks before name resolution, one by one. */
  predicate SchemeOk(target: Target) { target.scheme == "http" || target.scheme == "https" }

  predicate HostAllowed(target: Target, policy: Policy) {
    |policy.allowHosts| == 0 || exists h :: h in policy.allowHosts && h == target.host
  }

  /** The first address that is not public is this one. */
  ghost predicate FirstUnsafe(ips: seq<Address>, a: Address) {
    exists k :: 0 <= k < |ips| && ips[k] == a && forall j :: 0 <= j < k ==> ips[j] == Public
  }

  lemma {:induction false} AddressVerdictMeans(ips: seq<Address>)
    ensures AddressVerdict(ips).Pass? <==> forall k :: 0 <= k < |ips| ==> ips[k] == Public
    ensures AddressVerdict(ips).Raise? <==> FirstUnsafe(ips, Malformed)
    ensures AddressVerdict(ips).Skip? <==> FirstUnsafe(ips, Blocked)
    ensures AddressVerdict(ips).Skip? ==> AddressVerdict(ips).result == Skipped(BlockedIp, None)
  {
    if ips != [] {
      var rest := ips[1..];
      AddressVerdictMeans(rest);
      if ips[0] == Public {
        FirstUnsafeCons(ips, Blocked);
        FirstUnsafeCons(ips, Malformed);
      } else {
        assert FirstUnsafe(ips, ips[0]);
        assert forall a :: FirstUnsafe(ips, a) ==> a == ips[0];
      }
    }
  }

  lemma FirstUnsafeCons(ips: seq<Address>, a: Address)
    requires ips != [] && ips[0] == Public && a != Public
    ensures FirstUnsafe(ips, a) <==> FirstUnsafe(ips[1..], a)
  {
    var rest := ips[1..];
    if k :| 0 <= k < |ips| && ips[k] == a && forall j :: 0 <= j < k ==> ips[j] == Public {
      assert rest[k - 1] == a && forall j :: 0 <= j < k - 1 ==> rest[j] == ips[j + 1];
    }
    if k :| 0 <= k < |rest| && rest[k] == a && forall j :: 0 <= j < k ==> rest[j] == Public {
      assert ips[k + 1] == a;
      forall j | 0 <= j < k + 1 ensures ips[j] == Public { if j > 0 { assert rest[j - 1] == ips[j]; } }
    }
  }

  /** When preflight passes, and which check fails, every earlier one having held, when it
      does not. */
  ghost predicate PreflightMeans(verdict: Verdict, target: Target, policy: Policy, resolution: Resolution) {
    if !SchemeOk(target) then
      verdict == Skip(RelayResult(false, false, Some(UnsupportedScheme), None, 0, None, None))
    else if target.host == "" then
      verdict == Skip(RelayResult(false, false, Some(InvalidTargetUrl), None, 0, None, None))
    else if !HostAllowed(target, policy) then
      verdict == Skip(RelayResult(false, false, Some(HostNotAllowed), None, 0, None, None))
    else match resolution
      case NameError(m) =>
        verdict == Skip(RelayResult(false, false, Some(DnsError), None, 0, Some(Message(m)), None))
      case ResolverRaises => verdict == Raise
      case Addresses(ips) =>
        if policy.allowPrivateIps || forall k :: 0 <= k < |ips| ==> ips[k] == Public then verdict == Pass
        else if FirstUnsafe(ips, Blocked) then
          verdict == Skip(RelayResult(false, false, Some(BlockedIp), None, 0, None, None))
        else FirstUnsafe(ips, Malformed) && verdict == Raise
  }

  lemma VerdictMeans(target: Target, policy: Policy, resolution: Resolution)
    ensures PreflightMeans(PreflightVerdict(target, policy, resolution), target, policy, resolution)
  {
    if resolution.Addresses? { AddressVerdictMeans(resolution.ips); }
  }

  /** Preflight passes if and only if the scheme is http or https, there is a host, the
      allow list is empty or holds it, and it resolves to addresses that are all public
      or are not looked at. */
  method Preflight(target: Target, policy: Policy, resolution: Resolution) returns (verdict: Verdict)
    ensures verdict == PreflightVerdict(target, policy, resolution)
    ensures PreflightMeans(verdict, target, policy, resolution)
    ensures verdict.Pass? <==>
      && target.scheme in {"http", "https"} && target.host != ""
      && (policy.allowHosts == {} || target.host in policy.allowHosts)
      && resolution.Addresses?
      && (policy.allowPrivateIps || forall k :: 0 <= k < |resolution.ips| ==> resolution.ips[k] == Public)
  {
    VerdictMeans(target, policy, resolution);
    if target.scheme !in {"http", "https"} { return Skip(Skipped(UnsupportedScheme, None)); }
    if target.host == "" { return Skip(Skipped(InvalidTargetUrl, None)); }
    if policy.allowHosts != {} && target.host !in policy.allowHosts { return Skip(Skipped(HostNotAllowed, None)); }
    match resolution {
      case NameError(m) => return Skip(Skipped(DnsError, Some(Message(m))));
      case ResolverRaises => return Raise;
      case Addresses(ips) =>
        for i := 0 to |ips|
          invariant !policy.allowPrivateIps ==> AddressVerdict(ips) == AddressVerdict(ips[i..])
        {
          if !policy.allowPrivateIps && ips[i] == Malformed { return Raise; }
          if !policy.allowPrivateIps && ips[i] == Blocked { return Skip(Skipped(BlockedIp, None)); }
        }
    }
    verdict := Pass;
  }

  lemma {:induction false} AddressVerdictCases(ips: seq<Address>)
    ensures AddressVerdict(ips) == Pass <==> Blocked !in ips && Malformed !in ips
    ensures AddressVerdict(ips) == Raise ==> Malformed in ips
    ensures AddressVerdict(ips).Skip? ==> Blocked in ips && AddressVerdict(ips) == Skip(Skipped(BlockedIp, None))
  {
    if ips != [] {
      AddressVerdictCases(ips[1..]);
      assert ips == [ips[0]] + ips[1..];
    }
  }

  /** The same addresses, each as often, in another order. */
  ghost predicate Reordered(xs: seq<Address>, ys: seq<Address>) { multiset(xs) == multiset(ys) }

  lemma ReorderedMembers(xs: seq<Address>, ys: seq<Address>)
    requires Reordered(xs, ys)
    ensures forall a :: a in xs <==> a in ys
  {
    forall a ensures a in xs <==> a in ys {
      assert a in xs <==> a in multiset(xs);
      assert a in ys <==> a in multiset(ys);
    }
  }

  /** The address a, moved to the front. */
  lemma BringToFront(xs: seq<Address>, a: Address) returns (ys: seq<Address>)
    requires a in xs
    ensures Reordered(xs, ys) && ys != [] && ys[0] == a
  {
    var k :| 0 <= k < |xs| && xs[k] == a;
    ys := [a] + xs[..k] + xs[k + 1..];
    assert xs == xs[..k] + [a] + xs[k + 1..];
  }

  /** Whether an attempt is made never depends on the order of the addresses. */
  lemma {:induction false} PassIgnoresOrder(xs: seq<Address>, ys: seq<Address>)
    requires Reordered(xs, ys)
    ensures AddressVerdict(xs) == Pass <==> AddressVerdict(ys) == Pass
  {
    ReorderedMembers(xs, ys);
    AddressVerdictCases(xs);
    AddressVerdictCases(ys);
  }

  /** The verdict on the addresses is the same in every order exactly when they do not
      mix a blocked address with one that the address tables cannot parse. */
  lemma {:induction false} VerdictOrderIndependentIff(xs: seq<Address>)
    ensures (forall ys :: Reordered(xs, ys) ==> AddressVerdict(ys) == AddressVerdict(xs))
            <==> !(Blocked in xs && Malformed in xs)
  {
    if Blocked in xs && Malformed in xs {
      var ys := BringToFront(xs, Blocked);
      var zs := BringToFront(xs, Malformed);
      assert AddressVerdict(ys) != AddressVerdict(zs);
    } else {
      AddressVerdictCases(xs);
      forall ys | Reordered(xs, ys) ensures AddressVerdict(ys) == AddressVerdict(xs) {
        ReorderedMembers(xs, ys);
        AddressVerdictCases(ys);
      }
    }
  }

  /** Resolved addresses come in no particular order. The preflight verdict depends on it
      exactly when the addresses are looked at (the static checks pass and private
      addresses are not allowed) and mix a blocked one with one that does not parse. */
  lemma {:induction false} PreflightOrderIndependentIff(target: Target, policy: Policy, xs: seq<Address>)
    ensures (forall ys :: Reordered(xs, ys) ==>
               PreflightVerdict(target, policy, Addresses(ys)) == PreflightVerdict(target, policy, Addresses(xs)))
            <==> !(StaticVerdict(target, policy).Pass? && !policy.allowPrivateIps && Blocked in xs && Malformed in xs)
  {
    VerdictOrderIndependentIff(xs);
    if StaticVerdict(target, policy).Pass? && !policy.allowPrivateIps {
      forall ys ensures PreflightVerdict(target, policy, Addresses(ys)) == AddressVerdict(ys) {}
    }
  }

  /** When every address parses, as the numeric addresses of a resolver do, the whole
      preflight verdict is the same in every order. */
  lemma {:induction false} ParsedAddressesIgnoreOrder(target: Target, policy: Policy,
                                                      xs: seq<Address>, ys: seq<Address>)
    requires Malformed !in xs && Reordered(xs, ys)
    ensures PreflightVerdict(target, policy, Addresses(xs)) == PreflightVerdict(target, policy, Addresses(ys))
  {
    ReorderedMembers(xs, ys);
    AddressVerdictCases(xs);
    AddressVerdictCases(ys);
  }

  // ---- relay_event -----------------------------------------------------------

  /** What `relay_event` returns; `None` when an exception escapes it. */
  function EventOutcome(verdict: Verdict, clientReady: bool, replies: seq<Reply>, clock: seq<int>, n: nat)
    : Option<RelayResult>
    requires 1 <= n <= |replies| && n <= |clock|
  {
    match verdict
    case Skip(result) => Some(result)
    case Raise => None
    case Pass => if clientReady then LoopOutcome(replies, clock, n) else None
  }

  /** Preflight, then the retry loop; no attempt is made unless preflight passes. */
  method RelayEvent(target: Target, policy: Policy, resolution: Resolution, clientReady: bool,
                    n: nat, replies: seq<Reply>, clock: seq<int>, jitter: seq<real>)
    returns (result: Option<RelayResult>, attemptsAdded: nat, successesAdded: nat)
    requires 1 <= n <= |replies| && n <= |clock| && n <= |jitter| + 1
    requires forall k :: 0 <= k < |jitter| ==> -0.2 <= jitter[k] <= 0.2
    ensures result == EventOutcome(PreflightVerdict(target, policy, resolution), clientReady, replies, clock, n)
    ensures attemptsAdded == if PreflightVerdict(target, policy, resolution) == Pass && clientReady
                             then AttemptsMade(replies, n) else 0
    ensures successesAdded == if result.Some? && result.value.success then 1 else 0
    ensures result.Some? && !result.value.attempted ==>
      attemptsAdded == 0 && PreflightMeans(Skip(result.value), target, policy, resolution)
    ensures attemptsAdded == 0 && result.None? ==> PreflightMeans(Raise, target, policy, resolution) || !clientReady
    ensures attemptsAdded > 0 ==> clientReady && PreflightMeans(Pass, target, policy, resolution)
    ensures attemptsAdded > 0 ==> ReportsTrace(result, replies, clock, attemptsAdded)
  {
    var verdict := Preflight(target, policy, resolution);
    PreflightSkips(target, policy, resolution);
    match verdict {
      case Skip(skipped) => return Some(skipped), 0, 0;
      case Raise => return None, 0, 0;
      case Pass =>
    }
    if !clientReady { return None, 0, 0; }
    var sleeps;
    result, sleeps, attemptsAdded, successesAdded := RelayAttempts(n, replies, clock, jitter);
  }

  lemma PreflightSkips(target: Target, policy: Policy, resolution: Resolution)
    ensures var v := PreflightVerdict(target, policy, resolution);
      v.Skip? ==> IsSkipped(v.result)
  {
    if StaticVerdict(target, policy).Pass? && resolution.Addresses? {
      AddressVerdictCases(resolution.ips);
    }
  }

  /** What every returned outcome satisfies, whichever way it was reached. */
  predicate Consistent(r: RelayResult, n: nat) {
    if !r.attempted then
      !r.success && r.attempts == 0 && r.statusCode.None? && r.lastAttemptAt.None?
      && (IsRefusal(r.reason) || r.reason == Some(QueueFull))
    else if r.success then
      && 1 <= r.attempts <= n && r.reason == Some(Success) && r.lastError.None? && r.lastAttemptAt.Some?
      && r.statusCode.Some? && 200 <= r.statusCode.value < 300
    else
      && r.attempts == n && r.lastError.Some? && r.lastAttemptAt.Some?
      && r.reason in [Some(Non2xx), Some(Timeout), Some(ConnectionError), Some(HttpError)]
      && (r.statusCode.Some? ==> !(200 <= r.statusCode.value < 300))
      && (r.reason == Some(Non2xx) ==> r.statusCode.Some? && r.lastError == Some(BadStatus(r.statusCode.value)))
  }

  lemma ConcludeConsistent(replies: seq<Reply>, stamps: seq<int>, n: nat)
    requires 1 <= |replies| == |stamps| <= n && NoneStops(replies, |replies| - 1)
    requires Is2xx(replies[|replies| - 1]) || (|replies| == n && !replies[n - 1].Unexpected?)
    ensures Consistent(Conclude(replies, stamps), n)
    ensures Conclude(replies, stamps).attempted && Conclude(replies, stamps).attempts == |replies|
  {
    LastStatusIsLatest(replies);
  }

  lemma OutcomesConsistent(target: Target, policy: Policy, resolution: Resolution, clientReady: bool,
                           replies: seq<Reply>, clock: seq<int>, n: nat)
    requires 1 <= n <= |replies| && n <= |clock|
    ensures var out := EventOutcome(PreflightVerdict(target, policy, resolution), clientReady, replies, clock, n);
      out.Some? ==> Consistent(out.value, n)
  {
    PreflightSkips(target, policy, resolution);
    var k := AttemptsMade(replies, n);
    if !replies[k - 1].Unexpected? {
      ConcludeConsistent(replies[..k], clock[..k], n);
    }
  }
}
