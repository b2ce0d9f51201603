# Webhook relay service: a verified model

The service accepts webhooks, stores each one as an event row, relays it to a
configured target in the background, lists stored events page by page, and
deletes old ones. This project models that behaviour in Dafny and proves what it
promises: over every interleaving of intake requests, relay workers, the cleanup
process, shutdowns and restarts, for every sequence of replies the target can
give, and for every table a paginated walk can meet.

`dafny verify dfyconfig.toml` checks the whole project.

## How the model is built

The modules follow the program.

- **Events** is the table: the relay columns, their mapping from and to outcomes,
  and the statements run against the table (insert with its two constraints, update
  by id, delete by age).
- **Relay** is `app/services/relay.py` for one event: preflight, the retry loop with
  its jittered backoff, and the outcome. The loops are methods over a trace: what
  each attempt meets, when it starts, and the random factor of each sleep are
  parameters. The number of attempts is any n of at least 1; the service uses 4.
- **Protocol** is the service as a state machine. An action is what runs between two
  points where something else may run: the await points of the event loop, and the
  gaps between two database transactions, where the cleanup process may come in. So
  probe, insert, re-read, enqueue and fallback of one request interleave with those
  of others, with each step of each worker, with cleanups, and with the dispatcher
  and the HTTP client starting and stopping. No assumption is made about clocks:
  every timestamp and cutoff is arbitrary. Requests, finished jobs and removed rows
  are kept as history, which nothing reads but the properties.
- **Tally**, **Books**, **Invariants** prove the one invariant that ties table rows,
  queue, running jobs, lost jobs and counters together. **Lifecycle**, **Dispatch**,
  **Replay** and **Drain** are the results about whole runs.
- **ServiceProcess** has the service in its own form: the module globals and the table
  as fields of a class that the operations reassign. **IntakeRun**, **WorkerRun**,
  **Runs** and **Backlog** (jobs run one after another) show that each operation, run
  without interruption, is a run of the protocol, so that everything proved of reachable
  states holds of the object.
- **Listing** is the keyset query over positions (received_at, id); **Pagination** is
  the endpoint and the client that follows its opaque cursors.
- **Base64Url** (section 5 of RFC 4648), **CursorJson** (section 7 of RFC 8259),
  **Calendar** and **IsoTimestamp** (section 5.6 of RFC 3339), and **Cursor** are the
  layers of the cursor, printers and parsers; **CursorText** says what they print,
  character by character, and **CursorSpellings** what else they read.
- **Receiver** is the deliberately failing receiver of the performance harness, its
  threads, and what the retry loop makes of it.

The steps of the state machine and the lines they model:

| step | function | source |
|---|---|---|
| probe of the queue | `Protocol.ApplyProbe` | app/api/routes.py:246-256 |
| insert, constraint, counter | `Protocol.ApplyInsert` | app/api/routes.py:258-275 |
| re-read after a conflict | `Protocol.ApplyReread` | app/api/routes.py:265-273 |
| enqueue | `Protocol.ApplyEnqueue` | app/api/routes.py:278-297, app/services/relay.py:121-129 |
| queue-full fallback | `Protocol.ApplyFallBack` | app/api/routes.py:297-312 |
| a worker takes a job | `Protocol.ApplyDequeue` | app/services/relay.py:86-89 |
| preflight done, first attempt | `Protocol.ApplyPreflighted` | app/services/relay.py:222-248 |
| a reply arrives | `Protocol.ApplyReplied` | app/services/relay.py:249-301 |
| a sleep ends, next attempt | `Protocol.ApplyWake` | app/services/relay.py:239-248 |
| the outcome is written | `Protocol.ApplyPersist` | app/api/routes.py:144-148 |
| a job raises | `Protocol.Release` | app/services/relay.py:92-95 |
| a database error in intake | `Protocol.ApplyDbError` | app/api/routes.py:259-266, app/api/routes.py:300-306, app/db/session.py:65-71 |
| cleanup | `Protocol.ApplyCleanup` | app/services/cleanup.py:15-19 |
| start and stop | `Protocol.ApplyStartDispatcher`, `Protocol.ApplyStopDispatcher` | app/services/relay.py:98-118 |

## What turned out false, and exactly when it holds

- "If the key already exists for the source, this returns the original event response"
  holds of less than it says.
  - The event: of its id and received_at the promise fails in four ways, and no other.
    `Replay.RepeatedKeyReplaysIff`: over every run, a request whose key an event holds when
    it arrives ends with that event's id and received_at if and only if the key is not the
    empty string, no stopped dispatcher refuses the probe, the event is still there at the
    request's insert and at its re-read, and the database raises nothing but the
    constraint violation. The empty key is stored and enforced like any other, but the
    handler tests it for truth (`Replay.EmptyKeyIsNotReplayed` is the run); a cleanup
    between insert and re-read is the other case a caller cannot see
    (`Replay.CleanedKeyIsNotReplayed`). For a request that nothing interrupts the condition
    is one to check beforehand: `IntakeRun.UninterruptedReplayIff`.
  - The whole response: the relay part is read from the row as it then is.
    `Replay.WholeReplayIff`: a replay equals the response of the request that inserted the
    event if and only if the row is scheduled at the re-read exactly when that response
    says so. A response that said "scheduled" is thus repeated until the job is settled,
    and not after (`Replay.SettledReplayDiffers` is the run).
- The preflight verdict would depend on the order in which resolved addresses are visited
  if and only if the addresses are looked at at all (the static checks pass, private
  addresses are not allowed) and one of them is blocked while another has a text that
  `ipaddress` rejects (`Relay.PreflightOrderIndependentIff`). The numeric addresses of a
  resolver all parse, and with none that does not the verdict is the same in every order
  (`Relay.ParsedAddressesIgnoreOrder`); whether an attempt is made never depends on it
  (`Relay.PassIgnoresOrder`).
- A cursor gives back the id it was made from if and only if the id has no high
  surrogate directly before a low one (`Cursor.CursorRoundTrip`, with
  `Cursor.SplitPairDoesNotSurvive` as the concrete case). UUIDs never do.
- "The fallback after a positive probe is never reached" holds of the code as it is,
  where nothing that touches the queue runs between probe and enqueue
  (`Dispatch.ProbeAgreesWithEnqueue`). `Dispatch.FallbackIff` says when it would be
  reached: if and only if the jobs accepted in between, less those started, take all the
  room the probe saw; `Dispatch.ContentionReachesFallback` is such a run. When it is
  reached the row and the answer are the same (`Dispatch.FallbackMatchesPreFullInsert`).

## Model

| member | source | states |
|---|---|---|
| Lifecycle.EachScheduledRowHasOneJob | app/api/routes.py:246-310 | In every reachable state the pending, queued, running, lost and written jobs of an id are at most one; a row is scheduled exactly when its one job is in exactly one of four places (about to be enqueued, queued, running, lost), and a row whose outcome was written is terminal and has no job left |
| Lifecycle.OpensOnce | app/api/routes.py:246-260 | Over any run at most one action opens a job for an id: an id is inserted once |
| Lifecycle.SettlesOnce | app/api/routes.py:137-148 | Over any run at most one action settles the job of an id, by writing its outcome or by the queue-full fallback, and no job is opened for it afterwards |
| Lifecycle.RelayColumnsAreWrittenOnce | app/api/routes.py:128-148 | Over any run the relay columns of a row change at most once, from scheduled to an outcome; no other value ever changes; a removed row never comes back, whatever update arrives for its id |
| Lifecycle.RowsHoldConsistentOutcomes | app/api/routes.py:111-148 | Every row of every reachable state is untouched, scheduled, or holds exactly the columns of a consistent outcome: success with 1 to n attempts and a 2xx status, failure with all n attempts, skipped with none |
| Lifecycle.RowsHoldTheirOwnOutcome | app/api/routes.py:137-148 | In every reachable state the row of each job that was written holds that very job's outcome, and every outcome in the table but queue-full was written by a job of its own event |
| Lifecycle.WrittenRowsReport | app/services/relay.py:239-301 | In every reachable state the row of a written job, column by column, says what the job met: skipped with no attempt and a refusal reason, or attempts, last start time, status of the last response, and reason and error text of the final reply (timeout, connection error, HTTP error, non-2xx), a failed job having used all attempts |
| Lifecycle.SettledRowIsScheduled | app/api/routes.py:144-148 | The update that never reads the row meets a scheduled row or none, in every state that satisfies the invariant |
| Lifecycle.LostJobsAreNeverRetried | app/services/relay.py:92-118 | Once a job has raised, or was dropped or cancelled by a shutdown, no restart brings it back: its row stays scheduled as long as it exists, and nothing is queued, run or written for it |
| Lifecycle.IntakeIsGetOrCreate | app/api/routes.py:258-273 | Intake linearizes: the one action that decides a request's answer changes the table as an atomic get-or-create on (source, non-empty key), and leaves everything else alone when it finds an event |
| Lifecycle.DecisionsStay | app/api/routes.py:258-312 | A request keeps its draft and a decided answer is never revised, except for the two errors after the insert: a dispatcher that went down, a fallback update that raised |
| Lifecycle.SameAnswerWhileHeld | app/api/routes.py:261-273 | However steps interleave, every request decided while an event holds its (source, key) answers with that event's id and received_at |
| Lifecycle.OneEventPerKey | app/db/models.py:24-26 | In every reachable state at most one row holds a given (source, key) |
| Events.ConflictsMeans | app/db/models.py:24-31 | An insert is refused exactly when the id is there or a row has both the same source and the same key, a missing key never |
| Lifecycle.RejectionChangesNothing | app/api/routes.py:258-312 | A request that ends in an error before its row is stored changes nothing; one that does later leaves the row scheduled and its job lost; the re-read fails exactly when no event holds the key any more |
| Replay.RepeatedKeyReplaysIff | app/api/routes.py:246-273 | Over any run, a finished request whose key was held at its arrival ends with that event's id and received_at if and only if the key is not empty and nothing spoils it: dispatcher down at the probe, event gone at insert or re-read, another database error |
| Replay.WholeReplayIff | app/api/routes.py:89-95 | Over any run, the whole response of a replay, relay part included, is that of the request that inserted the event if and only if the row is scheduled at the re-read exactly when that response says scheduled |
| Replay.AnswersFitTheirRows | app/api/routes.py:265-273 | In every reachable state the event a request was answered with has, while it is there, that request's own source and key and the answer's received_at; only a non-empty key is answered with another request's event |
| Replay.SettledReplayDiffers | app/api/routes.py:265-273 | A reachable run in which a replay gives the same event and received_at but another relay part, the job having been settled in between |
| Replay.EmptyKeyIsNotReplayed | app/api/routes.py:261-263 | A reachable run in which the repeat of an empty key ends in an error |
| Replay.CleanedKeyIsNotReplayed | app/api/routes.py:261-272 | A reachable run in which the event is cleaned up between conflict and re-read, and the request ends in an error |
| IntakeRun.UninterruptedReplayIff | app/api/routes.py:246-273 | Without interruption the stored event is replayed if and only if the key is not empty and no stopped dispatcher refuses; otherwise the answer is an error |
| IntakeRun.IntakeInFields | app/api/routes.py:235-312 | Field by field: a new event is stored, with its own source, time and key and a relay part that says scheduled, queue full or nothing, counted and handed over, if and only if no stopped dispatcher refuses it and no row of the same source has the same key; else nothing changes and the row holding the key answers, unless the key is empty |
| Invariants.InvStep | app/services/relay.py:81-136 | Every action of intake, workers, cleanup, start and stop keeps the global invariant |
| Invariants.InvHolds | app/api/routes.py:204-312 | Every state of every run from the first start satisfies the global invariant |
| Books.JobsConserved | app/services/relay.py:86-118 | Every action moves jobs between places and neither creates nor loses one, except that a scheduled insert opens one and a write or fallback settles one |
| Dispatch.BacklogIsBounded | app/services/relay.py:98-106 | In every reachable state at most queue_size jobs are queued, or one if that is less than one; a dispatcher that is up has exactly worker_count workers, or one if that is less than one; and a worker exists only while the HTTP client does |
| Dispatch.ProbeFindsRoomIff | app/services/relay.py:103-136 | There is room if and only if nothing is queued or fewer jobs are than the configured size |
| Dispatch.JobsStartInOrder | app/services/relay.py:121-129 | The jobs started are a prefix of the jobs accepted, in order, and the queue is the rest |
| Dispatch.TaskDoneNeverOverCounts | app/services/relay.py:87-95 | The unfinished count is queued plus running jobs in every reachable state, so `task_done` finds at least one on every success, exception and cancellation path |
| Dispatch.RelayCountersConserved | app/services/relay.py:239-252 | The attempts and successes counters equal what the written outcomes report plus what running, failed and cancelled jobs did |
| Dispatch.ReceivedCounterConserved | app/api/routes.py:275 | The received counter of a source equals its rows present plus its rows cleaned up, two disjoint sets |
| Dispatch.ProbeAgreesWithEnqueue | app/api/routes.py:246-312 | With nothing in between, a positive probe means the job is accepted: the row is scheduled, the job is last in the queue, the answer says scheduled |
| Dispatch.ContentionIsReachable | app/services/relay.py:121-136 | For any two events a run leads to a state with one free slot and both requests before their probe |
| Dispatch.ContentionReachesFallback | app/api/routes.py:297-306 | From every such state an interleaving leads to a request whose job the queue refuses after a positive probe |
| Dispatch.FallbackIff | app/api/routes.py:247-306 | Over any run in which the dispatcher stays up, a job whose probe found room is refused if and only if the jobs accepted in between, less those started, took all that room |
| Dispatch.FallbackMatchesPreFullInsert | app/api/routes.py:297-312 | The fallback's insert and update leave the same row and give the same answer as the single insert of a request that found the queue full |
| Drain.WorkDecreases | app/services/relay.py:86-95 | Every worker step, failing or not, strictly decreases a measure of queue length, attempts and sleeps left |
| Drain.DrainIsBounded | app/services/relay.py:86-95 | Over any run that enqueues no new job, whatever arrives, fails or is cleaned up in between, the worker steps are at most the measure, no worker is lost, and each accepted job is still accepted, written, or recorded as failed |
| Drain.QuietMeansDone | app/services/relay.py:86-95 | Workers are stuck exactly when the queue is empty and all are idle; otherwise a step that is not a failure is possible |
| Drain.DrainCompletes | app/services/relay.py:81-95 | When the workers of such a run can go no further the queue is empty, all workers are there and idle, and every accepted job has written its outcome or raised |
| Drain.DrainExists | app/services/relay.py:86-95 | From every state a run of worker steps without a failure completes within the measure, and ends with every accepted job written |
| Relay.AttemptsMadeIs | app/services/relay.py:239-287 | The number of attempts is the position of the first reply that stops the loop, or the number allowed |
| Relay.SuccessIffTimely2xx | app/services/relay.py:251-264 | The relay succeeds if and only if a 2xx comes within the attempts allowed with no unexpected exception before it; `attempts` is its position and the outcome carries its status and start time |
| Relay.FailureReportsFinalAttempt | app/services/relay.py:265-301 | The relay reports a failure if and only if no reply stops it; it then used every attempt, reason and error are those of the last one, the status is that of the last response ever received |
| Relay.OutcomeReportsTrace | app/services/relay.py:239-301 | The outcome in terms of the trace alone: attempts, time, success, status; a final timeout gives reason timeout and its message or "timeout", a connection error its message or "connection error", another HTTP error its message, a response "non-2xx" and its code |
| Relay.LastStatusIsLatest | app/services/relay.py:250 | The status kept is that of the most recent response, which may be older than the attempt that gave the reason; none if there never was a response |
| Relay.RelayAttempts | app/services/relay.py:230-301 | The imperative loop refines the trace specification: the outcome reports the trace field by field, and attempts, successes and every sleep are counted as taken |
| Relay.NominalDelayValues | app/services/relay.py:289 | Delays before jitter are 0.2, 0.4, 0.8, then 1.6 for ever |
| Relay.NominalDelayMonotone | app/services/relay.py:289 | Delays before jitter never decrease and stay within 0.2 and 1.6 |
| Relay.NominalTotalClosedForm | app/services/relay.py:287-291 | They sum to 0.2(2^m - 1) for m up to 4 and to 3.0 + 1.6(m - 4) from there |
| Relay.SleepBounds | app/services/relay.py:289-291 | Each sleep is within 20 percent of its nominal delay |
| Relay.TotalSleepBounds | app/services/relay.py:287-291 | All sleeps together are within 20 percent of the nominal total; with four attempts between 1.12 and 1.68 seconds |
| Relay.Jittered | app/services/relay.py:290-291 | The floor of 0.01 seconds never binds: the sleep is the delay plus jitter times the delay |
| Relay.Preflight | app/services/relay.py:183-203 | Preflight passes if and only if the scheme is http or https, the host is not empty, the allow list is empty or holds it, and it resolves to addresses that are unscreened or all public; each refusal reason names the first check that failed, and an address that does not parse or a resolver that raises lets the exception out |
| Relay.AddressVerdictCases | app/services/relay.py:195-203 | The addresses pass exactly when none is blocked and none malformed |
| Relay.PassIgnoresOrder | app/services/relay.py:195-203 | Whether an attempt is made is the same for every permutation of the resolved addresses |
| Relay.PreflightOrderIndependentIff | app/services/relay.py:173-203 | The whole preflight verdict is the same for all permutations of the resolved addresses, unless the static checks pass, private addresses are not allowed, and blocked and malformed ones are mixed; then it is not |
| Relay.ParsedAddressesIgnoreOrder | app/services/relay.py:173-203 | When every address parses the whole preflight verdict is the same for all permutations |
| Relay.RelayEvent | app/services/relay.py:206-301 | Preflight then loop: no attempt unless preflight passes and the client is there; a skipped outcome names the failed check, an attempted one reports the trace |
| Relay.OutcomesConsistent | app/services/relay.py:227-301 | Every returned outcome: success means 1 to n attempts and a 2xx status; failure means all n attempts, an error and no 2xx status; skipped means no attempt, no status, no time |
| Events.UpdateValuesConsistent | app/api/routes.py:111-125 | Persisting such an outcome gives terminal columns whose status agrees with flags, attempts, status code and time |
| Events.PersistedOutcomeReadsBack | app/api/routes.py:60-72 | What is persisted for an outcome reads back as that outcome |
| Events.QueueFullColumnsAgree | app/api/routes.py:151-161 | The update for a full queue writes the columns that the single insert would have had |
| IntakeRun.StepsRunIntake | app/api/routes.py:204-312 | Probe, insert, and re-read or enqueue, taken without interruption, end where the request's whole effect says, in every case of key, conflict, queue and dispatcher |
| WorkerRun.StepsFollowLoop | app/services/relay.py:239-301 | From any attempt on, the worker's steps in the protocol end as the retry loop does |
| WorkerRun.StepsRunJob | app/services/relay.py:86-95 | Taking a job, relaying and writing, taken without interruption, are a run of the protocol that ends in the job's whole effect |
| ServiceProcess.Service.constructor | app/services/relay.py:36-38 | A process starts with no client, no dispatcher, no rows |
| ServiceProcess.Service.Startup | app/main.py:50-54 | Client, then dispatcher, each only if it is not there yet, with worker_count workers or one; a reached state of the protocol |
| ServiceProcess.Service.Shutdown | app/main.py:59-60 | Dispatcher, then client: queued jobs are dropped, the table is untouched |
| ServiceProcess.Service.CleanupOldEvents | app/services/cleanup.py:13-19 | A row is kept if and only if it is not before the instant with now's time of day on the date that many days earlier; the number of rows deleted is returned; with no such date in the calendar nothing is deleted and an error results |
| ServiceProcess.CutoffIsDaysEarlier | app/services/cleanup.py:15 | Taking off whole days is going back so many dates with the same clock reading, and leaves years 1 to 9999 together with it |
| ServiceProcess.StartOfWindow | app/services/cleanup.py:15 | The cutoff is the same time of day so many dates before now; there is none, the subtraction overflows, exactly when that date is not in the calendar |
| ServiceProcess.Service.DeleteBefore | app/services/cleanup.py:16-19 | The delete statement: the table keeps exactly the rows received at or after the cutoff, as they were, and the row count is the difference |
| ServiceProcess.Service.FindByKey | app/api/routes.py:265-270 | The query finds the one row with both this source and this key, or says that there is none |
| ServiceProcess.Service.AnswerConflict | app/api/routes.py:261-273 | A constraint violation is answered from the row of the same source and key, field by field, or with an error when the key is empty or missing or no such row is there |
| ServiceProcess.Service.HandOver | app/api/routes.py:297-306 | The job goes to the back of the queue when it is empty or shorter than queue_size; otherwise the row is marked as skipped and queue and count stay |
| ServiceProcess.Service.CreateEvent | app/api/routes.py:204-312 | The whole new state and the answer of intake; a fresh id is stored exactly when no row of the same source has the same key and no stopped dispatcher refuses; the answer is about a row of the request's own source and key |
| ServiceProcess.Service.RunNextJob | app/services/relay.py:86-95 | The whole new state after one job: queue, counters, row, and unfinished count |
| Backlog.JobInFields | app/services/relay.py:81-96 | A job run to its end, field by field: what preflight and the attempts came to, up to the first that stops them, is what the columns of its own row say; nothing is written when the relay raises or the write fails |
| ServiceProcess.Service.RunJobs | app/services/relay.py:86-95 | The worker loop: jobs one after the other, in queue order |
| Backlog.QueueIsDistinct | app/api/routes.py:278-297 | Queued jobs are of different events, each still scheduled if still there |
| Backlog.BacklogSettles | app/api/routes.py:137-148 | After a backlog is worked off every event that had a job holds the outcome of its own job, and every other row is as it was |
| Listing.PageIsNextStretch | app/api/routes.py:325-345 | A page is the next stretch of the one sorted listing, its cursor leads to the rest, and there is a cursor if and only if a further matching row exists |
| Listing.DescendingUnique | app/api/routes.py:335 | The order by (received_at, id) leaves one listing for a set of rows |
| Text.LessMeans | app/api/routes.py:328-335 | The order of ids: the smaller one has the smaller code point where they first differ, or ends there |
| Listing.WalkDescends | app/api/routes.py:322-347 | Whatever the table does between pages, the pages together are strictly descending and so repeat nothing |
| Listing.WalkMissesNothing | app/api/routes.py:322-347 | A row that matches throughout has come, or is still ahead of the cursor; once the walk is finished, it has come |
| Listing.FixedWalkConserves | app/api/routes.py:334-345 | On a fixed table pages so far plus rows still ahead are the listing, and every page but the last brings at least one row |
| Listing.FixedWalkIsListing | app/api/routes.py:334-345 | A finished walk over a fixed table is exactly the listing, in at most one request more than there are rows |
| Listing.CleanupTruncates | app/services/cleanup.py:15-19 | A cleanup cuts a suffix off the listing that follows any cursor |
| Listing.CleanupRemovesSuffix | app/services/cleanup.py:15-19 | It cuts a suffix off the listing of every source, and the number it returns is the length of the suffix of the whole listing |
| Listing.CleanupsCompose | app/services/cleanup.py:15-19 | Cleanups at two cutoffs, the later last, are one cleanup at the later, and their counts add up |
| Listing.CleanupDuringWalk | app/api/routes.py:322-335 | A walk interrupted by a cleanup goes on as the same walk over what is left: together a prefix of the old listing with every row kept |
| Pagination.CursorsAreAccepted | app/api/routes.py:325-347 | A client that follows `next_cursor` never gets the 400 answer, whatever happens to the table in between |
| Pagination.ClientWalkIsWalk | app/api/routes.py:315-347 | A client that follows the opaque `next_cursor` strings makes a walk over positions, and stops exactly when that one is finished |
| Pagination.ListedEventsAreRows | app/api/routes.py:75-86 | Every event a walk lists is a row, selected by the source, of the table that its request met, with that row's own source, key and relay result |
| Pagination.WalkOverFixedTable | app/api/routes.py:315-347 | On a fixed table it receives exactly the source's rows, latest first and each with its own values, whatever the limits, in at most one request more than there are rows |
| Pagination.PositionsAreStable | app/api/routes.py:128-148 | Relay updates never move a row in the listing |
| Pagination.WalkUnderInterference | app/api/routes.py:322-347 | While the service runs on, inserting, relaying and cleaning up between pages, a walk lists its events strictly descending, none twice, each as a selected row of the table its request met, and when finished has listed every selected event that was there throughout |
| Pagination.WalkInFields | app/api/routes.py:322-347 | The same in fields: every listed event has the source asked for (any, with no or an empty parameter) and its row's own source, time, key and relay result; received_at falls, and at equal times the id; a finished walk has listed every id that was there with that source throughout |
| Pagination.FixedWalkInFields | app/api/routes.py:322-347 | On a fixed table a finished walk lists the rows of the source asked for, all of them and no other, with their own values |
| Pagination.CursorParameterMeans | app/api/routes.py:325-326 | A missing or empty cursor gives the first page, any other text what follows the position it decodes to, and the 400 answer exactly when it does not decode |
| Pagination.PageSize | app/api/routes.py:335-345 | A page holds at most `limit` events, and exactly so many when there is a next cursor |
| Cursor.CursorRoundTrip | app/api/routes.py:164-186 | Decoding an encoded (received_at, id) gives the same instant to the microsecond for every instant and id, and the same id if and only if no split surrogate pair is in it |
| Cursor.AnyReadingDecodes | app/api/routes.py:176-186 | A cursor with any clock reading, with or without offset, decodes to its UTC instant, or is refused when that leaves years 1 to 9999 |
| Cursor.OffsetsSelectSamePage | app/api/routes.py:177-182 | Cursors that name one instant in different offsets, or without one in UTC, name the same position |
| Cursor.SplitPairDoesNotSurvive | app/api/routes.py:164-186 | A concrete id that does not survive |
| Cursor.DecodeCursor | app/api/routes.py:170-186 | Every string is refused or gives an instant of the representable years |
| CursorText.CursorBytes | app/api/routes.py:164-167 | A cursor for a plain id is the encoding of {"ts": "<time>", "id": "<id>"}, byte for byte |
| CursorText.UtcText | app/api/routes.py:166 | The time is the date, a T, the time of day, and +00:00 |
| CursorText.DateText | app/api/routes.py:166 | The date is YYYY-MM-DD, digit by digit |
| CursorText.ClockText | app/api/routes.py:166 | The time of day is HH:MM:SS, digit by digit, and a fraction |
| CursorText.FractionText | app/api/routes.py:166 | The fraction is a point and six digits, and nothing for zero microseconds |
| CursorText.KnownDates | app/api/routes.py:166 | The calendar counts from 1 January of year 1, has its epochs where they are, and leaps in 2000 and 2024 and not in 1900 and 2023 |
| CursorText.OffsetIsMinutes | app/api/routes.py:179-182 | An offset of m minutes moves the instant by m times sixty million microseconds |
| CursorText.Alphabet | app/api/routes.py:167 | The 64 characters of the URL-safe alphabet |
| CursorText.KnownEncodings | app/api/routes.py:167 | Test vectors of RFC 4648 with each padding, and its minus and underscore |
| CursorText.ShortEscapes | app/api/routes.py:167 | The two-character escapes |
| CursorText.LongEscapes | app/api/routes.py:167 | Six-character escapes outside printable ASCII |
| CursorText.PairEscape | app/api/routes.py:167 | A character beyond the basic plane is printed as a surrogate pair |
| CursorSpellings.Utf8RoundTrip | app/api/routes.py:178 | Text without surrogates survives UTF-8, in each length of one to four bytes |
| CursorSpellings.Utf8IsStrict | app/api/routes.py:178 | Bytes are read only if they are the encoding of what is read: no overlong forms, no surrogates |
| CursorSpellings.AlphabetRead | app/api/routes.py:177 | Plus and slash are read as minus and underscore, and nothing else outside the alphabet is |
| CursorSpellings.JunkInCursor | app/api/routes.py:177 | An ASCII character outside the alphabet and the padding, put anywhere into any cursor, does not change what it decodes to |
| CursorSpellings.UnescapedReads | app/api/routes.py:178 | A string of characters that need no escape reads as itself |
| CursorSpellings.SpaceIsSkipped | app/api/routes.py:178 | Exactly the leading run of the four white space characters is skipped |
| CursorSpellings.LastMemberCounts | app/api/routes.py:178-182 | The last of several members of one name counts, and a name is missed exactly when no member has it |
| CursorSpellings.UtcSpellings | app/api/routes.py:179-181 | With any separator, and Z, +00:00 or nothing at its end, the text of a UTC reading is read as its instant |
| Base64Url.Base64RoundTrip | app/api/routes.py:167-177 | Every byte sequence survives URL-safe base64, in each padding case |
| CursorJson.QuotedReads | app/api/routes.py:167-178 | Every string printed with ASCII escapes reads back with its surrogate pairs joined, up to its closing quote |
| CursorJson.JoinedIsSameIff | app/api/routes.py:167-178 | Joining changes a string exactly when it has a split surrogate pair |
| CursorJson.CursorObjectReads | app/api/routes.py:166-178 | The printed object reads back with its two members |
| Calendar.DateRoundTrip | app/api/routes.py:166 | Counting the days of a date and naming the day again gives the date, for years 1 to 9999 |
| Calendar.OrdinalInjective | app/api/routes.py:166 | Different dates are different days |
| Calendar.DatesFollow | app/api/routes.py:179 | The count of days goes up by one from each date to the next, through every end of a month, with its rule for leap years, and of a year |
| IsoTimestamp.TimestampRoundTrip | app/api/routes.py:166-179 | Every reading, with any offset or none, with zero microseconds dropped, survives printing and reading |
| IsoTimestamp.AsUtcIdempotent | app/api/routes.py:50-57 | Normalising to UTC twice is normalising once |
| IsoTimestamp.OffsetsAgree | app/api/routes.py:179-182 | Whatever offset an instant is written with, across rollovers of day, month and year, it is read as that instant; without one it is read as UTC |
| Receiver.CountsAreExact | perf/receivers/receiver_server.py:29-33 | Under any interleaving of handler threads the totals never run ahead of the numbers issued, and once all have recorded they are exact: in flaky mode every multiple of FAIL_EVERY failed and nothing else |
| Receiver.Server.constructor | perf/receivers/receiver_server.py:11-15 | FAIL_EVERY is at least 1 and the counters start at zero |
| Receiver.Server.Next | perf/receivers/receiver_server.py:64 | The shared counter hands out the next number |
| Receiver.Server.RecordOutcome | perf/receivers/receiver_server.py:29-33 | Recording counts the request, and the failure if it was one |
| Receiver.Server.DoPost | perf/receivers/receiver_server.py:57-92 | The answer and the new counters for every request, counted or refused |
| Receiver.JobAttempts | perf/receivers/receiver_server.py:69-92 | With FAIL_EVERY of at least 2 a relayed job succeeds at its first attempt, or at its second when the first meets a multiple |
| Receiver.EveryJobSucceedsIff | perf/receivers/receiver_server.py:69-92 | Every job succeeds within two attempts if and only if FAIL_EVERY is at least 2 |
| Receiver.RequestsForJobs | perf/receivers/receiver_server.py:57-91 | After m jobs the receiver has seen T requests with T - T / FAIL_EVERY = m |

## Left out

- Routing, middleware, request and response schemas, logging, health probes, latency histograms, configuration parsing, migrations: no property beyond plumbing.
- Signature, body-size, JSON and source checks of intake, and the admin token: a request they refuse changes nothing and never becomes a request of the model.
- Payload, headers and request id: opaque to every property, so the rows do not carry them; single-event lookup is a plain table lookup.
- DNS, sockets, the HTTP library and the address tables: what they answer is a parameter (`Relay.Resolution`, `Relay.Address`, `Relay.Reply`).
- SQLAlchemy and SQLite internals: a transaction is one atomic step, and column lengths are not limited.
- asyncio internals: the queue is a bounded sequence; a shutdown, with the cancellation of its workers, is one action, and it is not taken between the end of a relay and its write, where the code has no await.
- Cleanup between the commit of an insert and the increment of the received counter: both are one action, so `Dispatch.ReceivedCounterConserved` does not speak of the moment in between.
- A target URL that cannot be parsed at all: its exception is one of those that may end a job at any point.
- Event ids: an id that was used and removed is not generated again; ids that collide with a present row are modelled as the constraint violation they cause.
- Rounding of floating point numbers in the backoff: delays are real numbers.
- Texts of `last_error`: an exception's message, "non-2xx response: <code>", and the queue-full text are three constructors, not strings.
- Cursor.DecodeCursor: reads cursors whose JSON members are all strings; the code also accepts other JSON values, turning the id into text, and ignores further members of any type.
- Cursor.DecodeCursor: reads timestamps in the format of section 5.6 of RFC 3339 with six fraction digits or none, any one separator character, and hour and minute offsets; the other ISO 8601 spellings that `fromisoformat` accepts are refused in the model.
- Pagination.WalkUnderInterference: takes rows whose timestamps lie in years 1 to 9999 and whose ids hold no split surrogate pair, the ones a cursor can name.
- Receiver: bodies, the slow mode's delay, and the two GET endpoints; the retry loop is composed with it when no one else sends requests.
- ServiceProcess.Service: each operation runs to its end before the next starts, and intake meets no database error but the constraint violation; interruptions and such errors are the subject of Protocol, whose runs the operations are shown to be.
