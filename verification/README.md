# Verification of the ducklake-cdc Python client

A Dafny 4.11 model of the client's durable consumers: what reaches a sink, how the durable cursor moves, and
what stays true when listens, sink writes, commits, processes and retries fail. Check it with
`dafny verify dfyconfig.toml`.

## What is modelled

| file | part of the client |
|---|---|
| `Feed.dfy` | the change feed and its windows |
| `Batches.dfy`, `Decimal.dfy` | the four batch builders and the batch id |
| `Runs.dfy` | runs of a protocol, shared by the two protocols below |
| `Transactions.dfy` | `batch.transaction()`: sink rows and cursor in one database transaction |
| `Delivery.dfy`, `Runner.dfy`, `RunTrace.dfy` | `consumer.run()`: deliver to every sink, then commit; and what it does poll by poll |
| `Loop.dfy`, `Window.dfy` | the polling loop of `batches()`, its timers and the adaptive snapshot window |
| `Retry.dfy`, `Lease.dfy`, `Setup.dfy` | retry, the lease policy and consumer creation on entry |
| `Resources.dfy` | sinks and connections over `__enter__` and `__exit__` |
| `App.dfy` | `CDCApp` and its workers |
| `Sql.dfy` | the SQL text of a table-function call, and a parser that undoes it |
| `Successor.dfy` | hand-over at a schema boundary |

The objects whose methods change fields (`BatchTransaction`, `_AdaptiveSnapshotWindow`, the consumer, the
`batches()` generator, `CDCApp`, `_Worker`) are classes, and loops are loops. Each method is tied to a
specification function of its inputs and the old state, and the theorems are about those functions. Whatever
the client does not control (what a statement answers, how far a listen's window reaches, when an event is
set, what the clock shows) is an argument, and every theorem quantifies over it.

## Assumptions about the extension and the database

- A feed value is the whole history of a run, and the head says how much of it exists; appending is the head
  growing. `Feed.AppendInvisible` shows that rows above the head cannot change a read.
- A cursor-driven listen at cursor c returns exactly the feed rows with c < snapshot <= e, in feed order, for
  some e between the cursor and the head. Each row's bounds are c + 1 and e, or missing, independently.
- `cdc_commit(s)` sets the cursor to s, inside the open transaction if there is one. COMMIT is atomic, a crash
  discards the open transaction, and only COMMIT and ROLLBACK can end one. Any statement may raise before or
  after it took effect.
- No other process moves this consumer's cursor. The client only inspects leases, so mutual exclusion between
  consumers is not a claim of this project.
- A consumer created with an integer start s has every snapshot below s behind its cursor.
- A sink's write that raises may have stored any rows of its batch, in any order and any number of times; one
  that returns has stored all of them, in order. `Delivery.OrderedReplayIsContiguous` alone asks more: there a
  write that raises has stored a first part of the batch.
- For draining: a poll takes at least a millisecond. The `Served` results also assume that the producer has
  stopped, so that a listen comes back empty only when no row is left.
- A successor's predecessor is served no window that reaches the boundary (`Successor.CappedAt`).
- One monotone clock, in milliseconds; other statements' time is explicit where it matters (`App`).

## Where the code and its documentation differ

The model follows the code.

- The stop event is not looked at after a listen that returned rows, although the `batches()` docstring says
  so: `Loop.InFlightBatchIsYielded` says exactly when one more batch comes out.
- `ConsumerHealth.delivered_batches` is said to update after each commit. It changes only when `run()` returns
  normally, and stays 0 for good when `run()` raises, whatever was committed: `App.ReportIsCurrentExactlyWhen`
  has the exact condition, `App.LiveWorkerReportsNothing` and `App.RaisedWorkerNeverReports` the inputs.
- Entering a consumer again does not recreate its connection, although `retry.py:24-26` says so of the
  high-level consumers: it reuses the client of the first enter, on a connection that the exit has closed.
  `Resources.EntersClosedExactlyWhen` has the exact condition, `Resources.ReenteredConsumerIsClosed` the input.
- A drain is meant to let the cursor catch up. It gives up on an empty listen after the idle timeout even when
  rows are left: `Loop.DrainIsComplete` has the exact condition, `Loop.PausedProducerStarvesDrain` the input.
- "Exactly once" is per listen, not per batch object: a second `transaction()` on a batch whose COMMIT took
  effect, its reply lost, writes the rows twice. `Transactions.SecondTransaction` says exactly when; the
  protocol behind `Transactions.ExactlyOnce` opens one transaction per listen.
- A ROLLBACK of the exit that is interrupted by something that is not an Exception, a KeyboardInterrupt say,
  takes the place of the exception that was being raised: `Transactions.ExceptionalExit` and
  `Transactions.NormalExit` have the exact conditions.
- A shutdown leaves, and so closes, a consumer whose thread outlives the timeout while the thread is still
  running: `App.LeftWhileRunning`.
- On a failed open, sinks that had opened are closed twice and sinks that never opened are closed once:
  `Resources.ClosesOnFailedOpen`.
- `on_exists="error"` does not survive a retried create: `Setup.ErrorSucceedsExactlyWhen`.
- A larger snapshot window does not always stay larger: `Window.OrderKeptExactlyWhen`.
- A consumer that fails to open leaves the consumers before it entered: `App.FailedEnterLeavesEntered`.

## Model

| member | source | states |
|---|---|---|
| Feed.BetweenIsSlice | src/ducklake_cdc_client/consumers/base.py:450-452 | the rows of a listen's window are one contiguous slice of the snapshot-ordered feed |
| Feed.BetweenSplits | src/ducklake_cdc_client/consumers/base.py:450-452 | windows that meet at a cursor join with no gap and no overlap |
| Feed.AppendInvisible | src/ducklake_cdc_client/consumers/base.py:450-452 | rows the producer appends above a window's end never change what the window returns |
| Feed.SameChangeExactlyWhen | src/ducklake_cdc_client/types.py:146-149 | two changes have the same identity exactly when snapshot, table, row and kind agree |
| Feed.SameSchemaChangeExactlyWhen | src/ducklake_cdc_client/types.py:185-186 | two schema changes have the same identity exactly when snapshot, object kind, object id and event kind agree |
| Batches.MinStart | src/ducklake_cdc_client/consumers/dml.py:223-226 | the start bound is the least of the rows' stamps, a row without one counting with its snapshot; a row attains it |
| Batches.MaxEnd | src/ducklake_cdc_client/consumers/dml.py:227-230 | the end bound is the greatest of the rows' stamps, a row without one counting with its snapshot; a row attains it |
| Batches.SnapshotIds | src/ducklake_cdc_client/consumers/dml.py:231 | the ids are strictly increasing and are exactly the rows' snapshots |
| Batches.Reply | src/ducklake_cdc_client/client/client.py:421-448 | a listen's reply in which any mix of rows is stamped is a reply the assumption allows |
| Batches.CommitBoundary | src/ducklake_cdc_client/consumers/dml.py:222-255 | for any mix of stamped and unstamped rows of one window the bounds lie inside the window and contain every row, and the batch is all of the feed between the cursor and its end bound |
| Batches.ReplyBounds | src/ducklake_cdc_client/consumers/dml.py:222-255 | from the listen alone: one stamped row makes a bound the window's own, without any it is the first or last row's snapshot; the batch carries the consumer's name, and its id encodes name and bounds |
| Batches.ListenServes | src/ducklake_cdc_client/consumers/base.py:450-482 | nothing of a listen's window is left behind the batch made of it |
| Batches.BoundsIgnoreRowOrder | src/ducklake_cdc_client/consumers/ddl.py:131-197 | bounds, ids and batch id do not depend on the order in which the rows arrived |
| Batches.BatchIdRoundTrip | src/ducklake_cdc_client/types.py:303-305 | a batch id decodes to its consumer name, start and end, for names with slashes, dashes and digits and for negative bounds |
| Batches.BatchIdInjective | src/ducklake_cdc_client/types.py:279-281 | batch ids are equal exactly when (consumer, start, end) are |
| Batches.BatchIdExample | src/ducklake_cdc_client/types.py:303-305 | the text of an id |
| Decimal.ReadIntOfText | src/ducklake_cdc_client/client/sql.py:38-39 | a rendered integer is read back exactly, whatever non-digit follows it |
| Sql.TableFunctionSql | src/ducklake_cdc_client/client/sql.py:11-21 | the loop over the named arguments builds the specified text and drops exactly the None values |
| Sql.ReadQuotedOfDoubled | src/ducklake_cdc_client/client/sql.py:47-52 | doubled quotes are undone exactly, for literals and identifiers with any characters |
| Sql.ValueRoundTrip | src/ducklake_cdc_client/client/sql.py:33-44 | every rendered value parses back to itself, nested lists included, and leaves what follows it untouched |
| Sql.CallRoundTrip | src/ducklake_cdc_client/client/sql.py:11-21 | parsing a rendered call gives back all positional values and the non-None named pairs, in order |
| Sql.CallInjective | src/ducklake_cdc_client/client/sql.py:11-21 | two calls of a function have the same text exactly when they carry the same arguments, up to dropped Nones |
| Sql.CommitTextIsFaithful | src/ducklake_cdc_client/consumers/base.py:636-638 | the cursor-advancing statement determines its catalog, consumer name and snapshot |
| Window.Observe | src/ducklake_cdc_client/consumers/base.py:51-77 | the window stays between 1 and the ceiling |
| Window.WindowMovesExactlyWhen | src/ducklake_cdc_client/consumers/base.py:55-77 | the window halves exactly on an empty, slow (150 ms) or large (8192 rows) listen, grows exactly on a fast (75 ms), light (1024 rows) one that spans it, and by how much |
| Window.FirstWindow | src/ducklake_cdc_client/consumers/base.py:51-53 | the first window is 8 or max_snapshots if that is less, and at least 1 |
| Window.AdaptiveSnapshotWindow.ObserveEmpty | src/ducklake_cdc_client/consumers/base.py:55-56 | an empty listen moves the window as the specification says |
| Window.AdaptiveSnapshotWindow.ObserveBatch | src/ducklake_cdc_client/consumers/base.py:58-77 | a batch moves the window as the specification says |
| Window.GrowthIsAmortised | src/ducklake_cdc_client/consumers/base.py:50-77 | over any history, enlargements plus the doublings still missing are at most the doublings missing at the start plus two per reduction |
| Window.GrowthFromStart | src/ducklake_cdc_client/consumers/base.py:51-53 | the same bound from the initial window, for any max_snapshots |
| Window.AmortisedBoundIsTight | src/ducklake_cdc_client/consumers/base.py:50-77 | two enlargements per reduction are reached, for every number of reductions |
| Window.QuietClosedForm | src/ducklake_cdc_client/consumers/base.py:55-70 | k empty or slow listens from x leave max(1, x / 2^k) |
| Window.BusyClosedForm | src/ducklake_cdc_client/consumers/base.py:72-77 | k light listens that fill the ceiling leave min(ceiling, x * 2^k) |
| Window.FloorReached | src/ducklake_cdc_client/consumers/base.py:55-70 | from any window k quiet listens reach 1 once 2^k covers the ceiling |
| Window.CeilingReached | src/ducklake_cdc_client/consumers/base.py:72-77 | from any window k light, full listens reach the ceiling once 2^k covers it |
| Window.OrderKeptExactlyWhen | src/ducklake_cdc_client/consumers/base.py:72-77 | one observation keeps two windows in order exactly unless it fills only the smaller one and doubling overshoots the larger |
| Retry.IsTransientError | src/ducklake_cdc_client/retry.py:60-78 | the walk along the causes finds a transient message exactly when some exception on the chain has one |
| Retry.PhraseIsTransient | src/ducklake_cdc_client/retry.py:67-76 | a message that has one of the two phrases in it, in any case of letters, is transient |
| Retry.TransientHasPhrase | src/ducklake_cdc_client/retry.py:67-76 | and no other message is |
| Retry.TransientAnywhere | src/ducklake_cdc_client/retry.py:66-77 | an error is transient exactly when one anywhere on its chain of causes is |
| Retry.RetryOnTransient | src/ducklake_cdc_client/retry.py:81-110 | the loop's result, calls and sleeps; a non-positive limit is rejected without a call |
| Retry.RetryIsFirstDecisive | src/ducklake_cdc_client/retry.py:96-110 | the result is the first value or non-transient error among the first max_attempts tries, otherwise the last transient error, with the exact number of calls |
| Retry.DefaultGivesUpAfterFive | src/ducklake_cdc_client/retry.py:57-110 | by default a call that fails transiently every time is made five times, and its last error raised |
| Retry.RetryIdempotent | src/ducklake_cdc_client/consumers/base.py:655-661 | retrying an idempotent effect leaves one application on success, and one or none on failure, wherever the failures struck |
| Transactions.BatchTransaction.Enter | src/ducklake_cdc_client/types.py:95-100 | single use; open only when BEGIN returned |
| Transactions.BatchTransaction.Execute | src/ducklake_cdc_client/types.py:87-93 | any statement goes to the consumer's connection as it is, inside the block or not |
| Transactions.BatchTransaction.Exit | src/ducklake_cdc_client/types.py:102-126 | which statements leave the block, in which order, and what is raised, for every failure |
| Transactions.ListenKeepsInvariant | src/ducklake_cdc_client/consumers/base.py:476 | a listened batch continues the durable cursor, or no transaction can begin for it |
| Transactions.BodyKeepsInvariant | src/ducklake_cdc_client/types.py:87-93 | nothing durable changes inside the `with` block |
| Transactions.CommitKeepsInvariant | src/ducklake_cdc_client/types.py:117-119 | COMMIT after cdc_commit moves cursor and table together by exactly the batch, or not at all |
| Transactions.StepKeepsInvariant | src/ducklake_cdc_client/types.py:47-54 | every step keeps the exactly-once invariant, and only that COMMIT moves anything durable |
| Transactions.RunKeepsInvariant | src/ducklake_cdc_client/types.py:47-54 | along every run the cursor never goes back and written rows are never taken away |
| Transactions.ExactlyOnce | src/ducklake_cdc_client/types.py:95-126 | after any appends, listens, failing statements, retries, crashes and restarts the durable sink table is the feed from the start position through the cursor, in order and without repeats |
| Transactions.RecoveryCatchesUp | src/ducklake_cdc_client/types.py:51-54 | from every reachable state a restart and one clean round deliver everything that is left |
| Transactions.SecondTransaction | src/ducklake_cdc_client/types.py:95-126 | a transaction on a batch listened earlier commits without complaint, and keeps the table exactly-once exactly when no row lies between the cursor it was listened at and the durable one |
| Transactions.RetriedCommitIsOneCommit | src/ducklake_cdc_client/consumers/base.py:655-661 | a cdc_commit retried on any connection, in a transaction or not, leaves what one returned try leaves |
| Transactions.ExitEndsTransaction | src/ducklake_cdc_client/types.py:108-126 | a normal return has ended the transaction; after any Exception ROLLBACK is the last statement, and only its failure can leave the transaction open |
| Transactions.ExceptionalExit | src/ducklake_cdc_client/types.py:108-116 | after the body raised exactly one ROLLBACK is sent, and the body's exception propagates whatever ROLLBACK answers, unless it was interrupted by something that is not an Exception |
| Transactions.NormalExit | src/ducklake_cdc_client/types.py:117-126 | which statements are sent after the body returned, for every reply, and that what is raised is the failure of the last cdc_commit or COMMIT, never an Exception of ROLLBACK |
| Transactions.CleanExit | src/ducklake_cdc_client/types.py:117-119 | when nothing fails the exit sends cdc_commit and COMMIT once each, returns, and the pending rows are durable with the cursor at the end |
| Transactions.ExitStaysAlong | src/ducklake_cdc_client/types.py:116-126 | leaving the block follows the protocol and returns only when the batch is durable |
| Transactions.TransactBatch | src/ducklake_cdc_client/types.py:41-43 | a whole `with batch.transaction()` block follows the protocol, and raises what the statements it sent make of it; a normal return means the cursor is at the batch's end, and a healthy database gives one |
| Transactions.ConsumeAll | src/ducklake_cdc_client/types.py:41-43 | the documented consumer loop leaves an exactly-once sink table after any number of rounds, with everything the rounds reached when the database is healthy |
| Delivery.StepKeepsInvariant | src/ducklake_cdc_client/consumers/base.py:314-332 | every step of run() keeps what required sinks stored at or beyond the cursor, and the cursor never decreases |
| Delivery.StepKeepsGate | src/ducklake_cdc_client/consumers/base.py:597-602 | a nack blocks the commit: the rows credited to a required sink reach the cursor after every step when only that sink's own acknowledgements are credited |
| Delivery.RequiredSinksGate | src/ducklake_cdc_client/types.py:7-10 | in every reachable state every row through the cursor belongs to a batch whose write each required sink accepted, and is in what the sink stored |
| Delivery.ReplayConverges | src/ducklake_cdc_client/types.py:146-149 | a required sink's log folded by row identity is the feed through the cursor plus rows between the cursor and the head, whatever part of a batch each refused write stored |
| Delivery.OrderedReplayIsContiguous | src/ducklake_cdc_client/types.py:146-149 | when refused writes stored first parts of their batches, those rows are one contiguous stretch right after the cursor |
| Delivery.CaughtUpEqualsCleanRun | src/ducklake_cdc_client/types.py:275-277 | with the cursor at the head, the folded sink is what a run without failures leaves |
| Delivery.RecoveryEqualsCleanRun | src/ducklake_cdc_client/types.py:7-10 | after any run, with any partial writes, a restart and one clean round make the folded sink equal to a failure-free run's |
| Delivery.OptionalSinksDoNotInterfere | src/ducklake_cdc_client/consumers/base.py:597-608 | replacing all optional-sink failures by successes changes neither the cursor nor any required sink |
| Runner.DeliverRest | src/ducklake_cdc_client/consumers/base.py:597-608 | a delivery returns exactly when every remaining sink accepted, or is optional and refused with an Exception, and raises only by leaving run() |
| Runner.Consumer.DeliverBatch | src/ducklake_cdc_client/consumers/base.py:591-608 | the loop over the sinks writes in order and stops at the first failure that is not an optional sink's Exception |
| Runner.Consumer.CommitAcked | src/ducklake_cdc_client/consumers/base.py:649-653 | the bare commit under the default retry |
| Runner.Consumer.RunOnce | src/ducklake_cdc_client/consumers/base.py:318-331 | one pass of run(): poll, deliver, commit |
| Runner.Consumer.Run | src/ducklake_cdc_client/consumers/base.py:298-332 | the whole loop, refused without sinks, as its specification on any schedule |
| Runner.CommitStaysAlong | src/ducklake_cdc_client/consumers/base.py:652-653 | the commit's tries follow the protocol, and it returns with the cursor at the batch's end and one counted commit |
| Runner.PassFollowsProtocol | src/ducklake_cdc_client/consumers/base.py:318-331 | one pass is a run of the delivery protocol and counts a delivery exactly when cdc_commit returned |
| Runner.RunFollowsProtocol | src/ducklake_cdc_client/consumers/base.py:317-332 | run() is a run of the delivery protocol; its count is the number of commits that returned, and on normal return the number of batches |
| Runner.RunIsTheLoop | src/ducklake_cdc_client/consumers/base.py:318-328 | run() yields what batches() yields on the polls it saw, and ends for the same reason |
| Runner.RunAccounts | src/ducklake_cdc_client/consumers/base.py:441-489 | the result of run() equals commits and yields, within the one-shot and max_batches limits, with at most one batch after a stop |
| Runner.RunConverges | src/ducklake_cdc_client/consumers/base.py:298-332 | gating by acknowledgement and replay convergence for run() itself, over any number of run() calls on every schedule of failures |
| RunTrace.RunAsksForWindow | src/ducklake_cdc_client/consumers/base.py:444-452 | on the listens it logs: for DML the k-th asks for the adaptive window, from the ceiling or 8, folded over the polls before it; for DDL each asks for max_snapshots |
| RunTrace.RunReturnsExactlyWhen | src/ducklake_cdc_client/consumers/base.py:441-489 | run() returns with the first poll that is told to end it, in that way, and until then goes on unless it raises; it yields every listen that returned rows |
| RunTrace.DefaultRunGoesOn | src/ducklake_cdc_client/consumers/base.py:298-332 | without a stop, a limit or an idle timeout run() never returns, however many batches it delivers |
| RunTrace.RunRaisesExactlyWhen | src/ducklake_cdc_client/consumers/base.py:317-332 | run() raises exactly what its listen, a required or interrupted sink, or the exhausted commit of its last pass raised; no earlier pass raised anything |
| RunTrace.RunServesItsListens | src/ducklake_cdc_client/consumers/base.py:317-332 | when run() does not raise, nothing of any window it listened to is left behind the cursor |
| Loop.BatchLoop.Step | src/ducklake_cdc_client/consumers/base.py:441-489 | one pass of the generator, as its specification |
| Loop.EndsExactlyWhen | src/ducklake_cdc_client/consumers/base.py:441-489 | on options and polls alone: the loop makes polls up to the first that ends it, each of the five exits exactly under its condition, and yields exactly the listens that returned rows |
| Loop.InfiniteLoopGoesOn | src/ducklake_cdc_client/consumers/base.py:483-489 | by default the loop never ends and yields every listen that returned rows |
| Loop.RequestFollowsWindow | src/ducklake_cdc_client/consumers/base.py:444-482 | the max_snapshots of every DML listen is the adaptive window folded over all that was seen, and the caller's value for DDL |
| Loop.SpanOfReply | src/ducklake_cdc_client/consumers/base.py:475-482 | what a batch shows the window: its rows, its time, and the span between its bounds |
| Loop.YieldsWithinLimits | src/ducklake_cdc_client/consumers/base.py:486-489 | at most one batch when not infinite, at most max_batches when positive, and that exit only at the limit |
| Loop.StopYieldsAtMostOne | src/ducklake_cdc_client/consumers/base.py:442-458 | on any schedule at most one batch is yielded once the stop event is set |
| Loop.InFlightBatchIsYielded | src/ducklake_cdc_client/consumers/base.py:454-483 | the in-flight batch is yielded exactly when its listen was not empty, and then the loop ends |
| Loop.TimedExitIsIdle | src/ducklake_cdc_client/consumers/base.py:461-473 | a drain or idle exit is never early: the time since rows were last seen has reached the right limit |
| Loop.YieldsAreContiguous | src/ducklake_cdc_client/consumers/base.py:441-489 | with every batch committed, the batches of one loop are a contiguous stretch of the feed, however it ends |
| Loop.DrainIsComplete | src/ducklake_cdc_client/consumers/base.py:412-420 | a drain ends only as drained, and has yielded every remaining row, in order, exactly when no listen was empty with rows left as late as the idle timeout |
| Loop.PausedProducerStarvesDrain | src/ducklake_cdc_client/consumers/base.py:465-467 | one empty listen after the idle timeout ends the drain with rows left |
| Loop.ServedDrainIsComplete | src/ducklake_cdc_client/consumers/base.py:412-420 | with the producer stopped a drain that ends has yielded everything |
| Loop.DrainTerminates | src/ducklake_cdc_client/consumers/base.py:465-467 | a drain ends, whatever its listens return, within the idle timeout in polls, again for each remaining row |
| Loop.ServedDrainTerminates | src/ducklake_cdc_client/consumers/base.py:465-467 | with the producer stopped a drain ends within one poll per remaining row plus the idle milliseconds |
| Lease.ApplyLeasePolicy | src/ducklake_cdc_client/consumers/base.py:524-551 | the verdict and the number of lookups, as specified |
| Lease.PolicyDecides | src/ducklake_cdc_client/consumers/base.py:524-538 | "error" refuses and "takeover" releases exactly when the first lookup found the lease held, and look no further; only "wait" times out |
| Lease.HeldExactlyWhen | src/ducklake_cdc_client/consumers/base.py:704-718 | no owner is never held, an owner without a heartbeat always, and with an interval of n seconds up to the age n + max(5, n / 2) seconds |
| Lease.WaitReturnsOnlyWhenFree | src/ducklake_cdc_client/consumers/base.py:540-551 | a normal return means the last lookup found no live lease, a timeout that it did after the whole timeout; it is the first lookup for which either holds |
| Lease.LookupsAreBounded | src/ducklake_cdc_client/consumers/base.py:541-551 | the wait makes at most ceil(timeout / 0.5 s) + 1 lookups |
| Lease.StaleLeaseVerdict | src/ducklake_cdc_client/consumers/base.py:704-718 | for a heartbeat never renewed, the wait times out exactly when the first late lookup is still within the cutoff age |
| Lease.AbandonedLeaseIsTaken | src/ducklake_cdc_client/consumers/base.py:704-718 | a lease whose cutoff falls before the deadline never makes the wait time out |
| Setup.AttemptReturnsExactlyWhen | src/ducklake_cdc_client/consumers/base.py:491-522 | for each policy, the calls that must be answered for one attempt to return, and what "use" raises; "replace" never asks for the lease |
| Setup.UseKeepsExisting | src/ducklake_cdc_client/consumers/base.py:500-511 | "use" leaves an existing consumer untouched through any failures and retries |
| Setup.UseAsksForLease | src/ducklake_cdc_client/consumers/base.py:518-522 | an existing consumer is adopted only with its lease: the lease policy of the last attempt decides how set-up ends |
| Setup.UseCreatesOnce | src/ducklake_cdc_client/consumers/base.py:491-519 | "use" with any start creates a missing consumer at most once, in the first attempt whose create reached the server and at that attempt's start; none when no create did, and then it raises |
| Setup.UseCreatesAtSnapshot | src/ducklake_cdc_client/consumers/base.py:491-519 | with an integer start a successful "use" leaves the existing consumer, or one right before that snapshot |
| Setup.ReplaceIsFresh | src/ducklake_cdc_client/consumers/base.py:553-562 | a successful "replace" leaves a consumer that this set-up created, at the start as its last attempt saw it |
| Setup.CleanSetUp | src/ducklake_cdc_client/consumers/base.py:491-519 | without failures one attempt is enough: "use" and "replace" always succeed, "error" exactly on a missing consumer, with the resulting server state |
| Setup.ErrorSucceedsExactlyWhen | src/ducklake_cdc_client/consumers/base.py:507-508 | "error" succeeds exactly when the consumer was missing and the first attempt that reached the server had no failure |
| Setup.ErrorIsNotTransparent | src/ducklake_cdc_client/consumers/base.py:500-508 | one lost reply makes "error" report a consumer it has just created itself |
| Resources.Consumer.Enter | src/ducklake_cdc_client/consumers/base.py:202-233 | what entering opens, pins and releases, on every path |
| Resources.Consumer.Exit | src/ducklake_cdc_client/consumers/base.py:250-258 | the state and the log that leaving gives |
| Resources.ExitReleasesInOrder | src/ducklake_cdc_client/consumers/base.py:250-258 | an exit closes every sink, last first, then the derived connection, and nothing else; the consumer is closed |
| Resources.FailedEnterReleasesInOrder | src/ducklake_cdc_client/consumers/base.py:203-233 | an enter that raises closes nothing if building the client raised, and else ends with what an exit closes, in that order |
| Resources.EnterOpensInOrder | src/ducklake_cdc_client/consumers/base.py:202-233 | an enter that returns opens every sink in order, after deriving a connection if it needs one |
| Resources.EnterReturnsExactlyWhen | src/ducklake_cdc_client/consumers/base.py:202-233 | an enter returns exactly when client construction, set-up and every sink's open do |
| Resources.EnterUsesWhatWasGiven | src/ducklake_cdc_client/consumers/base.py:203-224 | over any enters and exits the block's connection is the caller's client's, else the caller's, else a derived one, and nothing is derived where the caller gave one |
| Resources.Consumer.OpenSinks | src/ducklake_cdc_client/consumers/base.py:570-582 | sinks open in order; a failure rolls back those opened, last first |
| Resources.SinkOrder | src/ducklake_cdc_client/consumers/base.py:573-589 | sinks open in the given order and close in the opposite one |
| Resources.ConnectionsClosedAtMostOnce | src/ducklake_cdc_client/consumers/base.py:225-258 | over any enters and exits each connection is closed at most once, and a caller's connection never |
| Resources.ExitClosesDerived | src/ducklake_cdc_client/consumers/base.py:285-296 | every exit closes the derived connection |
| Resources.FailedEnterClosesDerived | src/ducklake_cdc_client/consumers/base.py:225-232 | a failure inside the guarded part of entering closes it before it propagates |
| Resources.EntersClosedExactlyWhen | src/ducklake_cdc_client/consumers/base.py:203-224 | over any enters and exits, an enter that returns hands out a closed connection exactly when it reuses a client on a derived connection that was released |
| Resources.ReenteredConsumerIsClosed | src/ducklake_cdc_client/consumers/base.py:203-233 | a second `with` block on a consumer that derives its connection gets a closed one |
| Resources.OpenedSinksAreClosed | src/ducklake_cdc_client/consumers/base.py:225-258 | outside the `with` block every open that returned has been followed by a close |
| Resources.ClosesOnFailedOpen | src/ducklake_cdc_client/consumers/base.py:576-589 | the exact number of closes each sink gets on a failed open |
| App.Worker.Start | src/ducklake_cdc_client/app.py:323-341 | a worker starts at most once, and starting clears its stop request |
| App.Worker.Finish | src/ducklake_cdc_client/app.py:367-381 | when the thread ends, run()'s count is reported if it returned, and the error if it raised |
| App.CDCApp.Enter | src/ducklake_cdc_client/app.py:146-153 | consumers are entered in order; the first that raises ends it |
| App.EnterOpensExactlyWhen | src/ducklake_cdc_client/app.py:146-153 | entering returns, with the app open and every consumer entered, exactly unless the consumer that raises was not entered before |
| App.CDCApp.Run | src/ducklake_cdc_client/app.py:200-212 | every worker never started is started; refused when closed or empty |
| App.CDCApp.HandleSignal | src/ducklake_cdc_client/app.py:276-282 | a signal asks every worker to stop |
| App.CDCApp.Exit | src/ducklake_cdc_client/app.py:155-182 | stops, joins against one deadline, leaves, while threads end in their own time: state, log and clock |
| App.FailedEnterLeavesEntered | src/ducklake_cdc_client/app.py:146-153 | exactly the consumers before the failing one stay entered |
| App.SignalReachesEveryWorker | src/ducklake_cdc_client/app.py:276-282 | a signal sets every worker's stop request and the app's stopping flag |
| App.RunRefusedExactlyWhen | src/ducklake_cdc_client/app.py:200-207 | run() is refused, changing nothing, exactly when the app is closed or empty |
| App.RunStartsTheRest | src/ducklake_cdc_client/app.py:203-212 | run() starts exactly the workers never started, and clears a stop request that came before their start |
| App.ShutdownIsBounded | src/ducklake_cdc_client/app.py:168-171 | all joins together take at most the shutdown timeout, beside the time of other statements |
| App.ShutdownWaits | src/ducklake_cdc_client/app.py:167-171 | a thread that does not end keeps the shutdown waiting until the timeout |
| App.ShutdownInOrder | src/ducklake_cdc_client/app.py:161-182 | every stop request precedes the first join, exactly the entered consumers are left afterwards, each with its thread running or not as its end time says, and threads that ended have reported |
| App.LeftWhileRunning | src/ducklake_cdc_client/app.py:167-180 | a consumer is closed under a running thread exactly when the thread ends after the moment it is left; never if it ends within the timeout, always if it outlives the shutdown |
| App.NoWorkerStartsTwice | src/ducklake_cdc_client/app.py:330-341 | over any sequence of operations no thread is started twice |
| App.ReportIsCurrentExactlyWhen | src/ducklake_cdc_client/app.py:354-381 | over any sequence of operations the reported count is that of the returned commits exactly when run() has returned normally or no commit has returned; otherwise it is 0 |
| App.ReportIsFinal | src/ducklake_cdc_client/app.py:323-381 | once the thread has ended the report never changes again |
| App.LiveWorkerReportsNothing | src/ducklake_cdc_client/app.py:366-374 | a live worker that has committed reports 0 |
| App.RaisedWorkerNeverReports | src/ducklake_cdc_client/app.py:370-381 | a worker whose run() raised after a commit reports 0 for good |
| App.WorkerReportsRun | src/ducklake_cdc_client/app.py:370-381 | around a whole run(), the report is the number of its commits that returned if run() returned, and 0 if it raised |
| Successor.SuccessorTakesOver | src/ducklake_cdc_client/consumers/dml.py:119-145 | a successor is refused exactly on a closed consumer or without a start off the boundary; else, however its set-up is retried, the consumer created stands right before the start given, by default the boundary, and its listens have exactly the rows from there on |
| Successor.StaysBelow | src/ducklake_cdc_client/consumers/dml.py:119-126 | served no window that reaches the boundary, the predecessor's durable cursor stays before it through every run |
| Successor.ChainIsSeamless | src/ducklake_cdc_client/consumers/dml.py:119-145 | over any number of hand-offs the committed deliveries are the feed with no gap and no overlap |

## Left out

- The extension's internals: how a window's end is chosen, how leases are taken, `CDC_BUSY`. They are the assumptions above.
- `read()` with an explicit window followed by `commit()`: it can move the cursor anywhere, so the theorems are about cursor-driven reads.
- Commits by the caller outside both patterns, and a ROLLBACK the caller sends on the consumer's connection between batches.
- Transactions.BatchTransaction.Execute: it forwards every statement of the model; SQL other than row inserts and the cursor and transaction statements has no meaning there.
- Columns that are only copied (snapshot time, table name, author), `to_dict`, `received_at`.
- Floats, enum values and struct fields in SQL rendering; `scalar_function_sql`. The function name of a call is not parsed, because the library always supplies it.
- Unicode lower-casing in transient messages (ASCII only), and cyclic cause chains.
- How error messages are matched to "already exists" and "does not exist"; the answers of a call are values.
- The heartbeat a slow sink may send, and retries of a listen, which change nothing durable.
- Exceptions other than `Exception` raised while closing a sink or a connection.
- Signals that arrive while the app's lock is held, real threads, installing and restoring signal handlers, and the wait inside `CDCApp.run`, which changes nothing.
- App.Worker.Start: the thread is started at once, and that starting a thread can fail is not modelled.
- Sink classes, JSON and stdout output, connection derivation by attribute, prewarm, extension installation, logging, `schema_diff`.
