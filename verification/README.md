# Verification of the reliability watchdog

A Dafny 4.11 model of the monitoring engine: the scheduler and its worker pool, the circuit
breaker with its retries, the two result stores, and the service-level arithmetic. Run
`dafny verify dfyconfig.toml` in this directory.

## What is modelled

| file | contents |
|---|---|
| `Domain.dfy` | states, check results, transitions, alerts, endpoints; the dedupe key; the rows a result gives rise to, field by field |
| `Spacing.dfy` | how many instants a fixed distance apart fit in a span |
| `Circuit.dfy` | the breaker as a class, its fields explained by its call history, probe exclusion and rate |
| `Retry.dfy` | the doubling loop on 64-bit durations, its closed form, total sleep, the retry loop |
| `Slo.dfy` | the fold over results, the computation from counts, the counts state by state, what each figure means, and the error-budget arithmetic |
| `Timeline.dfy` | one endpoint's results, transitions and alerts; compression of states; greedy alert selection |
| `StoreAgreement.dfy` | one write in both stores, and whole runs with check times in writing order |
| `AnyOrder.dfy` | exactly when the two stores agree, and the database's log leads to its newest state, for check times in any order |
| `Rows.dfy` | one endpoint's share of a table |
| `MemoryStore.dfy` | the in-memory store as a class over its logs |
| `PostgresStore.dfy` | the database store as interleaved transactions under an advisory lock |
| `Stores.dfy` | the database under concurrency against the in-memory store in commit order |
| `Alerts.dfy` | which results have an alert, and which result an alert or transition comes from, for both stores |
| `Pages.dfy` | the database's ordered, limited query for transitions against the in-memory store's walk |
| `Scheduler.dfy` | scheduling loop, workers and check protocol as one step system |
| `Tokens.dfy` | conservation of endpoints in flight, and the capacity and exclusion it gives |
| `Loop.dfy` | the scheduling loop: scans go on and end, leave no ready endpoint behind, and give way to a cancellation |
| `Probes.dfy` | the invariant joining breaker, check protocol and store |
| `Streaks.dfy` | the run of outages handed to the store, and what of it was kept |
| `Progress.dfy` | shutdown, absence of deadlock, spacing of decisions, reachability of the queue-full branch |
| `Rounds.dfy` | the account of every dispatch: one result handed over, one completion |
| `Perform.dfy` | one check from start to finish on the breaker and the store themselves |
| `Monitoring.dfy` | what a whole run leaves in its store |
| `LostWrite.dfy` | for every threshold, a run on which lost writes make a skipped check look unfounded |
| `Deployment.dfy` | the service on the database: step system and transactions interleaved |
| `DeployedProgress.dfy` | its loop, shutdown, progress and absence of deadlock, statements counted as work |
| `Snapshot.dfy` | the status snapshot |
| `DatabaseStatus.dfy` | the status snapshot read from the database |

Code that one caller runs at a time keeps its form: `CircuitBreaker` and `Memory` are classes
with the source's fields, and the loops of `Retry`, `retryDelay`, `CalculateSLO` and `Snapshot`
are loops. `perform` is modelled twice: as a method on those classes, and as worker steps; the
method's contract says that it does what the steps do. Code whose point is concurrency (`Run`,
`worker`, `perform`, and the transaction of `RecordResult`) is a state machine whose steps are the atomic actions of its goroutines or
statements, interleaved without restriction. A select with several ready cases may take any of
them; a default case is possible only when no other is.

Instants and durations are whole nanoseconds, and the instant 0 is Go's zero time.
Row ids are erased (set to 0) wherever rows of the two stores are compared.

## Assumptions

- The clock is monotone and above the zero instant. Two readings may be equal, and a tick may be
  processed at any later time.
- The executor returns Healthy, Degraded or Unavailable, for the endpoint it was given, with a
  check time between the start of the check and its return, and leaves the breaker flag unset
  (`internal/checker/checker.go:35-72`). It may take any time, but it returns.
- Whether an endpoint is in maintenance is decided arbitrarily at each check.
- The database shows a statement the rows committed before the statement began and those of its
  own transaction (PostgreSQL manual, section 13.2.1), and holds a transaction-level advisory
  lock until the transaction ends (section 13.3.5). The hash from endpoint id to lock number is
  arbitrary, so different endpoints may share a lock. A transaction may abort at any point, and
  a sequence may lose ids.
- A commit whose acknowledgement is lost counts as a commit: the service goes on in the same way.
- A worker moves on when its transaction ends, not before: a client that gives up on a statement
  does not outrun the server's rollback. `Deployment.OneTransactionPerEndpoint` depends on this.
- Endpoint ids are distinct and intervals are positive, or not negative, where a theorem says so
  (`internal/config/config.go:120-128`, `internal/config/config.go:150-152`).

## Where the documentation and the code differ

- `docs/configuration.md:27` calls the dedupe window the minimum interval between two alerts, and
  `docs/architecture.md:29` speaks of a key inside the window, for both stores alike. The code of
  the two stores differs for a result exactly one window after an alert: the in-memory store
  alerts again, the database does not (`StoreAgreement.BoundaryIsReachable`).
- `docs/architecture.md:26-29` describes one sequence, but the stores read different previous
  states: the in-memory store that of the result recorded last (`internal/store/memory.go:46-47`),
  the database that of the result with the greatest check time (`internal/store/postgres.go:95-97`).
  These two points are the only differences: `AnyOrder.RowsAgreeExactly` shows, for any order of
  check times and any windows, that the stores hold the same rows after every write exactly when
  every write finds the two previous states alike and is off the boundary. A result recorded late
  can also leave the database's transition log leading to a state other than the newest, exactly
  as `AnyOrder.LeadsToNewestExactly` says. `AnyOrder.LateChangeParts` is an example of both. A
  single process on the database never records late: `Deployment.CommitsInOrder`.
- `docs/slo.md` counts "successful checks" for latency compliance. The code counts every check
  that is not Unavailable, so it counts fast results in state Unknown besides; the two counts are
  the same exactly when there is none (`Slo.FastIsSuccessful`), and one such result tells them
  apart (`Slo.UnknownCountsAsFast`). The executor never returns Unknown, so only direct callers of
  the store can meet this: on what the service stores the counts are the same
  (`Monitoring.LatencyAsDocumented`).
- The two SLO computations treat a latency target that is not positive differently: the one over
  results counts nothing as fast, the one over counts takes what the store counted.
  `Slo.ComputationsAgree` gives the exact condition under which they agree, and
  `Slo.ZeroTargetDisagrees` an input on which they do not. Only direct callers can meet it: the
  configuration replaces a zero latency target by one second, and nothing but a test calls the
  computation over results.
- The retry delay is documented as capped. It can exceed the exact capped value by one nanosecond
  (`Retry.BackoffBounds`, `Retry.CapOvershoots`), and without a positive cap it is exact only while
  it fits in 64 bits (`Retry.UncappedDelayOverflows`, `Retry.UncappedDelayIsWrapped`,
  `Retry.UncappedDelayWraps`).
- `docs/architecture.md:48-49` accepts a gap in the data while the database is down. The gap can
  hide why a check is skipped, but only a long one: a check is skipped only after at least as many
  Unavailable verdicts in a row as open the circuit (`Probes.SkippedAfterStreak`), and the record
  shows the outage exactly when it holds one of them, or showed one before them
  (`Probes.SkippedOnlyWhenUnavailable`). Hiding it takes the loss of all of them
  (`Probes.HidingTakesLosses`), and for every threshold there is a run that loses no more than that
  (`LostWrite.LostVerdictsSkip`).

## Model

| member | source | states |
|---|---|---|
| Domain.DedupeKeyInjective | internal/store/memory.go:61 | A dedupe key names one endpoint and one state, even when endpoint ids contain colons |
| Spacing.SeparatedBound | internal/store/memory.go:63-64 | At most floor(L/gap)+1 instants pairwise a gap apart fit in a span of length L |
| Circuit.CircuitBreaker.constructor | internal/resilience/circuit.go:21-27 | A new breaker has an empty history and keeps its threshold and cooldown |
| Circuit.CircuitBreaker.Lookup | internal/resilience/circuit.go:69-76 | Finds an entry or adds a fresh one; other keys are untouched |
| Circuit.CircuitBreaker.Allow | internal/resilience/circuit.go:29-41 | Permission is given exactly when the history says the circuit is closed, or its cooldown is over and no probe is unresolved; the call joins the history the fields are explained by |
| Circuit.CircuitBreaker.Success | internal/resilience/circuit.go:43-47 | The new state is that of the history with this success added |
| Circuit.CircuitBreaker.Failure | internal/resilience/circuit.go:49-60 | Reports whether the failures in a row have reached the threshold; if so the circuit counts as open since this instant |
| Circuit.CircuitBreaker.IsOpen | internal/resilience/circuit.go:62-67 | Exactly the circuits open and cooling down according to the history; such a circuit grants nothing |
| Circuit.MeaningOfFields | internal/resilience/circuit.go:29-60 | For every sequence of calls on any keys: failures counts the failures since the last success, openedAt is the last failure once they reach the threshold and unset before, halfOpen says a probe is unresolved |
| Circuit.ProbesAreExclusive | internal/resilience/circuit.go:36-38 | Between two probes of one key the first was resolved |
| Circuit.ProbeSpacing | internal/resilience/circuit.go:33-40 | With a monotone clock, probes with no success between them are at least the cooldown apart |
| Circuit.ProbeRate | internal/resilience/circuit.go:33-40 | A span of length L without a success holds at most floor(L/cooldown)+1 probes of a key |
| Circuit.KeysAreIndependent | internal/resilience/circuit.go:69-76 | The entry of a key depends only on the calls made on that key |
| Retry.RetryDelay | internal/resilience/retry.go:35-52 | For every base, cap, attempt and draw: zero for a base that is not positive, and otherwise the delay BackoffBounds and UncappedDelayIsWrapped pin, times 0.8 + 0.4*draw, cut to whole nanoseconds toward zero |
| Retry.Retry | internal/resilience/retry.go:13-33 | The attempt count is the number of executor runs, between 1 and retries+1; every attempt but the last was unavailable and uncancelled; it stops early only on another state or cancellation; the timers add up to the delays of exactly those waits and, for a positive base and cap, to at most 1.2 times either total of TotalSleepBounds; cancellation rewrites error and message; a negative retry count runs nothing |
| Retry.BackoffBounds | internal/resilience/retry.go:39-49 | The unjittered delay is min(base*2^attempt, max) or one nanosecond more, the latter exactly when a doubling lands on max-1, so never for an even cap |
| Retry.CapOvershoots | internal/resilience/retry.go:41-44 | A base and cap for which the delay is one nanosecond over |
| Retry.BackoffMonotone | internal/resilience/retry.go:39-49 | The unjittered delay never decreases from one attempt to a later one |
| Retry.UncappedDelayOverflows | internal/resilience/retry.go:41-45 | Without a cap the delay is base*2^attempt if and only if that fits in 64 bits |
| Retry.UncappedDelayIsWrapped | internal/resilience/retry.go:41-45 | Without a cap the delay is the 64-bit value that differs from base*2^attempt by a multiple of 2^64 |
| Retry.UncappedDelayWraps | internal/resilience/retry.go:41-45 | A base for which one doubling without a cap wraps to the least 64-bit value |
| Retry.JitteredBounds | internal/resilience/retry.go:50-51 | Jitter keeps a delay within a fifth either way, less the truncation to a nanosecond |
| Retry.BackoffSumBounds | internal/resilience/retry.go:35-49 | The delays of n waits add up to at most n*max and to at most the geometric total, plus one nanosecond once the cap is near |
| Retry.TotalSleepBounds | internal/resilience/retry.go:15-31 | For any random draws the total sleep is at most 1.2*retries*max and at most 1.2*(base*(2^retries-1)+1) |
| Slo.CalculateSLO | internal/domain/types.go:117-171 | The loop counts the window's checks state by state, none as fast unless a latency target is in force; every figure of the status is the one those counts call for (Figures); it equals the status page's figure exactly when LatencyCountsAgree holds |
| Slo.CountsByState | internal/store/memory.go:98-108 | Eligible checks are the Healthy, Degraded, Unavailable and Unknown ones since then, good ones the Healthy and Degraded, fast ones the Healthy, Degraded and Unknown within the target |
| Slo.StatusHasFigures | internal/domain/types.go:173-211 | For any counts: availability and compliance times eligible give back the counts; the burn rate times the allowed fraction times eligible is the number of bad checks; the budget used is the burn rate and the rest, down to zero, remains; without samples or budget nothing is burnt; window and targets have the documented defaults |
| Slo.ComputationsAgree | internal/domain/types.go:173-204 | The two SLO computations agree if and only if a latency target is in force or no check in the window is fast for it |
| Slo.ZeroTargetDisagrees | internal/domain/types.go:141-143 | For a latency target of zero one instant check gives compliance 0 by one computation and 1 by the other |
| Slo.CountsAreAdditive | internal/store/memory.go:93-110 | Counting a log is counting its parts |
| Slo.CountsIgnoreOrder | internal/store/memory.go:93-110 | Counts do not depend on the order of results |
| Slo.CountsAreOrdered | internal/store/memory.go:99-107 | Good and fast checks are eligible; there are at most as many fast checks as good ones and fast Unknown ones together |
| Slo.FastSplits | internal/store/memory.go:105-107 | The fast checks the code counts are the fast successes the documentation counts and the fast Unknown results |
| Slo.FastIsSuccessful | docs/slo.md:9 | The two counts are the same if and only if no fast result in the window is Unknown |
| Slo.UnknownCountsAsFast | internal/store/memory.go:105-107 | One Unknown result is counted as fast although it is no success |
| Slo.BudgetArithmetic | internal/domain/types.go:186-197 | Availability, compliance and remaining budget are fractions; burn rate times allowed fraction is the bad fraction; the budget is gone if and only if there are samples and availability is at most the target |
| Slo.RecordingMovesBurn | docs/slo.md:5-14 | A good in-window result never raises the burn rate, a bad one never lowers it, Maintenance and older results leave every field unchanged |
| Timeline.TransitionsAreChanges | internal/store/memory.go:44-59 | The transition log has exactly one row for each adjacent change of state, in order, with that change's states, time and reason |
| Timeline.TransitionsChain | internal/store/memory.go:44-59 | Each transition starts where the one before ended, the first at Unknown, none is a stutter, and the last ends in the newest result's state |
| Timeline.AlertsAreGreedy | internal/store/memory.go:60-77 | The alerts of a state are the left-to-right greedy selection from the results that ask for one |
| Timeline.GreedySelection | internal/store/memory.go:63-68 | The greedy selection keeps the window between its members |
| Timeline.Exchange | internal/store/memory.go:63-68 | When the last instant is chosen but blocked, the rest of the choice lies before the pick that blocks it, and the selection up to that pick is one smaller |
| Timeline.GreedyIsOptimal | internal/store/memory.go:60-77 | No selection that keeps the window is larger than the greedy one |
| Timeline.GreedyCovers | internal/store/memory.go:63-68 | Every instant has an earlier or equal pick less than the window before it |
| Timeline.AlertsAreSeparated | internal/store/memory.go:60-77 | For check times in any order, a later alert of a state is at least the window after every earlier one |
| Timeline.AlertRate | internal/store/memory.go:60-77 | A span of length L holds at most floor(L/window)+1 alerts of a state |
| Timeline.AlertsCover | internal/store/memory.go:60-77 | With one window for all writes: every result that asks for an alert has one of its state created later than its check time less the window (Alerts.MemAlertFor says which results ask, for any windows) |
| Timeline.AlertsAreMaximal | internal/store/memory.go:60-77 | With check times in order the alerts of a state are as many as any choice that keeps the window could have |
| Timeline.AlertsAreASelection | internal/store/memory.go:60-77 | The alerts of a state are themselves such a choice |
| Rows.KeyFindsOwnAlerts | internal/store/memory.go:64 | Looking alerts of all endpoints up by key finds exactly the endpoint's own alerts of that state |
| MemoryStore.Memory.constructor | internal/store/memory.go:21-27 | A new store is empty and its ids start at 1 |
| MemoryStore.Memory.Next | internal/store/memory.go:135-139 | Hands out the counter and advances it |
| MemoryStore.Memory.ScanForDuplicate | internal/store/memory.go:63-68 | The backwards scan finds a duplicate if and only if some alert with the key is less than the window old |
| MemoryStore.Memory.RecordResult | internal/store/memory.go:41-79 | The call leaves the logs, the counter and the outcome of the specification. In plain terms: a transition exactly when the state is not that of the endpoint's last result, an alert exactly when a Degraded, an Unavailable or a newly Healthy result finds no alert with its key less than the window old, each with the fields of this result and appended to its log |
| MemoryStore.Memory.LatestResults | internal/store/memory.go:81-91 | Exactly the endpoints with a result, each with the one recorded last |
| MemoryStore.Memory.CountResultsSince | internal/store/memory.go:93-110 | The loop counts the endpoint's results since then, state by state |
| MemoryStore.Memory.RecentTransitions | internal/store/memory.go:112-122 | The newest limit transitions of one endpoint, or of the whole log for an empty id, newest first |
| MemoryStore.RecordIsMemStep | internal/store/memory.go:41-79 | Recording extends the endpoint's own rows by one step and leaves every other endpoint's rows alone |
| MemoryStore.ReplayIsPerEndpoint | internal/store/memory.go:41-79 | Whatever the interleaving, each endpoint's rows are those its own results alone produce |
| MemoryStore.ReplayIdsAreUnique | internal/store/memory.go:135-139 | No two rows of the three logs share an id, and every id is below the counter |
| StoreAgreement.StepsAgree | internal/store/postgres.go:94-147 | For any rows: one recorded result leaves both stores alike if and only if they read the same previous state and it is not exactly the window after an alert; if it is, the in-memory store alerts and the database does not |
| StoreAgreement.LogsAgree | internal/store/postgres.go:94-134 | If check times are in writing order: results, newest result and transitions agree whatever the windows |
| StoreAgreement.AgreeOffBoundary | internal/store/memory.go:41-79 | If check times are in writing order, any window for each write: the stores hold the same rows as long as no result falls on the boundary |
| StoreAgreement.StoresAgreeExactly | internal/store/memory.go:64 | If check times are in writing order and there is one window, of any sign: the stores hold the same rows at the end if and only if no result falls on the boundary; otherwise their alert logs differ for good |
| StoreAgreement.BoundaryIsReachable | internal/store/postgres.go:142-147 | Two outage reports one window apart hit the boundary, for every positive window |
| AnyOrder.TransitionsAgreeExactly | internal/store/postgres.go:94-134 | For check times in any order: the transition logs are the same after every write if and only if before every write the newest result and the one recorded last are in the same state |
| AnyOrder.RowsAgreeExactly | internal/store/memory.go:41-79 | For check times in any order and any windows: the stores hold the same rows after every write if and only if every write finds those states alike and is off the dedupe boundary |
| AnyOrder.StepLeadsToNewest | internal/store/postgres.go:119-134 | Recording a result keeps the database's transitions leading to its newest state if and only if it is not older than the newest row and in another state |
| AnyOrder.LeadsToNewestExactly | internal/store/postgres.go:94-134 | The transitions lead to the newest state after every write if and only if no write is such a late change |
| AnyOrder.ChainedUnlessLate | internal/store/postgres.go:94-134 | Without a late change each transition starts where the one before ended (the exact condition is ChainedExactly) |
| AnyOrder.ChainedExactly | internal/store/postgres.go:94-134 | Each transition of the database starts where the one before ended if and only if no write adds one while the log leads elsewhere than to the newest state |
| AnyOrder.LateChangeParts | internal/store/memory.go:46-47 | Three writes, the second one late, on which the stores part off the boundary and the database's log leads astray |
| StoreAgreement.DivergenceStays | internal/store/postgres.go:142-147 | An alert only the in-memory store made is never made by the database later |
| StoreAgreement.PgAlertsAreSeparated | internal/store/postgres.go:142-147 | The database keeps strictly more than the window between alerts of a state, whatever the order of check times |
| StoreAgreement.TransitionsInOrder | internal/store/memory.go:112-122 | If check times are in writing order: change times never go back along the transition log |
| PostgresStore.NewestInIsTop | internal/store/postgres.go:95-97 | The newest-row query returns a row of the endpoint than which no other is newer, and nothing only when there is none |
| PostgresStore.NewestInCommitOrder | internal/store/postgres.go:95-97 | With ids growing in commit order the id tie-break picks the row committed last |
| PostgresStore.RecentIsTooSoon | internal/store/postgres.go:142-147 | The conditional insert's lookup by key sees exactly the endpoint's own recent alerts |
| PostgresStore.LocksSeparate | internal/store/postgres.go:91 | Two transactions past the lock statement are about different endpoints |
| PostgresStore.CommittedView | internal/store/postgres.go:157 | A commit adds one sequential step to its endpoint's rows and nothing to any other endpoint's |
| PostgresStore.CommitIsPlain | internal/store/postgres.go:94-156 | A commit adds the result, a transition exactly when the endpoint's newest row is in another state, and an alert exactly when a Degraded, an Unavailable or a newly Healthy result finds no alert with its key as young as the window, each with the fields of the result |
| PostgresStore.StepKeepsInv | internal/store/postgres.go:85-161 | Every statement, commit and abort of any writer keeps: locks held by their owners, what each transaction has read and written still being right, ids in order, rows equal to a sequential run |
| PostgresStore.RunKeepsInv | internal/store/postgres.go:85-161 | So does every run; the members below that assume the invariant hold in every reachable state |
| PostgresStore.Serializable | docs/architecture.md:23-32 | Under any interleaving, aborts and lock hash, an endpoint's committed rows are those of its committed calls made one at a time in commit order |
| PostgresStore.OneResultPerCommit | internal/store/postgres.go:102-117 | Each committed call left exactly its result row, and there are no others |
| PostgresStore.IdOrderIsCommitOrder | migrations/001_initial.sql:10-51 | Within an endpoint, ids of every table grow in commit order |
| PostgresStore.NoDeadlock | internal/store/postgres.go:85-161 | While any transaction is in progress some transaction can take its next statement |
| Stores.SameRowsExactly | internal/store/postgres.go:85-161 | For any interleaving and any order of check times: the database holds the in-memory store's rows of an endpoint after every step if and only if every committed write finds the newest and the last committed result in the same state and is off the boundary |
| Stores.SameTransitionsExactly | internal/store/postgres.go:94-134 | Likewise the transitions alone, where windows and boundary do not matter |
| Stores.LogLeadsExactly | internal/store/postgres.go:94-134 | For any interleaving: the endpoint's newest transition leads to the state the next writer reads, after every step, if and only if no committed write was a late change |
| Stores.LogChainedExactly | internal/store/postgres.go:119-134 | Likewise for the database under any interleaving, at any moment |
| Stores.SameRowsUnlessBoundary | internal/store/postgres.go:85-161 | If the endpoint's check times are in commit order and its writes have one window: the database under concurrency holds the in-memory store's rows if and only if no committed result is on the boundary |
| Stores.SameTransitions | internal/store/postgres.go:94-134 | If the endpoint's check times are in commit order: transitions coincide without any assumption on windows, and the log is an unbroken chain to the newest state |
| Alerts.MemAlertFor | internal/store/memory.go:60-77 | For any windows and any order of check times: every Degraded, every Unavailable and every Healthy result after another state has an alert of its state less than its window older, or of its own instant |
| Alerts.PgAlertFor | internal/store/postgres.go:136-156 | The same for the database, at most the window older, where the state before is that of the newest result by check time |
| Alerts.MemAlertFrom | internal/store/memory.go:60-77 | Every alert is, field by field, that of a Degraded, an Unavailable or a newly Healthy result, at least the window after every earlier alert of that state; none is about Maintenance or Unknown |
| Alerts.PgAlertFrom | internal/store/postgres.go:136-156 | The same for the database, with strictly more than the window |
| Alerts.MemTransitionFor | internal/store/memory.go:52-59 | Every result in a state other than that of the result before it is recorded as that change |
| Alerts.PgTransitionFor | internal/store/postgres.go:119-134 | Every result in a state other than that of the newest result by check time is recorded as that change |
| Alerts.MemTransitionFrom | internal/store/memory.go:52-59 | Every transition is such a change, field by field |
| Alerts.PgTransitionFrom | internal/store/postgres.go:119-134 | Every transition of the database is such a change, field by field |
| Alerts.LogAlertFor | internal/store/memory.go:60-77 | After any writes about any endpoints the in-memory alert log holds such an alert for each such result of each endpoint |
| Alerts.LogAlertFrom | internal/store/memory.go:60-77 | And it holds no other alert |
| Alerts.TableAlertFor | internal/store/postgres.go:136-156 | Under any interleaving of transactions the alert table holds such an alert for each such committed result |
| Alerts.TableAlertFrom | internal/store/postgres.go:136-156 | And it holds no other alert |
| Stores.LatestAgree | internal/store/postgres.go:163-183 | The database's latest result of an endpoint is the one the in-memory store keeps last if and only if nothing committed was checked later than the result committed last |
| Stores.QueryCountsShare | internal/store/postgres.go:185-201 | The filtered counts over the whole table are the counts of the endpoint's own results |
| Stores.QueryCountsByState | internal/store/postgres.go:185-201 | The database's counts are the endpoint's rows since then in the states that count, for latency those within the target |
| Stores.CountsAgree | internal/store/postgres.go:185-201 | Both stores count alike for every window and target, in any order of check times |
| Stores.TransitionOrdersAgree | internal/store/postgres.go:203-221 | If the endpoint's check times are in commit order: its rows in commit order are in the order of change time and of id |
| Pages.OrderBySorts | internal/store/postgres.go:205-206 | The modelled query order has exactly the given rows, newest change first and ties by id |
| Pages.PageOrdersAgree | internal/store/postgres.go:203-221 | Of one endpoint's table rows, the query's page is the newest-first end of the table for every limit, if and only if change times never go back |
| Pages.PagesAgreeExactly | internal/store/memory.go:112-122 | Where both stores hold the same transitions of an endpoint, their pages are the same for every limit, ids aside, if and only if its change times never go back |
| Pages.PagesAgree | internal/store/postgres.go:203-221 | If the endpoint's check times are in commit order: the query answers with the very page the in-memory store's walk returns, ids aside |
| Tokens.WorkerStepShape | internal/monitor/service.go:120-136 | What each worker step leaves alone and where it moves its endpoint; a worker exits only from a closed, drained queue or under cancellation |
| Tokens.StepKeepsInv | internal/monitor/service.go:74-117 | Every step conserves endpoints in flight and semaphore slots, and closes the queue only under cancellation |
| Tokens.EndpointsAreConserved | internal/monitor/service.go:97-117 | In every reachable state an endpoint is in exactly one place if it is in flight and in none otherwise; none is abandoned unless cancelled |
| Tokens.ChecksAreExclusive | internal/monitor/service.go:101-107 | No endpoint is ever in the hands of two workers |
| Tokens.ConcurrencyIsBounded | internal/monitor/service.go:122-126 | The semaphore counts exactly the workers inside a check, never above the limit |
| Tokens.ReportingNeverBlocks | internal/monitor/service.go:75 | The done channel is never full when a worker has something to report |
| Tokens.NothingIsDropped | internal/monitor/service.go:105-114 | With a queue as long as there are endpoint ids the queue-full branch is never possible |
| Tokens.NoSendAfterClose | internal/monitor/service.go:91 | After the queue is closed nothing is ever added to it and it stays closed |
| Loop.ScanGoesOn | internal/monitor/service.go:101-115 | In every reachable state of a scan the loop has a next step whatever the channels hold: past an endpoint that is not ready, into the queue while there is room, past a full queue or into shutdown, or to the end |
| Loop.HandOffIsPossible | internal/monitor/service.go:105-107 | Without a buffer a ready endpoint can go to any receiving worker |
| Loop.ScanIsBounded | internal/monitor/service.go:101-115 | A scan is over after one step for each endpoint and one more |
| Loop.ScanStarts | internal/monitor/service.go:100-102 | A scan starts at the first endpoint and goes by the instant of its tick, however late that is processed |
| Loop.PassedEndpoint | internal/monitor/service.go:101-114 | An endpoint the scan passes is, if ready, queued or handed over and in flight from then on, or, with the queue full and no cancellation, put off until the tick plus its interval; if not ready, nothing changes |
| Loop.NothingReadyIsLeft | internal/monitor/service.go:101-115 | With positive intervals: when a scan ends, every endpoint is in flight or rests beyond the tick |
| Loop.CompletionReschedules | internal/monitor/service.go:97-99 | A received completion is one of an endpoint in flight; it ends the flight and the endpoint rests for its registered interval from that moment on; nothing else changes |
| Loop.SelectingListens | internal/monitor/service.go:94-100 | While the loop is selecting, a tick, a completion that is there and a cancellation can be taken at once |
| Loop.CancelIsSeen | internal/monitor/service.go:95-109 | In either select a cancellation can be taken, and then the job queue is closed |
| Probes.StepKeepsInv | internal/monitor/service.go:138-178 | Every step of any goroutine keeps breaker, workers' knowledge and stored results in agreement |
| Probes.HalfOpenMeansOneProbe | internal/resilience/circuit.go:36-38 | A circuit is half open if and only if exactly one worker is inside a probe of its endpoint, so none is ever stuck half open and there is never a second probe |
| Probes.NextCheckIsPermitted | internal/monitor/service.go:146 | Outside maintenance a check is refused if and only if its circuit is open and still cooling down |
| Probes.SkippedOnlyWhenUnavailable | internal/monitor/service.go:146-151 | When a check is skipped, the newest verdict on record, Maintenance aside, is Unavailable if and only if the store kept one of the trailing run of Unavailable verdicts handed to it, or the newest one kept before that run was Unavailable; the run is at least as long as opens the circuit |
| Probes.SkippedChecksChangeNothing | internal/monitor/service.go:146-163 | Storing a skipped check makes a transition if and only if the record ends in Maintenance or does not show the outage in that sense |
| Probes.SkippedAfterStreak | internal/resilience/circuit.go:53-57 | Whatever the store loses, a check is skipped only after at least max(1, threshold) Unavailable verdicts in a row were handed to it |
| Probes.VerdictIsKept | internal/monitor/service.go:163-168 | The newest verdict on record is the newest one the store kept, or that of the record at the start |
| Probes.HidingTakesLosses | internal/monitor/service.go:163-168 | When a check is skipped with no outage on record, at least max(1, threshold) verdicts on the endpoint were lost |
| Streaks.OutageShowsExactly | internal/monitor/service.go:163-168 | For every history of kept and lost results: the newest kept verdict is Unavailable if and only if one of the trailing run of outages was kept or the newest one kept before it was |
| Probes.BreakerFlagIsTruthful | internal/monitor/service.go:142-160 | A stored result carries the breaker flag if and only if it is not Maintenance and the circuit is open at that moment |
| Probes.MaintenanceBypasses | internal/monitor/service.go:141-145 | In maintenance a check goes straight to its record, past breaker and executor: a notice of the instant the check began, without attempts, latency or flag |
| Probes.BreakerDecides | internal/monitor/service.go:139-155 | Outside maintenance the breaker is asked once, at the instant the check began; a refused check goes to its record as a flagged Unavailable result of that instant without attempts or latency, a permitted one to the executor |
| Probes.HandedKinds | internal/monitor/service.go:138-163 | Whatever is handed to the store is a maintenance notice, a flagged outage without attempts, or a verdict reached in at least one attempt |
| Probes.ProbesAreSpaced | internal/monitor/service.go:146-160 | Over a whole run, probes of an endpoint with no success between them are at least the cooldown apart |
| Probes.LogIsReplayed | internal/monitor/service.go:163-168 | A run started on an empty store leaves there what recording the results that were kept, in order, yields |
| Probes.NothingUnknown | internal/monitor/service.go:138-163 | No result in state Unknown is ever stored |
| Rounds.DispatchesAreAnswered | internal/monitor/service.go:105-163 | Over every run: the dispatches of an endpoint are the results handed to the store about it, the ones given up in front of the semaphore, and those still waiting |
| Rounds.DispatchesAreReceived | internal/monitor/service.go:97-107 | The dispatches of an endpoint are the completions received, and the one under way if it is in flight |
| Rounds.NothingGivenUp | internal/monitor/service.go:123-128 | Nothing is given up before the service is cancelled |
| Rounds.OneResultPerDispatch | internal/monitor/service.go:105-163 | Until the service is cancelled, each completed dispatch has handed over exactly one result, and the one under way at most one |
| LostWrite.LostVerdictsSkip | internal/monitor/service.go:163-168 | For every threshold there is a run that loses exactly that many verdicts and then skips a check with no outage on record |
| Perform.Consult | internal/monitor/service.go:146-160 | Outside maintenance the executor is asked exactly when the breaker grants; the breaker then gets one verdict and the result its flag; at most one attempt more than retries is made |
| Perform.Perform | internal/monitor/service.go:138-168 | The check run on breaker and store leaves them exactly as the worker steps of the step system do, and what the retried executor returned is a response those steps allow |
| Progress.WorkerStepDescends | internal/monitor/service.go:120-136 | Every worker step lowers a measure over queued jobs and worker phases |
| Progress.ShutdownIsNeverStuck | internal/monitor/service.go:91-109 | Once the service is cancelled and until Run returns: the loop can step until it has closed the queue, then some worker can until Run can return, with no slot in use |
| Progress.CancelReachesWorkers | internal/monitor/service.go:123-133 | Once the service is cancelled, a worker waiting for the semaphore can go on without a check, and one about to report can exit |
| Progress.ShutdownIsBounded | internal/monitor/service.go:91-96 | Worker steps after the closing of the queue are bounded by the measure at the closing |
| Progress.ReturnLeavesNothingBehind | internal/monitor/service.go:91 | When Run has returned every worker has exited and the semaphore is free |
| Progress.MovesAreBounded | internal/monitor/service.go:94-117 | From one tick to the next, all steps of workers and loop together are bounded by a measure |
| Progress.NoDeadlock | internal/monitor/service.go:93-117 | Until the service is cancelled: the loop can go on whenever it is inside a scan, and whenever an endpoint is in flight the loop or some worker can |
| Progress.CancelLeadsToReturn | internal/monitor/service.go:91-109 | From every reachable state in which the service is cancelled, workers and loop alone bring Run to its return within the measure, with no tick and no time passing |
| Progress.EnvironmentIsFree | internal/monitor/service.go:93-166 | The step system takes nothing for granted: time may pass and cancellation may come at any moment, ticks may be late, and any maintenance verdict, any answer within the assumption and any store failure is possible |
| Progress.DecisionsAreSpaced | internal/monitor/service.go:97-113 | Two decisions on one endpoint, dispatch or drop, come from ticks at least its interval apart, however late ticks are processed |
| Progress.RestsAfterCompletion | internal/monitor/service.go:97-103 | After a completion is received, no tick earlier than the interval later decides on the endpoint |
| Progress.QueueFullIsReachable | internal/monitor/service.go:110-113 | With a shorter queue than there are endpoints there is a run that reaches the queue-full branch |
| Monitoring.StoredInOrder | internal/monitor/service.go:163 | A whole run started on an empty store stores each endpoint's results in check-time order |
| Monitoring.LatencyAsDocumented | docs/slo.md:9 | On what a run stores, latency compliance counts exactly the documented checks |
| Monitoring.RunsLeaveSoundLogs | internal/store/memory.go:41-79 | However a run is scheduled, an endpoint's transitions are one chain of changes to its newest state and its alerts are as many as the window allows |
| Deployment.ServiceRuns | internal/monitor/service.go:163-168 | The service on the database, statements interleaved with everything else, is a run of the step system, so all its theorems hold there |
| Deployment.OneTransactionPerEndpoint | internal/store/postgres.go:86-91 | One process never has two transactions open about one endpoint, whatever the lock hash |
| Deployment.CommitsInOrder | internal/monitor/service.go:163 | One process started on empty tables commits each endpoint's results in check-time order, all with one window |
| Deployment.DatabaseIsSound | internal/store/postgres.go:85-161 | In every state of its runs, for any aborts: transitions form one chain to the newest state, alerts of a state are more than the window apart, and the rows are the in-memory store's if and only if no committed result was on the boundary |
| Deployment.CommitsAreAlerted | internal/store/postgres.go:136-156 | In every deployed run, every committed Degraded or Unavailable result and every Healthy one after another state has an alert row of its endpoint and state at most the window older, or of its own instant |
| Deployment.AlertsAreOfCommits | internal/store/postgres.go:136-156 | And every alert row is, field by field, about such a commit |
| Deployment.SkippedOnlyWhenDown | internal/monitor/service.go:146-151 | When a check is skipped, the newest committed verdict is Unavailable if and only if one of the trailing run of Unavailable verdicts was committed, or the newest commit before that run was Unavailable; the run is at least as long as opens the circuit |
| DeployedProgress.NoDeadlock | internal/monitor/service.go:93-168 | Until the service is cancelled: the loop can go on whenever it is inside a scan, and whenever an endpoint is in flight the loop, some worker or some transaction can |
| DeployedProgress.LabourSpends | internal/monitor/service.go:120-168 | Every worker step and every statement lowers a measure over queued jobs, worker phases and statements left |
| DeployedProgress.MovesAreBounded | internal/monitor/service.go:94-117 | From one tick to the next, all steps of workers and loop and all statements together are bounded by a measure |
| DeployedProgress.ShutdownIsNeverStuck | internal/monitor/service.go:91-109 | Once the service is cancelled and until Run returns: the loop can step until it has closed the queue, then some worker or transaction can until Run can return |
| DeployedProgress.ShutdownIsBounded | internal/monitor/service.go:91-96 | From the closing of the queue on, worker steps and statements together are bounded by the measure at the closing |
| DeployedProgress.ReturnLeavesNothingOpen | internal/monitor/service.go:91 | When Run has returned no transaction is open and no advisory lock is held |
| DeployedProgress.CancelLeadsToReturn | internal/monitor/service.go:91-109 | From every reachable state in which the service is cancelled, workers, loop and transactions alone bring Run to its return within the measure |
| DeployedProgress.ScanGoesOn | internal/monitor/service.go:101-115 | Loop.ScanGoesOn on the database |
| DeployedProgress.CancelIsSeen | internal/monitor/service.go:95-109 | Loop.CancelIsSeen on the database |
| DeployedProgress.PassedEndpoint | internal/monitor/service.go:101-114 | Loop.PassedEndpoint on the database |
| DeployedProgress.NothingReadyIsLeft | internal/monitor/service.go:101-115 | Loop.NothingReadyIsLeft on the database |
| Snapshot.AddState | internal/monitor/service.go:242-259 | Of the five counters exactly the one of the shown state grows by one, and the total stays; no result counts as Unknown |
| Snapshot.StatusFor | internal/monitor/service.go:188-212 | A status reports the newest result, its newest transitions, at most ten, and figures and uptime that are those of the endpoint's own results, state by state |
| Snapshot.Snapshot | internal/monitor/service.go:180-217 | One correct status for each endpoint in order, and an aggregate whose five counters say how often their states are shown |
| Snapshot.CountersAddUp | internal/monitor/service.go:213-215 | The five counters account for every endpoint |
| Snapshot.PageLeadsToShown | internal/monitor/service.go:197-211 | The transitions listed form a chain that ends in the state shown, and are missing only while that is Unknown |
| DatabaseStatus.StatusesAgree | internal/monitor/service.go:180-217 | If the endpoint's check times are in commit order: read from the database at rest, its status is the one the in-memory store would give, ids aside |
| DatabaseStatus.DeployedStatus | internal/monitor/service.go:180-217 | In every state of a deployed run this holds without that assumption |
| DatabaseStatus.AggregatesAgree | internal/monitor/service.go:242-259 | Statuses that agree are counted alike |

## Left out

- Probing over HTTP, TCP, DNS and TLS, with the result fields only it fills: the executor is arbitrary within the assumption above.
- Web interface, metrics, logging, YAML decoding and defaults: reporting and input plumbing around the engine.
- SQL text, connection pooling, retries at startup, and the millisecond and microsecond precision of the database's columns: tables are sequences of rows with exact times and latencies.
- A deployment that starts on tables an earlier process filled, or shares them with another one, is not joined to the scheduler; `PostgresStore.dfy` and `Stores.dfy` cover any number of writers.
- Monitoring.StoredInOrder: for a run that starts on an empty store; results left by an earlier process are covered only by the invariant that later ones do not precede them.
- Perform.Perform: for a retry count that is not negative, as configuration guarantees (`internal/config/config.go:153-155`); for a negative one the source records a result without an endpoint.
- The database's transition pages over all endpoints at once: `Pages.dfy` is about one endpoint, since row ids of different endpoints need not follow commit order.
- Alert listings of both stores: the in-memory one sorts with an unstable library sort, so the order of alerts with equal times is unspecified.
- The unused endpoint registry of the in-memory store and the upsert of endpoints into the database.
- Consistency of a snapshot taken while results are being recorded: it reads the store several times, so `Snapshot.dfy` is about a store at rest.
- Lookup of a single endpoint's status, which selects from a snapshot.
- Saturation of a difference of two far-apart times, and overflow of the failure counter and the row-id counter: times and counters are unbounded integers. The doubling of retry delays does wrap.
- Conversion of an out-of-range jittered delay from floating point, and floating-point rounding of ratios and jitter: these are exact reals.
- The panic on a negative queue size, and starvation of one ready select case by others, such as of a cancellation by ticks: queue sizes are natural numbers, and progress is possible and bounded from one tick to the next rather than forced.
