# autoau control plane in Dafny

This project models the control plane of *autoau*, a service that keeps a
roster of accounts "available" on a members' website. It does not model the
browser automation itself. Each cycle splits the roster into batches, processes
each account with a bounded number of attempts, and sleeps longer or shorter
depending on how the cycle went. Around that loop sit four pieces:

- a **resource manager**: a load score from system metrics, a load category, and
  the concurrency, batch size, sleep interval, timeouts and backoff derived from
  them; rolling success and error windows; a cached metrics sample; and a merged
  configuration;
- an **error service**: it classifies failures by type name and message into a
  scope and a severity, records them in a bounded history with per-scope
  counters, and retries an operation under a per-scope policy with adaptive
  dampening and an escalation stop;
- a **session service**: an in-memory map from e-mail address to saved browser
  session, with a validator, an expiry sweep, and save, apply, delete and clear;
- the **per-account timing rules**: an operation timeout check, the network check
  with exponential backoff, and the refresh loop that decides between
  reactivating the account, stopping for the night, and refreshing the page.

The model has one module per concern:

- `Common`: options, substring search, ASCII lower-casing, powers, and the
  "newest n" suffix;
- `LoadPolicy`: the pure calculations of resource_manager.py;
- `ResourceManagement`: the `ResourceManager` class;
- `ErrorClassification` and `ErrorHandling`: the `ErrorService` class and the
  specification of its retry loop;
- `Orchestration`: service_wrapper.py;
- `Sessions`: the `SessionService` class;
- `AccountTiming`: the rules of main.py.

Objects that the source updates in place are classes:

- `ResourceManager`, `ErrorService` and `SessionService`;
- their lists and dictionaries are `seq` and `map` fields that the methods
  reassign;
- every loop of the source is a `while` loop with invariants, proved against a
  specification function.

Clocks, random draws, the driver, HTTP replies and the callbacks under retry are
parameters. A callback that is called repeatedly is a function from the call
number to what that call did.

Some consequences of the code as written, which the model follows:

- `get_optimal_batch_size` applies the `min_size` floor after capping at the
  number of accounts. A roster smaller than `min_size` therefore gets a batch of
  `min_size`, which is more than the accounts. `OptimalBatchSize` states the
  bound only when `min_size` does not exceed the roster.
- `get_optimal_processes` applies the `min_processes` floor last, so the result
  can exceed the number of cores. `OptimalProcesses` states that bound with the
  floor taken into account.
- `run_service` picks the next cycle's delay (300, 600 or 900 seconds) from the
  cycle's success rate alone; the sleep interval of the resource manager plays
  no part. When a cycle raises, the function returns 1 and the service ends.
- `process_single_account` calls `main` directly, at most three times, so a
  failing account is attempted three times; the error service's retry loop is
  not involved.

## Model

| member | source | states |
|---|---|---|
| LoadPolicy.LoadScore | resource_manager.py:367-418 | the score never exceeds 100; it is non-negative for non-negative metrics and a positive threshold; a missing or zero memory threshold gives the fallback 50 |
| LoadPolicy.CpuScore | resource_manager.py:385-390 | the normalised load, capped at 100, when the sample has one; otherwise the CPU percentage (0 if missing) |
| LoadPolicy.ProcessScore | resource_manager.py:401-403 | Chrome memory as a percentage of the memory threshold, never above 100 and non-negative for a positive threshold |
| LoadPolicy.LoadScoreMonotone | resource_manager.py:379-413 | the score is monotone in every metric it reads |
| LoadPolicy.UniformLoadScore | resource_manager.py:379-413 | the weights sum to one: equal components give that value as the score |
| LoadPolicy.CategoryOf | resource_manager.py:563-578 | low below 40, medium from 40 to below 70, high from 70; a missing score counts as 50 |
| LoadPolicy.CategoryMonotone | resource_manager.py:573-578 | a higher score never gives a lower category |
| LoadPolicy.CategoryBoundaries | resource_manager.py:571-578 | 39.99 is low, 40 medium, 69.99 medium, 70 high; a missing score is medium |
| LoadPolicy.PeriodOfHour | resource_manager.py:580-596 | the four periods partition the hours exactly as the four ranges say |
| LoadPolicy.OptimalProcesses | resource_manager.py:660-690 | within [min, max] when those are ordered; at most the larger of the floor and the cores; the floor under high load |
| LoadPolicy.ProcessesShrinkWithLoad | resource_manager.py:676-690 | with ordered bounds, low ≥ medium ≥ high |
| LoadPolicy.BatchFactor | resource_manager.py:709-717 | the size factor is positive, and exactly 1.0 under medium load |
| LoadPolicy.OptimalBatchSize | resource_manager.py:692-726 | within [min, max] when ordered; at most the roster when the floor allows; the floor for a roster below it |
| LoadPolicy.DefaultBatchSizes | resource_manager.py:709-726 | with default 5 in [2, 10] the categories give 7, 5 and 3 |
| LoadPolicy.BatchShrinksWithLoad | resource_manager.py:709-726 | a higher category never gives a larger batch |
| Common.Truncate | resource_manager.py:720 | `int()` truncates toward zero |
| Common.TruncateMonotone | resource_manager.py:720 | truncation of non-negative values is monotone |
| LoadPolicy.SleepLoadFactor | resource_manager.py:744-749 | the load factor of the sleep interval is positive, and exactly 1.0 under medium load |
| LoadPolicy.SleepTimeFactor | resource_manager.py:751-756 | the time-of-day factor is positive, and exactly 1.0 in the afternoon |
| LoadPolicy.SleepInterval | resource_manager.py:728-776 | the result is clamped to [min_interval, max_interval] |
| LoadPolicy.JitterWithinFactor | resource_manager.py:763-770 | the jitter moves the nominal interval by at most the jitter factor either way |
| LoadPolicy.OperationFactor | resource_manager.py:797-808 | every tabled operation factor is positive |
| LoadPolicy.TimeoutFactor | resource_manager.py:792-808 | the configured load factor (1.0 if absent), times the operation factor when the operation is listed; LoadPolicy.TimeoutFactorNonNegative states it is non-negative for non-negative configured factors |
| LoadPolicy.AdjustedTimeout | resource_manager.py:778-814 | never below one second, and equal to the scaled timeout when that is at least one |
| LoadPolicy.ClampedScaleMonotone | resource_manager.py:810-814 | the one-second floor keeps scaling by a non-negative factor monotone |
| LoadPolicy.AdjustedTimeoutMonotone | resource_manager.py:790-814 | a longer base timeout never gives a shorter adjusted one |
| LoadPolicy.BackoffFactor | resource_manager.py:829-839 | the growth factor is at least 2 |
| LoadPolicy.BackoffJitterMonotone | resource_manager.py:845-849 | the ±10% jitter preserves order for the same draw |
| LoadPolicy.BackoffJitter | resource_manager.py:844-849 | for a non-negative delay and a draw in [0, 1], the jittered delay stays within ten percent of the delay |
| LoadPolicy.BackoffDelay | resource_manager.py:816-852 | the delay is at least one second |
| LoadPolicy.BackoffGrows | resource_manager.py:842-852 | for the same draw a later attempt never waits less |
| LoadPolicy.ShouldDefer | resource_manager.py:644-658 | defer exactly when the score (0 if missing) is strictly above the threshold |
| LoadPolicy.DeferImpliesHigh | resource_manager.py:644-658 | with a threshold of at least 70 deferral implies the high category; a missing score never defers |
| ResourceManagement.Pushed | resource_manager.py:598-615 | a push onto a window within capacity stays within capacity and keeps the newest entries |
| ResourceManagement.PushedKeepsNewest | resource_manager.py:602-604 | one push keeps the newest 100 entries (FIFO eviction) |
| ResourceManagement.PushedAllKeepsNewest | resource_manager.py:602-604 | any number of pushes keeps exactly the newest 100 of all entries, e.g. 100 of 150 |
| ResourceManagement.CountTrue | resource_manager.py:628 | the count of successes never exceeds the window length |
| ResourceManagement.CountTrueAppend | resource_manager.py:628 | counting distributes over concatenation |
| ResourceManagement.SuccessRateOf | resource_manager.py:617-628 | the rate is in [0, 1] and 1.0 for an empty window |
| ResourceManagement.ErrorRateOf | resource_manager.py:630-642 | the rate is in [0, 1] and 0.0 before any report |
| ResourceManagement.ErrorNeverRaisesSuccessRate | resource_manager.py:606-615 | a reported error never raises the success rate |
| ResourceManagement.SuccessNeverLowersSuccessRate | resource_manager.py:598-604 | a reported success never lowers the success rate |
| ResourceManagement.Merged | resource_manager.py:519-533 | no top-level key is added or lost; keys outside the update are unchanged; where either side is not a section the update value replaces the old one; two sections keep the union of their keys |
| ResourceManagement.MergeIdempotent | resource_manager.py:526-533 | applying the same update twice equals applying it once |
| ResourceManagement.MergeSectionKeyByKey | resource_manager.py:529-531 | nested sections merge key by key: update keys win, other keys stay |
| ResourceManagement.Chosen | resource_manager.py:491 | a missing or empty configuration falls back to the defaults; any other configuration is used as given |
| ResourceManagement.DefaultSettings | resource_manager.py:25-80 | the defaults hold a load-check interval of 30, a deferral threshold of 80 and a default memory threshold of 500 |
| ResourceManagement.DefaultNeverRaises | resource_manager.py:491-505 | building a manager on the defaults finds its check interval |
| ResourceManagement.NewResourceManager | resource_manager.py:484-506 | construction fails exactly when the chosen configuration lacks `adaptive.load_check_interval` (the `KeyError`); otherwise a fresh manager on the chosen configuration |
| ResourceManagement.ResourceManager.constructor | resource_manager.py:484-506 | on the chosen configuration, which must hold the check interval: zero counters, five successes and five non-errors, an empty cache, the configured check interval |
| ResourceManagement.ResourceManager.SetConfig | resource_manager.py:519-536 | the loop over update keys leaves exactly the merged configuration |
| ResourceManagement.ResourceManager.Reading | resource_manager.py:556-558 | a new reading keeps the sample and scores it against the configured default memory threshold |
| ResourceManagement.ResourceManager.GetSystemLoad | resource_manager.py:538-561 | a fresh cache within the interval is returned unchanged; otherwise a new sample is taken and stamped |
| ResourceManagement.ResourceManager.GetLoadCategory | resource_manager.py:562-577 | the category of the score `get_system_load()` leaves in the cache; the cache is untouched while fresh and replaced by a new reading otherwise |
| ResourceManagement.ResourceManager.ShouldDeferProcessing | resource_manager.py:644-658 | the load is read first, with the same cache behaviour; a missing threshold is the `KeyError`; otherwise defer iff the score exceeds the threshold |
| ResourceManagement.ResourceManager.ReportSuccess | resource_manager.py:598-604 | one more success, `true` pushed on the success window, the error window untouched |
| ResourceManagement.ResourceManager.ReportError | resource_manager.py:606-615 | one more error, `true` on the error window and `false` on the success window |
| ResourceManagement.ResourceManager.SuccessRate | resource_manager.py:617-628 | in [0, 1], 1.0 for an empty window |
| ResourceManagement.ResourceManager.ErrorRate | resource_manager.py:630-642 | in [0, 1], 0.0 before any report |
| ErrorClassification.Severity.Value | error_service.py:29-34 | the four severities are 1 to 4 |
| ErrorClassification.LowerIdempotent | error_service.py:137 | lower-casing an already lower-cased message changes nothing, which makes the session rule's extra `lower()` harmless |
| ErrorClassification.Classify | error_service.py:126-180 | severity is Medium or High; High exactly for Browser, Auth, System and Resource; Permission is never produced; a timeout marker gives (Timeout, Medium) |
| ErrorClassification.FirstMatch | error_service.py:139-180 | the answer comes from a rule that fires, or is (Unknown, Medium) |
| ErrorClassification.ClassifyIsFirstMatch | error_service.py:139-180 | the classifier is exactly the priority table Timeout, Network, Session, Interaction, Browser, Element, Auth, System, Resource, Unknown |
| ErrorClassification.InitialClassification | error_service.py:195-201 | a `TimeoutError` or a "timeout" message becomes (Timeout, High); otherwise the classifier's answer; the severity never drops |
| ErrorClassification.EffectivePolicy | error_service.py:76-122 | retries in [1, 4], delay in [2, 10], exponential except for Timeout; scopes without an entry use the Unknown policy (2, 5, exponential) |
| ErrorHandling.CountRecent | error_service.py:453-472 | the recent count never exceeds the history |
| ErrorHandling.CountRecentWiderWindow | error_service.py:468-470 | a wider window never counts fewer errors |
| ErrorHandling.JustRecordedIsCounted | error_service.py:447-451 | the record just written is counted among the recent errors of its scope |
| ErrorHandling.BumpedCounts | error_service.py:434 | each counter grows by the number of records of its scope, and no key is lost |
| ErrorHandling.BumpedAppend | error_service.py:434 | recording two batches in turn equals recording them together |
| ErrorHandling.RetryBudget | error_service.py:222-237 | retries in [1, 4]; Timeout gets one retry and at least 5 seconds; exponential except for Timeout |
| ErrorHandling.DampenedBudget | error_service.py:233-237 | more than 5 recent errors halve the retries (floor 1) and double the delay; otherwise the budget is untouched |
| ErrorHandling.AttemptDelay | error_service.py:241-248 | with exponential backoff the sleep never exceeds 60 seconds; without it the sleep is the policy delay |
| ErrorHandling.AttemptDelayNonDecreasing | error_service.py:241-248 | successive sleeps never shrink, are non-negative, and a backoff sleep never exceeds 60 seconds |
| ErrorHandling.RetryTrace | error_service.py:240-316 | at most one sleep per remaining retry and at most one record per sleep; no sleep exactly when the budget is used up |
| ErrorHandling.AllRetriesFail | error_service.py:240-320 | when every retry raises without escalating, each sleeps once and records once, and nothing is returned |
| ErrorHandling.AllRetriesTimeOut | error_service.py:282-288 | retries that only time out sleep every time and record nothing |
| ErrorHandling.EscalationStops | error_service.py:305-309 | a more severe retry failure is recorded and no later retry happens |
| ErrorHandling.ResultComesFromCallback | error_service.py:290-293 | a returned value is the value of a retry whose predecessors did not return |
| ErrorHandling.DelaysBounded | error_service.py:241-255 | with draws in [0, 1] every sleep is within bounds |
| ErrorHandling.PolicyRetries | error_service.py:222-316 | at most four sleeps and no more records than sleeps |
| ErrorHandling.Handled | error_service.py:195-220 | the first record is the initial classification; at most five records and four sleeps; no callback means exactly that one record, no sleep and no result |
| ErrorHandling.ErrorService.constructor | error_service.py:57-64 | every scope's counter is zero and the history is empty |
| ErrorHandling.ErrorService.RecordError | error_service.py:422-451 | the scope's counter goes up by one, and the history is the newest 100 after the new record |
| ErrorHandling.ErrorService.CountRecentErrors | error_service.py:453-472 | the loop counts exactly the recent records of the scope |
| ErrorHandling.Statistics | error_service.py:474-492 | one entry per scope, built record by record over the history; ErrorHandling.StatisticsCountRecent gives each entry's meaning |
| ErrorHandling.StatisticsCountRecent | error_service.py:474-492 | every scope has an entry, and it is the number of that scope's records from the last 24 hours |
| ErrorHandling.ErrorService.GetErrorStatistics | error_service.py:474-492 | the loop builds exactly the per-scope statistics of the current history |
| ErrorHandling.ErrorService.ResetErrorCounters | error_service.py:494-497 | every counter is zero again |
| ErrorHandling.ErrorService.ClearErrorHistory | error_service.py:499-502 | the history is empty |
| ErrorHandling.ErrorService.HandleError | error_service.py:182-320 | the outcome, sleeps and result are those of the retry specification; the history and counters take in exactly its records |
| ErrorHandling.ErrorService.RetryWithPolicy | error_service.py:221-320 | the budget from the recent-error count, then the loop, as the specification says |
| ErrorHandling.ErrorService.RetryLoop | error_service.py:240-320 | the loop produces exactly the specified trace and records it in history and counters |
| ErrorHandling.Advance | error_service.py:240-316 | after each retry the trace continues as the callback's outcome says: stop on a value, on an escalation, or go on to the next retry |
| ErrorHandling.ErrorService.RetryTurn | error_service.py:240-316 | one pass sleeps once, records a raised error, and stops exactly on a value or an escalation |
| ErrorHandling.ErrorService.RecordRetryError | error_service.py:305-312 | recording a retry's error appends its record to the records so far: the history is the newest 100 of all of them and every counter has counted them |
| Orchestration.ChunksFrom | service_wrapper.py:111-112 | the slices from a start index on, one per step; Orchestration.ChunksFromShape and Orchestration.ChunksFromFlatten give their sizes and their concatenation |
| Orchestration.ChunkAccounts | service_wrapper.py:107-112 | a zero step raises; a negative step yields nothing |
| Orchestration.ChunkAccountsPartition | service_wrapper.py:111-112 | for a positive step the chunks, put back together, are the roster; each has between 1 and step accounts; there are ceil(n / step) of them |
| Orchestration.DefaultChunksAtMostFour | service_wrapper.py:109-112 | with the `randint(2, 4)` default every chunk has between 1 and 4 accounts |
| Orchestration.IsTimeBetween | service_wrapper.py:242-247 | an inclusive window, or for a window across midnight everything outside the open gap |
| Orchestration.WrappedWindowIsComplement | service_wrapper.py:246-247 | a window across midnight is the complement of the window from its end to its start |
| Orchestration.RunAccount | service_wrapper.py:276-293 | at most `max_attempts` calls, all but the last raised; "max attempts reached" exactly when every allowed call raised |
| Orchestration.ProcessSingleAccount | service_wrapper.py:295-339 | SUCCESS iff one of the first three calls returned `True` or raised "Toggle already enabled"; FAILED after exactly three calls; sleeps of 5 and 10 seconds between calls |
| Orchestration.Completed | service_wrapper.py:360-368 | never more completed users than results |
| Orchestration.FailedUsers | service_wrapper.py:360-374 | the users whose result was not SUCCESS (another status, a timeout or an exception), in order, never more than the results |
| Orchestration.BatchPartition | service_wrapper.py:360-374 | every user lands in exactly one of completed and failed |
| Orchestration.CompletedAppend | service_wrapper.py:360-374 | sorting two runs of results one after the other equals sorting them together |
| Orchestration.ProcessBatch | service_wrapper.py:341-394 | completed and failed are the successful and the other users, in order |
| Orchestration.InterBatchSleeps | service_wrapper.py:420-422 | every inter-batch sleep is 30 seconds, at most one per batch |
| Orchestration.NoSleepWithoutFailures | service_wrapper.py:420-422 | batches without failures cause no sleep |
| Orchestration.FewerSleepsThanBatches | service_wrapper.py:421 | the last batch is never followed by a sleep |
| Orchestration.NextDelay | service_wrapper.py:424-431 | 300 exactly on full success, 900 exactly on none, 600 otherwise |
| Orchestration.OneMoreBatch | service_wrapper.py:415-418 | one more batch appends that batch's completed and failed users |
| Orchestration.RunServiceCycle | service_wrapper.py:396-445 | the cycle's completed and failed users are those of the whole roster in order; the sleeps follow the failures; an empty roster exits with 1 |
| Sessions.ValidSessionData | session_service.py:116-148 | a record is valid when it has cookies, a creation date and a last-use date that parse, is at most 12 hours old, and its cookies form a non-empty list; Sessions.ValidatorRejections states the rejections |
| Sessions.ValidatorRejections | session_service.py:116-148 | a record is rejected exactly when a field is missing, a date does not parse, it is older than 12 hours, or the cookies are not a non-empty list |
| Sessions.Expired | session_service.py:176-185 | an entry is swept when its last-use date is missing, does not parse, or is more than 12 hours old; Sessions.Live and Sessions.LiveShrinksOverTime state the sweep |
| Sessions.Live | session_service.py:169-189 | the sweep keeps exactly the unexpired sessions, each unchanged |
| Sessions.LiveIdempotent | session_service.py:169-189 | sweeping twice at the same instant removes nothing more |
| Sessions.LiveShrinksOverTime | session_service.py:178-182 | a later sweep keeps no session an earlier one removed |
| Sessions.WholeExpiry | session_service.py:311-312 | only the expiry changes, and it becomes its truncation |
| Sessions.WholeExpiryIdempotent | session_service.py:311-312 | truncating an expiry twice is truncating it once |
| Sessions.Decide | session_service.py:286-327 | the outcome of `apply_session`: not found, broken, stale, or the applied record with whole expiries and `last_used` now; Sessions.AppliedSurvivesSweep and Sessions.AppliedValidates state what an applied record satisfies |
| Sessions.AppliedSurvivesSweep | session_service.py:294-321 | an applied session keeps its creation time, is used `now`, and survives a sweep at `now` |
| Sessions.AppliedValidates | session_service.py:294-321 | an applied session with a non-empty cookie list passes the validator |
| Sessions.SavedRecord | session_service.py:235-242 | a saved record is created and last used at the same instant |
| Sessions.SavedRecordValid | session_service.py:230-242 | a freshly saved record validates and is not swept for 12 hours |
| Sessions.SessionService.constructor | session_service.py:33-35 | the service starts with no sessions |
| Sessions.SessionService.GetSession | session_service.py:202-213 | the stored record, or none for an unknown address |
| Sessions.SessionService.ExpiredAddresses | session_service.py:174-185 | the loop collects exactly the expired addresses |
| Sessions.SessionService.PopAll | session_service.py:188-189 | exactly the collected addresses are removed |
| Sessions.SessionService.CleanupExpiredSessions | session_service.py:169-200 | exactly the expired sessions are removed |
| Sessions.SessionService.SaveSession | session_service.py:215-256 | no cookies or a failing driver leaves the map unchanged and returns none; otherwise the saved record is stored under the address |
| Sessions.SessionService.ApplySession | session_service.py:275-334 | not found and broken records change nothing; a stale record is removed; an applied one is stored with whole expiries and `last_used` now |
| Sessions.SessionService.DeleteSession | session_service.py:392-417 | true exactly when the address had a session; afterwards it has none |
| Sessions.SessionService.CleanupAllSessions | session_service.py:419-438 | returns the prior number of sessions and leaves none |
| AccountTiming.CheckTimeout | main.py:95-104 | raises exactly when the elapsed time exceeds the timeout (300 when none is given); the message names the operation when one is given |
| AccountTiming.TimeoutBoundary | main.py:97-100 | reaching the limit exactly does not raise; the default limit is 300 |
| AccountTiming.TimeoutPersists | main.py:99-100 | a later check never withdraws a timeout |
| AccountTiming.NetworkWaits | main.py:86-91 | the wait schedule: no more waits than attempts; AccountTiming.BackoffDoubles and AccountTiming.NoWaitAfterLastAttempt give its values and its bound |
| AccountTiming.CheckNetwork | main.py:72-93 | at most `max_retries` attempts; unless the sleep raises, true exactly when one of them got 200, stopping there, and the waits follow the backoff schedule; the sleep raises exactly when the timeout is negative and an attempt before the last raises before any 200 |
| AccountTiming.NoWaitsWithoutRaise | main.py:86-91 | no wait is scheduled until an attempt before the last raises |
| AccountTiming.TwoToIsPow | main.py:87 | the integer `2 ** k` is the real power of two |
| AccountTiming.NoWaitAfterLastAttempt | main.py:89-91 | no wait after the last attempt |
| AccountTiming.BackoffDoubles | main.py:86-91 | when every attempt raises, the waits are timeout · 2^k for all but the last attempt |
| AccountTiming.Period | main.py:39 | the period is between 5385 and 6237 seconds |
| AccountTiming.WholeSecondsCompare | main.py:405-409 | dropping microseconds never changes the comparison with the period |
| AccountTiming.StopConditionAsWritten | main.py:439-441 | the stop test as written: true after the start day at or after 02:15, a `TypeError` on the start day whenever the first disjunct is false; AccountTiming.StopConditionRaisesOnStartDay states it |
| AccountTiming.StopCondition | main.py:439-441 | the stop test as intended: after the start day at or after 02:15, or on the start day when the service started between midnight and 2 am and it is at or after 02:15; AccountTiming.StopConditionAgreesOffStartDay relates it to the written test |
| AccountTiming.StopConditionRaisesOnStartDay | main.py:439-441 | as written, the stop test raises on the start day whenever its first half is false |
| AccountTiming.StopConditionCounterexample | main.py:439-441 | started at 01:00, at 02:30 the same day the loop should stop but raises |
| AccountTiming.StopConditionAgreesOffStartDay | main.py:439-441 | after the start day the written and the intended test agree |
| AccountTiming.RefreshStepAsWritten | main.py:409-441 | one tick as written: reactivation once the period has elapsed, otherwise the written stop test, with its `TypeError` as a failed tick; AccountTiming.RefreshStepAsWrittenDiffers states where it departs from the intended step |
| AccountTiming.RefreshStep | main.py:409-474 | reactivate exactly when a period has elapsed; otherwise stop exactly under the stop condition, which needs 02:15 or later |
| AccountTiming.RefreshStepAsWrittenDiffers | main.py:409-474 | as written, every tick before the period on the start day fails; elsewhere the written step is the intended one |
| AccountTiming.MainLoopStep | main.py:188-222 | `main`'s twin loop: the same priority with only the first stop disjunct |
| AccountTiming.TwinLoopsAgreeAfterStartDay | main.py:188-222 | after the start day both loops decide alike |
| AccountTiming.RefreshRun | main.py:397-503 | a run never reactivates more often than it ticks |
| AccountTiming.NoStopBeforeStopTime | main.py:439-472 | the loop never stops for the night before 02:15 Sydney time |
| AccountTiming.StopsOnLaterNight | main.py:439-472 | on a later day at or after 02:15, before the period elapses, the loop stops at once |
| AccountTiming.RefreshCycle | main.py:397-503 | the loop produces exactly the specified run: stopped, failed, or still running, with its reactivations |

## Left out

- Floating point is modelled as exact reals: rates, scores, factors, delays and clock readings. Rounding is not modelled.
- Datetimes are modelled as whole seconds: `ErrorRecord.timestamp` and the session dates. Microseconds, which `datetime.now()` carries, are dropped, so a comparison against the 24-hour, 10-minute or 12-hour windows can differ from the source by less than a second.
- Lower-casing is ASCII only. Python's `str.lower` also folds non-ASCII letters.
- Threads, locks, the process pool, signals and daemon threads are not modelled; each method runs atomically.
  - A retry that outlives `retry_timeout` is the `TimedOut` outcome of the callback.
  - The thread left running after such a timeout is not modelled.
- Logging, sleeping, and killing Chrome processes are left out. Sleeps are returned as sequences of durations.
- System sampling is left out: psutil, container detection, disk and network counters, and a core count of `None`. A sample is a parameter.
- Session files are not modelled: loading at start-up, saving, and deleting. The map side of each operation is modelled.
- `check_session_validity` is left out; it drives a browser.
- Session records with non-string dates are left out; `fromisoformat` would raise `TypeError` on them.
- Sessions.Stamp: dates that carry a UTC offset (such as "...+00:00") are not modelled. `fromisoformat` accepts them, and subtracting the aware result from the naive `datetime.now()` raises `TypeError`. The source then behaves three ways: `_validate_session_data` lets it propagate (session_service.py:137, outside its `except ValueError`); `apply_session` returns False with no change (session_service.py:295, 332-334); the expiry sweep removes the entry (session_service.py:179, 183-185). A `Stamp` is either unparseable or a naive time, so none of the three is captured.
- A `cookies` entry that is an iterable other than a list is modelled as a failure to apply.
- `retry_operation` is not part of this model. It is a second retry loop with a different signature, and nothing in the modelled core calls it.
- `process_batch`'s batch-level exception path is left out. It covers a pool that cannot start or fails while draining.
- `process_single_account`'s outer handler (service_wrapper.py:335-337) is left out. Every exception from `main` is caught by the inner handler and counts as another attempt. The outer handler is reached only when the inner handler itself raises. That cannot happen in the model: `cleanup_chrome` catches every exception (main.py:56-69) and `sleep` gets a positive duration.
- `check_timeout`'s message carries the operation name and the elapsed time, not the formatted text.
- `get_error_statistics` is keyed by scope rather than by the scope's string value.
- `run_service` is modelled one cycle at a time. The loop repeats it forever until interrupted.
- The outcome of `result.get` is a function of the user within a cycle.
- `handle_refresh_cycle` is run for at most a given number of ticks, because the source loop has no bound.
  - A tick whose browser actions fail ends the run, whatever branch it is in.
  - The admin-message close is modelled as never failing, since its failures are caught (main.py:487-495). A failing "Whoops" reload (main.py:480-483) is one of the failing browser actions above. It ends the run with `False` (main.py:499-501).
- `main`'s own refresh loop is modelled only through its decision rule. It catches every exception and continues, and is otherwise a browser script.
- Orchestration.ProcessSingleAccount: `main` as written never returns `True` and never raises. It catches every exception (main.py:251-260) and otherwise returns `None`. "Toggle already enabled" is only a log line (main.py:365), never an exception message. So as written, `process_single_account` never returns SUCCESS. The model keeps `main`'s outcome as a parameter, with both success paths possible.
- ResourceManagement.ResourceManager.SetConfig: a manager built without a configuration shares the module-level default dictionary. `set_config` then changes that dictionary in place, and so do writes through `monitor.config`. Managers built later see those changes. The model gives each manager its own copy of the defaults and does not capture this aliasing.

## Findings

| source | as written | input that shows it | evidently intended | confidence | as-written member | corrected member |
|---|---|---|---|---|---|---|
| main.py:439-441 | `START_TIME >= MIDNIGHT` compares a `datetime.time` with a `timedelta`, which raises `TypeError` whenever the service started today and the first disjunct is false; `handle_refresh_cycle` then returns `False` | started today at 01:00, Sydney time 02:30 (or any tick on the start day before a period has elapsed) | compare the start time with 00:00 and 02:00 as times of day, so a run started between midnight and 2 am stops at 02:15 the same night | high (not executed) | AccountTiming.RefreshStepAsWritten, AccountTiming.StopConditionCounterexample | AccountTiming.RefreshStep |
