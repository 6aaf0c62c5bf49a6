/**
 * The error service's state and its retry loop: per-scope counters, a bounded
 * history of error records, the recent-error count that dampens retries, and
 * `handle_error`, which records a failure and retries a callback under the
 * scope's policy.
 */
module ErrorHandling {
  import opened Common
  import opened ErrorClassification

  const MaxErrorHistory: nat := 100
  /** Upper bound of an exponential-backoff delay, in seconds. */
  const MaxRetryDelay: real := 60.0
  /** More recent errors of one scope than this halve the retries and double the delay. */
  const ConsecutiveErrorsThreshold: nat := 5
  /** Ten minutes, the window of the adaptive dampening, in seconds. */
  const AdaptiveWindow: int := 600
  /** Twenty-four hours, the window of the statistics, in seconds. */
  const StatisticsWindow: int := 86400

  const AllScopes: set<Scope> :=
    {Network, Browser, Element, Auth, System, Timeout, Resource, Permission, Session, Interaction, Unknown}

  lemma ScopeListed(s: Scope)
    ensures s in AllScopes
  {
  }

  /** One entry of the history; timestamps are clock readings in seconds. */
  datatype ErrorRecord = ErrorRecord(
    timestamp: int, scope: Scope, severity: Severity,
    operation: Option<string>, message: string, typeName: string)

  function RecordOf(at: int, c: Classification, f: Failure, operation: Option<string>): ErrorRecord {
    ErrorRecord(at, c.scope, c.severity, operation, f.message, f.typeName)
  }

  // ---------------------------------------------------------------------------
  // Counting

  predicate IsRecent(r: ErrorRecord, scope: Scope, window: int, now: int) {
    r.scope == scope && now - r.timestamp < window
  }

  /** The number of records of `scope` younger than `window` at clock reading `now`. */
  function CountRecent(history: seq<ErrorRecord>, scope: Scope, window: int, now: int): (n: nat)
    ensures n <= |history|
  {
    if history == [] then 0
    else CountRecent(history[..|history| - 1], scope, window, now)
         + (if IsRecent(history[|history| - 1], scope, window, now) then 1 else 0)
  }

  /** The per-scope counts `get_error_statistics` builds, one record of the history at a time. */
  function Statistics(history: seq<ErrorRecord>, now: int): (stats: map<Scope, nat>)
    ensures stats.Keys == AllScopes
    decreases |history|
  {
    if history == [] then map s | s in AllScopes :: 0
    else
      var e := history[|history| - 1];
      var before := Statistics(history[..|history| - 1], now);
      ScopeListed(e.scope);
      if now - e.timestamp < StatisticsWindow then before[e.scope := before[e.scope] + 1] else before
  }

  /** Every scope's statistic is the number of its records from the last 24 hours. */
  lemma {:induction false} StatisticsCountRecent(history: seq<ErrorRecord>, now: int, s: Scope)
    ensures s in Statistics(history, now)
    ensures Statistics(history, now)[s] == CountRecent(history, s, StatisticsWindow, now)
    decreases |history|
  {
    ScopeListed(s);
    if history != [] {
      StatisticsCountRecent(history[..|history| - 1], now, s);
    }
  }

  /** A wider window never counts fewer errors. */
  lemma {:induction false} CountRecentWiderWindow(history: seq<ErrorRecord>, scope: Scope, w1: int, w2: int, now: int)
    requires w1 <= w2
    ensures CountRecent(history, scope, w1, now) <= CountRecent(history, scope, w2, now)
    decreases |history|
  {
    if history != [] {
      CountRecentWiderWindow(history[..|history| - 1], scope, w1, w2, now);
    }
  }

  /** The record just written at `now` is among the recent errors of its scope. */
  lemma JustRecordedIsCounted(history: seq<ErrorRecord>, r: ErrorRecord, window: int)
    requires window > 0
    ensures CountRecent(KeepLast(history + [r], MaxErrorHistory), r.scope, window, r.timestamp) >= 1
  {
    var kept := KeepLast(history + [r], MaxErrorHistory);
    assert kept[|kept| - 1] == r;
  }

  /** The number of records of `scope`, whatever their age. */
  function CountScope(records: seq<ErrorRecord>, scope: Scope): (n: nat)
    ensures n <= |records|
  {
    if records == [] then 0
    else CountScope(records[..|records| - 1], scope) + (if records[|records| - 1].scope == scope then 1 else 0)
  }

  /** `error_counters[scope] += 1`. */
  function Bump(counters: map<Scope, nat>, scope: Scope): map<Scope, nat> {
    counters[scope := (if scope in counters then counters[scope] else 0) + 1]
  }

  /** The counters after recording `records` in order. */
  function Bumped(counters: map<Scope, nat>, records: seq<ErrorRecord>): map<Scope, nat> {
    if records == [] then counters
    else Bump(Bumped(counters, records[..|records| - 1]), records[|records| - 1].scope)
  }

  /** Each counter grows by the number of recorded errors of its scope, and no key is lost. */
  lemma {:induction false} BumpedCounts(counters: map<Scope, nat>, records: seq<ErrorRecord>, scope: Scope)
    requires scope in counters
    ensures Bumped(counters, records).Keys == counters.Keys + set r | r in records :: r.scope
    ensures Bumped(counters, records)[scope] == counters[scope] + CountScope(records, scope)
    decreases |records|
  {
    if records != [] {
      var init := records[..|records| - 1];
      BumpedCounts(counters, init, scope);
      assert records == init + [records[|records| - 1]];
      assert (set r | r in records :: r.scope) == (set r | r in init :: r.scope) + {records[|records| - 1].scope};
    }
  }

  /** Recording two batches one after the other is recording them together. */
  lemma {:induction false} BumpedAppend(counters: map<Scope, nat>, a: seq<ErrorRecord>, b: seq<ErrorRecord>)
    ensures Bumped(Bumped(counters, a), b) == Bumped(counters, a + b)
    decreases |b|
  {
    if b == [] {
      assert a + b == a;
    } else {
      BumpedAppend(counters, a, b[..|b| - 1]);
      assert (a + b)[..|a + b| - 1] == a + b[..|b| - 1];
    }
  }

  // ---------------------------------------------------------------------------
  // Retry budget

  /**
   * The policy `handle_error` retries with: the scope's policy, capped for
   * timeouts, then dampened when the scope has failed more than the threshold
   * number of times in the adaptive window.
   */
  function RetryBudget(scope: Scope, recentCount: nat): (b: Policy)
    ensures 1 <= b.maxRetries <= 4
    ensures b.exponentialBackoff <==> scope != Timeout
    ensures scope == Timeout ==> b.maxRetries == 1 && b.retryDelay >= 5
  {
    var p := EffectivePolicy(scope);
    var capped :=
      if scope == Timeout then Policy(MinInt(p.maxRetries, 1), MaxInt(p.retryDelay, 5), p.exponentialBackoff)
      else p;
    if recentCount > ConsecutiveErrorsThreshold then
      Policy(MaxInt(1, capped.maxRetries / 2), capped.retryDelay * 2, capped.exponentialBackoff)
    else capped
  }

  /** Frequent failures double the delay and never add retries; at most the threshold, the policy is untouched. */
  lemma DampenedBudget(scope: Scope, recentCount: nat)
    ensures recentCount > ConsecutiveErrorsThreshold ==>
              && RetryBudget(scope, recentCount).retryDelay == 2 * RetryBudget(scope, 0).retryDelay
              && RetryBudget(scope, recentCount).maxRetries <= RetryBudget(scope, 0).maxRetries
    ensures recentCount <= ConsecutiveErrorsThreshold ==> RetryBudget(scope, recentCount) == RetryBudget(scope, 0)
    ensures scope != Timeout ==> RetryBudget(scope, 0) == EffectivePolicy(scope)
  {
  }

  /** The sleep before retry number `attempt` (counting from 0), with `jitter` the uniform draw. */
  function AttemptDelay(b: Policy, attempt: nat, jitter: real): (d: real)
    ensures b.exponentialBackoff ==> d <= MaxRetryDelay
    ensures !b.exponentialBackoff ==> d == b.retryDelay as real
  {
    if b.exponentialBackoff then Min(b.retryDelay as real * Pow(2.0, attempt) + jitter, MaxRetryDelay)
    else b.retryDelay as real
  }

  /** With draws in [0, 1] and a delay of at least a second, successive backoff sleeps never shrink. */
  lemma AttemptDelayNonDecreasing(b: Policy, attempt: nat, j1: real, j2: real)
    requires b.retryDelay >= 1 && 0.0 <= j1 <= 1.0 && 0.0 <= j2 <= 1.0
    ensures AttemptDelay(b, attempt, j1) <= AttemptDelay(b, attempt + 1, j2)
    ensures 0.0 <= AttemptDelay(b, attempt, j1)
    ensures b.exponentialBackoff ==> AttemptDelay(b, attempt, j1) <= MaxRetryDelay
  {
    if b.exponentialBackoff {
      var p := Pow(2.0, attempt);
      PowMonotone(2.0, 0, attempt);
      assert Pow(2.0, attempt + 1) == 2.0 * p;
      var d := b.retryDelay as real;
      MulLeft(d, 1.0, p);
      var dp := d * p;
      assert 1.0 <= d <= dp;
      assert d * (2.0 * p) == 2.0 * dp;
      assert dp + j1 <= 2.0 * dp + j2;
    }
  }

  // ---------------------------------------------------------------------------
  // The retry loop as a function of the callback's behaviour

  /** What one run of the retry callback did: returned, raised (at a clock reading), or outlived its timeout. */
  datatype Attempt<R> = Returned(value: R) | Raised(failure: Failure, at: int) | TimedOut

  /**
   * Everything the retry loop depends on: `callback(k)` is what the k-th run of
   * the callback does, `jitter(k)` the uniform draw added to the k-th backoff,
   * `classify` the classifier applied to a retry's exception, `budget` the
   * policy in force and `severity` the severity of the original failure.
   */
  datatype RetryRun<R> = RetryRun(
    callback: nat -> Attempt<R>, jitter: nat -> real, classify: Failure -> Classification,
    budget: Policy, severity: Severity, operation: Option<string>)

  /** The sleeps taken, the errors recorded, and the value returned, if any. */
  datatype Trace<R> = Trace(delays: seq<real>, records: seq<ErrorRecord>, result: Option<R>)

  /** The retries from number `attempt` on. */
  function RetryTrace<R>(run: RetryRun<R>, attempt: nat): (t: Trace<R>)
    ensures attempt <= run.budget.maxRetries ==> |t.delays| <= run.budget.maxRetries - attempt
    ensures |t.records| <= |t.delays|
    ensures t.delays == [] <==> attempt >= run.budget.maxRetries
    decreases run.budget.maxRetries - attempt
  {
    if attempt >= run.budget.maxRetries then Trace([], [], None)
    else
      var d := AttemptDelay(run.budget, attempt, run.jitter(attempt));
      match run.callback(attempt)
      case Returned(v) => Trace([d], [], Some(v))
      case TimedOut =>
        var rest := RetryTrace(run, attempt + 1);
        Trace([d] + rest.delays, rest.records, rest.result)
      case Raised(f, at) =>
        var c := run.classify(f);
        var record := RecordOf(at, c, f, run.operation);
        if c.severity.Value() > run.severity.Value() then Trace([d], [record], None)
        else
          var rest := RetryTrace(run, attempt + 1);
          Trace([d] + rest.delays, [record] + rest.records, rest.result)
  }

  /** A retry that raises without raising the severity: the loop records it and goes on. */
  predicate FailsQuietly<R>(run: RetryRun<R>, k: nat) {
    run.callback(k).Raised? && run.classify(run.callback(k).failure).severity.Value() <= run.severity.Value()
  }

  /** When every retry fails without escalating, each one sleeps once and records once, and nothing is returned. */
  lemma {:induction false} AllRetriesFail<R>(run: RetryRun<R>, attempt: nat)
    requires attempt <= run.budget.maxRetries
    requires forall k :: attempt <= k < run.budget.maxRetries ==> FailsQuietly(run, k)
    ensures var t := RetryTrace(run, attempt);
            && |t.delays| == run.budget.maxRetries - attempt
            && |t.records| == run.budget.maxRetries - attempt
            && t.result == None
    decreases run.budget.maxRetries - attempt
  {
    if attempt < run.budget.maxRetries {
      assert FailsQuietly(run, attempt);
      AllRetriesFail(run, attempt + 1);
    }
  }

  /** Retries that only time out sleep every time and record nothing. */
  lemma {:induction false} AllRetriesTimeOut<R>(run: RetryRun<R>, attempt: nat)
    requires attempt <= run.budget.maxRetries
    requires forall k :: attempt <= k < run.budget.maxRetries ==> run.callback(k).TimedOut?
    ensures var t := RetryTrace(run, attempt);
            |t.delays| == run.budget.maxRetries - attempt && t.records == [] && t.result == None
    decreases run.budget.maxRetries - attempt
  {
    if attempt < run.budget.maxRetries {
      assert run.callback(attempt).TimedOut?;
      AllRetriesTimeOut(run, attempt + 1);
    }
  }

  /** A failure more severe than the original stops the loop right after it is recorded. */
  lemma {:induction false} EscalationStops<R>(run: RetryRun<R>, attempt: nat, k: nat)
    requires attempt <= k < run.budget.maxRetries
    requires forall i :: attempt <= i < k ==> FailsQuietly(run, i)
    requires run.callback(k).Raised?
    requires run.classify(run.callback(k).failure).severity.Value() > run.severity.Value()
    ensures var t := RetryTrace(run, attempt);
            && |t.delays| == k + 1 - attempt && |t.records| == k + 1 - attempt && t.result == None
            && t.records[|t.records| - 1].scope == run.classify(run.callback(k).failure).scope
    decreases k - attempt
  {
    if attempt < k {
      assert FailsQuietly(run, attempt);
      EscalationStops(run, attempt + 1, k);
      var rest := RetryTrace(run, attempt + 1);
      assert RetryTrace(run, attempt).records[1..] == rest.records;
    }
  }

  /** A returned value is the value of some retry, and the retries before it did not return. */
  lemma {:induction false} ResultComesFromCallback<R>(run: RetryRun<R>, attempt: nat)
    ensures var t := RetryTrace(run, attempt);
            t.result.Some? ==>
              var k := attempt + |t.delays| - 1;
              && attempt <= k < run.budget.maxRetries
              && run.callback(k) == Returned(t.result.value)
              && forall i :: attempt <= i < k ==> !run.callback(i).Returned?
    decreases run.budget.maxRetries - attempt
  {
    if attempt < run.budget.maxRetries && !run.callback(attempt).Returned? {
      ResultComesFromCallback(run, attempt + 1);
    }
  }

  /** A sleep is never negative, and a backoff sleep never exceeds the cap. */
  predicate DelayWithinBounds(b: Policy, d: real) {
    0.0 <= d && (b.exponentialBackoff ==> d <= MaxRetryDelay)
  }

  /** With draws in [0, 1], every sleep of the loop is within bounds. */
  lemma {:induction false} DelaysBounded<R>(run: RetryRun<R>, attempt: nat)
    requires run.budget.retryDelay >= 1
    requires forall k :: 0.0 <= run.jitter(k) <= 1.0
    ensures forall i :: 0 <= i < |RetryTrace(run, attempt).delays| ==>
              DelayWithinBounds(run.budget, RetryTrace(run, attempt).delays[i])
    decreases run.budget.maxRetries - attempt
  {
    if attempt < run.budget.maxRetries {
      var d := AttemptDelay(run.budget, attempt, run.jitter(attempt));
      AttemptDelayNonDecreasing(run.budget, attempt, run.jitter(attempt), run.jitter(attempt));
      DelaysBounded(run, attempt + 1);
      var t, rest := RetryTrace(run, attempt), RetryTrace(run, attempt + 1);
      assert t.delays == [d] || t.delays == [d] + rest.delays;
      forall i | 0 <= i < |t.delays|
        ensures DelayWithinBounds(run.budget, t.delays[i])
      {
        if i > 0 {
          assert t.delays[i] == rest.delays[i - 1];
        }
      }
    }
  }

  /** A trace continued from the sleeps and records already taken. */
  function Resumed<R>(delays: seq<real>, records: seq<ErrorRecord>, rest: Trace<R>): Trace<R> {
    Trace(delays + rest.delays, records + rest.records, rest.result)
  }

  lemma ResumedShift<R>(delays: seq<real>, records: seq<ErrorRecord>, ds: seq<real>, rs: seq<ErrorRecord>, rest: Trace<R>)
    ensures Resumed(delays, records, Trace(ds + rest.delays, rs + rest.records, rest.result))
            == Resumed(delays + ds, records + rs, rest)
  {
    assert delays + (ds + rest.delays) == delays + ds + rest.delays;
    assert records + (rs + rest.records) == records + rs + rest.records;
  }

  /** One turn of the retry loop: how the trace still to come continues after retry `attempt`. */
  lemma Advance<R>(run: RetryRun<R>, attempt: nat, delays: seq<real>, recs: seq<ErrorRecord>)
    requires attempt < run.budget.maxRetries
    requires RetryTrace(run, 0) == Resumed(delays, recs, RetryTrace(run, attempt))
    ensures var d := AttemptDelay(run.budget, attempt, run.jitter(attempt));
            match run.callback(attempt)
            case Returned(v) => RetryTrace(run, 0) == Trace(delays + [d], recs, Some(v))
            case TimedOut => RetryTrace(run, 0) == Resumed(delays + [d], recs, RetryTrace(run, attempt + 1))
            case Raised(f, at) =>
              var record := RecordOf(at, run.classify(f), f, run.operation);
              if run.classify(f).severity.Value() > run.severity.Value()
              then RetryTrace(run, 0) == Trace(delays + [d], recs + [record], None)
              else RetryTrace(run, 0) == Resumed(delays + [d], recs + [record], RetryTrace(run, attempt + 1))
  {
    var d := AttemptDelay(run.budget, attempt, run.jitter(attempt));
    var rest := RetryTrace(run, attempt + 1);
    match run.callback(attempt)
    case Returned(v) =>
      assert recs + [] == recs;
    case TimedOut =>
      ResumedShift(delays, recs, [d], [], rest);
    case Raised(f, at) =>
      var record := RecordOf(at, run.classify(f), f, run.operation);
      if run.classify(f).severity.Value() <= run.severity.Value() {
        ResumedShift(delays, recs, [d], [record], rest);
      }
  }

  /**
   * The retries of `handle_error` once the original failure, classified as
   * `c`, is in `history`: the budget comes from the recent errors of its scope,
   * counting the one just recorded.
   */
  function PolicyRetries<R>(history: seq<ErrorRecord>, c: Classification, operation: Option<string>,
                            callback: nat -> Attempt<R>, jitter: nat -> real, now: int): (t: Trace<R>)
    ensures |t.records| <= |t.delays| <= 4
  {
    var recent := CountRecent(history, c.scope, AdaptiveWindow, now);
    RetryTrace(RetryRun(callback, jitter, Classify, RetryBudget(c.scope, recent), c.severity, operation), 0)
  }

  /**
   * All of `handle_error`: the initial failure is recorded at `now`; without a
   * callback nothing else happens; otherwise the retries follow.
   */
  function Handled<R>(history: seq<ErrorRecord>, failure: Failure, operation: Option<string>,
                      callback: Option<nat -> Attempt<R>>, jitter: nat -> real, now: int): (t: Trace<R>)
    ensures |t.records| >= 1 && t.records[0] == RecordOf(now, InitialClassification(failure), failure, operation)
    ensures |t.records| <= 5 && |t.delays| <= 4
    ensures callback.None? ==> t.delays == [] && t.result == None
    ensures callback.None? ==> t.records == [RecordOf(now, InitialClassification(failure), failure, operation)]
  {
    var c := InitialClassification(failure);
    var first := RecordOf(now, c, failure, operation);
    if callback.None? then Trace([], [first], None)
    else
      var rest := PolicyRetries(KeepLast(history + [first], MaxErrorHistory), c, operation, callback.value, jitter, now);
      Trace(rest.delays, [first] + rest.records, rest.result)
  }

  // ---------------------------------------------------------------------------
  // The service

  class ErrorService {
    var errorCounters: map<Scope, nat>
    var recentErrors: seq<ErrorRecord>

    ghost predicate Valid()
      reads this
    {
      errorCounters.Keys == AllScopes && |recentErrors| <= MaxErrorHistory
    }

    constructor ()
      ensures Valid()
      ensures errorCounters == map s | s in AllScopes :: 0
      ensures recentErrors == []
    {
      errorCounters := map s | s in AllScopes :: 0;
      recentErrors := [];
    }

    /** `_record_error`: bumps the scope's counter and appends a record stamped `now`, keeping the newest 100. */
    method RecordError(c: Classification, f: Failure, operation: Option<string>, now: int)
      requires Valid()
      modifies this
      ensures Valid()
      ensures errorCounters == Bump(old(errorCounters), c.scope)
      ensures recentErrors == KeepLast(old(recentErrors) + [RecordOf(now, c, f, operation)], MaxErrorHistory)
    {
      ScopeListed(c.scope);
      errorCounters := errorCounters[c.scope := errorCounters[c.scope] + 1];
      recentErrors := recentErrors + [RecordOf(now, c, f, operation)];
      if |recentErrors| > MaxErrorHistory {
        recentErrors := recentErrors[|recentErrors| - MaxErrorHistory..];
      }
    }

    /** `_count_recent_errors`. */
    method CountRecentErrors(scope: Scope, window: int, now: int) returns (count: nat)
      ensures count == CountRecent(recentErrors, scope, window, now)
    {
      count := 0;
      var i := 0;
      while i < |recentErrors|
        invariant 0 <= i <= |recentErrors|
        invariant count == CountRecent(recentErrors[..i], scope, window, now)
      {
        assert recentErrors[..i + 1][..i] == recentErrors[..i];
        if recentErrors[i].scope == scope && now - recentErrors[i].timestamp < window {
          count := count + 1;
        }
        i := i + 1;
      }
      assert recentErrors[..i] == recentErrors;
    }

    /** `get_error_statistics`: per scope, the records of the last 24 hours. */
    method GetErrorStatistics(now: int) returns (stats: map<Scope, nat>)
      ensures stats == Statistics(recentErrors, now)
    {
      var history := recentErrors;
      stats := map s | s in AllScopes :: 0;
      var i := 0;
      assert history[..0] == [];
      while i < |history|
        invariant 0 <= i <= |history|
        invariant stats == Statistics(history[..i], now)
      {
        var e := history[i];
        assert history[..i + 1][..i] == history[..i];
        ScopeListed(e.scope);
        if now - e.timestamp < StatisticsWindow {
          stats := stats[e.scope := stats[e.scope] + 1];
        }
        i := i + 1;
      }
      assert history[..i] == history;
    }

    /** `reset_error_counters`. */
    method ResetErrorCounters()
      requires Valid()
      modifies this`errorCounters
      ensures Valid()
      ensures errorCounters == map s | s in AllScopes :: 0
    {
      errorCounters := map s | s in AllScopes :: 0;
    }

    /** `clear_error_history`. */
    method ClearErrorHistory()
      requires Valid()
      modifies this`recentErrors
      ensures Valid()
      ensures recentErrors == []
    {
      recentErrors := [];
    }

    /**
     * `handle_error(exception, operation_name, retry_callback)`: returns
     * whether a retry succeeded, its value, and the sleeps taken; every error
     * recorded along the way lands in the history and the counters.
     */
    method HandleError<R>(failure: Failure, operation: Option<string>, callback: Option<nat -> Attempt<R>>,
                          jitter: nat -> real, now: int)
      returns (success: bool, result: Option<R>, delays: seq<real>)
      requires Valid()
      modifies this
      ensures Valid()
      ensures var t := Handled(old(recentErrors), failure, operation, callback, jitter, now);
              && success == t.result.Some? && result == t.result && delays == t.delays
              && recentErrors == KeepLast(old(recentErrors) + t.records, MaxErrorHistory)
              && errorCounters == Bumped(old(errorCounters), t.records)
    {
      ghost var h0, c0 := recentErrors, errorCounters;
      var c := InitialClassification(failure);
      ghost var first := RecordOf(now, c, failure, operation);
      RecordError(c, failure, operation, now);
      assert errorCounters == Bumped(c0, [first]);
      if callback.None? {
        return false, None, [];
      }
      success, result, delays := RetryWithPolicy(c, operation, callback.value, jitter, now);
      ghost var t := PolicyRetries(KeepLast(h0 + [first], MaxErrorHistory), c, operation, callback.value, jitter, now);
      KeepLastAppend(h0 + [first], t.records, MaxErrorHistory);
      AppendAssociative(h0, [first], t.records);
      BumpedAppend(c0, [first], t.records);
    }

    /** The part of `handle_error` after the original failure is recorded: the budget, then the loop. */
    method RetryWithPolicy<R>(c: Classification, operation: Option<string>, callback: nat -> Attempt<R>,
                              jitter: nat -> real, now: int)
      returns (success: bool, result: Option<R>, delays: seq<real>)
      requires Valid()
      modifies this
      ensures Valid()
      ensures var t := PolicyRetries(old(recentErrors), c, operation, callback, jitter, now);
              && success == t.result.Some? && result == t.result && delays == t.delays
              && recentErrors == KeepLast(old(recentErrors) + t.records, MaxErrorHistory)
              && errorCounters == Bumped(old(errorCounters), t.records)
    {
      var recent := CountRecentErrors(c.scope, AdaptiveWindow, now);
      var run := RetryRun(callback, jitter, Classify, RetryBudget(c.scope, recent), c.severity, operation);
      success, result, delays := RetryLoop(run);
    }

    /** The `for attempt in range(max_retries)` loop of `handle_error`. */
    method RetryLoop<R>(run: RetryRun<R>) returns (success: bool, result: Option<R>, delays: seq<real>)
      requires Valid()
      modifies this
      ensures Valid()
      ensures var t := RetryTrace(run, 0);
              && success == t.result.Some? && result == t.result && delays == t.delays
              && recentErrors == KeepLast(old(recentErrors) + t.records, MaxErrorHistory)
              && errorCounters == Bumped(old(errorCounters), t.records)
    {
      ghost var h0, c0 := recentErrors, errorCounters;
      ghost var recs: seq<ErrorRecord> := [];
      assert h0 + recs == h0;
      delays := [];
      var attempt := 0;
      while attempt < run.budget.maxRetries
        invariant 0 <= attempt <= run.budget.maxRetries
        invariant Valid()
        invariant RetryTrace(run, 0) == Resumed(delays, recs, RetryTrace(run, attempt))
        invariant recentErrors == KeepLast(h0 + recs, MaxErrorHistory)
        invariant errorCounters == Bumped(c0, recs)
        decreases run.budget.maxRetries - attempt
      {
        var stop;
        stop, result, delays, recs := RetryTurn(run, attempt, h0, c0, delays, recs);
        if stop {
          return result.Some?, result, delays;
        }
        attempt := attempt + 1;
      }
      assert delays + [] == delays && recs + [] == recs;
      return false, None, delays;
    }

    /** One pass of the retry loop: retry number `attempt`, its sleep, and its record if it raised. */
    method RetryTurn<R>(run: RetryRun<R>, attempt: nat, ghost h0: seq<ErrorRecord>, ghost c0: map<Scope, nat>,
                        delays: seq<real>, ghost recs: seq<ErrorRecord>)
      returns (stop: bool, result: Option<R>, delays': seq<real>, ghost recs': seq<ErrorRecord>)
      requires Valid() && attempt < run.budget.maxRetries
      requires RetryTrace(run, 0) == Resumed(delays, recs, RetryTrace(run, attempt))
      requires recentErrors == KeepLast(h0 + recs, MaxErrorHistory) && errorCounters == Bumped(c0, recs)
      modifies this
      ensures Valid()
      ensures recentErrors == KeepLast(h0 + recs', MaxErrorHistory) && errorCounters == Bumped(c0, recs')
      ensures stop ==> RetryTrace(run, 0) == Trace(delays', recs', result)
      ensures !stop ==> RetryTrace(run, 0) == Resumed(delays', recs', RetryTrace(run, attempt + 1))
    {
      var d := AttemptDelay(run.budget, attempt, run.jitter(attempt));
      Advance(run, attempt, delays, recs);
      delays' := delays + [d];
      match run.callback(attempt) {
        case TimedOut =>
          stop, result, recs' := false, None, recs;
        case Returned(v) =>
          stop, result, recs' := true, Some(v), recs;
        case Raised(f, at) =>
          var nc := run.classify(f);
          RecordRetryError(h0, c0, recs, nc, f, run.operation, at);
          recs' := recs + [RecordOf(at, nc, f, run.operation)];
          stop, result := nc.severity.Value() > run.severity.Value(), None;
      }
    }

    /** `_record_error` for a failed retry, with the history and counters described from the loop's start. */
    method RecordRetryError(ghost h0: seq<ErrorRecord>, ghost c0: map<Scope, nat>, ghost recs: seq<ErrorRecord>,
                            c: Classification, f: Failure, operation: Option<string>, at: int)
      requires Valid()
      requires recentErrors == KeepLast(h0 + recs, MaxErrorHistory) && errorCounters == Bumped(c0, recs)
      modifies this
      ensures Valid()
      ensures recentErrors == KeepLast(h0 + (recs + [RecordOf(at, c, f, operation)]), MaxErrorHistory)
      ensures errorCounters == Bumped(c0, recs + [RecordOf(at, c, f, operation)])
    {
      var record := RecordOf(at, c, f, operation);
      KeepLastAppend(h0 + recs, [record], MaxErrorHistory);
      RecordError(c, f, operation, at);
      assert h0 + (recs + [record]) == h0 + recs + [record];
      assert (recs + [record])[..|recs|] == recs;
    }
  }
}
