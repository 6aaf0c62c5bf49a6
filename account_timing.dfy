/**
 * Per-account timing rules of the automation entry point: the operation
 * timeout check, the network check with its backoff schedule, and the refresh
 * loop that either reactivates the account's availability, stops for the night
 * or refreshes the page. Times of day are seconds since midnight, dates are day
 * numbers, and clock readings are seconds.
 */
module AccountTiming {
  import opened Common

  // ---------------------------------------------------------------------------
  // check_timeout

  /** `DEFAULT_TIMEOUTS['process']`, the fallback when no timeout is given. */
  const ProcessTimeout: real := 300.0

  /** The `TimeoutError` message: the operation name when a non-empty one is given, then the elapsed time. */
  datatype TimeoutMessage = TimeoutMessage(operation: Option<string>, elapsed: real)

  /** `check_timeout(start_time, timeout, operation_name)` at clock reading `now`; `Some` is the raised error. */
  function CheckTimeout(startTime: real, timeout: Option<real>, operation: Option<string>, now: real): (r: Option<TimeoutMessage>)
    ensures r.Some? <==> now - startTime > timeout.GetOr(ProcessTimeout)
    ensures r.Some? ==> r.value.elapsed == now - startTime
    ensures r.Some? ==> (r.value.operation.Some? <==> operation.Some? && operation.value != "")
    ensures r.Some? && r.value.operation.Some? ==> r.value.operation == operation
  {
    var limit := if timeout.None? then ProcessTimeout else timeout.value;
    var elapsed := now - startTime;
    if elapsed > limit then
      Some(TimeoutMessage(if operation.Some? && operation.value != "" then operation else None, elapsed))
    else None
  }

  /** Reaching the limit exactly is not a timeout, and without a limit the process timeout applies. */
  lemma TimeoutBoundary(startTime: real, operation: Option<string>)
    ensures CheckTimeout(startTime, Some(30.0), operation, startTime + 30.0).None?
    ensures CheckTimeout(startTime, None, operation, startTime + 300.0).None?
    ensures CheckTimeout(startTime, None, operation, startTime + 300.5).Some?
  {
  }

  /** A later check never withdraws a timeout. */
  lemma TimeoutPersists(startTime: real, timeout: Option<real>, operation: Option<string>, now: real, later: real)
    requires now <= later && CheckTimeout(startTime, timeout, operation, now).Some?
    ensures CheckTimeout(startTime, timeout, operation, later).Some?
  {
  }

  // ---------------------------------------------------------------------------
  // check_network

  /** What opening the URL gave: a response with a status code, or an exception. */
  datatype Reply = Response(code: int) | Raised

  function TwoTo(k: nat): (r: nat)
    ensures r >= 1
  {
    if k == 0 then 1 else 2 * TwoTo(k - 1)
  }

  /** The integer `2 ** k` agrees with the real power used for backoff elsewhere. */
  lemma {:induction false} TwoToIsPow(k: nat)
    ensures TwoTo(k) as real == Pow(2.0, k)
  {
    if k > 0 {
      TwoToIsPow(k - 1);
    }
  }

  /**
   * The waits before attempt `n` is made: after each failed attempt `k` that
   * raised and is not the last, `timeout * 2 ** k` seconds.
   */
  function NetworkWaits(replies: nat -> Reply, maxRetries: int, timeout: int, n: nat): (r: seq<int>)
    ensures |r| <= n
  {
    if n == 0 then []
    else
      var earlier := NetworkWaits(replies, maxRetries, timeout, n - 1);
      var k := n - 1;
      if replies(k).Raised? && k < maxRetries - 1 then earlier + [timeout * TwoTo(k)] else earlier
  }

  /**
   * `check_network(url, max_retries, timeout)`: `replies(k)` is what attempt `k`
   * gave. Returns the verdict, the attempts made and the waits in between.
   * `raised` is the `ValueError` that `time.sleep` throws out of the exception
   * handler when the wait is negative, which ends the call after that attempt.
   */
  method CheckNetwork(replies: nat -> Reply, maxRetries: int, timeout: int)
    returns (ok: bool, raised: bool, attempts: nat, waits: seq<int>)
    ensures attempts <= MaxInt(maxRetries, 0)
    ensures forall k :: 0 <= k < attempts - 1 ==> replies(k) != Response(200)
    ensures !raised ==> (ok <==> exists k :: 0 <= k < maxRetries && replies(k) == Response(200))
    ensures ok ==> !raised && attempts >= 1 && replies(attempts - 1) == Response(200)
    ensures !ok && !raised ==> attempts == MaxInt(maxRetries, 0)
    ensures !raised ==> waits == NetworkWaits(replies, maxRetries, timeout, attempts)
    ensures raised ==> !ok && timeout < 0 && 1 <= attempts < maxRetries && replies(attempts - 1).Raised?
    ensures raised ==> waits == [] == NetworkWaits(replies, maxRetries, timeout, attempts - 1)
    ensures raised <==> timeout < 0 && exists k :: 0 <= k < maxRetries - 1 && replies(k).Raised?
                                                && forall j :: 0 <= j < k ==> replies(j) != Response(200)
  {
    var attempt := 0;
    waits := [];
    raised := false;
    while attempt < maxRetries
      invariant 0 <= attempt <= MaxInt(maxRetries, 0)
      invariant forall k :: 0 <= k < attempt ==> replies(k) != Response(200)
      invariant waits == NetworkWaits(replies, maxRetries, timeout, attempt)
      invariant timeout < 0 ==> forall k :: 0 <= k < attempt && k < maxRetries - 1 ==> !replies(k).Raised?
      decreases maxRetries - attempt
    {
      match replies(attempt) {
        case Response(code) =>
          if code == 200 {
            return true, false, attempt + 1, waits;
          }
        case Raised =>
          if attempt < maxRetries - 1 {
            if timeout < 0 {
              NoWaitsWithoutRaise(replies, maxRetries, timeout, attempt);
              return false, true, attempt + 1, [];
            }
            waits := waits + [timeout * TwoTo(attempt)];
          }
      }
      attempt := attempt + 1;
    }
    return false, false, attempt, waits;
  }

  /** No wait is scheduled until an attempt before the last raises. */
  lemma {:induction false} NoWaitsWithoutRaise(replies: nat -> Reply, maxRetries: int, timeout: int, n: nat)
    requires forall k :: 0 <= k < n && k < maxRetries - 1 ==> !replies(k).Raised?
    ensures NetworkWaits(replies, maxRetries, timeout, n) == []
  {
    if n > 0 {
      NoWaitsWithoutRaise(replies, maxRetries, timeout, n - 1);
    }
  }

  /** There is no wait after the last attempt, so at most `max_retries - 1` waits. */
  lemma {:induction false} NoWaitAfterLastAttempt(replies: nat -> Reply, maxRetries: int, timeout: int, n: nat)
    requires 1 <= maxRetries && n <= maxRetries
    ensures |NetworkWaits(replies, maxRetries, timeout, n)| <= MinInt(n, maxRetries - 1)
  {
    if n > 0 {
      NoWaitAfterLastAttempt(replies, maxRetries, timeout, n - 1);
    }
  }

  /** When every attempt raises, the waits double: `timeout`, `2 * timeout`, `4 * timeout`, ... */
  lemma {:induction false} BackoffDoubles(replies: nat -> Reply, maxRetries: int, timeout: int, n: nat)
    requires 1 <= maxRetries && n <= maxRetries
    requires forall k :: 0 <= k < n ==> replies(k).Raised?
    ensures var w := NetworkWaits(replies, maxRetries, timeout, n);
            && |w| == MinInt(n, maxRetries - 1)
            && forall i :: 0 <= i < |w| ==> w[i] == timeout * TwoTo(i)
  {
    if n > 0 {
      BackoffDoubles(replies, maxRetries, timeout, n - 1);
    }
  }

  // ---------------------------------------------------------------------------
  // The refresh loop's decision rule

  /** `MIDNIGHT`, `TWO_AM` and `STOP_TIME` (02:15), as seconds since midnight. */
  const Midnight: int := 0
  const TwoAm: int := 2 * 3600
  const StopTime: int := 2 * 3600 + 15 * 60

  /** `PERIOD`: one hour plus the drawn minutes and seconds. */
  function Period(minutes: int, seconds: int): (p: int)
    requires 29 <= minutes <= 43 && 45 <= seconds <= 57
    ensures 5385 <= p <= 6237
  {
    3600 + minutes * 60 + seconds
  }

  /** When the service started: `START_DATE` and `START_TIME`. */
  datatype Start = Start(date: int, timeOfDay: int)

  /** One tick of the loop: the clock read as `timestamp2`, `date_now`, the Sydney time of day, and `timestamp` reset after a reactivation. */
  datatype Tick = Tick(clock: real, date: int, sydneyTime: int, reactivatedClock: real, uiWorks: bool)

  datatype Step = Reactivate | StopForNight | Refresh

  /** `t_delta` with its microseconds dropped: whole seconds, rounded down. */
  function WholeSeconds(elapsed: real): int {
    elapsed.Floor
  }

  /** Dropping the microseconds never changes the comparison with a whole-second period. */
  lemma WholeSecondsCompare(elapsed: real, period: int)
    ensures WholeSeconds(elapsed) >= period <==> elapsed >= period as real
  {
  }

  /** What the stop condition at main.py:439-441 evaluates to as written; `TypeError` is the comparison of a time with a duration. */
  datatype Verdict = Holds | DoesNotHold | TypeError

  /**
   * The stop condition as written: when the first disjunct is false and the
   * service started today, `START_TIME >= MIDNIGHT` compares a `datetime.time`
   * with a `timedelta`, which raises before the rest is looked at.
   */
  function StopConditionAsWritten(start: Start, today: int, sydneyTime: int): Verdict {
    if start.date < today && sydneyTime >= StopTime then Holds
    else if start.date == today then TypeError
    else DoesNotHold
  }

  /** The stop condition as evidently intended: `START_TIME` compared with 00:00 and 02:00 as times of day. */
  predicate StopCondition(start: Start, today: int, sydneyTime: int) {
    || (start.date < today && sydneyTime >= StopTime)
    || (start.date == today && Midnight <= start.timeOfDay <= TwoAm && sydneyTime >= StopTime)
  }

  /** The written condition raises on every tick of the start day where the first disjunct fails, even when the intended one holds. */
  lemma StopConditionRaisesOnStartDay(start: Start, today: int, sydneyTime: int)
    requires start.date == today
    ensures StopConditionAsWritten(start, today, sydneyTime) == TypeError
  {
  }

  /** A concrete case: started at 01:00 today, it is 02:30 in Sydney; the loop should stop but raises instead. */
  lemma StopConditionCounterexample()
    ensures StopCondition(Start(10, 3600), 10, 9000)
    ensures StopConditionAsWritten(Start(10, 3600), 10, 9000) == TypeError
  {
  }

  /** Off the start day the written and the intended condition agree. */
  lemma StopConditionAgreesOffStartDay(start: Start, today: int, sydneyTime: int)
    requires start.date != today
    ensures StopConditionAsWritten(start, today, sydneyTime) == (if StopCondition(start, today, sydneyTime) then Holds else DoesNotHold)
  {
  }

  /** The step `handle_refresh_cycle` takes as written; `None` is the `TypeError`, which ends the loop with `False`. */
  function RefreshStepAsWritten(elapsed: real, period: int, start: Start, today: int, sydneyTime: int): Option<Step> {
    if WholeSeconds(elapsed) >= period then Some(Reactivate)
    else match StopConditionAsWritten(start, today, sydneyTime)
      case Holds => Some(StopForNight)
      case DoesNotHold => Some(Refresh)
      case TypeError => None
  }

  /**
   * The step `handle_refresh_cycle` takes with the intended stop condition:
   * reactivation once a period has elapsed comes first; then the stop for the
   * night; otherwise a plain refresh.
   */
  function RefreshStep(elapsed: real, period: int, start: Start, today: int, sydneyTime: int): (s: Step)
    ensures s == Reactivate <==> elapsed >= period as real
    ensures s == StopForNight <==> elapsed < period as real && StopCondition(start, today, sydneyTime)
    ensures s == StopForNight ==> sydneyTime >= StopTime
  {
    WholeSecondsCompare(elapsed, period);
    if WholeSeconds(elapsed) >= period then Reactivate
    else if StopCondition(start, today, sydneyTime) then StopForNight
    else Refresh
  }

  /** As written, the loop fails on the start day on every tick before a period has elapsed; elsewhere it agrees with the intended step. */
  lemma RefreshStepAsWrittenDiffers(elapsed: real, period: int, start: Start, today: int, sydneyTime: int)
    ensures start.date == today && elapsed < period as real ==> RefreshStepAsWritten(elapsed, period, start, today, sydneyTime).None?
    ensures start.date != today || elapsed >= period as real ==>
            RefreshStepAsWritten(elapsed, period, start, today, sydneyTime) == Some(RefreshStep(elapsed, period, start, today, sydneyTime))
  {
    WholeSecondsCompare(elapsed, period);
  }

  /** The twin loop in `main`: the same priority, but only the first stop disjunct. */
  function MainLoopStep(elapsed: real, period: int, start: Start, today: int, sydneyTime: int): (s: Step)
    ensures s == Reactivate <==> elapsed >= period as real
    ensures s == StopForNight <==> elapsed < period as real && start.date < today && sydneyTime >= StopTime
  {
    WholeSecondsCompare(elapsed, period);
    if WholeSeconds(elapsed) >= period then Reactivate
    else if start.date < today && sydneyTime >= StopTime then StopForNight
    else Refresh
  }

  /** The two loops decide alike except on the start day, where only the refresh cycle stops for a start between 00:00 and 02:00. */
  lemma TwinLoopsAgreeAfterStartDay(elapsed: real, period: int, start: Start, today: int, sydneyTime: int)
    requires start.date != today
    ensures MainLoopStep(elapsed, period, start, today, sydneyTime) == RefreshStep(elapsed, period, start, today, sydneyTime)
  {
  }

  // ---------------------------------------------------------------------------
  // handle_refresh_cycle

  datatype CycleEnd = Stopped | Failed | StillRunning

  /** How a run of the refresh loop ends and how many reactivations it made. */
  datatype Run = Run(end: CycleEnd, reactivations: nat)

  function Credited(r: Run, n: nat): Run {
    r.(reactivations := r.reactivations + n)
  }

  /**
   * The refresh loop from tick `k` on, for at most `fuel` more ticks, with the
   * intended stop condition. A tick whose browser actions fail ends the loop
   * with `False`; a stop for the night ends it with `True`.
   */
  function RefreshRun(ticks: nat -> Tick, period: int, start: Start, timestamp: real, k: nat, fuel: nat): (r: Run)
    ensures r.reactivations <= fuel
    decreases fuel
  {
    if fuel == 0 then Run(StillRunning, 0)
    else
      var t := ticks(k);
      if !t.uiWorks then Run(Failed, 0)
      else match RefreshStep(t.clock - timestamp, period, start, t.date, t.sydneyTime)
        case Reactivate => Credited(RefreshRun(ticks, period, start, t.reactivatedClock, k + 1, fuel - 1), 1)
        case StopForNight => Run(Stopped, 0)
        case Refresh => RefreshRun(ticks, period, start, timestamp, k + 1, fuel - 1)
  }

  /** The loop never stops for the night while it is before 02:15 in Sydney. */
  lemma {:induction false} NoStopBeforeStopTime(ticks: nat -> Tick, period: int, start: Start, timestamp: real, k: nat, fuel: nat)
    requires forall j :: k <= j < k + fuel ==> ticks(j).sydneyTime < StopTime
    ensures RefreshRun(ticks, period, start, timestamp, k, fuel).end != Stopped
    decreases fuel
  {
    if fuel > 0 && ticks(k).uiWorks {
      var t := ticks(k);
      NoStopBeforeStopTime(ticks, period, start, t.reactivatedClock, k + 1, fuel - 1);
      NoStopBeforeStopTime(ticks, period, start, timestamp, k + 1, fuel - 1);
    }
  }

  /** With working browser actions and a first tick at or after 02:15 on a later day, the loop stops at once unless a period has elapsed. */
  lemma StopsOnLaterNight(ticks: nat -> Tick, period: int, start: Start, timestamp: real, k: nat, fuel: nat)
    requires fuel > 0 && ticks(k).uiWorks
    requires start.date < ticks(k).date && ticks(k).sydneyTime >= StopTime
    requires ticks(k).clock - timestamp < period as real
    ensures RefreshRun(ticks, period, start, timestamp, k, fuel) == Run(Stopped, 0)
  {
  }

  /** `handle_refresh_cycle` for at most `fuel` ticks; `startClock` is the first `timestamp`. */
  method RefreshCycle(ticks: nat -> Tick, period: int, start: Start, startClock: real, fuel: nat) returns (end: CycleEnd, reactivations: nat)
    ensures Run(end, reactivations) == RefreshRun(ticks, period, start, startClock, 0, fuel)
  {
    var timestamp := startClock;
    var k := 0;
    reactivations := 0;
    while k < fuel
      invariant 0 <= k <= fuel
      invariant RefreshRun(ticks, period, start, startClock, 0, fuel)
                == Credited(RefreshRun(ticks, period, start, timestamp, k, fuel - k), reactivations)
      decreases fuel - k
    {
      var t := ticks(k);
      if !t.uiWorks {
        return Failed, reactivations;
      }
      var step := RefreshStep(t.clock - timestamp, period, start, t.date, t.sydneyTime);
      if step == StopForNight {
        return Stopped, reactivations;
      }
      if step == Reactivate {
        timestamp := t.reactivatedClock;
        reactivations := reactivations + 1;
      }
      k := k + 1;
    }
    end := StillRunning;
  }
}
