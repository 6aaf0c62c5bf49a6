/**
 * The load-policy calculations of the resource manager: the weighted load score,
 * its low/medium/high category, the hour-of-day bucket, and the clamped policy
 * numbers (process count, batch size, sleep interval, adjusted timeout, backoff
 * delay, deferral). Each is a pure function of the sampled metrics, the load
 * category, configuration numbers and, where the source draws `random.random()`,
 * an explicit draw.
 */
module LoadPolicy {
  import opened Common

  // ---------------------------------------------------------------------------
  // Load score

  const CpuWeight: real := 0.4
  const MemoryWeight: real := 0.3
  const DiskWeight: real := 0.1
  const ProcessWeight: real := 0.2

  /** Score returned when the computation raises (for instance a zero memory threshold). */
  const FallbackScore: real := 50.0

  /** The keys of a metrics dictionary that the score reads; `None` is an absent key. */
  datatype Metrics = Metrics(
    cpuPercent: Option<real>,
    normalizedLoad: Option<real>,
    memoryPercent: Option<real>,
    diskPercent: Option<real>,
    chromeMemoryMb: Option<real>)

  /** CPU component: the normalised load capped at 100 when that key is present, else `cpu_percent`. */
  function CpuScore(m: Metrics): (r: real)
    ensures m.normalizedLoad.Some? ==> r <= 100.0
    ensures m.normalizedLoad.None? ==> r == m.cpuPercent.GetOr(0.0)
  {
    if m.normalizedLoad.Some? then Min(m.normalizedLoad.value, 100.0) else m.cpuPercent.GetOr(0.0)
  }

  /** Browser-memory component: memory relative to the threshold, as a percentage capped at 100. */
  function ProcessScore(m: Metrics, threshold: real): (r: real)
    requires threshold != 0.0
    ensures r <= 100.0
    ensures threshold > 0.0 && m.chromeMemoryMb.GetOr(0.0) >= 0.0 ==> r >= 0.0
  {
    Min(m.chromeMemoryMb.GetOr(0.0) / threshold * 100.0, 100.0)
  }

  function WeightedSum(m: Metrics, threshold: real): real
    requires threshold != 0.0
  {
    CpuScore(m) * CpuWeight + m.memoryPercent.GetOr(0.0) * MemoryWeight
      + m.diskPercent.GetOr(0.0) * DiskWeight + ProcessScore(m, threshold) * ProcessWeight
  }

  /** Every metric the score reads is non-negative. */
  predicate NonNegative(m: Metrics) {
    && m.cpuPercent.GetOr(0.0) >= 0.0
    && m.normalizedLoad.GetOr(0.0) >= 0.0
    && m.memoryPercent.GetOr(0.0) >= 0.0
    && m.diskPercent.GetOr(0.0) >= 0.0
    && m.chromeMemoryMb.GetOr(0.0) >= 0.0
  }

  /**
   * `calculate_load_score`. `memoryThreshold` is the configured default memory
   * threshold, `None` when the configuration lacks it; both a missing key and a
   * zero threshold raise inside the computation, which then answers 50.
   */
  function LoadScore(m: Metrics, memoryThreshold: Option<real>): (score: real)
    ensures score <= 100.0
    ensures (memoryThreshold == None || memoryThreshold == Some(0.0)) ==> score == FallbackScore
    ensures NonNegative(m) && memoryThreshold.Some? && memoryThreshold.value > 0.0 ==> 0.0 <= score
  {
    if memoryThreshold.None? || memoryThreshold.value == 0.0 then FallbackScore
    else Min(WeightedSum(m, memoryThreshold.value), 100.0)
  }

  /** `a` is nowhere above `b`, key by key, with the same choice of CPU source. */
  predicate NoHigherThan(a: Metrics, b: Metrics) {
    && a.normalizedLoad.Some? == b.normalizedLoad.Some?
    && a.cpuPercent.GetOr(0.0) <= b.cpuPercent.GetOr(0.0)
    && a.normalizedLoad.GetOr(0.0) <= b.normalizedLoad.GetOr(0.0)
    && a.memoryPercent.GetOr(0.0) <= b.memoryPercent.GetOr(0.0)
    && a.diskPercent.GetOr(0.0) <= b.diskPercent.GetOr(0.0)
    && a.chromeMemoryMb.GetOr(0.0) <= b.chromeMemoryMb.GetOr(0.0)
  }

  /** The score is monotone in each metric it reads. */
  lemma LoadScoreMonotone(a: Metrics, b: Metrics, t: real)
    requires NoHigherThan(a, b) && t > 0.0
    ensures LoadScore(a, Some(t)) <= LoadScore(b, Some(t))
  {
    var ca, cb := a.chromeMemoryMb.GetOr(0.0), b.chromeMemoryMb.GetOr(0.0);
    assert ca / t <= cb / t by {
      assert cb / t - ca / t == (cb - ca) / t;
    }
    assert ProcessScore(a, t) <= ProcessScore(b, t);
    assert CpuScore(a) <= CpuScore(b);
    assert WeightedSum(a, t) <= WeightedSum(b, t);
  }

  /** The weights sum to one: when every component reads `v`, the score is `v`. */
  lemma UniformLoadScore(v: real, t: real)
    requires 0.0 <= v <= 100.0 && t > 0.0
    ensures LoadScore(Metrics(None, Some(v), Some(v), Some(v), Some(v * t / 100.0)), Some(t)) == v
  {
    var m := Metrics(None, Some(v), Some(v), Some(v), Some(v * t / 100.0));
    assert v * t / 100.0 / t * 100.0 == v;
    assert ProcessScore(m, t) == v;
  }

  // ---------------------------------------------------------------------------
  // Load category and time of day

  datatype LoadCategory = Low | Medium | High

  /** `get_load_category`: the cached score, 50 when the key is missing, against 40 and 70. */
  function CategoryOf(score: Option<real>): (c: LoadCategory)
    ensures c == Low <==> score.GetOr(FallbackScore) < 40.0
    ensures c == Medium <==> 40.0 <= score.GetOr(FallbackScore) < 70.0
    ensures c == High <==> 70.0 <= score.GetOr(FallbackScore)
  {
    var s := score.GetOr(FallbackScore);
    if s < 40.0 then Low else if s < 70.0 then Medium else High
  }

  function Rank(c: LoadCategory): nat {
    match c
    case Low => 0
    case Medium => 1
    case High => 2
  }

  /** A higher score never gives a lower category. */
  lemma CategoryMonotone(s1: real, s2: real)
    requires s1 <= s2
    ensures Rank(CategoryOf(Some(s1))) <= Rank(CategoryOf(Some(s2)))
  {
  }

  /** The documented boundary values, and the missing-score default. */
  lemma CategoryBoundaries()
    ensures CategoryOf(Some(39.99)) == Low && CategoryOf(Some(40.0)) == Medium
    ensures CategoryOf(Some(69.99)) == Medium && CategoryOf(Some(70.0)) == High
    ensures CategoryOf(None) == Medium
  {
  }

  datatype TimePeriod = Morning | Afternoon | Evening | Night

  /** `get_time_period` for the hour `datetime.now().hour`. */
  function PeriodOfHour(hour: int): (p: TimePeriod)
    ensures p == Morning <==> 5 <= hour < 12
    ensures p == Afternoon <==> 12 <= hour < 17
    ensures p == Evening <==> 17 <= hour < 22
    ensures p == Night <==> hour < 5 || 22 <= hour
  {
    if 5 <= hour < 12 then Morning
    else if 12 <= hour < 17 then Afternoon
    else if 17 <= hour < 22 then Evening
    else Night
  }

  // ---------------------------------------------------------------------------
  // Concurrency and batch size

  /** `get_optimal_processes`; `cores` is the sampled physical core count. */
  function OptimalProcesses(c: LoadCategory, defaultProcesses: int, maxProcesses: int,
                            minProcesses: int, cores: int): (n: int)
    ensures minProcesses <= maxProcesses ==> minProcesses <= n <= maxProcesses
    ensures n <= MaxInt(minProcesses, MaxInt(1, cores))
    ensures c == High ==> n == minProcesses
  {
    var wanted := match c
      case Low => maxProcesses
      case Medium => defaultProcesses
      case High => minProcesses;
    var optimal := MinInt(wanted, MaxInt(1, cores));
    MaxInt(minProcesses, MinInt(optimal, maxProcesses))
  }

  /** With ordered bounds, a higher load category never asks for more processes. */
  lemma ProcessesShrinkWithLoad(defaultP: int, maxP: int, minP: int, cores: int)
    requires minP <= defaultP <= maxP
    ensures OptimalProcesses(Low, defaultP, maxP, minP, cores)
            >= OptimalProcesses(Medium, defaultP, maxP, minP, cores)
            >= OptimalProcesses(High, defaultP, maxP, minP, cores)
  {
  }

  function BatchFactor(c: LoadCategory): (f: real)
    ensures 0.0 < f
    ensures c == Medium <==> f == 1.0
  {
    match c
    case Low => 1.5
    case Medium => 1.0
    case High => 0.6
  }

  /** `get_optimal_batch_size(total_accounts)`. */
  function OptimalBatchSize(c: LoadCategory, defaultSize: int, minSize: int, maxSize: int,
                            totalAccounts: int): (b: int)
    ensures minSize <= maxSize ==> minSize <= b <= maxSize
    ensures minSize <= totalAccounts && minSize <= maxSize ==> b <= totalAccounts
    ensures totalAccounts < minSize ==> b == minSize
  {
    var optimal := Truncate(defaultSize as real * BatchFactor(c));
    var capped := MinInt(optimal, totalAccounts);
    MaxInt(minSize, MinInt(capped, maxSize))
  }

  /** With the shipped defaults (5 within [2, 10]) the three categories give 7, 5 and 3 for a large roster. */
  lemma DefaultBatchSizes(total: int)
    requires total >= 7
    ensures OptimalBatchSize(Low, 5, 2, 10, total) == 7
    ensures OptimalBatchSize(Medium, 5, 2, 10, total) == 5
    ensures OptimalBatchSize(High, 5, 2, 10, total) == 3
  {
    assert Truncate(7.5) == 7;
    assert Truncate(3.0) == 3;
  }

  /** With a non-negative default size, a higher load category never asks for a larger batch. */
  lemma BatchShrinksWithLoad(defaultSize: int, minSize: int, maxSize: int, total: int)
    requires defaultSize >= 0
    ensures OptimalBatchSize(Low, defaultSize, minSize, maxSize, total)
            >= OptimalBatchSize(Medium, defaultSize, minSize, maxSize, total)
            >= OptimalBatchSize(High, defaultSize, minSize, maxSize, total)
  {
    var d := defaultSize as real;
    assert d * 0.6 <= d * 1.0 <= d * 1.5;
    TruncateMonotone(d * 0.6, d * 1.0);
    TruncateMonotone(d * 1.0, d * 1.5);
  }

  // ---------------------------------------------------------------------------
  // Sleep interval, timeout and backoff

  function SleepLoadFactor(c: LoadCategory): (f: real)
    ensures 0.0 < f
    ensures c == Medium <==> f == 1.0
  {
    match c
    case Low => 0.8
    case Medium => 1.0
    case High => 1.5
  }

  function SleepTimeFactor(p: TimePeriod): (f: real)
    ensures 0.0 < f
    ensures p == Afternoon <==> f == 1.0
  {
    match p
    case Morning => 0.9
    case Afternoon => 1.0
    case Evening => 1.1
    case Night => 1.2
  }

  /** The interval before clamping: base scaled by load and time of day, then jittered by `draw` from `random.random()`. */
  function JitteredInterval(c: LoadCategory, p: TimePeriod, baseInterval: real,
                            jitterFactor: real, draw: real): real
  {
    var interval := baseInterval * SleepLoadFactor(c) * SleepTimeFactor(p);
    interval + interval * jitterFactor * (2.0 * draw - 1.0)
  }

  /** `get_optimal_sleep_interval(base_interval)`. */
  function SleepInterval(c: LoadCategory, p: TimePeriod, baseInterval: real, jitterFactor: real,
                         draw: real, minInterval: real, maxInterval: real): (r: real)
    ensures minInterval <= r
    ensures minInterval <= maxInterval ==> r <= maxInterval
    ensures minInterval <= JitteredInterval(c, p, baseInterval, jitterFactor, draw) <= maxInterval
            ==> r == JitteredInterval(c, p, baseInterval, jitterFactor, draw)
  {
    Max(minInterval, Min(JitteredInterval(c, p, baseInterval, jitterFactor, draw), maxInterval))
  }

  /** The jitter moves the nominal interval by at most the jitter factor, either way. */
  lemma JitterWithinFactor(c: LoadCategory, p: TimePeriod, baseInterval: real,
                           jitterFactor: real, draw: real)
    requires baseInterval >= 0.0 && jitterFactor >= 0.0 && 0.0 <= draw < 1.0
    ensures var nominal := baseInterval * SleepLoadFactor(c) * SleepTimeFactor(p);
            nominal * (1.0 - jitterFactor) <= JitteredInterval(c, p, baseInterval, jitterFactor, draw)
            <= nominal * (1.0 + jitterFactor)
  {
    var nominal := baseInterval * SleepLoadFactor(c) * SleepTimeFactor(p);
    var u := 2.0 * draw - 1.0;
    assert -1.0 <= u <= 1.0;
    assert nominal >= 0.0;
    var j := nominal * jitterFactor;
    assert j >= 0.0;
    MulLeft(j, -1.0, u);
    MulLeft(j, u, 1.0);
    assert nominal * (1.0 - jitterFactor) == nominal - j && nominal * (1.0 + jitterFactor) == nominal + j;
    assert JitteredInterval(c, p, baseInterval, jitterFactor, draw) == nominal + j * u;
  }

  function CategoryName(c: LoadCategory): string {
    match c
    case Low => "low"
    case Medium => "medium"
    case High => "high"
  }

  /** The per-operation timeout adjustment; `None` for an operation type outside the table. */
  function OperationFactor(operationType: Option<string>): (f: Option<real>)
    ensures f.Some? ==> f.value > 0.0
  {
    if operationType.None? then None
    else match operationType.value
      case "network_check" => Some(1.0)
      case "page_load" => Some(1.1)
      case "element_wait" => Some(0.9)
      case "driver_setup" => Some(1.2)
      case "process" => Some(1.0)
      case "batch" => Some(1.0)
      case "cycle" => Some(1.0)
      case _ => None
  }

  /** The load factor `timeout_factors[f'{category}_load']`, 1.0 when the key is absent. */
  function TimeoutLoadFactor(c: LoadCategory, timeoutFactors: map<string, real>): real {
    var key := CategoryName(c) + "_load";
    if key in timeoutFactors then timeoutFactors[key] else 1.0
  }

  /** The load factor, multiplied by the operation factor when the operation type is in the table. */
  function TimeoutFactor(c: LoadCategory, timeoutFactors: map<string, real>,
                         operationType: Option<string>): real
  {
    var factor := TimeoutLoadFactor(c, timeoutFactors);
    if OperationFactor(operationType).Some? then factor * OperationFactor(operationType).value else factor
  }

  /** A timeout scaled by `factor`, never below one second. */
  function ClampedScale(baseTimeout: real, factor: real): (t: real)
    ensures t >= 1.0
    ensures baseTimeout * factor >= 1.0 ==> t == baseTimeout * factor
  {
    Max(1.0, baseTimeout * factor)
  }

  /** `get_adjusted_timeout(base_timeout, operation_type)`. */
  function AdjustedTimeout(c: LoadCategory, timeoutFactors: map<string, real>,
                           operationType: Option<string>, baseTimeout: real): (t: real)
    ensures t >= 1.0
    ensures baseTimeout * TimeoutFactor(c, timeoutFactors, operationType) >= 1.0
            ==> t == baseTimeout * TimeoutFactor(c, timeoutFactors, operationType)
  {
    ClampedScale(baseTimeout, TimeoutFactor(c, timeoutFactors, operationType))
  }

  lemma TimeoutFactorNonNegative(c: LoadCategory, timeoutFactors: map<string, real>, operationType: Option<string>)
    requires TimeoutLoadFactor(c, timeoutFactors) >= 0.0
    ensures TimeoutFactor(c, timeoutFactors, operationType) >= 0.0
  {
    var of := OperationFactor(operationType);
    if of.Some? {
      MulLeft(TimeoutLoadFactor(c, timeoutFactors), 0.0, of.value);
    }
  }

  lemma ClampedScaleMonotone(b1: real, b2: real, f: real)
    requires b1 <= b2 && f >= 0.0
    ensures ClampedScale(b1, f) <= ClampedScale(b2, f)
  {
    var x1, x2 := b1 * f, b2 * f;
    assert x2 - x1 == (b2 - b1) * f;
    MulLeft(f, 0.0, b2 - b1);
    assert x1 <= x2;
  }

  /** With a non-negative load factor, a longer base timeout never gives a shorter adjusted one. */
  lemma AdjustedTimeoutMonotone(c: LoadCategory, timeoutFactors: map<string, real>,
                                operationType: Option<string>, b1: real, b2: real)
    requires b1 <= b2 && TimeoutLoadFactor(c, timeoutFactors) >= 0.0
    ensures AdjustedTimeout(c, timeoutFactors, operationType, b1)
            <= AdjustedTimeout(c, timeoutFactors, operationType, b2)
  {
    TimeoutFactorNonNegative(c, timeoutFactors, operationType);
    ClampedScaleMonotone(b1, b2, TimeoutFactor(c, timeoutFactors, operationType));
  }

  /** The backoff growth factor: 2.0 scaled by the error-type adjustment. */
  function BackoffFactor(errorType: Option<string>): (f: real)
    ensures f >= 2.0
  {
    if errorType == Some("network") then 2.0 * 1.5
    else if errorType == Some("timeout") then 2.0 * 1.2
    else 2.0
  }

  /** `factor ** attempt` for any integer attempt, as Python evaluates it on floats. */
  function PowInt(b: real, n: int): real
    requires b > 0.0
  {
    if n >= 0 then Pow(b, n) else 1.0 / Pow(b, -n)
  }

  /** `delay + delay * 0.1 * (2 * draw - 1)`: the delay moved by up to ten percent either way. */
  function BackoffJitter(delay: real, draw: real): (r: real)
    ensures delay >= 0.0 && 0.0 <= draw <= 1.0 ==> 0.9 * delay <= r <= 1.1 * delay
  {
    delay + delay * 0.1 * (2.0 * draw - 1.0)
  }

  lemma BackoffJitterMonotone(x: real, y: real, draw: real)
    requires x <= y && 0.0 <= draw < 1.0
    ensures BackoffJitter(x, draw) <= BackoffJitter(y, draw)
  {
    var k := 1.0 + 0.1 * (2.0 * draw - 1.0);
    assert BackoffJitter(x, draw) == x * k;
    assert BackoffJitter(y, draw) == y * k;
    MulLeft(k, x, y);
  }

  /** `get_backoff_delay(attempt, error_type)` with `draw` from `random.random()`. */
  function BackoffDelay(attempt: int, errorType: Option<string>, draw: real): (d: real)
    ensures d >= 1.0
  {
    Max(1.0, BackoffJitter(2.0 * PowInt(BackoffFactor(errorType), attempt), draw))
  }

  /** For the same draw, a later attempt never waits less. */
  lemma BackoffGrows(a1: nat, a2: nat, errorType: Option<string>, draw: real)
    requires a1 <= a2 && 0.0 <= draw < 1.0
    ensures BackoffDelay(a1, errorType, draw) <= BackoffDelay(a2, errorType, draw)
  {
    var f := BackoffFactor(errorType);
    PowMonotone(f, a1, a2);
    BackoffJitterMonotone(2.0 * Pow(f, a1), 2.0 * Pow(f, a2), draw);
  }

  /** `should_defer_processing`: the cached score, 0 when the key is missing, strictly above the threshold. */
  function ShouldDefer(score: Option<real>, deferThreshold: real): (defer: bool)
    ensures defer <==> score.GetOr(0.0) > deferThreshold
  {
    score.GetOr(0.0) > deferThreshold
  }

  /** With a threshold of at least 70, deferral only happens under the high category; a missing score never defers. */
  lemma DeferImpliesHigh(score: Option<real>, deferThreshold: real)
    requires deferThreshold >= 70.0
    ensures ShouldDefer(score, deferThreshold) ==> CategoryOf(score) == High
    ensures !ShouldDefer(None, deferThreshold)
  {
  }
}
