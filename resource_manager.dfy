/**
 * The stateful half of the resource manager: the cumulative success/error
 * counters, the two bounded outcome windows, the cached load snapshot and the
 * nested configuration that `set_config` merges into.
 */
module ResourceManagement {
  import opened Common
  import opened LoadPolicy

  /** Both outcome windows hold at most this many entries. */
  const WindowCapacity: nat := 100

  // ---------------------------------------------------------------------------
  // Outcome windows

  /** `window.append(x)` followed by one `pop(0)` when the length exceeds the capacity. */
  function Pushed(window: seq<bool>, x: bool): (r: seq<bool>)
    ensures |window| <= WindowCapacity ==> |r| <= WindowCapacity
  {
    var appended := window + [x];
    if |appended| > WindowCapacity then appended[1..] else appended
  }

  /** On a window within capacity, one push keeps the newest `WindowCapacity` entries: eviction is FIFO. */
  lemma PushedKeepsNewest(window: seq<bool>, x: bool)
    requires |window| <= WindowCapacity
    ensures Pushed(window, x) == KeepLast(window + [x], WindowCapacity)
  {
  }

  /** Pushing several outcomes one by one, oldest first. */
  function PushedAll(window: seq<bool>, xs: seq<bool>): seq<bool>
    decreases |xs|
  {
    if xs == [] then window else PushedAll(Pushed(window, xs[0]), xs[1..])
  }

  /** However many outcomes are reported, the window is the newest `WindowCapacity` of them all. */
  lemma {:induction false} PushedAllKeepsNewest(window: seq<bool>, xs: seq<bool>)
    requires |window| <= WindowCapacity
    ensures PushedAll(window, xs) == KeepLast(window + xs, WindowCapacity)
    ensures |PushedAll(window, xs)| == MinInt(|window| + |xs|, WindowCapacity)
    decreases |xs|
  {
    if xs != [] {
      PushedKeepsNewest(window, xs[0]);
      var w' := Pushed(window, xs[0]);
      PushedAllKeepsNewest(w', xs[1..]);
      KeepLastAppend(window + [xs[0]], xs[1..], WindowCapacity);
      assert window + [xs[0]] + xs[1..] == window + xs;
    }
  }

  /** `sum(1 for s in window if s)`. */
  function CountTrue(s: seq<bool>): (n: nat)
    ensures n <= |s|
  {
    if s == [] then 0 else (if s[|s| - 1] then 1 else 0) + CountTrue(s[..|s| - 1])
  }

  lemma {:induction false} CountTrueAppend(s: seq<bool>, t: seq<bool>)
    ensures CountTrue(s + t) == CountTrue(s) + CountTrue(t)
    decreases |t|
  {
    if t == [] {
      assert s + t == s;
    } else {
      assert (s + t)[..|s + t| - 1] == s + t[..|t| - 1];
      CountTrueAppend(s, t[..|t| - 1]);
    }
  }

  /** `get_success_rate` over a window: the fraction of true entries, 1.0 for an empty window. */
  function SuccessRateOf(window: seq<bool>): (rate: real)
    ensures 0.0 <= rate <= 1.0
    ensures window == [] ==> rate == 1.0
  {
    if window == [] then 1.0 else CountTrue(window) as real / |window| as real
  }

  /** `get_error_rate` over the cumulative counters: 0.0 before any report. */
  function ErrorRateOf(successCount: nat, errorCount: nat): (rate: real)
    ensures 0.0 <= rate <= 1.0
    ensures successCount + errorCount == 0 ==> rate == 0.0
    ensures errorCount == 0 ==> rate == 0.0
  {
    if successCount + errorCount == 0 then 0.0
    else errorCount as real / (successCount + errorCount) as real
  }

  /** A reported error never raises the success rate of a window within capacity. */
  lemma ErrorNeverRaisesSuccessRate(window: seq<bool>)
    requires |window| <= WindowCapacity
    ensures SuccessRateOf(Pushed(window, false)) <= SuccessRateOf(window)
  {
    var appended := window + [false];
    CountTrueAppend(window, [false]);
    assert CountTrue([false]) == 0;
    if window != [] {
      if |appended| > WindowCapacity {
        DropFirstCount(window, false);
        DivideMonotone(CountTrue(appended[1..]) as real, CountTrue(window) as real, |window| as real);
      } else {
        RatioDown(CountTrue(window) as real, |window| as real);
      }
    }
  }

  /** A reported success never lowers the success rate of a window within capacity. */
  lemma SuccessNeverLowersSuccessRate(window: seq<bool>)
    requires |window| <= WindowCapacity
    ensures SuccessRateOf(window) <= SuccessRateOf(Pushed(window, true))
  {
    var appended := window + [true];
    CountTrueAppend(window, [true]);
    assert CountTrue([true]) == 1;
    if window == [] {
      assert appended == [true];
    } else {
      if |appended| > WindowCapacity {
        DropFirstCount(window, true);
        DivideMonotone(CountTrue(window) as real, CountTrue(appended[1..]) as real, |window| as real);
      } else {
        RatioUp(CountTrue(window) as real, |window| as real);
      }
    }
  }

  /** Dropping the oldest entry after an append: same length, count changed only by the two ends. */
  lemma DropFirstCount(window: seq<bool>, x: bool)
    requires window != []
    ensures |(window + [x])[1..]| == |window|
    ensures CountTrue((window + [x])[1..]) + (if window[0] then 1 else 0)
            == CountTrue(window) + (if x then 1 else 0)
  {
    var appended := window + [x];
    assert appended == [window[0]] + appended[1..];
    CountTrueAppend([window[0]], appended[1..]);
    CountTrueAppend(window, [x]);
    assert CountTrue([window[0]]) == (if window[0] then 1 else 0);
    assert CountTrue([x]) == (if x then 1 else 0);
  }

  lemma DivideMonotone(x: real, y: real, d: real)
    requires x <= y && d > 0.0
    ensures x / d <= y / d
  {
    assert y / d - x / d == (y - x) / d;
  }

  lemma RatioDown(c: real, n: real)
    requires 0.0 <= c && n > 0.0
    ensures c / (n + 1.0) <= c / n
  {
    var a, b := c / (n + 1.0), c / n;
    assert a * (n + 1.0) == c;
    assert b * n == c;
    assert a * n <= a * (n + 1.0);
    if a > b {
      MulLeft(n, b, a);
      assert false;
    }
  }

  lemma RatioUp(c: real, n: real)
    requires 0.0 <= c <= n && n > 0.0
    ensures c / n <= (c + 1.0) / (n + 1.0)
  {
    var a, b := c / n, (c + 1.0) / (n + 1.0);
    assert a * n == c;
    assert b * (n + 1.0) == c + 1.0;
    assert a <= 1.0;
    if a > b {
      MulLeft(n + 1.0, b, a);
      assert false;
    }
  }

  // ---------------------------------------------------------------------------
  // Nested configuration

  /** A configuration value: a nested dictionary or a scalar setting. */
  datatype ConfigValue = Section(entries: map<string, ConfigValue>) | Setting(value: real)

  type Config = map<string, ConfigValue>

  /** `config[section][key]` when both lookups succeed on a nested section holding a scalar. */
  function LookupSetting(config: Config, section: string, key: string): Option<real> {
    if section in config && config[section].Section? && key in config[section].entries
       && config[section].entries[key].Setting?
    then Some(config[section].entries[key].value)
    else None
  }

  /** What `set_config` leaves at one existing key. */
  function MergedValue(current: ConfigValue, update: ConfigValue): ConfigValue {
    if current.Section? && update.Section? then Section(current.entries + update.entries) else update
  }

  /** The configuration `set_config(update)` produces. */
  function Merged(config: Config, update: Config): (r: Config)
    ensures r.Keys == config.Keys
    ensures forall k :: k in config && k !in update ==> r[k] == config[k]
    ensures forall k :: k in config && k in update && !(config[k].Section? && update[k].Section?)
              ==> r[k] == update[k]
    ensures forall k :: k in config && k in update && config[k].Section? && update[k].Section?
              ==> r[k].Section? && r[k].entries.Keys == config[k].entries.Keys + update[k].entries.Keys
  {
    map k | k in config :: if k in update then MergedValue(config[k], update[k]) else config[k]
  }

  /** Merging the same update twice is merging it once. */
  lemma MergeIdempotent(config: Config, update: Config)
    ensures Merged(Merged(config, update), update) == Merged(config, update)
  {
    var once := Merged(config, update);
    forall k | k in once
      ensures Merged(once, update)[k] == once[k]
    {
      if k in update && config[k].Section? && update[k].Section? {
        assert once[k].entries + update[k].entries == once[k].entries;
      }
    }
  }

  /** Nested sections are updated key by key: old keys stay, update keys win. */
  lemma MergeSectionKeyByKey(config: Config, update: Config, k: string, key: string)
    requires k in config && k in update && config[k].Section? && update[k].Section?
    ensures Merged(config, update)[k].Section?
    ensures key in update[k].entries ==> Merged(config, update)[k].entries[key] == update[k].entries[key]
    ensures key in config[k].entries && key !in update[k].entries
            ==> Merged(config, update)[k].entries[key] == config[k].entries[key]
    ensures Merged(config, update)[k].entries.Keys == config[k].entries.Keys + update[k].entries.Keys
  {
  }

  /** `DEFAULT_CONFIGURATION`, with every number read as a real. */
  const DefaultConfiguration: Config := map[
    "memory_thresholds" := Section(map[
      "default" := Setting(500.0), "cloud" := Setting(350.0),
      "warning" := Setting(750.0), "critical" := Setting(900.0)]),
    "concurrency" := Section(map[
      "default_processes" := Setting(2.0), "max_processes" := Setting(4.0),
      "max_threads" := Setting(5.0), "min_processes" := Setting(1.0)]),
    "batch" := Section(map[
      "default_size" := Setting(5.0), "min_size" := Setting(2.0),
      "max_size" := Setting(10.0), "size_factor" := Setting(0.5)]),
    "sleep" := Section(map[
      "default_interval" := Setting(30.0), "min_interval" := Setting(5.0),
      "max_interval" := Setting(300.0), "jitter_factor" := Setting(0.2)]),
    "timeout" := Section(map[
      "network_check" := Setting(30.0), "page_load" := Setting(60.0),
      "element_wait" := Setting(30.0), "driver_setup" := Setting(60.0),
      "process" := Setting(300.0), "batch" := Setting(600.0), "cycle" := Setting(1800.0)]),
    "timeout_factors" := Section(map[
      "low_load" := Setting(0.8), "medium_load" := Setting(1.0), "high_load" := Setting(1.5)]),
    "adaptive" := Section(map[
      "defer_threshold" := Setting(80.0), "sequential_threshold" := Setting(70.0),
      "success_rate_threshold" := Setting(0.5), "error_penalty" := Setting(0.1),
      "metrics_window" := Setting(100.0), "load_check_interval" := Setting(30.0)])
  ]

  /**
   * The configuration a manager runs on: `config or DEFAULT_CONFIGURATION`.
   * Both a missing configuration and an empty dictionary are falsy.
   */
  function Chosen(config: Option<Config>): (r: Config)
    ensures config.Some? && config.value != map[] ==> r == config.value
    ensures config.None? || config.value == map[] ==> r == DefaultConfiguration
  {
    if config.Some? && config.value != map[] then config.value else DefaultConfiguration
  }

  /** The default configuration carries every setting the manager itself looks up. */
  lemma DefaultSettings()
    ensures LookupSetting(DefaultConfiguration, "adaptive", "load_check_interval") == Some(30.0)
    ensures LookupSetting(DefaultConfiguration, "adaptive", "defer_threshold") == Some(80.0)
    ensures LookupSetting(DefaultConfiguration, "memory_thresholds", "default") == Some(500.0)
  {
  }

  /** Constructing without a configuration, or with an empty one, never raises. */
  lemma DefaultNeverRaises(config: Option<Config>)
    requires config.None? || config.value == map[]
    ensures LookupSetting(Chosen(config), "adaptive", "load_check_interval").Some?
  {
    DefaultSettings();
  }

  // ---------------------------------------------------------------------------
  // The manager

  /** The cached result of one metrics sample: the metrics and the score computed from them. */
  datatype Snapshot = Snapshot(metrics: Metrics, loadScore: real)

  class ResourceManager {
    var config: Config
    /** Copied from the configuration once, at construction; `set_config` does not change it. */
    const loadCheckInterval: real
    var successCount: nat
    var errorCount: nat
    var recentSuccesses: seq<bool>
    var recentErrors: seq<bool>
    var lastLoadCheckTime: real
    /** `None` stands for the empty dictionary the cache starts with. */
    var lastLoadInfo: Option<Snapshot>

    ghost predicate Valid()
      reads this
    {
      |recentSuccesses| <= WindowCapacity && |recentErrors| <= WindowCapacity
    }

    /**
     * The windows start with five successes and five non-errors; the cache starts empty.
     * The chosen configuration must hold `adaptive.load_check_interval`, or the source
     * raises `KeyError`; `NewResourceManager` models that outcome.
     */
    constructor (config: Option<Config>)
      requires LookupSetting(Chosen(config), "adaptive", "load_check_interval").Some?
      ensures Valid()
      ensures this.config == Chosen(config)
      ensures loadCheckInterval == LookupSetting(Chosen(config), "adaptive", "load_check_interval").value
      ensures successCount == 0 && errorCount == 0
      ensures recentSuccesses == [true, true, true, true, true]
      ensures recentErrors == [false, false, false, false, false]
      ensures lastLoadCheckTime == 0.0 && lastLoadInfo == None
    {
      this.config := Chosen(config);
      loadCheckInterval := LookupSetting(Chosen(config), "adaptive", "load_check_interval").value;
      successCount, errorCount := 0, 0;
      recentSuccesses := [true, true, true, true, true];
      recentErrors := [false, false, false, false, false];
      lastLoadCheckTime := 0.0;
      lastLoadInfo := None;
    }

    /** `set_config`: merges `update` into the configuration, one top-level key at a time. */
    method SetConfig(update: Config)
      modifies this`config
      ensures config == Merged(old(config), update)
    {
      var pending := update.Keys;
      ghost var original := config;
      while pending != {}
        invariant pending <= update.Keys
        invariant config.Keys == original.Keys
        invariant forall k :: k in original && (k !in update || k in pending) ==> config[k] == original[k]
        invariant forall k :: k in original && k in update && k !in pending
                    ==> config[k] == MergedValue(original[k], update[k])
        decreases pending
      {
        var key :| key in pending;
        if key in config {
          if update[key].Section? && config[key].Section? {
            config := config[key := Section(config[key].entries + update[key].entries)];
          } else {
            config := config[key := update[key]];
          }
        }
        pending := pending - {key};
      }
    }

    /** Whether `get_system_load(force_refresh)` at clock reading `now` answers from the cache. */
    predicate Cached(forceRefresh: bool, now: real)
      reads this
    {
      !forceRefresh && lastLoadInfo.Some? && now - lastLoadCheckTime < loadCheckInterval
    }

    /** The snapshot a new reading of `sample` produces under the current configuration. */
    function Reading(sample: Metrics): (s: Snapshot)
      reads this
      ensures s.metrics == sample
      ensures s.loadScore == LoadScore(sample, LookupSetting(config, "memory_thresholds", "default"))
    {
      Snapshot(sample, LoadScore(sample, LookupSetting(config, "memory_thresholds", "default")))
    }

    /** `get_system_load(force_refresh)` at clock reading `now`; `sample` is what a new reading would return. */
    method GetSystemLoad(forceRefresh: bool, now: real, sample: Metrics) returns (info: Snapshot)
      modifies this`lastLoadInfo, this`lastLoadCheckTime
      ensures old(Cached(forceRefresh, now)) ==> info == old(lastLoadInfo).value && unchanged(this)
      ensures !old(Cached(forceRefresh, now))
              ==> info == Reading(sample) && lastLoadInfo == Some(info) && lastLoadCheckTime == now
    {
      if !forceRefresh && lastLoadInfo.Some? && now - lastLoadCheckTime < loadCheckInterval {
        return lastLoadInfo.value;
      }
      lastLoadInfo := Some(Reading(sample));
      lastLoadCheckTime := now;
      info := lastLoadInfo.value;
    }

    /** `get_load_category`: the category of the score `get_system_load()` returns. */
    method GetLoadCategory(now: real, sample: Metrics) returns (c: LoadCategory)
      modifies this`lastLoadInfo, this`lastLoadCheckTime
      ensures lastLoadInfo.Some? && c == CategoryOf(Some(lastLoadInfo.value.loadScore))
      ensures old(Cached(false, now)) ==> unchanged(this)
      ensures !old(Cached(false, now))
              ==> lastLoadInfo == Some(Reading(sample)) && lastLoadCheckTime == now
    {
      var info := GetSystemLoad(false, now, sample);
      c := CategoryOf(Some(info.loadScore));
    }

    /**
     * `should_defer_processing`: the load is read (and the cache refreshed) first;
     * `None` is the `KeyError` raised when `adaptive.defer_threshold` is missing.
     */
    method ShouldDeferProcessing(now: real, sample: Metrics) returns (defer: Option<bool>)
      modifies this`lastLoadInfo, this`lastLoadCheckTime
      ensures lastLoadInfo.Some?
      ensures old(Cached(false, now)) ==> unchanged(this)
      ensures !old(Cached(false, now))
              ==> lastLoadInfo == Some(Reading(sample)) && lastLoadCheckTime == now
      ensures defer.None? <==> LookupSetting(config, "adaptive", "defer_threshold").None?
      ensures defer.Some?
              ==> (defer.value <==> lastLoadInfo.value.loadScore > LookupSetting(config, "adaptive", "defer_threshold").value)
    {
      var info := GetSystemLoad(false, now, sample);
      var threshold := LookupSetting(config, "adaptive", "defer_threshold");
      if threshold.None? {
        return None;
      }
      defer := Some(ShouldDefer(Some(info.loadScore), threshold.value));
    }

    /** `report_success`: counts it and pushes `true` on the success window only. */
    method ReportSuccess()
      requires Valid()
      modifies this`successCount, this`recentSuccesses
      ensures Valid()
      ensures successCount == old(successCount) + 1
      ensures recentSuccesses == Pushed(old(recentSuccesses), true)
    {
      successCount := successCount + 1;
      recentSuccesses := recentSuccesses + [true];
      if |recentSuccesses| > WindowCapacity {
        recentSuccesses := recentSuccesses[1..];
      }
    }

    /** `report_error`: counts it, pushes `true` on the error window and `false` on the success window. */
    method ReportError()
      requires Valid()
      modifies this`errorCount, this`recentErrors, this`recentSuccesses
      ensures Valid()
      ensures errorCount == old(errorCount) + 1
      ensures recentErrors == Pushed(old(recentErrors), true)
      ensures recentSuccesses == Pushed(old(recentSuccesses), false)
    {
      errorCount := errorCount + 1;
      recentErrors := recentErrors + [true];
      if |recentErrors| > WindowCapacity {
        recentErrors := recentErrors[1..];
      }
      recentSuccesses := recentSuccesses + [false];
      if |recentSuccesses| > WindowCapacity {
        recentSuccesses := recentSuccesses[1..];
      }
    }

    /** `get_success_rate`. */
    function SuccessRate(): (rate: real)
      reads this
      ensures 0.0 <= rate <= 1.0
      ensures recentSuccesses == [] ==> rate == 1.0
    {
      SuccessRateOf(recentSuccesses)
    }

    /** `get_error_rate`. */
    function ErrorRate(): (rate: real)
      reads this
      ensures 0.0 <= rate <= 1.0
      ensures successCount + errorCount == 0 ==> rate == 0.0
    {
      ErrorRateOf(successCount, errorCount)
    }
  }

  /**
   * `ResourceManager(config)` with its `KeyError`: `None` when the chosen configuration
   * lacks `adaptive.load_check_interval`, otherwise the new manager.
   */
  method NewResourceManager(config: Option<Config>) returns (m: Option<ResourceManager>)
    ensures m.None? <==> LookupSetting(Chosen(config), "adaptive", "load_check_interval").None?
    ensures m.Some? ==> fresh(m.value) && m.value.config == Chosen(config) && m.value.Valid()
    ensures m.Some? ==> m.value.loadCheckInterval == LookupSetting(Chosen(config), "adaptive", "load_check_interval").value
    ensures m.Some? ==> m.value.lastLoadInfo == None && m.value.successCount == 0 && m.value.errorCount == 0
  {
    if LookupSetting(Chosen(config), "adaptive", "load_check_interval").None? {
      return None;
    }
    var manager := new ResourceManager(config);
    m := Some(manager);
  }
}
