/** Performance bookkeeping (monitoring/performance.py): per-name duration
    lists with slow-operation capture and profiles, a TTL cache with hit and
    miss counters, and a bounded connection pool.

    Durations are exact reals; the clocks (`time.perf_counter`, `time.time`,
    `datetime.utcnow`) are passed in as numbers or strings. */
module Performance {
  import opened Common

  // ---------------------------------------------------------------------------
  // Sorting, extremes and sums of measurement lists

  predicate Sorted(s: seq<real>) {
    forall i, j | 0 <= i < j < |s| :: s[i] <= s[j]
  }

  function Insert(x: real, s: seq<real>): (r: seq<real>)
    requires Sorted(s)
    ensures Sorted(r)
    ensures multiset(r) == multiset(s) + multiset{x}
    ensures |r| == |s| + 1
    ensures r[0] == x || (|s| > 0 && r[0] == s[0])
  {
    if |s| == 0 then [x]
    else if x <= s[0] then [x] + s
    else
      var rest := Insert(x, s[1..]);
      assert s == [s[0]] + s[1..];
      [s[0]] + rest
  }

  /** Python's `sorted(measurements)`: ascending, the same values. */
  function SortAscending(s: seq<real>): (r: seq<real>)
    ensures Sorted(r)
    ensures multiset(r) == multiset(s)
    ensures |r| == |s|
  {
    if |s| == 0 then []
    else
      assert s == [s[0]] + s[1..];
      Insert(s[0], SortAscending(s[1..]))
  }

  function Sum(s: seq<real>): real {
    if |s| == 0 then 0.0 else s[0] + Sum(s[1..])
  }

  /** Python's `min(measurements)`. */
  function MinOf(s: seq<real>): (m: real)
    requires |s| > 0
    ensures m in s
    ensures forall x | x in s :: m <= x
  {
    if |s| == 1 then s[0]
    else
      var rest := MinOf(s[1..]);
      assert forall x | x in s :: x == s[0] || x in s[1..];
      if s[0] <= rest then s[0] else rest
  }

  /** Python's `max(measurements)`. */
  function MaxOf(s: seq<real>): (m: real)
    requires |s| > 0
    ensures m in s
    ensures forall x | x in s :: x <= m
  {
    if |s| == 1 then s[0]
    else
      var rest := MaxOf(s[1..]);
      assert forall x | x in s :: x == s[0] || x in s[1..];
      if s[0] >= rest then s[0] else rest
  }

  /** `int(n * pct / 100)` for the three percentiles used (50, 95, 99). For
      these fractions the floating-point product floors to the same index as
      exact arithmetic. */
  function PercentileIndex(n: nat, pct: nat): nat {
    (n * pct) / 100
  }

  /** Every percentile below 100 indexes inside a non-empty list, and a
      larger percentile never selects an earlier index. */
  lemma PercentileIndexBounds(n: nat, p: nat, q: nat)
    requires n >= 1 && p <= q < 100
    ensures PercentileIndex(n, p) <= PercentileIndex(n, q) < n
  {
    assert n * p <= n * q < n * 100;
  }

  datatype Profile = Profile(
    name: string,
    callCount: nat,
    totalTimeMs: real,
    avgTimeMs: real,
    minTimeMs: real,
    maxTimeMs: real,
    p50Ms: real,
    p95Ms: real,
    p99Ms: real)

  /** The profile of a non-empty measurement list. */
  function ProfileOf(name: string, ms: seq<real>): (p: Profile)
    requires |ms| > 0
    ensures p.name == name && p.callCount == |ms|
    ensures p.minTimeMs in ms && p.maxTimeMs in ms
    ensures forall x | x in ms :: p.minTimeMs <= x <= p.maxTimeMs
    ensures p.totalTimeMs == Sum(ms) && p.avgTimeMs == Sum(ms) / (|ms| as real)
  {
    var sorted := SortAscending(ms);
    var n := |ms|;
    PercentileIndexBounds(n, 50, 99);
    PercentileIndexBounds(n, 95, 99);
    Profile(name, n, Sum(ms), Sum(ms) / (n as real), MinOf(ms), MaxOf(ms),
            sorted[PercentileIndex(n, 50)], sorted[PercentileIndex(n, 95)], sorted[PercentileIndex(n, 99)])
  }

  /** The percentiles are ordered and lie between the extremes, and each is
      one of the measurements. */
  lemma ProfilePercentilesOrdered(name: string, ms: seq<real>)
    requires |ms| > 0
    ensures var p := ProfileOf(name, ms);
            p.minTimeMs <= p.p50Ms <= p.p95Ms <= p.p99Ms <= p.maxTimeMs
            && p.p50Ms in ms && p.p95Ms in ms && p.p99Ms in ms
  {
    var n := |ms|;
    var sorted := SortAscending(ms);
    var p := ProfileOf(name, ms);
    var i50, i95, i99 := PercentileIndex(n, 50), PercentileIndex(n, 95), PercentileIndex(n, 99);
    PercentileIndexBounds(n, 50, 95);
    PercentileIndexBounds(n, 95, 99);
    assert p.p50Ms == sorted[i50] && p.p95Ms == sorted[i95] && p.p99Ms == sorted[i99];
    assert sorted[i50] <= sorted[i95] <= sorted[i99] by {
      assert i50 == i95 || sorted[i50] <= sorted[i95];
      assert i95 == i99 || sorted[i95] <= sorted[i99];
    }
    SortedElementIsMeasurement(ms, i50);
    SortedElementIsMeasurement(ms, i99);
    SortedElementIsMeasurement(ms, i95);
  }

  lemma SortedElementIsMeasurement(ms: seq<real>, k: nat)
    requires k < |ms|
    ensures SortAscending(ms)[k] in ms
  {
    var sorted := SortAscending(ms);
    assert sorted[k] in multiset(sorted);
  }

  // ---------------------------------------------------------------------------
  // Python's negative slice `s[-limit:]`

  /** `s[-limit:]` as Python evaluates it, for any integer `limit`. */
  function PySliceFromEnd<T>(s: seq<T>, limit: int): (r: seq<T>)
    ensures limit > 0 ==> r == s[|s| - (if limit < |s| then limit else |s|)..]
    ensures limit == 0 ==> r == s
    ensures limit < 0 ==> r == s[(if -limit < |s| then -limit else |s|)..]
  {
    var start := -limit;
    if start < 0 then s[(if |s| + start < 0 then 0 else |s| + start)..]
    else s[(if start < |s| then start else |s|)..]
  }

  /** The last `limit` elements (all of them when there are fewer). */
  function LastN<T>(s: seq<T>, limit: nat): (r: seq<T>)
    ensures |r| == (if limit < |s| then limit else |s|)
    ensures r == s[|s| - |r|..]
  {
    s[|s| - (if limit < |s| then limit else |s|)..]
  }

  /** With a limit of 0 the slice as written returns every element, where
      the last 0 elements are none at all. */
  lemma SliceZeroReturnsEverything<T>(x: T)
    ensures PySliceFromEnd([x], 0) == [x]
    ensures LastN([x], 0) == []
  {
  }

  /** The two agree for every positive limit. */
  lemma SliceAgreesForPositiveLimits<T>(s: seq<T>, limit: int)
    requires limit > 0
    ensures PySliceFromEnd(s, limit) == LastN(s, limit)
  {
  }

  // ---------------------------------------------------------------------------
  // PerformanceMonitor

  datatype PerformanceMetric = PerformanceMetric(
    name: string,
    durationMs: real,
    timestamp: string,
    metadata: map<string, string>)

  /** Whether a wrapped call returned or raised; the wrapper passes either on. */
  datatype CallOutcome = Returned | Raised(error: string)

  /** `metrics[name]` of a defaultdict: an unseen name has no measurements. */
  function Measurements(metrics: map<string, seq<real>>, name: string): seq<real> {
    if name in metrics then metrics[name] else []
  }

  /** `name or f"{module}.{func_name}"`: an empty name counts as none. */
  function MetricName(name: Option<string>, moduleName: string, funcName: string): (r: string)
    ensures name.Some? && name.value != "" ==> r == name.value
    ensures (name.None? || name.value == "") ==> r == moduleName + "." + funcName
  {
    match name
    case Some(n) => if n != "" then n else moduleName + "." + funcName
    case None => moduleName + "." + funcName
  }

  class PerformanceMonitor {
    var slowThresholdMs: real
    var metrics: map<string, seq<real>>
    var slowOperations: seq<PerformanceMetric>
    var enabled: bool

    /** Every tracked name has at least one measurement: names enter the map
        only by recording. */
    ghost predicate Valid()
      reads this
    {
      forall name | name in metrics :: |metrics[name]| > 0
    }

    constructor (slowThresholdMs: real)
      ensures this.slowThresholdMs == slowThresholdMs
      ensures metrics == map[] && slowOperations == [] && enabled
      ensures Valid()
    {
      this.slowThresholdMs := slowThresholdMs;
      metrics := map[];
      slowOperations := [];
      enabled := true;
    }

    /** Appends the duration under its name; a duration strictly above the
        threshold is also captured as a slow operation. */
    method Record(name: string, durationMs: real, stamp: string, metadata: map<string, string>)
      modifies this`metrics, this`slowOperations
      ensures metrics == old(metrics)[name := Measurements(old(metrics), name) + [durationMs]]
      ensures durationMs > slowThresholdMs ==>
                slowOperations == old(slowOperations) + [PerformanceMetric(name, durationMs, stamp, metadata)]
      ensures durationMs <= slowThresholdMs ==> slowOperations == old(slowOperations)
      ensures old(Valid()) ==> Valid()
    {
      metrics := metrics[name := Measurements(metrics, name) + [durationMs]];
      if durationMs > slowThresholdMs {
        slowOperations := slowOperations + [PerformanceMetric(name, durationMs, stamp, metadata)];
      }
    }

    /** None for an unknown or empty name, otherwise the profile of its
        measurements. */
    function GetProfile(name: string): (p: Option<Profile>)
      reads this
      ensures p.None? <==> name !in metrics || |metrics[name]| == 0
      ensures p.Some? ==>
                p.value.callCount == |metrics[name]|
                && p.value.minTimeMs in metrics[name] && p.value.maxTimeMs in metrics[name]
                && (forall x | x in metrics[name] :: p.value.minTimeMs <= x <= p.value.maxTimeMs)
    {
      if name !in metrics || |metrics[name]| == 0 then None
      else Some(ProfileOf(name, metrics[name]))
    }

    /** One entry per tracked name; in a valid monitor none of them is None. */
    function GetAllProfiles(): (all: map<string, Option<Profile>>)
      reads this
      ensures all.Keys == metrics.Keys
      ensures Valid() ==> forall name | name in all :: all[name].Some?
    {
      map name | name in metrics :: GetProfile(name)
    }

    /** `slow_operations[-limit:]` as written. */
    function GetSlowOperations(limit: int): (r: seq<PerformanceMetric>)
      reads this
      ensures limit > 0 ==> r == LastN(slowOperations, limit)
      ensures limit == 0 ==> r == slowOperations
    {
      PySliceFromEnd(slowOperations, limit)
    }

    /** The last `limit` slow operations, in recording order. */
    function RecentSlowOperations(limit: nat): (r: seq<PerformanceMetric>)
      reads this
      ensures |r| == (if limit < |slowOperations| then limit else |slowOperations|)
      ensures r == slowOperations[|slowOperations| - |r|..]
    {
      LastN(slowOperations, limit)
    }

    method Clear()
      modifies this`metrics, this`slowOperations
      ensures metrics == map[] && slowOperations == []
      ensures Valid()
    {
      metrics := map[];
      slowOperations := [];
    }

    /** The `timer` wrapper around one call that took `durationMs` and ended
        with `outcome`: when enabled it records exactly one measurement under
        the metric name whether or not the call raised, captured as a slow
        operation when over the threshold as `Record` does; when disabled it
        records nothing. The call's own outcome is passed on unchanged. */
    method Timed(name: Option<string>, moduleName: string, funcName: string,
                 durationMs: real, outcome: CallOutcome, stamp: string)
      returns (passedOn: CallOutcome)
      modifies this`metrics, this`slowOperations
      ensures passedOn == outcome
      ensures enabled ==>
                var key := MetricName(name, moduleName, funcName);
                metrics == old(metrics)[key := Measurements(old(metrics), key) + [durationMs]]
      ensures enabled && durationMs > slowThresholdMs ==>
                slowOperations == old(slowOperations)
                                  + [PerformanceMetric(MetricName(name, moduleName, funcName), durationMs, stamp, map[])]
      ensures enabled && durationMs <= slowThresholdMs ==> slowOperations == old(slowOperations)
      ensures !enabled ==> metrics == old(metrics) && slowOperations == old(slowOperations)
      ensures old(Valid()) ==> Valid()
    {
      if enabled {
        Record(MetricName(name, moduleName, funcName), durationMs, stamp, map[]);
      }
      passedOn := outcome;
    }
  }

  // ---------------------------------------------------------------------------
  // CacheManager

  datatype CacheEntry<V> = CacheEntry(value: V, expiresAt: int, createdAt: int)

  datatype CacheStats = CacheStats(size: nat, hits: nat, misses: nat, hitRate: real)

  /** `ttl_seconds or default_ttl`: None and 0 both fall back to the default. */
  function EffectiveTtl(ttl: Option<int>, defaultTtl: int): (t: int)
    ensures ttl.Some? && ttl.value != 0 ==> t == ttl.value
    ensures (ttl.None? || ttl.value == 0) ==> t == defaultTtl
  {
    match ttl
    case Some(t) => if t != 0 then t else defaultTtl
    case None => defaultTtl
  }

  class CacheManager<V> {
    const defaultTtl: int
    var entries: map<string, CacheEntry<V>>
    var hits: nat
    var misses: nat

    constructor (defaultTtl: int)
      ensures this.defaultTtl == defaultTtl
      ensures entries == map[] && hits == 0 && misses == 0
    {
      this.defaultTtl := defaultTtl;
      entries := map[];
      hits := 0;
      misses := 0;
    }

    /** A miss for an absent key; a miss that also evicts for an entry past
        its expiry; otherwise a hit returning the stored value. */
    method Get(key: string, now: int) returns (r: Option<V>)
      modifies this`entries, this`hits, this`misses
      ensures key !in old(entries) ==>
                r == None && misses == old(misses) + 1 && hits == old(hits) && entries == old(entries)
      ensures key in old(entries) && now > old(entries)[key].expiresAt ==>
                r == None && misses == old(misses) + 1 && hits == old(hits)
                && entries == old(entries) - {key}
      ensures key in old(entries) && now <= old(entries)[key].expiresAt ==>
                r == Some(old(entries)[key].value) && hits == old(hits) + 1 && misses == old(misses)
                && entries == old(entries)
    {
      if key !in entries {
        misses := misses + 1;
        return None;
      }
      var entry := entries[key];
      if now > entry.expiresAt {
        entries := entries - {key};
        misses := misses + 1;
        return None;
      }
      hits := hits + 1;
      r := Some(entry.value);
    }

    method Set(key: string, value: V, ttl: Option<int>, now: int)
      modifies this`entries
      ensures entries == old(entries)[key := CacheEntry(value, now + EffectiveTtl(ttl, defaultTtl), now)]
    {
      var t := EffectiveTtl(ttl, defaultTtl);
      entries := entries[key := CacheEntry(value, now + t, now)];
    }

    method Delete(key: string)
      modifies this`entries
      ensures entries == old(entries) - {key}
      ensures key !in old(entries) ==> entries == old(entries)
    {
      if key in entries {
        entries := entries - {key};
      }
    }

    method Clear()
      modifies this`entries, this`hits, this`misses
      ensures entries == map[] && hits == 0 && misses == 0
    {
      entries := map[];
      hits := 0;
      misses := 0;
    }

    /** Size and counters, with the hit rate a fraction of all lookups (0
        before the first lookup). */
    function GetStats(): (st: CacheStats)
      reads this
      ensures st.size == |entries| && st.hits == hits && st.misses == misses
      ensures 0.0 <= st.hitRate <= 1.0
      ensures hits + misses > 0 ==> st.hitRate * ((hits + misses) as real) == hits as real
      ensures hits + misses == 0 ==> st.hitRate == 0.0
    {
      var total := hits + misses;
      CacheStats(|entries|, hits, misses, if total > 0 then (hits as real) / (total as real) else 0.0)
    }
  }

  /** A value set at `setAt` is returned by a lookup at `readAt` exactly
      while `readAt <= setAt + ttl`; after that the lookup misses and evicts. */
  method SetThenGet<V>(cache: CacheManager<V>, key: string, value: V, ttl: Option<int>, setAt: int, readAt: int)
    returns (r: Option<V>)
    modifies cache
    ensures readAt <= setAt + EffectiveTtl(ttl, cache.defaultTtl) ==>
              r == Some(value) && cache.hits == old(cache.hits) + 1 && key in cache.entries
    ensures readAt > setAt + EffectiveTtl(ttl, cache.defaultTtl) ==>
              r == None && cache.misses == old(cache.misses) + 1 && key !in cache.entries
  {
    cache.Set(key, value, ttl, setAt);
    r := cache.Get(key, readAt);
  }

  // ---------------------------------------------------------------------------
  // ConnectionPool

  datatype Acquired<C> =
    | Connection(conn: C, reused: bool)
    | Exhausted(error: string)

  datatype PoolStatus = PoolStatus(maxSize: int, available: nat, inUse: int)

  class ConnectionPool<C> {
    const maxSize: int
    var pool: seq<C>
    var inUse: int

    /** Idle plus lent connections never exceed the bound. */
    ghost predicate Valid()
      reads this
    {
      0 <= inUse && |pool| + inUse <= maxSize
    }

    constructor (maxSize: int)
      ensures this.maxSize == maxSize && pool == [] && inUse == 0
      ensures maxSize >= 0 ==> Valid()
    {
      this.maxSize := maxSize;
      pool := [];
      inUse := 0;
    }

    /** Reuses the most recently released connection, else creates one
        (`created`) while fewer than `maxSize` are lent, else fails. */
    method Acquire(created: C) returns (r: Acquired<C>)
      modifies this`pool, this`inUse
      ensures |old(pool)| > 0 ==>
                r == Connection(old(pool)[|old(pool)| - 1], true)
                && pool == old(pool)[..|old(pool)| - 1] && inUse == old(inUse) + 1
      ensures |old(pool)| == 0 && old(inUse) < maxSize ==>
                r == Connection(created, false) && pool == [] && inUse == old(inUse) + 1
      ensures |old(pool)| == 0 && old(inUse) >= maxSize ==>
                r == Exhausted("Connection pool exhausted") && pool == old(pool) && inUse == old(inUse)
      ensures old(Valid()) ==> Valid()
    {
      if |pool| > 0 {
        inUse := inUse + 1;
        r := Connection(pool[|pool| - 1], true);
        pool := pool[..|pool| - 1];
      } else if inUse < maxSize {
        inUse := inUse + 1;
        r := Connection(created, false);
      } else {
        r := Exhausted("Connection pool exhausted");
      }
    }

    /** Re-pools the connection only while the pool is below `maxSize`; the
        lent count never drops below zero. */
    method Release(conn: C)
      modifies this`pool, this`inUse
      ensures |old(pool)| < maxSize ==> pool == old(pool) + [conn]
      ensures |old(pool)| >= maxSize ==> pool == old(pool)
      ensures inUse == (if old(inUse) - 1 > 0 then old(inUse) - 1 else 0)
      ensures old(Valid()) ==> Valid()
    {
      if |pool| < maxSize {
        pool := pool + [conn];
      }
      inUse := if inUse - 1 > 0 then inUse - 1 else 0;
    }

    function GetStatus(): (st: PoolStatus)
      reads this
      ensures st.available == |pool| && st.inUse == inUse && st.maxSize == maxSize
    {
      PoolStatus(maxSize, |pool|, inUse)
    }
  }
}
