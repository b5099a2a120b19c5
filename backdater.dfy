// The backdater: an out-of-band writer that records counters, gauges and
// timers with explicit (possibly historical) timestamps.  It writes the
// hot store only for timestamps inside the hot window, and appends every
// value to the bucket file of each retention tier after the first.

module Backdate {
  import opened Strings
  import opened Files
  import opened Disk
  import opened Hot

  // ---------------------------------------------------------------------
  // The hot window

  /** The smallest configured interval: `retentions.keys.sort.first`. */
  function SmallestInterval(tiers: seq<Tier>): (m: int)
    requires tiers != []
    ensures exists i :: 0 <= i < |tiers| && tiers[i].interval == m
    ensures forall i :: 0 <= i < |tiers| ==> m <= tiers[i].interval
    decreases |tiers|
  {
    if |tiers| == 1 then tiers[0].interval
    else
      var rest := SmallestInterval(tiers[1..]);
      if tiers[0].interval <= rest then tiers[0].interval else rest
  }

  /** `retentions[interval]`: the count of the first tier with that interval. */
  function CountOf(tiers: seq<Tier>, interval: int): (r: Option<int>)
    ensures r.None? <==> forall i :: 0 <= i < |tiers| ==> tiers[i].interval != interval
    ensures r.Some? ==> exists i :: 0 <= i < |tiers| && tiers[i] == Tier(interval, r.value)
    decreases |tiers|
  {
    if tiers == [] then None
    else if tiers[0].interval == interval then Some(tiers[0].count)
    else
      var r := CountOf(tiers[1..], interval);
      assert r.Some? ==> exists i :: 1 <= i < |tiers| && tiers[i] == Tier(interval, r.value) by {
        if r.Some? {
          var i :| 0 <= i < |tiers[1..]| && tiers[1..][i] == Tier(interval, r.value);
          assert tiers[i + 1] == Tier(interval, r.value);
        }
      }
      r
  }

  /**
   * `redis_period`: the window of the tier with the smallest interval.
   * With no retentions Ruby multiplies nil and raises: None.
   */
  function RedisPeriod(tiers: seq<Tier>): (p: Option<int>)
    ensures p.None? <==> tiers == []
    ensures p.Some? ==> exists i :: 0 <= i < |tiers| && p.value == Window(tiers[i])
                                   && forall j :: 0 <= j < |tiers| ==> tiers[i].interval <= tiers[j].interval
  {
    if tiers == [] then None
    else
      var m := SmallestInterval(tiers);
      var c := CountOf(tiers, m);
      assert c.Some?;
      Some(m * c.value)
  }

  /** `store_in_redis?(timestamp)`: strictly inside the hot window; None where it raises. */
  function StoreInRedis(tiers: seq<Tier>, now: int, timestamp: int): (r: Option<bool>)
    ensures r.None? <==> tiers == []
    ensures r == Some(true) ==> timestamp > now - RedisPeriod(tiers).value
    ensures r == Some(false) ==> timestamp <= now - RedisPeriod(tiers).value
  {
    match RedisPeriod(tiers)
    case None => None
    case Some(period) => Some(timestamp > now - period)
  }

  /** When the smallest interval is tier `k`'s, the hot window is tier `k`'s window. */
  lemma {:induction false} RedisPeriodOfSmallest(tiers: seq<Tier>, k: nat)
    requires DistinctIntervals(tiers)
    requires k < |tiers|
    requires forall j :: 0 <= j < |tiers| ==> tiers[k].interval <= tiers[j].interval
    ensures RedisPeriod(tiers) == Some(Window(tiers[k]))
  {
    var m := SmallestInterval(tiers);
    var i :| 0 <= i < |tiers| && tiers[i].interval == m;
    assert tiers[i].interval == tiers[k].interval;
    assert i == k;
    var c := CountOf(tiers, m);
    var i' :| 0 <= i' < |tiers| && tiers[i'] == Tier(m, c.value);
    assert i' == k;
  }

  /** For retentions listed by increasing interval, the hot window is the first tier's. */
  lemma {:induction false} RedisPeriodOfSorted(tiers: seq<Tier>)
    requires tiers != []
    requires forall i, j :: 0 <= i < j < |tiers| ==> tiers[i].interval < tiers[j].interval
    ensures RedisPeriod(tiers) == Some(Window(tiers[0]))
  {
    forall j | 0 <= j < |tiers|
      ensures tiers[0].interval <= tiers[j].interval
    {
      if j > 0 {
        assert tiers[0].interval < tiers[j].interval;
      }
    }
    RedisPeriodOfSmallest(tiers, 0);
  }

  /**
   * The hot window follows the smallest interval, but the disk fan-out skips
   * the tier listed first.  Listed out of order, the default retentions
   * give a hot window of an hour (tier 60 x 60), while tier 60 is also
   * written to disk and tier 300, which is skipped, is written nowhere.
   */
  lemma UnsortedRetentionsSplitTheFirstTier()
    ensures var tiers := [Tier(300, 864), Tier(60, 60)];
            && RedisPeriod(tiers) == Some(3600)
            && RedisPeriod(tiers) != Some(Window(tiers[0]))
            && DiskKeys("counters:hits", tiers) == [TierKey("counters:hits", 60)]
  {
    var tiers := [Tier(300, 864), Tier(60, 60)];
    RedisPeriodOfSmallest(tiers, 1);
  }

  /** A timestamp exactly one window old is not stored in the hot store. */
  lemma {:induction false} WindowEdgeStaysOnDisk(tiers: seq<Tier>, now: int)
    requires tiers != []
    ensures StoreInRedis(tiers, now, now - RedisPeriod(tiers).value) == Some(false)
  {
  }

  // ---------------------------------------------------------------------
  // Statistic names

  function CounterKey(key: string): string { "counters:" + key }
  function GaugeKey(key: string): string { "gauges:" + key }
  function TimerKey(key: string, aggregation: string): string { "timers:" + key + ":" + aggregation }

  /** The statistics a value is appended to: one per tier, the first tier excepted. */
  function DiskKeys(name: string, tiers: seq<Tier>): (r: seq<string>)
    ensures |r| == if tiers == [] then 0 else |tiers| - 1
    decreases |tiers|
  {
    if |tiers| <= 1 then []
    else [TierKey(name, tiers[1].interval)] + DiskKeys(name, tiers[1..])
  }

  /** The `k`-th written statistic belongs to tier `k + 1`. */
  lemma {:induction false} DiskKeyAt(name: string, tiers: seq<Tier>, k: nat)
    requires k + 1 < |tiers|
    ensures DiskKeys(name, tiers)[k] == TierKey(name, tiers[k + 1].interval)
    decreases k
  {
    if k > 0 {
      DiskKeyAt(name, tiers[1..], k - 1);
      assert tiers[1..][k] == tiers[k + 1];
    }
  }

  /** A written statistic names some tier after the first. */
  lemma {:induction false} DiskKeyNamesLaterTier(name: string, tiers: seq<Tier>, interval: int)
    requires TierKey(name, interval) in DiskKeys(name, tiers)
    ensures exists i :: 1 <= i < |tiers| && tiers[i].interval == interval
  {
    var keys := DiskKeys(name, tiers);
    var k :| 0 <= k < |keys| && keys[k] == TierKey(name, interval);
    DiskKeyAt(name, tiers, k);
    TierKeyInjective(name, tiers[k + 1].interval, interval);
    assert tiers[k + 1].interval == interval;
  }

  /** Every tier after the first has its statistic written. */
  lemma {:induction false} LaterTierHasDiskKey(name: string, tiers: seq<Tier>, i: nat)
    requires 1 <= i < |tiers|
    ensures TierKey(name, tiers[i].interval) in DiskKeys(name, tiers)
  {
    DiskKeyAt(name, tiers, i - 1);
    ElementIsIn(DiskKeys(name, tiers), i - 1);
  }

  lemma {:induction false} ElementIsIn<T>(s: seq<T>, k: nat)
    requires k < |s|
    ensures s[k] in s
  {
  }

  /** A tier's statistic is written exactly when some tier after the first has its interval. */
  lemma {:induction false} DiskKeysCoverLaterTiers(name: string, tiers: seq<Tier>, interval: int)
    ensures TierKey(name, interval) in DiskKeys(name, tiers)
            <==> exists i :: 1 <= i < |tiers| && tiers[i].interval == interval
  {
    if TierKey(name, interval) in DiskKeys(name, tiers) {
      DiskKeyNamesLaterTier(name, tiers, interval);
    } else {
      forall i | 1 <= i < |tiers|
        ensures tiers[i].interval != interval
      {
        LaterTierHasDiskKey(name, tiers, i);
      }
    }
  }

  /** Hash-keyed retentions never write the first tier's statistic. */
  lemma {:induction false} FirstTierNotOnDisk(name: string, tiers: seq<Tier>)
    requires tiers != [] && DistinctIntervals(tiers)
    ensures TierKey(name, tiers[0].interval) !in DiskKeys(name, tiers)
  {
    DiskKeysCoverLaterTiers(name, tiers, tiers[0].interval);
  }

  /** Gauge statistics never coincide with a tiered counter or timer statistic. */
  lemma {:induction false} GaugeKeysStandApart(key: string, other: string, aggregation: string, interval: int)
    ensures GaugeKey(key) != TierKey(CounterKey(other), interval)
    ensures GaugeKey(key) != TierKey(TimerKey(other, aggregation), interval)
    ensures GaugeKey(key) != CounterKey(other) && GaugeKey(key) != TimerKey(other, aggregation)
  {
    assert GaugeKey(key)[0] == 'g';
    assert TierKey(CounterKey(other), interval)[0] == 'c';
    assert TierKey(TimerKey(other, aggregation), interval)[0] == 't';
    assert CounterKey(other)[0] == 'c';
    assert TimerKey(other, aggregation)[0] == 't';
  }

  // ---------------------------------------------------------------------
  // Appending to several buckets

  /** The line `append_value_to_file` writes: `"<timestamp> <value>"`. */
  function Line(timestamp: int, value: string): string {
    IntToString(timestamp) + " " + value
  }

  /** The passing failures met by the `k`-th append; none when unspecified. */
  function FaultsAt(faults: seq<seq<bool>>, k: nat): seq<bool> {
    if k < |faults| then faults[k] else []
  }

  /** The filesystem after appending `line` to each of `files` in turn. */
  function AppendAll(d: Tree, files: seq<string>, line: string, faults: seq<seq<bool>>): (r: Tree)
    ensures forall g :: g !in files ==> (g in r.files <==> g in d.files) && Lines(r, g) == Lines(d, g)
    ensures d.dirs <= r.dirs
    decreases |files|
  {
    if files == [] then d
    else
      var n := |files| - 1;
      Appended(AppendAll(d, files[..n], line, faults), files[n], line, 0, FaultsAt(faults, n))
  }

  /** Whether the `k`-th append of `AppendAll` stored its line. */
  predicate StoredAt(d: Tree, files: seq<string>, line: string, faults: seq<seq<bool>>, k: nat)
    requires k < |files|
  {
    Stored(AppendAll(d, files[..k], line, faults), files[k], 0, FaultsAt(faults, k))
  }

  /** Each of several distinct buckets gains the line once, exactly when its own append was stored. */
  lemma {:induction false} AppendAllOnce(d: Tree, files: seq<string>, line: string, faults: seq<seq<bool>>, k: nat)
    requires forall i, j :: 0 <= i < j < |files| ==> files[i] != files[j]
    requires k < |files|
    ensures Lines(AppendAll(d, files, line, faults), files[k])
            == Lines(d, files[k]) + (if StoredAt(d, files, line, faults, k) then [line] else [])
    decreases |files|
  {
    var n := |files| - 1;
    var before := AppendAll(d, files[..n], line, faults);
    if k == n {
      assert files[..n][..k] == files[..k];
      assert files[k] !in files[..n] by {
        forall i | 0 <= i < n ensures files[..n][i] != files[k] {
          assert files[i] != files[n];
        }
      }
      assert Lines(before, files[k]) == Lines(d, files[k]);
    } else {
      assert files[..n][..k] == files[..k];
      AppendAllOnce(d, files[..n], line, faults, k);
      assert files[n] != files[k];
      assert StoredAt(d, files, line, faults, k) == StoredAt(d, files[..n], line, faults, k);
    }
  }

  /** The bucket files of the statistics of `name` on the tiers after the first. */
  function TierFiles(store: Diskstore, name: string, tiers: seq<Tier>): (r: seq<string>)
    requires store.Valid()
    ensures |r| == |DiskKeys(name, tiers)|
  {
    var keys := DiskKeys(name, tiers);
    seq(|keys|, i requires 0 <= i < |keys| => store.FilenameOf(keys[i]))
  }

  /** The `k`-th bucket file is that of tier `k + 1`. */
  lemma {:induction false} TierFileAt(store: Diskstore, name: string, tiers: seq<Tier>, k: nat)
    requires store.Valid() && k + 1 < |tiers|
    ensures TierFiles(store, name, tiers)[k] == store.FilenameOf(TierKey(name, tiers[k + 1].interval))
  {
    DiskKeyAt(name, tiers, k);
  }

  /**
   * The digest tells apart the statistics of the name's later tiers: two
   * different tier keys never share a digest.  MD5 cannot be injective on
   * every string, but a collision among the few statistics of one metric is
   * what this excludes.
   */
  ghost predicate DigestSeparates(store: Diskstore, name: string, tiers: seq<Tier>) {
    forall i, j :: 1 <= i < |tiers| && 1 <= j < |tiers|
                   && TierKey(name, tiers[i].interval) != TierKey(name, tiers[j].interval) ==>
                     store.digest(TierKey(name, tiers[i].interval)) != store.digest(TierKey(name, tiers[j].interval))
  }

  /**
   * With distinct intervals and no digest collision among the tier keys,
   * the bucket files are distinct, so AppendAllOnce applies to every
   * tier's bucket.
   */
  lemma {:induction false} TierFilesDistinct(store: Diskstore, name: string, tiers: seq<Tier>)
    requires store.Valid() && DistinctIntervals(tiers) && DigestSeparates(store, name, tiers)
    ensures var files := TierFiles(store, name, tiers);
            forall i, j :: 0 <= i < j < |files| ==> files[i] != files[j]
  {
    var files := TierFiles(store, name, tiers);
    forall i, j | 0 <= i < j < |files|
      ensures files[i] != files[j]
    {
      TierFileAt(store, name, tiers, i);
      TierFileAt(store, name, tiers, j);
      var a, b := tiers[i + 1].interval, tiers[j + 1].interval;
      TierKeyInjective(name, a, b);
      if files[i] == files[j] {
        store.FilenameDeterminesDigest(TierKey(name, a), TierKey(name, b));
      }
    }
  }

  /** Each later tier's bucket gains the line once, exactly when its own append stored it. */
  lemma {:induction false} TierBucketGainsLine(store: Diskstore, d: Tree, name: string, tiers: seq<Tier>,
                                               line: string, faults: seq<seq<bool>>, k: nat)
    requires store.Valid() && DistinctIntervals(tiers) && DigestSeparates(store, name, tiers)
    requires k + 1 < |tiers|
    ensures var files := TierFiles(store, name, tiers);
            && files[k] == store.FilenameOf(TierKey(name, tiers[k + 1].interval))
            && Lines(AppendAll(d, files, line, faults), files[k])
               == Lines(d, files[k]) + (if StoredAt(d, files, line, faults, k) then [line] else [])
  {
    TierFileAt(store, name, tiers, k);
    TierFilesDistinct(store, name, tiers);
    AppendAllOnce(d, TierFiles(store, name, tiers), line, faults, k);
  }

  /** One more append extends the fold by one step. */
  lemma {:induction false} AppendAllStep(d: Tree, files: seq<string>, line: string, faults: seq<seq<bool>>, k: nat)
    requires k < |files|
    ensures AppendAll(d, files[..k + 1], line, faults)
            == Appended(AppendAll(d, files[..k], line, faults), files[k], line, 0, FaultsAt(faults, k))
  {
    assert files[..k + 1][..k] == files[..k];
  }

  /**
   * The `each_with_index` fan-out shared by `count` and `timing`: skip the
   * first tier, append `line` to the statistic of every other tier.
   */
  method AppendToTiers(store: Diskstore, fs: FileSystem, name: string, tiers: seq<Tier>, line: string,
                       faults: seq<seq<bool>>)
    requires store.Valid() && fs.Valid()
    modifies fs
    ensures fs.Valid()
    ensures fs.State() == AppendAll(old(fs.State()), TierFiles(store, name, tiers), line, faults)
  {
    ghost var d0 := fs.State();
    ghost var files := TierFiles(store, name, tiers);
    ghost var done := 0;
    var index := 0;
    while index < |tiers|
      invariant 0 <= index <= |tiers|
      invariant done == if index == 0 then 0 else index - 1
      invariant fs.Valid()
      invariant fs.State() == AppendAll(d0, files[..done], line, faults)
    {
      if index != 0 {
        var filename := store.BuildFilename(Some(TierKey(name, tiers[index].interval)));
        TierFileAt(store, name, tiers, done);
        AppendAllStep(d0, files, line, faults, done);
        var tries := store.AppendValueToFile(fs, filename.value, line, 0, FaultsAt(faults, index - 1));
        done := done + 1;
      }
      index := index + 1;
    }
    assert files[..done] == files;
  }

  // ---------------------------------------------------------------------
  // The backdater

  /** Options given to `Backdater.new`; a missing option takes its default. */
  datatype Options = Options(redis: Option<(string, int)>, retentions: Option<seq<Tier>>, root: Option<string>)

  const DefaultRedis: (string, int) := ("127.0.0.1", 6379)
  const DefaultRetentions: seq<Tier> := [Tier(60, 60), Tier(300, 864)]
  const DefaultRoot: string := "tmp/statsd"

  function OrElse<T>(o: Option<T>, default: T): T {
    if o.Some? then o.value else default
  }

  /** `Hash[retentions.to_a[0..0]]`: the first tier alone. */
  function FirstTierOnly(tiers: seq<Tier>): (r: seq<Tier>)
    ensures |r| <= 1 && |r| <= |tiers| && r == tiers[..|r|] && (tiers != [] ==> r != [])
  {
    if tiers == [] then [] else [tiers[0]]
  }

  /** The hot store calls `count(key, value, timestamp)` makes. */
  function CountCalls(tiers: seq<Tier>, key: string, value: int, timestamp: int, now: int): (r: seq<HotCall>)
    ensures 1 <= |r| <= 2 && r[0] == Registered(CounterKey(key))
    ensures |r| == 2 <==> StoreInRedis(tiers, now, timestamp) == Some(true)
    ensures |r| == 2 ==> r[1] == CounterStored(timestamp, CounterKey(key), value)
  {
    [Registered(CounterKey(key))]
    + if StoreInRedis(tiers, now, timestamp) == Some(true)
      then [CounterStored(timestamp, CounterKey(key), value)] else []
  }

  /** The hot store calls `timing(key, value, aggregation, timestamp)` makes. */
  function TimingCalls(tiers: seq<Tier>, key: string, value: string, aggregation: string, timestamp: int, now: int)
    : (r: seq<HotCall>)
    ensures |r| <= 1
    ensures |r| == 1 <==> StoreInRedis(tiers, now, timestamp) == Some(true)
    ensures |r| == 1 ==> r[0] == TimerStored(timestamp, TimerKey(key, aggregation), value)
  {
    if StoreInRedis(tiers, now, timestamp) == Some(true)
    then [TimerStored(timestamp, TimerKey(key, aggregation), value)] else []
  }

  class Backdater {
    const tiers: seq<Tier>
    const hot: HotStore
    const diskstore: Diskstore

    ghost predicate Valid() {
      diskstore.Valid()
    }

    /**
     * `Backdater.new(options)`: the given options over the defaults.  The
     * hot store client sees the first tier only, since everything older
     * goes straight to disk.
     */
    constructor (options: Options, digest: string -> string)
      requires IsMd5Like(digest)
      ensures Valid() && fresh(hot) && fresh(diskstore)
      ensures tiers == OrElse(options.retentions, DefaultRetentions)
      ensures hot.tiers == FirstTierOnly(tiers) && hot.calls == []
      ensures (hot.host, hot.port) == OrElse(options.redis, DefaultRedis)
      ensures diskstore.root == OrElse(options.root, DefaultRoot) && diskstore.digest == digest
    {
      tiers := OrElse(options.retentions, DefaultRetentions);
      var redis := OrElse(options.redis, DefaultRedis);
      hot := new HotStore(redis.0, redis.1, FirstTierOnly(OrElse(options.retentions, DefaultRetentions)));
      diskstore := new Diskstore(OrElse(options.root, DefaultRoot), digest);
    }

    /** The filesystem after `count(key, value, timestamp)`: nothing reaches disk if it raised. */
    function CountDisk(d: Tree, key: string, value: int, timestamp: int, faults: seq<seq<bool>>): Tree
      requires Valid()
    {
      if tiers == [] then d
      else AppendAll(d, TierFiles(diskstore, CounterKey(key), tiers), Line(timestamp, IntToString(value)), faults)
    }

    /**
     * `count(key, value, timestamp)`: register the counter, store it in the
     * hot store inside the hot window, append it to every later tier.
     * Returns true; false stands for the exception raised without retentions.
     */
    method Count(fs: FileSystem, key: string, value: int, timestamp: int, now: int, faults: seq<seq<bool>>)
      returns (ok: bool)
      requires Valid() && fs.Valid()
      modifies fs, hot
      ensures fs.Valid()
      ensures ok <==> tiers != []
      ensures hot.calls == old(hot.calls) + CountCalls(tiers, key, value, timestamp, now)
      ensures fs.State() == CountDisk(old(fs.State()), key, value, timestamp, faults)
    {
      var counter := CounterKey(key);
      hot.AddDatapoint(counter);
      var inWindow := StoreInRedis(tiers, now, timestamp);
      if inWindow.None? {
        return false;
      }
      if inWindow.value {
        hot.StoreAndUpdateAllCounters(timestamp, counter, value);
      }
      AppendToTiers(diskstore, fs, counter, tiers, Line(timestamp, IntToString(value)), faults);
      ok := true;
    }

    /** `increment(key, timestamp)`: `count(key, 1, timestamp)`. */
    method Increment(fs: FileSystem, key: string, timestamp: int, now: int, faults: seq<seq<bool>>)
      returns (ok: bool)
      requires Valid() && fs.Valid()
      modifies fs, hot
      ensures fs.Valid()
      ensures ok <==> tiers != []
      ensures hot.calls == old(hot.calls) + CountCalls(tiers, key, 1, timestamp, now)
      ensures fs.State() == CountDisk(old(fs.State()), key, 1, timestamp, faults)
    {
      ok := Count(fs, key, 1, timestamp, now, faults);
    }

    /** `decrement(key, timestamp)`: `count(key, -1, timestamp)`. */
    method Decrement(fs: FileSystem, key: string, timestamp: int, now: int, faults: seq<seq<bool>>)
      returns (ok: bool)
      requires Valid() && fs.Valid()
      modifies fs, hot
      ensures fs.Valid()
      ensures ok <==> tiers != []
      ensures hot.calls == old(hot.calls) + CountCalls(tiers, key, -1, timestamp, now)
      ensures fs.State() == CountDisk(old(fs.State()), key, -1, timestamp, faults)
    {
      ok := Count(fs, key, -1, timestamp, now, faults);
    }

    /**
     * `gauge(key, value, timestamp)`: one append to the gauge's single
     * bucket; the hot store is never touched.
     */
    method Gauge(fs: FileSystem, key: string, value: string, timestamp: int, faults: seq<bool>)
      returns (ok: bool)
      requires Valid() && fs.Valid()
      modifies fs
      ensures fs.Valid() && ok
      ensures fs.State() == Appended(old(fs.State()), diskstore.FilenameOf(GaugeKey(key)), Line(timestamp, value), 0, faults)
    {
      var filename := diskstore.BuildFilename(Some(GaugeKey(key)));
      var tries := diskstore.AppendValueToFile(fs, filename.value, Line(timestamp, value), 0, faults);
      ok := true;
    }

    /** The filesystem after `timing(key, value, aggregation, timestamp)`. */
    function TimingDisk(d: Tree, key: string, value: string, aggregation: string, timestamp: int,
                        faults: seq<seq<bool>>): Tree
      requires Valid()
    {
      if tiers == [] then d
      else AppendAll(d, TierFiles(diskstore, TimerKey(key, aggregation), tiers), Line(timestamp, value), faults)
    }

    /**
     * `timing(key, value, aggregation, timestamp)`: store the timer in the
     * hot store inside the hot window, append it to every later tier; no
     * datapoint is registered.
     */
    method Timing(fs: FileSystem, key: string, value: string, aggregation: string, timestamp: int, now: int,
                  faults: seq<seq<bool>>)
      returns (ok: bool)
      requires Valid() && fs.Valid()
      modifies fs, hot
      ensures fs.Valid()
      ensures ok <==> tiers != []
      ensures hot.calls == old(hot.calls) + TimingCalls(tiers, key, value, aggregation, timestamp, now)
      ensures fs.State() == TimingDisk(old(fs.State()), key, value, aggregation, timestamp, faults)
    {
      var timer := TimerKey(key, aggregation);
      var inWindow := StoreInRedis(tiers, now, timestamp);
      if inWindow.None? {
        return false;
      }
      if inWindow.value {
        hot.StoreTimer(timestamp, timer, value);
      }
      AppendToTiers(diskstore, fs, timer, tiers, Line(timestamp, value), faults);
      ok := true;
    }
  }
}
