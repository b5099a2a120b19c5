// The data server: a line protocol over TCP answering `available`,
// `values <metric> <begin> <end>`, `ping`, `delete <metric>` and
// `quit`/`exit`.  `values` picks the retention tier whose window reaches
// the requested start, reading the hot store for the first tier and the
// tier's bucket file otherwise.

module Server {
  import opened Strings
  import opened Files
  import opened Disk
  import opened Hot
  import Backdate

  // ---------------------------------------------------------------------
  // Commands

  datatype Command =
    | Available
    | Values(metric: Option<string>, beginTime: Option<string>, endTime: Option<string>)
    | Ping
    | Delete(metric: Option<string>)
    | Quit
    | Unrecognized(command: string)

  /** The `i`-th word of a row; Ruby's multiple assignment gives nil past the end. */
  function Arg(fields: seq<string>, i: nat): Option<string> {
    if i < |fields| then Some(fields[i]) else None
  }

  /**
   * The command a non-blank row asks for: the first of the case-insensitive,
   * unanchored patterns `available`, `values`, `ping`, `delete`, `quit|exit`
   * that its first word matches.
   */
  function CommandOf(fields: seq<string>): (c: Command)
    requires fields != []
    ensures c.Available? <==> ContainsIgnoringCase(fields[0], "available")
    ensures c.Values? || c.Delete? ==> c.metric == Arg(fields, 1)
    ensures c.Values? ==> c.beginTime == Arg(fields, 2) && c.endTime == Arg(fields, 3)
    ensures c.Values? <==>
              !ContainsIgnoringCase(fields[0], "available") && ContainsIgnoringCase(fields[0], "values")
    ensures c == Ping <==>
              && !ContainsIgnoringCase(fields[0], "available") && !ContainsIgnoringCase(fields[0], "values")
              && ContainsIgnoringCase(fields[0], "ping")
    ensures c.Delete? <==>
              && !ContainsIgnoringCase(fields[0], "available") && !ContainsIgnoringCase(fields[0], "values")
              && !ContainsIgnoringCase(fields[0], "ping") && ContainsIgnoringCase(fields[0], "delete")
    ensures c == Quit <==>
              && !ContainsIgnoringCase(fields[0], "available") && !ContainsIgnoringCase(fields[0], "values")
              && !ContainsIgnoringCase(fields[0], "ping") && !ContainsIgnoringCase(fields[0], "delete")
              && (ContainsIgnoringCase(fields[0], "quit") || ContainsIgnoringCase(fields[0], "exit"))
  {
    var command := fields[0];
    if ContainsIgnoringCase(command, "available") then Available
    else if ContainsIgnoringCase(command, "values") then Values(Arg(fields, 1), Arg(fields, 2), Arg(fields, 3))
    else if ContainsIgnoringCase(command, "ping") then Ping
    else if ContainsIgnoringCase(command, "delete") then Delete(Arg(fields, 1))
    else if ContainsIgnoringCase(command, "quit") || ContainsIgnoringCase(command, "exit") then Quit
    else Unrecognized(command)
  }

  /** A pattern of the protocol. */
  predicate MatchesKeyword(command: string) {
    || ContainsIgnoringCase(command, "available")
    || ContainsIgnoringCase(command, "values")
    || ContainsIgnoringCase(command, "ping")
    || ContainsIgnoringCase(command, "delete")
    || ContainsIgnoringCase(command, "quit")
    || ContainsIgnoringCase(command, "exit")
  }

  /** A word is rejected exactly when it contains none of the keywords. */
  lemma {:induction false} UnrecognizedIffNoKeyword(fields: seq<string>)
    requires fields != []
    ensures CommandOf(fields).Unrecognized? <==> !MatchesKeyword(fields[0])
    ensures CommandOf(fields).Unrecognized? ==> CommandOf(fields).command == fields[0]
  {
  }

  /** Letter case never changes the command a row asks for. */
  lemma {:induction false} CommandIgnoresCase(fields: seq<string>)
    requires fields != []
    ensures var lowered := [LowerAll(fields[0])] + fields[1..];
            CommandOf(lowered).Unrecognized? == CommandOf(fields).Unrecognized?
            && (!CommandOf(fields).Unrecognized? ==> CommandOf(lowered) == CommandOf(fields))
  {
    var lowered := [LowerAll(fields[0])] + fields[1..];
    assert lowered[0] == LowerAll(fields[0]);
    assert forall i :: 1 <= i < |fields| ==> lowered[i] == fields[i];
    ContainsIgnoringCaseOfLower(fields[0], "available");
    ContainsIgnoringCaseOfLower(fields[0], "values");
    ContainsIgnoringCaseOfLower(fields[0], "ping");
    ContainsIgnoringCaseOfLower(fields[0], "delete");
    ContainsIgnoringCaseOfLower(fields[0], "quit");
    ContainsIgnoringCaseOfLower(fields[0], "exit");
  }

  /** The patterns are unanchored: text around a recognised word keeps it recognised. */
  lemma {:induction false} CommandIsUnanchored(before: string, command: string, after: string, args: seq<string>)
    requires MatchesKeyword(command)
    ensures !CommandOf([before + command + after] + args).Unrecognized?
  {
    var w := before + command + after;
    if ContainsIgnoringCase(command, "available") { ContainsIgnoringCaseWithin(before, command, after, "available"); }
    else if ContainsIgnoringCase(command, "values") { ContainsIgnoringCaseWithin(before, command, after, "values"); }
    else if ContainsIgnoringCase(command, "ping") { ContainsIgnoringCaseWithin(before, command, after, "ping"); }
    else if ContainsIgnoringCase(command, "delete") { ContainsIgnoringCaseWithin(before, command, after, "delete"); }
    else if ContainsIgnoringCase(command, "quit") { ContainsIgnoringCaseWithin(before, command, after, "quit"); }
    else { ContainsIgnoringCaseWithin(before, command, after, "exit"); }
    UnrecognizedIffNoKeyword([w] + args);
  }

  /** The words of each row of a message: `msg.split("\n")`, each row `split(" ")`. */
  function Rows(msg: string): seq<seq<string>> {
    MapLines(Fields, RubySplit(msg, '\n'))
  }

  /** The commands of a message's rows, in order, up to the first blank row. */
  function Commands(rows: seq<seq<string>>): (cs: seq<Command>)
    ensures |cs| <= |rows|
    ensures forall i :: 0 <= i < |cs| ==> rows[i] != [] && cs[i] == CommandOf(rows[i])
    ensures |cs| < |rows| ==> rows[|cs|] == []
    decreases |rows|
  {
    if rows == [] || rows[0] == [] then []
    else
      var rest := Commands(rows[1..]);
      assert forall i :: 0 <= i < |rest| ==> rows[1..][i] == rows[i + 1];
      [CommandOf(rows[0])] + rest
  }

  /** A blank row ends the message: nothing after it is answered. */
  lemma {:induction false} BlankRowEndsMessage(rows: seq<seq<string>>, k: nat)
    requires k < |rows| && rows[k] == []
    requires forall i :: 0 <= i < k ==> rows[i] != []
    ensures Commands(rows) == Commands(rows[..k])
  {
    var cs := Commands(rows);
    var ps := Commands(rows[..k]);
    assert |cs| == k;
    assert |ps| == k;
    forall i | 0 <= i < k ensures cs[i] == ps[i] {
      assert rows[..k][i] == rows[i];
    }
  }

  // ---------------------------------------------------------------------
  // Replies

  datatype Reply =
    | Pong
    | Bye
    | Error(message: string)
    | Metrics(names: seq<string>)
    | Series(interval: int, metric: string, points: seq<Datapoint>)

  const UnrecognizedPrefix: string := "Unrecognized command "

  /** Commands answered on the connection's own thread. */
  function Answer(c: Command): (r: seq<Reply>)
    ensures |r| <= 1
    ensures r == [] <==> IsDeferred(c)
  {
    match c
    case Ping => [Pong]
    case Quit => [Bye]
    case Unrecognized(command) => [Error(UnrecognizedPrefix + command)]
    case _ => []
  }

  /** Commands handed to the worker pool (`EM.defer`). */
  predicate IsDeferred(c: Command) {
    c.Available? || c.Values? || c.Delete?
  }

  function Answers(cs: seq<Command>): seq<Reply> {
    if cs == [] then [] else Answers(cs[..|cs| - 1]) + Answer(cs[|cs| - 1])
  }

  lemma {:induction false} SnocAnswers(cs: seq<Command>, c: Command)
    ensures Answers(cs + [c]) == Answers(cs) + Answer(c)
    ensures DeferredOf(cs + [c]) == DeferredOf(cs) + if IsDeferred(c) then [c] else []
    ensures (Quit in cs + [c]) == (Quit in cs || c == Quit)
  {
    assert (cs + [c])[..|cs|] == cs;
  }

  /** What one more command of a message adds to the replies, the jobs and the quit flag. */
  lemma {:induction false} PrefixStep(cs: seq<Command>, i: nat)
    requires i < |cs|
    ensures Answers(cs[..i + 1]) == Answers(cs[..i]) + Answer(cs[i])
    ensures DeferredOf(cs[..i + 1]) == DeferredOf(cs[..i]) + if IsDeferred(cs[i]) then [cs[i]] else []
    ensures (Quit in cs[..i + 1]) == (Quit in cs[..i] || cs[i] == Quit)
  {
    assert cs[..i + 1] == cs[..i] + [cs[i]];
    SnocAnswers(cs[..i], cs[i]);
  }

  function DeferredOf(cs: seq<Command>): (r: seq<Command>)
    ensures forall i :: 0 <= i < |r| ==> IsDeferred(r[i])
  {
    if cs == [] then []
    else DeferredOf(cs[..|cs| - 1]) + if IsDeferred(cs[|cs| - 1]) then [cs[|cs| - 1]] else []
  }

  /**
   * The loop of `receive_data` over the rows: the replies sent at once, the
   * jobs handed to the worker pool, and whether the connection is to close.
   * A blank row returns from the loop.
   */
  method HandleRows(rows: seq<seq<string>>) returns (replies: seq<Reply>, jobs: seq<Command>, quit: bool)
    ensures var cs := Commands(rows);
            && replies == Answers(cs)
            && jobs == DeferredOf(cs)
            && quit == (Quit in cs)
  {
    replies, jobs, quit := [], [], false;
    ghost var cs := Commands(rows);
    var i := 0;
    while i < |rows|
      invariant 0 <= i <= |cs|
      invariant replies == Answers(cs[..i])
      invariant jobs == DeferredOf(cs[..i])
      invariant quit == (Quit in cs[..i])
    {
      var fields := rows[i];
      if fields == [] {
        assert cs[..i] == cs;
        return;
      }
      assert i < |cs|;
      var command := CommandOf(fields);
      PrefixStep(cs, i);
      match command {
        case Ping => replies := replies + [Pong];
        case Quit =>
          replies := replies + [Bye];
          quit := true;
        case Unrecognized(word) => replies := replies + [Error(UnrecognizedPrefix + word)];
        case _ => jobs := jobs + [command];
      }
      i := i + 1;
    }
    assert cs[..i] == cs;
  }

  // ---------------------------------------------------------------------
  // Tier routing

  /** `nil.to_i` is 0. */
  function TimeArg(t: Option<string>): int {
    if t.Some? then ToI(t.value) else 0
  }

  /** A tier can serve a query starting at `begin`: `now - interval*count <= begin`. */
  predicate Covers(t: Tier, now: int, begin: int) {
    now - t.interval * t.count <= begin
  }

  /** The tier `values` reads: the first that covers `begin`, the last one failing that. */
  function ChosenTier(tiers: seq<Tier>, now: int, begin: int): (i: nat)
    requires tiers != []
    ensures i < |tiers|
    ensures i == |tiers| - 1 || Covers(tiers[i], now, begin)
    ensures forall j :: 0 <= j < i ==> !Covers(tiers[j], now, begin)
    decreases |tiers|
  {
    if |tiers| == 1 || Covers(tiers[0], now, begin) then 0
    else
      var i := ChosenTier(tiers[1..], now, begin);
      assert forall j :: 1 <= j < i + 1 ==> tiers[j] == tiers[1..][j - 1];
      1 + i
  }

  /** An earlier start never selects a finer tier. */
  lemma {:induction false} RoutingMonotone(tiers: seq<Tier>, now: int, begin: int, earlier: int)
    requires tiers != [] && earlier <= begin
    ensures ChosenTier(tiers, now, earlier) >= ChosenTier(tiers, now, begin)
  {
    var i := ChosenTier(tiers, now, begin);
    var i' := ChosenTier(tiers, now, earlier);
  }

  /** With tiers (10 s x 360, 60 s x 10080), a query two hours back reads the 60 s tier. */
  lemma TwoHoursBackReadsTheMinuteTier(now: int)
    ensures var tiers := [Tier(10, 360), Tier(60, 10080)];
            var i := ChosenTier(tiers, now, now - 7200);
            i == 1 && tiers[i].interval == 60
  {
    var tiers := [Tier(10, 360), Tier(60, 10080)];
    assert !Covers(tiers[0], now, now - 7200);
  }

  /**
   * The reader and the backdater disagree at the edge of the hot window: a
   * point exactly one first-tier window old is read from the hot store but
   * never stored there, for sorted retentions.
   */
  lemma {:induction false} HotWindowEdgeIsReadButNotWritten(tiers: seq<Tier>, now: int)
    requires tiers != []
    requires forall i, j :: 0 <= i < j < |tiers| ==> tiers[i].interval < tiers[j].interval
    ensures var edge := now - Window(tiers[0]);
            ChosenTier(tiers, now, edge) == 0 && Backdate.StoreInRedis(tiers, now, edge) == Some(false)
  {
    Backdate.RedisPeriodOfSorted(tiers);
  }

  /** `metric.match(/^gauge/)`: metric names hold no line breaks, so a prefix test. */
  predicate IsGauge(metric: string) {
    StartsWith(metric, "gauge")
  }

  /** Gauges written by the backdater are read and deleted as gauges; counters and timers are not. */
  lemma {:induction false} GaugeNamesAreGauges(key: string, aggregation: string, interval: int)
    ensures IsGauge(Backdate.GaugeKey(key))
    ensures !IsGauge(TierKey(Backdate.CounterKey(key), interval))
    ensures !IsGauge(TierKey(Backdate.TimerKey(key, aggregation), interval))
  {
    assert Backdate.GaugeKey(key)[..5] == "gauge";
    assert TierKey(Backdate.CounterKey(key), interval)[0] == 'c';
    assert TierKey(Backdate.TimerKey(key, aggregation), interval)[0] == 't';
  }

  /** The source of a hot-store range query: `values_from_zset(metric, begin, end)`. */
  type RangeQuery = (string, Option<string>, Option<string>) -> seq<Datapoint>

  /**
   * What `values` answers: the interval and the points.  A gauge reads its
   * single bucket with interval 0; without retentions nothing is read;
   * otherwise the tier `ChosenTier` picks is read, from the hot store for
   * the first tier and from the tier's bucket for the others.
   */
  function QueryResult(store: Diskstore, d: Tree, tiers: seq<Tier>, metric: string,
                       beginTime: Option<string>, endTime: Option<string>, now: int, zset: RangeQuery)
    : (r: (int, seq<Datapoint>))
    requires store.Valid()
    ensures !IsGauge(metric) && tiers != [] ==> exists i :: 0 <= i < |tiers| && r.0 == tiers[i].interval
    ensures IsGauge(metric) || tiers == [] ==> r.0 == 0
    ensures IsGauge(metric) ==> r.1 == store.Points(d, Some(metric), beginTime, endTime)
    ensures !IsGauge(metric) && tiers == [] ==> r.1 == []
    ensures !IsGauge(metric) && tiers != [] ==>
              var i := ChosenTier(tiers, now, TimeArg(beginTime));
              && r.0 == tiers[i].interval
              && (i == 0 ==> r.1 == zset(metric, beginTime, endTime))
              && (i > 0 ==> r.1 == store.Points(d, Some(TierKey(metric, r.0)), beginTime, endTime))
  {
    if IsGauge(metric) then (0, store.Points(d, Some(metric), beginTime, endTime))
    else if tiers == [] then (0, [])
    else
      var i := ChosenTier(tiers, now, TimeArg(beginTime));
      (tiers[i].interval,
       if i == 0 then zset(metric, beginTime, endTime)
       else store.Points(d, Some(TierKey(metric, tiers[i].interval)), beginTime, endTime))
  }

  /**
   * The `values` branch: a gauge reads its single bucket; otherwise the
   * `each_with_index` loop skips every tier but the last whose window does
   * not reach `begin`, then reads the hot store for the first tier and the
   * tier's bucket for the others.
   */
  method Query(store: Diskstore, fs: FileSystem, tiers: seq<Tier>, metric: string,
               beginTime: Option<string>, endTime: Option<string>, now: int, zset: RangeQuery)
    returns (interval: int, datapoints: seq<Datapoint>)
    requires store.Valid()
    ensures (interval, datapoints) == QueryResult(store, fs.State(), tiers, metric, beginTime, endTime, now, zset)
  {
    interval, datapoints := 0, [];
    if IsGauge(metric) {
      datapoints := store.Read(fs, Some(metric), beginTime, endTime);
      return;
    }
    var begin := TimeArg(beginTime);
    var index := 0;
    while index < |tiers|
      invariant 0 <= index <= |tiers|
      invariant forall j :: 0 <= j < index ==> j != |tiers| - 1 && !Covers(tiers[j], now, begin)
      invariant interval == 0 && datapoints == []
    {
      if index != |tiers| - 1 && now - tiers[index].interval * tiers[index].count > begin {
        index := index + 1;
        continue;
      }
      interval := tiers[index].interval;
      if index == 0 {
        datapoints := zset(metric, beginTime, endTime);
      } else {
        datapoints := store.Read(fs, Some(TierKey(metric, tiers[index].interval)), beginTime, endTime);
      }
      assert ChosenTier(tiers, now, begin) == index;
      return;
    }
  }

  // ---------------------------------------------------------------------
  // Deleting

  /** The statistics of a metric on every tier, the first included. */
  function TierNames(metric: string, tiers: seq<Tier>): (r: seq<string>)
    ensures |r| == |tiers|
  {
    seq(|tiers|, i requires 0 <= i < |tiers| => TierKey(metric, tiers[i].interval))
  }

  /** Every statistic the backdater fills for a counter or timer is among those deleted. */
  lemma {:induction false} DeleteCoversWrittenTiers(name: string, tiers: seq<Tier>)
    ensures forall i :: 0 <= i < |Backdate.DiskKeys(name, tiers)| ==>
              Backdate.DiskKeys(name, tiers)[i] == TierNames(name, tiers)[i + 1]
  {
    forall i | 0 <= i < |Backdate.DiskKeys(name, tiers)|
      ensures Backdate.DiskKeys(name, tiers)[i] == TierNames(name, tiers)[i + 1]
    {
      Backdate.DiskKeyAt(name, tiers, i);
    }
  }

  /** The filesystem after `delete(statistic)` when it did not raise. */
  function Removed(store: Diskstore, d: Tree, statistic: string): Tree
    requires store.Valid()
  {
    Deleted(d, store.FilenameOf(statistic), store.BucketDir(statistic), store.ShardDir(statistic))
  }

  /** The bucket files of some statistics. */
  function FilenamesOf(store: Diskstore, names: seq<string>): set<string>
    requires store.Valid()
  {
    set i | 0 <= i < |names| :: store.FilenameOf(names[i])
  }

  /**
   * Deleting statistics in turn: the filesystem afterwards, and whether all
   * deletes went through; the first that raises ends the run.
   */
  function DeleteAll(store: Diskstore, d: Tree, names: seq<string>): (Tree, bool)
    requires store.Valid()
    decreases |names|
  {
    if names == [] then (d, true)
    else
      var n := |names| - 1;
      var (before, ok) := DeleteAll(store, d, names[..n]);
      if !ok || store.FilenameOf(names[n]) in before.dirs then (before, false)
      else (Removed(store, before, names[n]), true)
  }

  lemma {:induction false} FilenamesOfSnoc(store: Diskstore, names: seq<string>, name: string)
    requires store.Valid()
    ensures FilenamesOf(store, names + [name]) == FilenamesOf(store, names) + {store.FilenameOf(name)}
  {
    var all := names + [name];
    forall f | f in FilenamesOf(store, all) ensures f in FilenamesOf(store, names) + {store.FilenameOf(name)} {
      var i :| 0 <= i < |all| && f == store.FilenameOf(all[i]);
      if i < |names| { assert all[i] == names[i]; }
    }
    forall f | f in FilenamesOf(store, names) ensures f in FilenamesOf(store, all) {
      var i :| 0 <= i < |names| && f == store.FilenameOf(names[i]);
      assert all[i] == names[i];
    }
    assert all[|names|] == name;
  }

  /**
   * Deleting removes bucket files and never rewrites one; when every delete
   * went through, exactly the buckets of the statistics are gone, and no
   * directory is created.
   */
  lemma {:induction false} DeleteAllEffect(store: Diskstore, d: Tree, names: seq<string>)
    requires store.Valid()
    ensures var r := DeleteAll(store, d, names);
            && (r.1 ==> r.0.files.Keys == d.files.Keys - FilenamesOf(store, names))
            && r.0.files.Keys <= d.files.Keys
            && (forall f :: f in r.0.files ==> r.0.files[f] == d.files[f])
            && r.0.dirs <= d.dirs
    decreases |names|
  {
    if names != [] {
      var n := |names| - 1;
      DeleteAllEffect(store, d, names[..n]);
      var (before, ok) := DeleteAll(store, d, names[..n]);
      if ok && store.FilenameOf(names[n]) !in before.dirs {
        DeletedEffect(before, store.FilenameOf(names[n]), store.BucketDir(names[n]), store.ShardDir(names[n]));
        assert names == names[..n] + [names[n]];
        FilenamesOfSnoc(store, names[..n], names[n]);
      }
    }
  }

  /** One more delete, after the first `k`. */
  lemma {:induction false} DeleteAllStep(store: Diskstore, d: Tree, names: seq<string>, k: nat)
    requires store.Valid() && k < |names|
    ensures DeleteAll(store, d, names[..k + 1])
            == var (before, ok) := DeleteAll(store, d, names[..k]);
               if !ok || store.FilenameOf(names[k]) in before.dirs then (before, false)
               else (Removed(store, before, names[k]), true)
  {
    assert names[..k + 1][..k] == names[..k];
  }

  /** Once a delete raised, the later ones never run. */
  lemma {:induction false} DeleteAllStopsAtFailure(store: Diskstore, d: Tree, names: seq<string>, k: nat)
    requires store.Valid() && k <= |names|
    requires !DeleteAll(store, d, names[..k]).1
    ensures DeleteAll(store, d, names) == DeleteAll(store, d, names[..k])
    decreases |names|
  {
    if k == |names| {
      assert names[..k] == names;
    } else {
      var n := |names| - 1;
      assert names[..n][..k] == names[..k];
      DeleteAllStopsAtFailure(store, d, names[..n], k);
    }
  }

  /** The loop of `delete_metric` over the tiers: delete `metric:interval` for each. */
  method DeleteTiers(store: Diskstore, fs: FileSystem, metric: string, tiers: seq<Tier>) returns (ok: bool)
    requires store.Valid() && fs.Valid()
    modifies fs
    ensures fs.Valid()
    ensures (fs.State(), ok) == DeleteAll(store, old(fs.State()), TierNames(metric, tiers))
  {
    ghost var names := TierNames(metric, tiers);
    var index := 0;
    while index < |tiers|
      invariant 0 <= index <= |tiers|
      invariant fs.Valid()
      invariant DeleteAll(store, old(fs.State()), names[..index]) == (fs.State(), true)
    {
      DeleteAllStep(store, old(fs.State()), names, index);
      ok := store.Delete(fs, TierKey(metric, tiers[index].interval));
      if !ok {
        DeleteAllStopsAtFailure(store, old(fs.State()), names, index + 1);
        return;
      }
      index := index + 1;
    }
    assert names[..index] == names;
    ok := true;
  }

  // ---------------------------------------------------------------------
  // A connection

  /** The server configuration (module-level `Server.config`). */
  datatype Config = Config(tiers: seq<Tier>, root: string, redisHost: string, redisPort: int, port: int)

  class Connection {
    const tiers: seq<Tier>
    const hot: HotStore
    const diskstore: Diskstore
    var sent: seq<Reply>
    var closing: bool
    var deferred: seq<Command>

    ghost predicate Valid() {
      diskstore.Valid()
    }

    /** `post_init`: a hot store client and a disk store of its own. */
    constructor (config: Config, digest: string -> string)
      requires IsMd5Like(digest)
      ensures Valid() && fresh(hot) && fresh(diskstore)
      ensures tiers == config.tiers && hot.tiers == config.tiers && hot.calls == []
      ensures hot.host == config.redisHost && hot.port == config.redisPort
      ensures diskstore.root == config.root && diskstore.digest == digest
      ensures sent == [] && !closing && deferred == []
    {
      tiers := config.tiers;
      hot := new HotStore(config.redisHost, config.redisPort, config.tiers);
      diskstore := new Diskstore(config.root, digest);
      sent := [];
      closing := false;
      deferred := [];
    }

    /**
     * `receive_data(msg)`: every row up to the first blank one is
     * classified; `ping`, `quit`/`exit` and unknown words are answered at
     * once, the rest is handed to the worker pool, whose completion order
     * this model leaves open.
     */
    method ReceiveData(msg: string)
      modifies this
      ensures var cs := Commands(Rows(msg));
              && sent == old(sent) + Answers(cs)
              && deferred == old(deferred) + DeferredOf(cs)
              && closing == (old(closing) || Quit in cs)
    {
      var replies, jobs, quit := HandleRows(Rows(msg));
      sent := sent + replies;
      deferred := deferred + jobs;
      closing := closing || quit;
    }

    /** `delete_metric(metric)`: a gauge has one bucket, other metrics one per tier. */
    method DeleteMetric(fs: FileSystem, metric: string) returns (ok: bool)
      requires Valid() && fs.Valid()
      modifies fs, hot
      ensures fs.Valid()
      ensures (fs.State(), ok) == DeleteAll(diskstore, old(fs.State()),
                                            if IsGauge(metric) then [metric] else TierNames(metric, tiers))
      ensures hot.calls == old(hot.calls) + if ok then [Unregistered(metric)] else []
    {
      if IsGauge(metric) {
        ok := diskstore.Delete(fs, metric);
        assert [metric][..0] == [];
      } else {
        ok := DeleteTiers(diskstore, fs, metric, tiers);
      }
      if ok {
        hot.RemoveDatapoint(metric);
      }
    }

    /**
     * A job of the worker pool.  A missing metric makes `metric.match`
     * raise, and nothing is sent or deleted.
     */
    method RunDeferred(job: Command, fs: FileSystem, now: int, zset: RangeQuery, available: seq<string>)
      requires Valid() && fs.Valid() && IsDeferred(job)
      modifies this, fs, hot
      ensures fs.Valid()
      ensures deferred == old(deferred) && closing == old(closing)
      ensures job.Available? ==>
                sent == old(sent) + [Metrics(available)] && fs.State() == old(fs.State()) && hot.calls == old(hot.calls)
      ensures job.Values? && job.metric.Some? ==>
                var r := QueryResult(diskstore, old(fs.State()), tiers, job.metric.value, job.beginTime, job.endTime, now, zset);
                && sent == old(sent) + [Series(r.0, job.metric.value, r.1)]
                && fs.State() == old(fs.State()) && hot.calls == old(hot.calls)
      ensures job.Delete? && job.metric.Some? ==>
                var metric := job.metric.value;
                var outcome := DeleteAll(diskstore, old(fs.State()), if IsGauge(metric) then [metric] else TierNames(metric, tiers));
                && sent == old(sent) && fs.State() == outcome.0
                && hot.calls == old(hot.calls) + if outcome.1 then [Unregistered(metric)] else []
      ensures !job.Available? && job.metric.None? ==> sent == old(sent) && fs.State() == old(fs.State()) && hot.calls == old(hot.calls)
    {
      match job {
        case Available =>
          sent := sent + [Metrics(available)];
        case Values(metric, beginTime, endTime) =>
          if metric.Some? {
            var interval, datapoints := Query(diskstore, fs, tiers, metric.value, beginTime, endTime, now, zset);
            sent := sent + [Series(interval, metric.value, datapoints)];
          }
        case Delete(metric) =>
          if metric.Some? {
            var ok := DeleteMetric(fs, metric.value);
          }
      }
    }
  }

  // ---------------------------------------------------------------------
  // The daemon

  /** Options of `Daemon.new`. */
  datatype DaemonOptions = DaemonOptions(bind: Option<string>, manualPort: Option<int>, port: Option<int>)

  /** The port served: a manual port, else two above the base port (8125 by default). */
  function ListenPort(options: DaemonOptions): int {
    if options.manualPort.Some? then options.manualPort.value
    else (if options.port.Some? then options.port.value else 8125) + 2
  }

  /** A manual port wins; otherwise the server sits two ports above the collector. */
  lemma ListenPortChoices(options: DaemonOptions)
    ensures options.manualPort.Some? ==> ListenPort(options) == options.manualPort.value
    ensures options.manualPort.None? && options.port.Some? ==> ListenPort(options) == options.port.value + 2
    ensures options.manualPort.None? && options.port.None? ==> ListenPort(options) == 8127
  {
  }

  class Daemon {
    const options: DaemonOptions
    const bind: string
    const port: int
    /** The configuration shared with connections: the options, with the chosen port. */
    var config: DaemonOptions

    constructor (options: DaemonOptions)
      ensures this.options == options
      ensures bind == (if options.bind.Some? then options.bind.value else "0.0.0.0")
      ensures port == ListenPort(options)
      ensures config == options.(port := Some(port))
    {
      this.options := options;
      bind := if options.bind.Some? then options.bind.value else "0.0.0.0";
      port := ListenPort(options);
      config := options.(port := Some(ListenPort(options)));
    }
  }
}
