# batsd storage and query core, in Dafny

batsd is a statsd-compatible metrics daemon. Recent data lives in a hot store
(Redis). Older data lives on disk in flat *bucket files*: one file per
statistic, each line `"<timestamp> <value>"`. This project models three parts
of it and proves properties of the model:

- **Disk store** (`Batsd::Diskstore`). It hashes a statistic name into a
  two-level directory path (`root/h[0,2]/h[2,2]/h`). It appends with up to
  three attempts, reads an inclusive timestamp range, truncates through a
  `<file>tmp` sibling, and deletes a bucket and its empty hash directories.
- **Server** (`Batsd::Server`). It answers the line protocol: `available`,
  `values`, `ping`, `delete` and `quit`/`exit`. It routes `values` to the
  retention tier whose window reaches the requested start, deletes every
  tier of a metric, and computes the daemon's port.
- **Backdater** (`Batsd::Backdater`). It writes counters, gauges and timers
  with explicit timestamps:
  - to the hot store when inside the hot window;
  - to the bucket of every retention tier after the first.

## How the model is built

Files, one module each:

- `strings.dfy` (`Strings`): the Ruby string operations the code relies on.
  - `split` on whitespace (`Fields`) and on one character (`RubySplit`, which
    drops trailing empty pieces).
  - `String#<=>` (`StrLess`), `to_i` (`ToI`), integer interpolation
    (`IntToString`).
  - Case-insensitive unanchored regexp search for a literal word
    (`ContainsIgnoringCase`).
- `files.dfy` (`Files`): the filesystem.
  - A `Tree` value: a map from path to lines, plus a set of directories.
  - A `FileSystem` class whose methods are the primitives the disk store
    calls: `mkdir_p`, write, append, `rm`, `rmdir`.
  - `rmdir` of a directory that is missing or not empty does nothing. That is
    what the comment at lib/batsd/diskstore.rb:116 expects. It assumes the
    `FileUtils` of the Ruby versions the code was written for, the same ones
    that still provide `File.exists?` (lib/batsd/diskstore.rb:111).
- `diskstore.dfy` (`Disk`): the disk store.
  - Class `Diskstore`.
  - Specification functions for reading (`Scan`, `InRange`), truncating
    (`Retained`, `Truncated`), appending (`Tries`, `Appended`) and deleting
    (`Deleted`).
  - The statistic naming `"<name>:<interval>"` (`TierKey`).
- `hotstore.dfy` (`Hot`): the hot-store client, modelled only as the log of
  calls made on it. Also retention tiers (`Tier(interval, count)`).
- `backdater.dfy` (`Backdate`): `redis_period`, `store_in_redis?`, the
  tier fan-out, and class `Backdater`.
- `server.dfy` (`Server`):
  - command classification and the row loop of `receive_data`;
  - tier routing (`ChosenTier`, `Query`) and `delete_metric`;
  - classes `Connection` and `Daemon`.

Some things the system reads from outside become explicit parameters:

- The current time (`now`).
- The MD5 digest: a function `digest` required to give 32 lower-case hex
  characters for every input.
- The hot store's query answers: the `zset` range query and the `available`
  list.
- The passing I/O failures of each append attempt: a `faults` sequence, one
  flag per attempt.

Lasting failures are part of the model: a directory where a file is
expected, or a file where `mkdir_p` needs a directory. Ruby exceptions that
end an operation are modelled as its outcome:

- `Delete` returns false.
- `Count` returns false when there are no retentions.
- The read loop stops at the first line that raises.

The code behaves as follows, which its names and comments may not suggest:

- `build_filename("")` returns a path; only `nil` gives `nil`
  (lib/batsd/diskstore.rb:21).
- `read` compares timestamps as strings, not as numbers
  (lib/batsd/diskstore.rb:57; `Strings.StringOrderIsNotNumeric`).
- `read` does not stop at `end_ts`, although its comment says so
  (lib/batsd/diskstore.rb:47). It reads every line, keeps those in range, and
  does not skip a malformed line: the first line that raises (a blank line,
  or a missing bound) ends the read, which returns the points found so far.
- The backdater's hot window is strict: `timestamp > now - period`
  (lib/batsd/backdater.rb:112).
- The window length is taken from the *smallest* interval, not from the
  first tier (lib/batsd/backdater.rb:122-125).
- `delete_metric` does not always remove the datapoint index entry. When a
  bucket path is a directory, `rm` raises, and the remaining tiers and
  `remove_datapoint` are skipped (lib/batsd/server.rb:87-97).

## Model

| member | source | states |
|---|---|---|
| Disk.Diskstore.BuildFilename | lib/batsd/diskstore.rb:20-24 | nil exactly for nil; otherwise the statistic's hashed bucket file |
| Disk.Diskstore.FilenameLayout | lib/batsd/diskstore.rb:16-23 | the bucket file is a file path ending in `h[0,2]/h[2,2]/h`; its parent is the second hash directory, whose parent is the first |
| Disk.HashedPathLayout | lib/batsd/diskstore.rb:23 | the same layout for any root and any 32-character hex digest |
| Disk.Diskstore.FilenameDeterminesDigest | lib/batsd/diskstore.rb:22-23 | two statistics share a bucket file only when their digests agree |
| Disk.Tries | lib/batsd/diskstore.rb:31-43 | an append makes 1 to 3 attempts in all, and every attempt before the last one raised |
| Disk.StoredIffSomeAttemptSucceeds | lib/batsd/diskstore.rb:37-42 | a value is lost exactly when all three attempts raise |
| Disk.Appended | lib/batsd/diskstore.rb:31-36 | once stored, the file is its old lines plus the value as the new last line, and the directories added are exactly the file's directory and its ancestors; other files are unchanged; directories only grow; nothing changes when all attempts fail |
| Disk.Diskstore.AppendValueToFile | lib/batsd/diskstore.rb:31-43 | returns normally after the attempts `Tries` counts, leaving the filesystem `Appended` describes |
| Disk.Judge | lib/batsd/diskstore.rb:56-58 | a line with no fields raises; a kept point has both bounds present, its timestamp string between them (inclusive, in string order) and its timestamp `to_i` of that string |
| Disk.FirstRaise | lib/batsd/diskstore.rb:55-57 | the position of the first line that raises when compared; no earlier verdict raises |
| Disk.JudgeBothBounds | lib/batsd/diskstore.rb:56-58 | with both bounds given, a line with a timestamp never raises; it is kept exactly when `start_ts <= ts <= end_ts` in string order, a line past `end_ts` is skipped, and a kept point's value is the second word or nil |
| Disk.NoBlankLineReadsInFull | lib/batsd/diskstore.rb:53-68 | with both bounds given, a file with no blank line is read to its end: the read returns the in-range points of every line |
| Disk.ScanIsInRangeBeforeFirstRaise | lib/batsd/diskstore.rb:53-68 | a read returns the in-range points of the lines before the first line that raises, in file order |
| Disk.FirstRaiseOfLines | lib/batsd/diskstore.rb:56-57 | that line really raises, and no earlier line does |
| Disk.InRangeMembership | lib/batsd/diskstore.rb:56-58 | a point is returned exactly when some line's timestamp lies between the bounds (string order, both ends inclusive) and yields it |
| Disk.InRangeConcat | lib/batsd/diskstore.rb:55-60 | points come out in file order: reading two stretches of lines is reading each in turn |
| Disk.WrittenLineReadsBack | lib/batsd/diskstore.rb:56-58 | a line `"<ts> <value>"` read over bounds that contain `ts` yields the point (ts, value) |
| Disk.WrittenLinesReadBack | lib/batsd/diskstore.rb:55-60 | a file of such lines, all in range, reads back as exactly its points in order |
| Disk.ReadLines | lib/batsd/diskstore.rb:55-60 | the read loop returns the `Scan` of the file's lines |
| Disk.Diskstore.Read | lib/batsd/diskstore.rb:50-69 | nil statistic or missing file gives []; otherwise the scan of the bucket file |
| Disk.Keep | lib/batsd/diskstore.rb:81 | a line survives when its timestamp string is not below `since`, or when it has no timestamp (the `rescue true`); `KeepWrittenLine` and `DroppedLineIsOutside` state it for written lines |
| Disk.Retained | lib/batsd/diskstore.rb:80-84 | the lines written to the temporary file, never more than were read; `RetainedMembership`, `RetainedConcat` and `RetainedIdempotent` state which |
| Disk.RetainedMembership | lib/batsd/diskstore.rb:80-84 | a line survives a truncate exactly when it was there and is blank or not older than `since` |
| Disk.RetainedConcat | lib/batsd/diskstore.rb:80-84 | lines are judged one by one, in order |
| Disk.RetainedIdempotent | lib/batsd/diskstore.rb:75-90 | truncating twice at the same point is truncating once |
| Disk.KeepWrittenLine | lib/batsd/diskstore.rb:81 | whether a written line survives depends only on its timestamp |
| Disk.DroppedLineIsOutside | lib/batsd/diskstore.rb:57 | a dropped line lies outside every read starting at or after `since` |
| Disk.TruncateKeepsLaterReads | lib/batsd/diskstore.rb:75-90 | reads starting at or after `since` return the same points before and after truncating |
| Disk.KeptLines | lib/batsd/diskstore.rb:80-84 | the copy loop writes exactly the `Retained` lines |
| Disk.Truncated | lib/batsd/diskstore.rb:75-97 | the tmp file is gone afterwards and directories are unchanged; other files are unchanged; the file keeps only its retained lines unless it is missing, tmp existed or the copy failed |
| Disk.Diskstore.Truncate | lib/batsd/diskstore.rb:75-97 | the truncate leaves the filesystem `Truncated` describes |
| Disk.Deleted | lib/batsd/diskstore.rb:111-118 | the file removed, then `rmdir` of the bucket and of the shard directory; `DeletedEffect` states the result |
| Disk.DeletedEffect | lib/batsd/diskstore.rb:107-119 | exactly the target file disappears; only the two hash directories can disappear, each only when empty at its turn |
| Disk.ShardGoesIffEmpty | lib/batsd/diskstore.rb:116-118 | the shard directory is removed exactly when it has no child left after the bucket's `rmdir` |
| Disk.ShardOutlivesBucket | lib/batsd/diskstore.rb:117-118 | the first hash directory is never removed while the second survives |
| Disk.Diskstore.Delete | lib/batsd/diskstore.rb:107-119 | raises (false, nothing changed) exactly when the bucket path is a directory; otherwise leaves the filesystem `Deleted` describes |
| Disk.TierKey | lib/batsd/backdater.rb:73 | the statistic `"<name>:<interval>"` of a tier; `TierKeyInjective` shows distinct intervals give distinct statistics |
| Disk.TierKeyInjective | lib/batsd/diskstore.rb:99-105 | `"<name>:<interval>"` names differ for different intervals |
| Strings.Fields | lib/batsd/diskstore.rb:56 | `split` yields non-empty words free of whitespace |
| Strings.FieldsEmptyIffBlank | lib/batsd/server.rb:29-32 | a row has no words exactly when it is all whitespace |
| Strings.FieldsOfPair | lib/batsd/diskstore.rb:56 | `"a b"` splits into `[a, b]` |
| Strings.StrLessLeqTrans | lib/batsd/diskstore.rb:57 | string order is transitive, as the range test relies on |
| Strings.StringOrderIsNotNumeric | lib/batsd/diskstore.rb:57 | string order differs from numeric order (`"1500" <= "200"`, and `"900" < "1000"` is false) |
| Strings.IntToString | lib/batsd/backdater.rb:117 | an interpolated integer is non-empty, without whitespace or slashes |
| Strings.ToIOfIntToString | lib/batsd/diskstore.rb:58 | `to_i` of an interpolated integer is that integer |
| Strings.SegmentsJoin | lib/batsd/diskstore.rb:32 | splitting a joined path gives back its pieces |
| Strings.ContainsIgnoringCaseAt | lib/batsd/server.rb:34 | a case-insensitive pattern matches exactly when it matches at some position |
| Strings.ContainsIgnoringCaseOfLower | lib/batsd/server.rb:34 | lower-casing the subject never changes a `/.../i` match |
| Files.ParentDirOfFilePath | lib/batsd/diskstore.rb:32 | `split("/")[0..-2].join("/")` is the text before the last separator |
| Files.FileSystem.MkdirP | lib/batsd/diskstore.rb:32 | creates the directory and its ancestors; files are unchanged |
| Files.FileSystem.AppendLine | lib/batsd/diskstore.rb:33-36 | the file gains one last line; nothing else changes |
| Files.FileSystem.WriteLines | lib/batsd/diskstore.rb:78-88 | the file's content becomes the given lines; nothing else changes |
| Files.FileSystem.RemoveFile | lib/batsd/diskstore.rb:111 | the file is removed; nothing else changes |
| Files.FileSystem.RemoveDir | lib/batsd/diskstore.rb:117-118 | an existing empty directory is removed; otherwise nothing happens |
| Hot.HotStore.AddDatapoint | lib/batsd/backdater.rb:65 | the log gains the registration of the key |
| Hot.HotStore.StoreAndUpdateAllCounters | lib/batsd/backdater.rb:68 | the log gains the counter store call |
| Hot.HotStore.StoreTimer | lib/batsd/backdater.rb:98 | the log gains the timer store call |
| Hot.HotStore.RemoveDatapoint | lib/batsd/server.rb:96 | the log gains the removal of the key |
| Backdate.SmallestInterval | lib/batsd/backdater.rb:123 | `keys.sort.first` is one of the intervals and no larger than any |
| Backdate.CountOf | lib/batsd/backdater.rb:124 | the hash lookup finds nothing exactly when no tier has the interval; otherwise it gives the count of a tier with it |
| Backdate.RedisPeriod | lib/batsd/backdater.rb:122-125 | raises exactly without retentions; otherwise the window of a tier whose interval is the smallest |
| Backdate.StoreInRedis | lib/batsd/backdater.rb:111-113 | true exactly for timestamps strictly after `now - period`; raises without retentions |
| Backdate.RedisPeriodOfSmallest | lib/batsd/backdater.rb:122-125 | with hash-keyed retentions, the hot window is the window of the smallest-interval tier |
| Backdate.RedisPeriodOfSorted | lib/batsd/backdater.rb:122-125 | for retentions listed by increasing interval, the hot window is the first tier's |
| Backdate.UnsortedRetentionsSplitTheFirstTier | lib/batsd/backdater.rb:71-74 | retentions listed out of order: the hot window comes from the 60 s tier, which is still written to disk, while the skipped first tier (300 s) gets no bucket |
| Backdate.WindowEdgeStaysOnDisk | lib/batsd/backdater.rb:111-113 | a timestamp exactly one window old is not written to the hot store |
| Backdate.DiskKeys | lib/batsd/backdater.rb:71-74 | one statistic per tier after the first |
| Backdate.DiskKeyAt | lib/batsd/backdater.rb:71-74 | the `k`-th written statistic is `<name>:<interval>` of tier `k + 1` |
| Backdate.DiskKeysCoverLaterTiers | lib/batsd/backdater.rb:71-74 | a tier's statistic is written exactly when a tier after the first has that interval |
| Backdate.FirstTierNotOnDisk | lib/batsd/backdater.rb:72 | the first tier's statistic is never written |
| Backdate.CounterKey | lib/batsd/backdater.rb:60 | `"counters:<key>"`; kept apart from gauges by `GaugeKeysStandApart` |
| Backdate.GaugeKey | lib/batsd/backdater.rb:80 | `"gauges:<key>"`; read and deleted as a gauge (`Server.GaugeNamesAreGauges`) |
| Backdate.TimerKey | lib/batsd/backdater.rb:93-98 | `"timers:<key>:<aggregation>"`; kept apart from gauges by `GaugeKeysStandApart` |
| Backdate.GaugeKeysStandApart | lib/batsd/backdater.rb:80 | a gauge's statistic never coincides with a counter or timer statistic, tiered or not |
| Backdate.Line | lib/batsd/backdater.rb:116-117 | the line `"<timestamp> <value>"`; `Disk.WrittenLineReadsBack` reads it back as the point |
| Backdate.AppendAll | lib/batsd/backdater.rb:115-118 | appending to a list of buckets leaves every other file unchanged, and directories only grow |
| Backdate.AppendAllOnce | lib/batsd/backdater.rb:71-74 | each of several distinct buckets gains the line once, exactly when its own append was stored |
| Backdate.TierFiles | lib/batsd/backdater.rb:117 | one bucket file per written statistic |
| Backdate.TierFilesDistinct | lib/batsd/backdater.rb:71-73 | with distinct intervals, and a digest that gives two different statistics of the metric's later tiers different hashes, the later tiers' bucket files are pairwise distinct |
| Backdate.TierBucketGainsLine | lib/batsd/backdater.rb:71-74 | under the same conditions, the fan-out of `count` or `timing` gives tier `k + 1`'s bucket exactly one more line, the written one, when its own append stored it, and leaves it as it was otherwise |
| Backdate.TierFileAt | lib/batsd/backdater.rb:117 | the `k`-th bucket file is the hashed path of tier `k + 1`'s statistic |
| Backdate.AppendToTiers | lib/batsd/backdater.rb:71-74 | the fan-out loop appends the line to the bucket of every tier after the first, in order |
| Backdate.FirstTierOnly | lib/batsd/backdater.rb:42 | at most one tier, the first, and one exactly when there are retentions |
| Backdate.CountCalls | lib/batsd/backdater.rb:64-68 | one or two calls: the counter is always registered first, and the one further call, a counter store, happens exactly inside the hot window |
| Backdate.TimingCalls | lib/batsd/backdater.rb:97-98 | one timer store under `timers:<key>:<aggregation>`, exactly inside the hot window; no registration |
| Backdate.Backdater.constructor | lib/batsd/backdater.rb:30-45 | the given options over the defaults; the hot store client gets the first tier only |
| Backdate.Backdater.Count | lib/batsd/backdater.rb:59-76 | hot-store calls as `CountCalls` says; line `"<ts> <value>"` appended to each later tier's counter bucket; returns true, or raises without retentions after registering |
| Backdate.Backdater.Increment | lib/batsd/backdater.rb:48-50 | the same effects as `Count` with value 1 |
| Backdate.Backdater.Decrement | lib/batsd/backdater.rb:53-55 | the same effects as `Count` with value -1 |
| Backdate.Backdater.Gauge | lib/batsd/backdater.rb:79-88 | one append to the `gauges:<key>` bucket; the hot store is untouched; returns true |
| Backdate.Backdater.Timing | lib/batsd/backdater.rb:92-106 | hot-store calls as `TimingCalls` says; the line appended to each later tier's timer bucket; returns true, or raises without retentions |
| Server.CommandOf | lib/batsd/server.rb:29-72 | `available` wins over every other word; `values` takes metric, begin and end from the second to fourth words and `delete` the metric from the second, nil past the end of the row; each command holds exactly when its own word matches and no earlier word in the order `available`, `values`, `ping`, `delete`, `quit`/`exit` does |
| Server.Rows | lib/batsd/server.rb:27-29 | the words of each line of the message, in order |
| Server.UnrecognizedIffNoKeyword | lib/batsd/server.rb:33-73 | a row is rejected exactly when its first word contains none of the keywords, and the error names that word |
| Server.CommandIgnoresCase | lib/batsd/server.rb:34-68 | letter case never changes the command chosen |
| Server.CommandIsUnanchored | lib/batsd/server.rb:34-68 | text around a recognised word keeps it recognised |
| Server.Commands | lib/batsd/server.rb:27-32 | the rows' commands, in order, stop exactly at the first blank row; each is the classification of its row |
| Server.BlankRowEndsMessage | lib/batsd/server.rb:32 | nothing after a blank row is handled |
| Server.Answer | lib/batsd/server.rb:61-72 | at most one immediate reply, and one exactly for the commands not handed to the worker pool |
| Server.DeferredOf | lib/batsd/server.rb:35-67 | only `available`, `values` and `delete` go to the worker pool |
| Server.HandleRows | lib/batsd/server.rb:27-80 | the row loop sends the immediate replies of the message's commands, defers the others, and closes on `quit`/`exit` |
| Server.Connection.ReceiveData | lib/batsd/server.rb:26-80 | the connection's replies, jobs and closing flag grow by what the message's commands ask for |
| Server.TimeArg | lib/batsd/server.rb:45 | the begin time `to_i`, and 0 for a missing one (`nil.to_i`) |
| Server.Covers | lib/batsd/server.rb:45 | a tier serves a query when `now - interval * count <= begin`; `ChosenTier` and `RoutingMonotone` use it |
| Server.ChosenTier | lib/batsd/server.rb:44-57 | the first tier whose window reaches `begin`; every earlier tier does not reach it; the last tier when none does |
| Server.RoutingMonotone | lib/batsd/server.rb:44-47 | an earlier start never selects a finer tier |
| Server.TwoHoursBackReadsTheMinuteTier | lib/batsd/server.rb:45-48 | with tiers 10 s x 360 and 60 s x 10080, a query two hours back reads the 60 s tier |
| Server.HotWindowEdgeIsReadButNotWritten | lib/batsd/server.rb:45 | a query starting exactly one hot window back reads the hot store, where the backdater never writes such a point |
| Server.IsGauge | lib/batsd/server.rb:41 | a metric is a gauge when its name starts with `gauge`; `GaugeNamesAreGauges` shows the backdater's names are classified right |
| Server.GaugeNamesAreGauges | lib/batsd/server.rb:41 | backdated gauges are read as gauges; counters and timers are not |
| Server.QueryResult | lib/batsd/server.rb:38-59 | a gauge gets interval 0 and its own bucket's points; no retentions gives interval 0 and no points; otherwise the interval is that of the tier `ChosenTier` picks, whose points come from the hot store for the first tier and from that tier's bucket otherwise |
| Server.Query | lib/batsd/server.rb:36-59 | the loop's result is `QueryResult`: a gauge reads its single bucket with interval 0; no retentions gives interval 0 and no points; otherwise it reports the chosen tier's interval and reads the hot store for tier 0, else that tier's bucket |
| Server.TierNames | lib/batsd/server.rb:92-94 | one statistic per tier, the first included |
| Server.DeleteCoversWrittenTiers | lib/batsd/server.rb:92-94 | every bucket the backdater fills for a metric is among those `delete_metric` deletes |
| Server.DeleteAll | lib/batsd/server.rb:87-97 | the buckets deleted one after another, stopping at the first `rm` that raises; `DeleteAllEffect` and `DeleteAllStopsAtFailure` state the result |
| Server.DeleteAllEffect | lib/batsd/server.rb:87-97 | deleting never rewrites a file or creates a directory; when all deletes go through, exactly the metric's bucket files are gone |
| Server.DeleteAllStopsAtFailure | lib/batsd/server.rb:92-94 | after a delete raises, no later tier is deleted |
| Server.DeleteTiers | lib/batsd/server.rb:92-94 | the tier loop leaves the filesystem `DeleteAll` describes |
| Server.Connection.DeleteMetric | lib/batsd/server.rb:87-97 | a gauge's single bucket, or every tier's bucket, is deleted; the datapoint entry is removed exactly when no delete raised |
| Server.Connection.RunDeferred | lib/batsd/server.rb:35-67 | `available` sends the metric list; `values` sends the one series `QueryResult` gives and changes nothing else; `delete` deletes as `DeleteAll` does and unregisters the metric exactly when no `rm` raised; a missing metric does nothing; the deferred jobs and the closing flag are untouched |
| Server.Connection.constructor | lib/batsd/server.rb:18-22 | each connection gets its own hot store client and disk store |
| Server.ListenPort | lib/batsd/server.rb:107-108 | the port served: `manual_port`, else two above the base port; `ListenPortChoices` states the cases |
| Server.ListenPortChoices | lib/batsd/server.rb:108 | a manual port wins; otherwise the port is two above the base port, 8127 by default |
| Server.Daemon.constructor | lib/batsd/server.rb:105-110 | bind address defaults to 0.0.0.0; the port is `ListenPort`; the shared configuration records that port |

## Left out

- EventMachine is left out. Nothing models sockets, the worker pool
  (`EM.defer`), `close_connection` or the server's `run` loop. Deferred jobs
  are recorded in order and run one by one through `RunDeferred`. Their
  completion order is left open.
- JSON encoding is left out. Replies are datatype values (`Series`,
  `Metrics`, `Error`, `Pong`, `Bye`), not text.
- MD5 is left out. The digest is a parameter, required to produce 32
  lower-case hex characters.
- `Batsd::Redis` internals are left out. The hot store is a log of calls;
  `values_from_zset` and `datapoints` are parameters.
- Floats are left out. `value.to_f` in `gauge` and `timing` is taken as the
  already-rendered string of the float.
- `to_i` on the backdater's timestamps and counts is left out. They are
  taken as integers.
- `Time.now` is left out. It is the `now` parameter; the default timestamps
  are not modelled.
- Logging (`puts`) and the `VERBOSE` switches are left out.
- `Strings.ToI`: does not model `to_i`'s acceptance of underscores between
  digits or of leading whitespace.
- `Strings.Lower`: does not fold non-ASCII letters, which `/.../i` would.
- Values containing a newline are left out. They would split into two lines
  of a real file; here a line is stored as given.
- A failed append attempt has no effect here, on the file or its directories.
  A real failure could leave a partial line behind, or the bucket's
  directories that `mkdir_p` had already created.
- Concurrency is left out: appends and truncates racing on one bucket,
  deletes racing with appends to a sibling bucket, and several connections.
- Disk.Diskstore.Truncate: `since` is a string. A `nil` `since` makes every
  comparison raise, which is rescued as "keep", so it is not modelled
  separately.
- Other failures are left out: `rmdir` on a path that is a file, and any
  other OS error not listed under "How the model is built".
- The configuration is a parameter (`Config`, `DaemonOptions`), not
  module-level state.
- The rescue around each row of `receive_data` is left out. No modelled
  step of the row handling raises.
