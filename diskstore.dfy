/**
 * Batsd::Diskstore: flat append-only bucket files of "<timestamp> <value>"
 * lines, sharded two directory levels deep by the MD5 hex digest of the
 * statistic name.  The filesystem is a Files.FileSystem object; MD5 is the
 * `digest` the store is built with, any function that yields 32 lower-case
 * hex characters for every name.
 */
module Disk {
  import opened Strings
  import opened Files

  predicate IsHexDigit(c: char) {
    '0' <= c <= '9' || 'a' <= c <= 'f'
  }

  /** What `Digest::MD5.hexdigest` returns: 32 lower-case hex characters. */
  predicate IsHexDigest(h: string) {
    |h| == 32 && forall i :: 0 <= i < |h| ==> IsHexDigit(h[i])
  }

  ghost predicate IsMd5Like(digest: string -> string) {
    forall s :: IsHexDigest(digest(s))
  }

  lemma {:induction false} HexHasNoSlash(h: string)
    requires IsHexDigest(h)
    ensures '/' !in h && '/' !in h[..2] && '/' !in h[2..4]
    ensures h[..2] != [] && h[2..4] != [] && h != []
  {
    assert forall i :: 0 <= i < |h| ==> h[i] != '/';
  }

  // ---------------------------------------------------------------------
  // Reading

  /** One point of a bucket: `{timestamp: ts.to_i, value: value}`; `value` is nil for a one-field line. */
  datatype Datapoint = Datapoint(timestamp: int, value: Option<string>)

  /** What the read loop does with one line. */
  datatype Verdict = Raises | Outside | Inside(point: Datapoint)

  /**
   * `ts, value = line.split; if ts >= start_ts && ts <= end_ts`, with Ruby's
   * String comparison.  A blank line gives a nil `ts` and `nil >= x` raises;
   * a nil bound makes `String >= nil` raise, but only once it is reached.
   */
  function Judge(line: string, startTs: Option<string>, endTs: Option<string>): (v: Verdict)
    ensures Fields(line) == [] ==> v.Raises?
    ensures v.Inside? ==>
              var fields := Fields(line);
              && fields != [] && startTs.Some? && endTs.Some?
              && StrLeq(startTs.value, fields[0]) && StrLeq(fields[0], endTs.value)
              && v.point.timestamp == ToI(fields[0])
  {
    var fields := Fields(line);
    if fields == [] then Raises
    else if startTs.None? then Raises
    else if StrLess(fields[0], startTs.value) then Outside
    else if endTs.None? then Raises
    else if StrLess(endTs.value, fields[0]) then Outside
    else Inside(Datapoint(ToI(fields[0]), if |fields| > 1 then Some(fields[1]) else None))
  }

  /** `f` applied to every line, in order. */
  function MapLines<T>(f: string -> T, lines: seq<string>): (r: seq<T>)
    ensures |r| == |lines|
  {
    seq(|lines|, i requires 0 <= i < |lines| => f(lines[i]))
  }

  /** The verdict on every line of a file, in file order. */
  function Verdicts(lines: seq<string>, startTs: Option<string>, endTs: Option<string>): (r: seq<Verdict>)
    ensures |r| == |lines|
  {
    MapLines(line => Judge(line, startTs, endTs), lines)
  }

  /** The points the read loop collects from a run of verdicts: it stops at the first one that raises. */
  function Collect(vs: seq<Verdict>): seq<Datapoint> {
    if vs == [] then []
    else match vs[0]
      case Raises => []
      case Outside => Collect(vs[1..])
      case Inside(p) => [p] + Collect(vs[1..])
  }

  /** Reference definition: every point that is in range, in order, with no early stop. */
  function Insides(vs: seq<Verdict>): seq<Datapoint> {
    if vs == [] then []
    else (if vs[0].Inside? then [vs[0].point] else []) + Insides(vs[1..])
  }

  /** Index of the first verdict that raises, or the number of verdicts. */
  function FirstRaise(vs: seq<Verdict>): (k: nat)
    ensures k <= |vs|
    ensures forall j :: 0 <= j < k ==> !vs[j].Raises?
    ensures k < |vs| ==> vs[k].Raises?
  {
    if vs == [] || vs[0].Raises? then 0 else 1 + FirstRaise(vs[1..])
  }

  /** The points a read of a file with these lines returns. */
  function Scan(lines: seq<string>, startTs: Option<string>, endTs: Option<string>): seq<Datapoint> {
    Collect(Verdicts(lines, startTs, endTs))
  }

  /** The in-range points of every line of a file, in file order. */
  function InRange(lines: seq<string>, startTs: Option<string>, endTs: Option<string>): seq<Datapoint> {
    Insides(Verdicts(lines, startTs, endTs))
  }

  /** The read loop returns the in-range points that precede the first verdict that raises. */
  lemma {:induction false} CollectIsInsidesBeforeFirstRaise(vs: seq<Verdict>)
    ensures Collect(vs) == Insides(vs[..FirstRaise(vs)])
  {
    if vs != [] {
      var k := FirstRaise(vs);
      if k > 0 {
        CollectIsInsidesBeforeFirstRaise(vs[1..]);
        assert vs[..k][1..] == vs[1..][..k - 1];
      }
    }
  }

  lemma {:induction false} InsidesConcat(a: seq<Verdict>, b: seq<Verdict>)
    ensures Insides(a + b) == Insides(a) + Insides(b)
  {
    if a != [] {
      assert (a + b)[1..] == a[1..] + b;
      InsidesConcat(a[1..], b);
    } else {
      assert a + b == b;
    }
  }

  lemma {:induction false} InsidesMembership(vs: seq<Verdict>, p: Datapoint)
    ensures p in Insides(vs) <==> Inside(p) in vs
  {
    if vs != [] {
      InsidesMembership(vs[1..], p);
      assert vs == [vs[0]] + vs[1..];
    }
  }

  lemma {:induction false} MapLinesConcat<T>(f: string -> T, a: seq<string>, b: seq<string>)
    ensures MapLines(f, a + b) == MapLines(f, a) + MapLines(f, b)
  {
    var l, r := MapLines(f, a + b), MapLines(f, a) + MapLines(f, b);
    forall i | 0 <= i < |l|
      ensures l[i] == r[i]
    {
      if i >= |a| {
        assert (a + b)[i] == b[i - |a|];
      }
    }
  }

  lemma {:induction false} VerdictsConcat(a: seq<string>, b: seq<string>, startTs: Option<string>, endTs: Option<string>)
    ensures Verdicts(a + b, startTs, endTs) == Verdicts(a, startTs, endTs) + Verdicts(b, startTs, endTs)
  {
    MapLinesConcat(line => Judge(line, startTs, endTs), a, b);
  }

  /** A read returns the in-range points of the lines before the first line that raises. */
  lemma {:induction false} ScanIsInRangeBeforeFirstRaise(lines: seq<string>, startTs: Option<string>, endTs: Option<string>)
    ensures Scan(lines, startTs, endTs) == InRange(lines[..FirstRaise(Verdicts(lines, startTs, endTs))], startTs, endTs)
  {
    var vs := Verdicts(lines, startTs, endTs);
    var k := FirstRaise(vs);
    CollectIsInsidesBeforeFirstRaise(vs);
    VerdictsPrefix(lines, k, startTs, endTs);
  }

  /**
   * With both bounds given, a line that has a timestamp never raises: it is
   * in range exactly when `start_ts <= ts <= end_ts`, and a line past
   * `end_ts` is skipped rather than ending the read.  A kept point carries
   * the line's second word, or nil when there is none.
   */
  lemma {:induction false} JudgeBothBounds(line: string, startTs: string, endTs: string)
    requires Fields(line) != []
    ensures var v := Judge(line, Some(startTs), Some(endTs));
            var fields := Fields(line);
            && !v.Raises?
            && (v.Inside? <==> StrLeq(startTs, fields[0]) && StrLeq(fields[0], endTs))
            && (StrLess(endTs, fields[0]) ==> v.Outside?)
            && (v.Inside? ==> v.point == Datapoint(ToI(fields[0]), if |fields| > 1 then Some(fields[1]) else None))
  {
  }

  /** With both bounds given, a file without blank lines is read to its end. */
  lemma {:induction false} NoBlankLineReadsInFull(lines: seq<string>, startTs: string, endTs: string)
    requires forall i :: 0 <= i < |lines| ==> Fields(lines[i]) != []
    ensures Scan(lines, Some(startTs), Some(endTs)) == InRange(lines, Some(startTs), Some(endTs))
  {
    var vs := Verdicts(lines, Some(startTs), Some(endTs));
    forall i | 0 <= i < |lines|
      ensures !vs[i].Raises?
    {
      JudgeBothBounds(lines[i], startTs, endTs);
    }
    ScanIsInRangeBeforeFirstRaise(lines, Some(startTs), Some(endTs));
    assert lines[..|lines|] == lines;
  }

  lemma {:induction false} VerdictsPrefix(lines: seq<string>, k: nat, startTs: Option<string>, endTs: Option<string>)
    requires k <= |lines|
    ensures Verdicts(lines, startTs, endTs)[..k] == Verdicts(lines[..k], startTs, endTs)
  {
    VerdictsConcat(lines[..k], lines[k..], startTs, endTs);
    assert lines[..k] + lines[k..] == lines;
  }

  /** The line a read stops at is the first line that raises. */
  lemma {:induction false} FirstRaiseOfLines(lines: seq<string>, startTs: Option<string>, endTs: Option<string>)
    ensures var k := FirstRaise(Verdicts(lines, startTs, endTs));
            && (k < |lines| ==> Judge(lines[k], startTs, endTs) == Raises)
            && forall j :: 0 <= j < k ==> Judge(lines[j], startTs, endTs) != Raises
  {
    var k := FirstRaise(Verdicts(lines, startTs, endTs));
    if k < |lines| {
      VerdictAt(lines, startTs, endTs, k);
    }
    forall j | 0 <= j < k
      ensures Judge(lines[j], startTs, endTs) != Raises
    {
      VerdictAt(lines, startTs, endTs, j);
    }
  }

  lemma {:induction false} VerdictAt(lines: seq<string>, startTs: Option<string>, endTs: Option<string>, i: nat)
    requires i < |lines|
    ensures Verdicts(lines, startTs, endTs)[i] == Judge(lines[i], startTs, endTs)
  {
  }

  /** The reference read is file order: it distributes over concatenation. */
  lemma {:induction false} InRangeConcat(a: seq<string>, b: seq<string>, startTs: Option<string>, endTs: Option<string>)
    ensures InRange(a + b, startTs, endTs) == InRange(a, startTs, endTs) + InRange(b, startTs, endTs)
  {
    VerdictsConcat(a, b, startTs, endTs);
    InsidesConcat(Verdicts(a, startTs, endTs), Verdicts(b, startTs, endTs));
  }

  /** A point is in range exactly when some line of the file is in range and yields it. */
  lemma {:induction false} InRangeMembership(lines: seq<string>, startTs: Option<string>, endTs: Option<string>, p: Datapoint)
    ensures p in InRange(lines, startTs, endTs) <==>
            exists i :: 0 <= i < |lines| && Judge(lines[i], startTs, endTs) == Inside(p)
  {
    var vs := Verdicts(lines, startTs, endTs);
    InsidesMembership(vs, p);
    if Inside(p) in vs {
      var i :| 0 <= i < |vs| && vs[i] == Inside(p);
      assert Judge(lines[i], startTs, endTs) == Inside(p);
    }
    if exists i :: 0 <= i < |lines| && Judge(lines[i], startTs, endTs) == Inside(p) {
      var i :| 0 <= i < |lines| && Judge(lines[i], startTs, endTs) == Inside(p);
      assert vs[i] == Inside(p);
    }
  }

  /** The line the backdater writes, read back over a range that contains its timestamp. */
  lemma {:induction false} WrittenLineReadsBack(timestamp: int, value: string, startTs: string, endTs: string)
    requires value != [] && NoSpace(value)
    requires StrLeq(startTs, IntToString(timestamp)) && StrLeq(IntToString(timestamp), endTs)
    ensures Judge(IntToString(timestamp) + " " + value, Some(startTs), Some(endTs))
            == Inside(Datapoint(timestamp, Some(value)))
  {
    FieldsOfPair(IntToString(timestamp), value);
    ToIOfIntToString(timestamp);
  }

  /** A file holding only written lines that are all in range reads back whole. */
  lemma {:induction false} WrittenLinesReadBack(timestamps: seq<int>, values: seq<string>, startTs: string, endTs: string)
    requires |timestamps| == |values|
    requires forall i :: 0 <= i < |values| ==> values[i] != [] && NoSpace(values[i])
    requires forall i :: 0 <= i < |timestamps| ==>
               StrLeq(startTs, IntToString(timestamps[i])) && StrLeq(IntToString(timestamps[i]), endTs)
    ensures Scan(seq(|values|, i requires 0 <= i < |values| => IntToString(timestamps[i]) + " " + values[i]), Some(startTs), Some(endTs))
            == seq(|values|, i requires 0 <= i < |values| => Datapoint(timestamps[i], Some(values[i])))
  {
    var lines := seq(|values|, i requires 0 <= i < |values| => IntToString(timestamps[i]) + " " + values[i]);
    var points := seq(|values|, i requires 0 <= i < |values| => Datapoint(timestamps[i], Some(values[i])));
    var vs := Verdicts(lines, Some(startTs), Some(endTs));
    forall i | 0 <= i < |vs|
      ensures vs[i] == Inside(points[i])
    {
      WrittenLineReadsBack(timestamps[i], values[i], startTs, endTs);
    }
    CollectAllInside(vs, points);
  }

  /** Verdicts that are all in range collect to their points. */
  lemma {:induction false} CollectAllInside(vs: seq<Verdict>, points: seq<Datapoint>)
    requires |vs| == |points|
    requires forall i :: 0 <= i < |vs| ==> vs[i] == Inside(points[i])
    ensures Collect(vs) == points
  {
    if vs != [] {
      CollectAllInside(vs[1..], points[1..]);
    }
  }

  // ---------------------------------------------------------------------
  // Truncating

  /** `line.split[0] >= since rescue true`: a blank line raises and is kept. */
  predicate Keep(line: string, since: string) {
    var fields := Fields(line);
    fields == [] || StrLeq(since, fields[0])
  }

  /** The lines a truncate writes to the temporary file, in order. */
  function Retained(lines: seq<string>, since: string): (r: seq<string>)
    ensures |r| <= |lines|
  {
    if lines == [] then []
    else
      var last := lines[|lines| - 1];
      Retained(lines[..|lines| - 1], since) + (if Keep(last, since) then [last] else [])
  }

  lemma {:induction false} RetainedConcat(a: seq<string>, b: seq<string>, since: string)
    ensures Retained(a + b, since) == Retained(a, since) + Retained(b, since)
    decreases |b|
  {
    if b == [] {
      assert a + b == a;
    } else {
      var init := b[..|b| - 1];
      assert (a + b)[..|a + b| - 1] == a + init;
      RetainedConcat(a, init, since);
    }
  }

  /** A truncate keeps a line exactly when it was there and is not older than `since`. */
  lemma {:induction false} RetainedMembership(lines: seq<string>, since: string, line: string)
    ensures line in Retained(lines, since) <==> line in lines && Keep(line, since)
  {
    if lines != [] {
      var init := lines[..|lines| - 1];
      RetainedMembership(init, since, line);
      assert lines == init + [lines[|lines| - 1]];
    }
  }

  /** Truncating twice at the same point is truncating once. */
  lemma {:induction false} RetainedIdempotent(lines: seq<string>, since: string)
    ensures Retained(Retained(lines, since), since) == Retained(lines, since)
  {
    if lines != [] {
      var init := lines[..|lines| - 1];
      var last := lines[|lines| - 1];
      RetainedIdempotent(init, since);
      var tail := if Keep(last, since) then [last] else [];
      RetainedConcat(Retained(init, since), tail, since);
      if Keep(last, since) {
        assert Retained([last], since) == Retained([], since) + [last] by {
          assert [last][..0] == [];
        }
      }
    }
  }

  lemma {:induction false} RetainedOne(line: string, since: string)
    ensures Retained([line], since) == if Keep(line, since) then [line] else []
  {
    assert [line][..0] == [];
  }

  /** Whether a written line survives depends only on its timestamp. */
  lemma {:induction false} KeepWrittenLine(ts: string, value: string, since: string)
    requires ts != [] && NoSpace(ts) && value != [] && NoSpace(value)
    ensures Keep(ts + " " + value, since) == StrLeq(since, ts)
  {
    FieldsOfPair(ts, value);
  }

  /** A line a truncate drops lies before every read that starts at or after `since`. */
  lemma {:induction false} DroppedLineIsOutside(line: string, since: string, startTs: string, endTs: Option<string>)
    requires !Keep(line, since) && StrLeq(since, startTs)
    ensures Judge(line, Some(startTs), endTs) == Outside
  {
    StrLessLeqTrans(Fields(line)[0], since, startTs);
  }

  lemma {:induction false} CollectCons(v: Verdict, vs: seq<Verdict>)
    ensures Collect([v] + vs) == match v
      case Raises => []
      case Outside => Collect(vs)
      case Inside(p) => [p] + Collect(vs)
  {
    assert ([v] + vs)[1..] == vs;
  }

  /** Truncating before a read's start never changes what the read returns. */
  lemma {:induction false} TruncateKeepsLaterReads(lines: seq<string>, since: string, startTs: string, endTs: Option<string>)
    requires StrLeq(since, startTs)
    ensures Scan(Retained(lines, since), Some(startTs), endTs) == Scan(lines, Some(startTs), endTs)
  {
    if lines != [] {
      var first, rest := lines[0], lines[1..];
      var lo := Some(startTs);
      assert lines == [first] + rest;
      RetainedConcat([first], rest, since);
      RetainedOne(first, since);
      TruncateKeepsLaterReads(rest, since, startTs, endTs);
      VerdictsConcat([first], rest, lo, endTs);
      CollectCons(Judge(first, lo, endTs), Verdicts(rest, lo, endTs));
      assert Verdicts([first], lo, endTs) == [Judge(first, lo, endTs)];
      if Keep(first, since) {
        VerdictsConcat([first], Retained(rest, since), lo, endTs);
        CollectCons(Judge(first, lo, endTs), Verdicts(Retained(rest, since), lo, endTs));
      } else {
        DroppedLineIsOutside(first, since, startTs, endTs);
        assert Retained(lines, since) == Retained(rest, since);
      }
    }
  }

  // ---------------------------------------------------------------------
  // Appending

  /** Failures that every attempt meets: `mkdir_p` raises, or the path cannot be opened as a file. */
  predicate AppendBlocked(d: Tree, f: string) {
    !FilePath(f) || f in d.dirs || MkdirPFails(d, ParentDir(f))
  }

  /** Attempt number `attempt` raises: a lasting failure, or a passing one the environment injects. */
  predicate AttemptRaises(d: Tree, f: string, attempt: nat, faults: seq<bool>) {
    AppendBlocked(d, f) || (attempt < |faults| && faults[attempt])
  }

  /** How many attempts `append_value_to_file(f, v, attempts)` makes. */
  function Tries(d: Tree, f: string, attempts: nat, faults: seq<bool>): (n: nat)
    ensures 1 <= n <= (if attempts < 2 then 3 - attempts else 1)
    ensures forall k :: attempts <= k < attempts + n - 1 ==> AttemptRaises(d, f, k, faults)
    decreases if attempts < 2 then 2 - attempts else 0
  {
    if !AttemptRaises(d, f, attempts, faults) || attempts >= 2 then 1
    else 1 + Tries(d, f, attempts + 1, faults)
  }

  /** The last attempt made succeeded. */
  predicate Stored(d: Tree, f: string, attempts: nat, faults: seq<bool>) {
    !AttemptRaises(d, f, attempts + Tries(d, f, attempts, faults) - 1, faults)
  }

  /** A value is lost only when all three attempts raise. */
  lemma {:induction false} StoredIffSomeAttemptSucceeds(d: Tree, f: string, faults: seq<bool>)
    ensures Stored(d, f, 0, faults) <==> exists k :: 0 <= k < 3 && !AttemptRaises(d, f, k, faults)
  {
    var n := Tries(d, f, 0, faults);
    if !Stored(d, f, 0, faults) {
      if !AttemptRaises(d, f, 0, faults) {
      } else if !AttemptRaises(d, f, 1, faults) {
      } else {
        assert Tries(d, f, 1, faults) == 1 + Tries(d, f, 2, faults);
      }
    }
  }

  /** The filesystem after `append_value_to_file(f, value, attempts)`. */
  function Appended(d: Tree, f: string, value: string, attempts: nat, faults: seq<bool>): (r: Tree)
    ensures Stored(d, f, attempts, faults) ==>
              f in r.files && r.files[f] == Lines(d, f) + [value] && ParentDir(f) in r.dirs
    ensures Stored(d, f, attempts, faults) ==> r.dirs == d.dirs + DirsOf(ParentDir(f))
    ensures forall g :: g != f ==> (g in r.files <==> g in d.files) && Lines(r, g) == Lines(d, g)
    ensures d.dirs <= r.dirs
    ensures !Stored(d, f, attempts, faults) ==> r == d
  {
    if Stored(d, f, attempts, faults) then
      Tree(d.files[f := Lines(d, f) + [value]], d.dirs + DirsOf(ParentDir(f)))
    else d
  }

  // ---------------------------------------------------------------------
  // Statistic names

  /** The statistic of one retention tier of a metric: `"<name>:<interval>"`. */
  function TierKey(name: string, interval: int): string {
    name + ":" + IntToString(interval)
  }

  /** Distinct intervals name distinct statistics. */
  lemma {:induction false} TierKeyInjective(name: string, a: int, b: int)
    ensures TierKey(name, a) == TierKey(name, b) <==> a == b
  {
    if TierKey(name, a) == TierKey(name, b) {
      var k := |name| + 1;
      assert TierKey(name, a)[k..] == IntToString(a);
      assert TierKey(name, b)[k..] == IntToString(b);
      ToIOfIntToString(a);
      ToIOfIntToString(b);
    }
  }

  // ---------------------------------------------------------------------
  // Paths

  /** `File.join(root, h[0,2])`. */
  function ShardPath(root: string, h: string): string
    requires |h| >= 4
  {
    JoinPath(root, h[..2])
  }

  /** `File.join(root, h[0,2], h[2,2])`. */
  function BucketPath(root: string, h: string): string
    requires |h| >= 4
  {
    JoinPath(ShardPath(root, h), h[2..4])
  }

  /** `File.join(root, h[0,2], h[2,2], h)`. */
  function FilePathOf(root: string, h: string): string
    requires |h| >= 4
  {
    JoinPath(BucketPath(root, h), h)
  }

  lemma {:induction false} JoinPathUntrailed(dir: string, name: string)
    requires name != [] && '/' !in name
    ensures Untrailed(JoinPath(dir, name)) == JoinPath(dir, name)
  {
    var p := JoinPath(dir, name);
    assert p[|p| - 1] == name[|name| - 1];
  }

  lemma {:induction false} SplitKeepsNonEmptyLast(parts: seq<string>)
    requires parts != [] && parts[|parts| - 1] != []
    ensures DropTrailingEmpty(parts) == parts
  {
  }

  lemma {:induction false} HashedPathLayout(root: string, h: string)
    requires IsHexDigest(h)
    ensures FilePath(FilePathOf(root, h))
    ensures var parts := RubySplit(FilePathOf(root, h), '/');
            |parts| >= 3 && parts[|parts| - 1] == h
            && parts[|parts| - 2] == h[2..4] && parts[|parts| - 3] == h[..2]
    ensures ParentDir(FilePathOf(root, h)) == BucketPath(root, h)
    ensures ParentDir(BucketPath(root, h)) == ShardPath(root, h)
  {
    HexHasNoSlash(h);
    var shard, bucket, file := ShardPath(root, h), BucketPath(root, h), FilePathOf(root, h);
    SegmentsOfJoinPath(root, h[..2]);
    SegmentsOfJoinPath(shard, h[2..4]);
    SegmentsOfJoinPath(bucket, h);
    JoinPathUntrailed(root, h[..2]);
    JoinPathUntrailed(shard, h[2..4]);
    ParentDirOfJoinPath(shard, h[2..4]);
    ParentDirOfJoinPath(bucket, h);
    var segs := Segments(file, '/');
    SplitKeepsNonEmptyLast(segs);
  }

  /** One step of the read loop: what verdict `i` does to the points still to come. */
  lemma {:induction false} CollectStep(vs: seq<Verdict>, i: nat)
    requires i < |vs|
    ensures vs[i].Raises? ==> Collect(vs[i..]) == []
    ensures vs[i].Outside? ==> Collect(vs[i..]) == Collect(vs[i + 1..])
    ensures vs[i].Inside? ==> Collect(vs[i..]) == [vs[i].point] + Collect(vs[i + 1..])
  {
    assert vs[i..] == [vs[i]] + vs[i + 1..];
    CollectCons(vs[i], vs[i + 1..]);
  }

  /** The accumulated points after an in-range verdict. */
  lemma {:induction false} CollectKeeps(acc: seq<Datapoint>, vs: seq<Verdict>, i: nat)
    requires i < |vs| && vs[i].Inside?
    ensures acc + Collect(vs[i..]) == (acc + [vs[i].point]) + Collect(vs[i + 1..])
  {
    CollectStep(vs, i);
  }

  /**
   * The loop of `read` over the lines of an open bucket file; the first
   * line that raises ends it, keeping the points collected so far.
   */
  method ReadLines(lines: seq<string>, startTs: Option<string>, endTs: Option<string>)
    returns (datapoints: seq<Datapoint>)
    ensures datapoints == Scan(lines, startTs, endTs)
  {
    datapoints := [];
    ghost var vs := Verdicts(lines, startTs, endTs);
    var i := 0;
    while i < |lines|
      invariant 0 <= i <= |lines|
      invariant Collect(vs) == datapoints + Collect(vs[i..])
    {
      var verdict := Judge(lines[i], startTs, endTs);
      VerdictAt(lines, startTs, endTs, i);
      CollectStep(vs, i);
      if verdict.Raises? {
        assert datapoints + [] == datapoints;
        return;
      } else if verdict.Inside? {
        CollectKeeps(datapoints, vs, i);
        datapoints := datapoints + [verdict.point];
      }
      i := i + 1;
    }
  }

  lemma {:induction false} RetainedSnoc(lines: seq<string>, i: nat, since: string)
    requires i < |lines|
    ensures Retained(lines[..i + 1], since)
            == Retained(lines[..i], since) + (if Keep(lines[i], since) then [lines[i]] else [])
  {
    assert lines[..i + 1][..i] == lines[..i];
  }

  /** The loop of `truncate` over the data file: the lines it writes to the temporary file. */
  method KeptLines(lines: seq<string>, since: string) returns (written: seq<string>)
    ensures written == Retained(lines, since)
  {
    written := [];
    var i := 0;
    while i < |lines|
      invariant 0 <= i <= |lines|
      invariant written == Retained(lines[..i], since)
    {
      RetainedSnoc(lines, i, since);
      if Keep(lines[i], since) {
        written := written + [lines[i]];
      }
      i := i + 1;
    }
    assert lines[..i] == lines;
  }

  /** Whether a truncate of `filename` is under way: `File.exists?("#{filename}tmp")`. */
  predicate TruncateBusy(d: Tree, filename: string) {
    filename + "tmp" in d.files || filename + "tmp" in d.dirs
  }

  /**
   * The filesystem after `truncate(filename, since)`; `copyFails` says
   * whether copying the temporary file back raised.
   */
  function Truncated(d: Tree, filename: string, since: string, copyFails: bool): (r: Tree)
    ensures r.dirs == d.dirs
    ensures filename + "tmp" !in r.files
    ensures forall g :: g != filename && g != filename + "tmp" ==>
              (g in r.files <==> g in d.files) && Lines(r, g) == Lines(d, g)
    ensures filename in r.files <==> filename in d.files
    ensures filename in d.files ==>
              r.files[filename] ==
                if TruncateBusy(d, filename) || copyFails then d.files[filename]
                else Retained(d.files[filename], since)
  {
    var tmp := filename + "tmp";
    assert |tmp| != |filename|;
    var files :=
      if !TruncateBusy(d, filename) && filename in d.files && !copyFails
      then d.files[filename := Retained(d.files[filename], since)]
      else d.files;
    Tree(files - {tmp}, d.dirs)
  }

  lemma DropWritten(m: map<string, seq<string>>, tmp: string, a: seq<string>, b: seq<string>)
    requires tmp !in m
    ensures m[tmp := a][tmp := b] - {tmp} == m - {tmp}
  {
  }

  lemma DropCopied(m: map<string, seq<string>>, tmp: string, f: string, a: seq<string>, b: seq<string>, c: seq<string>)
    requires tmp !in m && tmp != f
    ensures m[tmp := a][tmp := b][f := c] - {tmp} == m[f := c] - {tmp}
  {
  }

  lemma DropAbsent(m: map<string, seq<string>>, tmp: string)
    requires tmp !in m
    ensures m - {tmp} == m
  {
  }

  /**
   * The filesystem after `delete` removed `file` (if it was there) and
   * tried to remove the directory `bucket`, then the directory `shard`.
   */
  function Deleted(d: Tree, file: string, bucket: string, shard: string): Tree {
    RmDir(RmDir(Tree(d.files - {file}, d.dirs), bucket), shard)
  }

  /**
   * `delete` removes exactly the bucket file, and of the directories only
   * the two it names, each only if it was empty when its turn came.
   */
  lemma {:induction false} DeletedEffect(d: Tree, file: string, bucket: string, shard: string)
    ensures var r := Deleted(d, file, bucket, shard);
            && r.files == d.files - {file}
            && r.dirs <= d.dirs
            && d.dirs - r.dirs <= {bucket, shard}
            && (forall dir :: dir in d.dirs - r.dirs ==> Childless(r, dir))
            && (bucket in d.dirs ==> (bucket !in r.dirs <==> Childless(Tree(r.files, d.dirs), bucket)))
  {
    var mid := RmDir(Tree(d.files - {file}, d.dirs), bucket);
    var r := Deleted(d, file, bucket, shard);
    forall dir | dir in d.dirs - r.dirs
      ensures Childless(r, dir)
    {
      if dir == bucket && bucket !in mid.dirs {
        assert Childless(Tree(d.files - {file}, d.dirs), bucket);
      }
    }
  }

  /** The shard directory goes exactly when it is empty once the bucket's turn is over. */
  lemma {:induction false} ShardGoesIffEmpty(d: Tree, file: string, bucket: string, shard: string)
    requires shard in d.dirs && shard != bucket
    ensures var r := Deleted(d, file, bucket, shard);
            shard !in r.dirs <==> Childless(Tree(r.files, r.dirs + {shard}), shard)
  {
    var mid := RmDir(Tree(d.files - {file}, d.dirs), bucket);
    assert shard in mid.dirs;
    assert Deleted(d, file, bucket, shard).dirs + {shard} == mid.dirs;
  }

  /** The shard directory goes only once the bucket directory inside it is gone. */
  lemma {:induction false} ShardOutlivesBucket(d: Tree, file: string, bucket: string, shard: string)
    requires ParentDir(bucket) == shard && bucket != shard
    requires shard in d.dirs
    ensures var r := Deleted(d, file, bucket, shard);
            bucket in r.dirs ==> shard in r.dirs
  {
  }

  /** An attempt that does not raise is the last one, and it stores the value. */
  lemma {:induction false} AttemptSucceeds(d: Tree, f: string, value: string, attempts: nat, faults: seq<bool>)
    requires !AttemptRaises(d, f, attempts, faults)
    ensures Tries(d, f, attempts, faults) == 1 && Stored(d, f, attempts, faults)
    ensures Appended(d, f, value, attempts, faults)
            == Tree(d.files[f := Lines(d, f) + [value]], d.dirs + DirsOf(ParentDir(f)))
  {
  }

  /** An attempt that raises changes nothing, and the retry decides the outcome. */
  lemma {:induction false} RetryAfterRaise(d: Tree, f: string, value: string, attempts: nat, faults: seq<bool>)
    requires attempts < 2 && AttemptRaises(d, f, attempts, faults)
    ensures Tries(d, f, attempts, faults) == 1 + Tries(d, f, attempts + 1, faults)
    ensures Stored(d, f, attempts, faults) == Stored(d, f, attempts + 1, faults)
    ensures Appended(d, f, value, attempts, faults) == Appended(d, f, value, attempts + 1, faults)
  {
  }

  class Diskstore {
    const root: string
    const digest: string -> string

    ghost predicate Valid() {
      IsMd5Like(digest)
    }

    constructor (root: string, digest: string -> string)
      requires IsMd5Like(digest)
      ensures this.root == root && this.digest == digest && Valid()
    {
      this.root := root;
      this.digest := digest;
    }

    /** The first directory level: `File.join(root, hash[0,2])`. */
    function ShardDir(statistic: string): string
      requires Valid()
    {
      ShardPath(root, digest(statistic))
    }

    /** The second directory level: `File.join(root, hash[0,2], hash[2,2])`. */
    function BucketDir(statistic: string): string
      requires Valid()
    {
      BucketPath(root, digest(statistic))
    }

    /** The bucket file of a statistic: `File.join(root, hash[0,2], hash[2,2], hash)`. */
    function FilenameOf(statistic: string): string
      requires Valid()
    {
      FilePathOf(root, digest(statistic))
    }

    /** `build_filename`: nil for nil, otherwise the bucket file. */
    function BuildFilename(statistic: Option<string>): (r: Option<string>)
      requires Valid()
      ensures r.None? <==> statistic.None?
      ensures statistic.Some? ==> r.value == FilenameOf(statistic.value)
    {
      match statistic
      case None => None
      case Some(s) => Some(FilenameOf(s))
    }

    /**
     * The bucket file of a statistic ends in its two hash directories and
     * its digest, and its parent directories are the two levels that
     * `delete` tries to remove.
     */
    lemma {:induction false} FilenameLayout(statistic: string)
      requires Valid()
      ensures FilePath(FilenameOf(statistic))
      ensures var h := digest(statistic); var parts := RubySplit(FilenameOf(statistic), '/');
              |parts| >= 3 && parts[|parts| - 1] == h
              && parts[|parts| - 2] == h[2..4] && parts[|parts| - 3] == h[..2]
      ensures ParentDir(FilenameOf(statistic)) == BucketDir(statistic)
      ensures ParentDir(BucketDir(statistic)) == ShardDir(statistic)
      ensures BucketDir(statistic) == JoinPath(JoinPath(root, digest(statistic)[..2]), digest(statistic)[2..4])
      ensures ShardDir(statistic) == JoinPath(root, digest(statistic)[..2])
    {
      HashedPathLayout(root, digest(statistic));
    }

    /** Two statistics share a bucket file only when their digests agree. */
    lemma {:induction false} FilenameDeterminesDigest(a: string, b: string)
      requires Valid()
      requires FilenameOf(a) == FilenameOf(b)
      ensures digest(a) == digest(b)
    {
      FilenameLayout(a);
      FilenameLayout(b);
    }

    /**
     * `append_value_to_file(filename, value, attempts)`: up to three attempts
     * in all, each making the parent directories and appending one line; the
     * last exception is swallowed.
     */
    method AppendValueToFile(fs: FileSystem, filename: string, value: string, attempts: nat, faults: seq<bool>)
      returns (tries: nat)
      requires fs.Valid()
      modifies fs
      ensures fs.Valid()
      ensures tries == Tries(old(fs.State()), filename, attempts, faults)
      ensures fs.State() == Appended(old(fs.State()), filename, value, attempts, faults)
      decreases if attempts < 2 then 2 - attempts else 0
    {
      if !AttemptRaises(fs.State(), filename, attempts, faults) {
        AttemptSucceeds(fs.State(), filename, value, attempts, faults);
        ParentDirOutsideFile(filename);
        ghost var lines := Lines(fs.State(), filename);
        fs.MkdirP(ParentDir(filename));
        assert Lines(fs.State(), filename) == lines;
        fs.AppendLine(filename, value);
        tries := 1;
      } else if attempts < 2 {
        RetryAfterRaise(fs.State(), filename, value, attempts, faults);
        var more := AppendValueToFile(fs, filename, value, attempts + 1, faults);
        tries := 1 + more;
      } else {
        assert Tries(fs.State(), filename, attempts, faults) == 1;
        tries := 1;
      }
    }

    /** The points a read of `statistic` over `[startTs, endTs]` returns. */
    function Points(d: Tree, statistic: Option<string>, startTs: Option<string>, endTs: Option<string>): seq<Datapoint>
      requires Valid()
    {
      match BuildFilename(statistic)
      case None => []
      case Some(f) => if f in d.files then Scan(d.files[f], startTs, endTs) else []
    }

    /** `read(statistic, start_ts, end_ts)`: a missing file, or any exception, ends the read. */
    method Read(fs: FileSystem, statistic: Option<string>, startTs: Option<string>, endTs: Option<string>)
      returns (datapoints: seq<Datapoint>)
      requires Valid()
      ensures datapoints == Points(fs.State(), statistic, startTs, endTs)
    {
      var filename := BuildFilename(statistic);
      if filename.None? || filename.value !in fs.files {
        return [];
      }
      datapoints := ReadLines(fs.files[filename.value], startTs, endTs);
    }

    /**
     * `truncate(filename, since)`: copy the kept lines into `<filename>tmp`,
     * copy that back over the file, and remove the temporary file whatever
     * happened.  An existing `<filename>tmp` (file or directory) means a
     * truncate is under way, and the data file is left alone.
     */
    method Truncate(fs: FileSystem, filename: string, since: string, copyFails: bool)
      requires fs.Valid()
      modifies fs
      ensures fs.Valid()
      ensures fs.State() == Truncated(old(fs.State()), filename, since, copyFails)
    {
      var tmp := filename + "tmp";
      assert |tmp| != |filename|;
      if !(tmp in fs.files || tmp in fs.dirs) && filename in fs.files {
        SiblingParentDir(filename, "tmp");
        // Opening the temporary file for writing creates or empties it; the
        // lines written through the handle reach it when it is closed.
        fs.WriteLines(tmp, []);
        var written := KeptLines(fs.files[filename], since);
        fs.WriteLines(tmp, written);
        if !copyFails {
          fs.WriteLines(filename, fs.files[tmp]);
          DropCopied(old(fs.files), tmp, filename, [], written, written);
        } else {
          DropWritten(old(fs.files), tmp, [], written);
        }
        fs.RemoveFile(tmp);
      } else if tmp in fs.files {
        // An existing temporary file is removed by the ensure clause.
        fs.RemoveFile(tmp);
      } else {
        // A missing data file raises ENOENT once the temporary file was
        // opened, and the ensure clause removes that file again.
        DropAbsent(fs.files, tmp);
      }
    }

    /**
     * `delete(statistic)`: remove the bucket file if it exists, then try to
     * remove its two hash directories, which fails silently unless they are
     * empty.  Returns false when the path is a directory: `rm` raises out of
     * `delete` before anything changed.
     */
    method Delete(fs: FileSystem, statistic: string) returns (ok: bool)
      requires Valid() && fs.Valid()
      modifies fs
      ensures fs.Valid()
      ensures ok <==> FilenameOf(statistic) !in old(fs.dirs)
      ensures !ok ==> fs.State() == old(fs.State())
      ensures ok ==> fs.State() == Deleted(old(fs.State()), FilenameOf(statistic), BucketDir(statistic), ShardDir(statistic))
    {
      var filename := FilenameOf(statistic);
      FilenameLayout(statistic);
      if filename in fs.dirs {
        return false;
      }
      if filename in fs.files {
        fs.RemoveFile(filename);
      } else {
        DropAbsent(fs.files, filename);
      }
      var parts := RubySplit(filename, '/');
      var firstDir := parts[|parts| - 3];
      var secondDir := parts[|parts| - 2];
      assert JoinPath(JoinPath(root, firstDir), secondDir) == BucketDir(statistic);
      assert JoinPath(root, firstDir) == ShardDir(statistic);
      ghost var removed := fs.State();
      fs.RemoveDir(JoinPath(JoinPath(root, firstDir), secondDir));
      fs.RemoveDir(JoinPath(root, firstDir));
      assert removed == Tree(old(fs.files) - {filename}, old(fs.dirs));
      ok := true;
    }
  }
}
