/**
 record_io::verifyEventDirectory and its loadRecordBytes, include/record_io.hpp:276-301 and 429-509: checking one
 recorded event directory end to end.
 */
module EventVerification {
  import opened Prelude
  import opened Text
  import opened ChecksumManifest
  import opened RecordCsv

  const RECORDS := "manifest.csv"
  const MAX_RECORD_BYTES := 0x4000_0000

  /** sensor "" is both sensors, limit 0 is no limit. */
  datatype Options = Options(sensor: string, limit: nat)

  /** What the checks look at in a deserialized message; size is the length of its data. */
  datatype Image = Image(width: nat, height: nat, step: nat, encoding: string, size: nat, stamp: int)
  datatype Cloud = Cloud(fields: nat, width: nat, height: nat, pointStep: nat, size: nat, stamp: int)

  /** Reading bytes as text, hashing, decompressing, and deserializing the two kinds of messages. */
  datatype Codec = Codec(text: Bytes -> string, digest: Bytes -> string, unpack: Bytes -> Option<Bytes>,
                         image: Bytes -> Option<Image>, cloud: Bytes -> Option<Cloud>)

  datatype Complaint = Checksum | Line(problem: Problem) | NoEntries | Record(entry: ManifestEntry)

  datatype Report = Report(total: nat, verified: nat, failed: nat, problems: seq<Complaint>,
                           warnings: seq<ManifestEntry>)
  {
    predicate Ok() { failed == 0 && total > 0 && problems == [] }
  }

  // ---- what a report should say ----

  /** Repeated separators name the same file. */
  function OnDisk(path: string): string { Join(WithoutEmpty(Split(path, '/')), '/') }

  function WithoutEmpty(parts: seq<string>): seq<string>
  {
    if parts == [] then [] else (if parts[0] == "" then [] else [parts[0]]) + WithoutEmpty(parts[1..])
  }

  /** A file, or a directory with a file below it. */
  predicate Exists(directory: Tree, path: string)
  {
    path in directory || exists p :: p in directory && path + "/" <= p
  }

  function RecordBytes(directory: Tree, e: ManifestEntry, codec: Codec): Option<Bytes>
  {
    if !LocallySafe(e.file) || OnDisk(e.file) !in directory || |directory[OnDisk(e.file)]| > MAX_RECORD_BYTES then None
    else if e.encoding == "zstd" then codec.unpack(directory[OnDisk(e.file)])
    else Some(directory[OnDisk(e.file)])
  }

  /** The rows and the points fit into the data, and the stamp is the row's. */
  predicate ImageFits(m: Image, stamp: int)
  {
    m.width > 0 && m.height > 0 && m.step > 0 && m.encoding != "" && m.height * m.step <= m.size && m.stamp == stamp
  }

  predicate CloudFits(m: Cloud, stamp: int)
  {
    m.fields > 0 && m.pointStep > 0 && m.width * m.height * m.pointStep <= m.size && m.stamp == stamp
  }

  predicate Sound(directory: Tree, e: ManifestEntry, codec: Codec)
  {
    var bytes := RecordBytes(directory, e, codec);
    && bytes.Some? && bytes.value != []
    && ((&& e.sensor == "camera" && codec.image(bytes.value).Some?
         && ImageFits(codec.image(bytes.value).value, e.timestamp))
     || (&& e.sensor == "lidar" && codec.cloud(bytes.value).Some?
         && CloudFits(codec.cloud(bytes.value).value, e.timestamp)))
  }

  function Filter<T>(s: seq<T>, keep: T -> bool): seq<T>
  {
    if s == [] then []
    else Filter(s[..|s| - 1], keep) + if keep(s[|s| - 1]) then [s[|s| - 1]] else []
  }

  lemma {:induction false} FilterPrefix<T>(s: seq<T>, i: nat, keep: T -> bool)
    requires i <= |s|
    ensures Filter(s[..i], keep) <= Filter(s, keep)
  {
    if i < |s| {
      FilterPrefix(s[..|s| - 1], i, keep);
      assert s[..|s| - 1][..i] == s[..i];
    } else {
      assert s[..i] == s;
    }
  }

  function Not<T>(keep: T -> bool): T -> bool { x => !keep(x) }

  lemma {:induction false} FilterSplits<T>(s: seq<T>, keep: T -> bool)
    ensures |Filter(s, keep)| + |Filter(s, Not(keep))| == |s|
    ensures Filter(s, Not(keep)) == [] <==> forall x :: x in s ==> keep(x)
  {
    if s != [] {
      FilterSplits(s[..|s| - 1], keep);
      assert s == s[..|s| - 1] + [s[|s| - 1]];
    }
  }

  lemma {:induction false} FilterAll<T>(s: seq<T>, keep: T -> bool)
    requires forall x :: x in s ==> keep(x)
    ensures Filter(s, keep) == s
  {
    if s != [] {
      FilterAll(s[..|s| - 1], keep);
      assert s == s[..|s| - 1] + [s[|s| - 1]];
    }
  }

  lemma FilterNext<T>(s: seq<T>, x: T, keep: T -> bool)
    ensures Filter(s + [x], keep) == if keep(x) then Filter(s, keep) + [x] else Filter(s, keep)
  {
    assert (s + [x])[..|s|] == s;
  }

  function Wanted(options: Options): ManifestEntry -> bool
  {
    (e: ManifestEntry) => options.sensor == "" || e.sensor == options.sensor
  }

  function SoundIn(directory: Tree, codec: Codec): ManifestEntry -> bool
  {
    (e: ManifestEntry) => Sound(directory, e, codec)
  }

  function WithoutCopy(directory: Tree): ManifestEntry -> bool { (e: ManifestEntry) => CopyMissing(directory, e) }

  /** The rows of the sensor asked for, as many as asked for. */
  function Considered(entries: seq<ManifestEntry>, options: Options): seq<ManifestEntry>
  {
    var wanted := Filter(entries, Wanted(options));
    if options.limit == 0 || |wanted| <= options.limit then wanted else wanted[..options.limit]
  }

  predicate CopyMissing(directory: Tree, e: ManifestEntry)
  {
    e.converted != "" && !(LocallySafe(e.converted) && Exists(directory, OnDisk(e.converted)))
  }

  function TextOf(directory: Tree, name: string, codec: Codec): string
  {
    if name in directory then codec.text(directory[name]) else ""
  }

  ghost predicate ChecksumsClear(directory: Tree, codec: Codec)
  {
    MANIFEST in directory && NoComplaint(codec.text(directory[MANIFEST]), directory, codec.digest)
  }

  function Records(entries: seq<ManifestEntry>): seq<Complaint>
  {
    seq(|entries|, i requires 0 <= i < |entries| => Record(entries[i]))
  }

  /** What a report says of the rows looked at, on top of what it said first. */
  ghost predicate Counted(report: Report, first: Report, rows: seq<ManifestEntry>, directory: Tree, codec: Codec)
  {
    var sound, unsound := Filter(rows, SoundIn(directory, codec)), Filter(rows, Not(SoundIn(directory, codec)));
    && report.total == |rows| && report.verified == |sound|
    && report.failed == first.failed + |unsound|
    && report.problems == first.problems + Records(unsound)
    && report.warnings == Filter(sound, WithoutCopy(directory))
  }

  lemma NothingCounted(report: Report, directory: Tree, codec: Codec)
    requires report.total == report.verified == 0 && report.warnings == []
    ensures Counted(report, report, [], directory, codec)
  {
  }

  /** One more row. */
  lemma CountedNext(report: Report, first: Report, rows: seq<ManifestEntry>, directory: Tree, codec: Codec,
                    e: ManifestEntry)
    requires Counted(report, first, rows, directory, codec)
    ensures Counted(
              if !Sound(directory, e, codec) then
                report.(total := report.total + 1, failed := report.failed + 1,
                        problems := report.problems + [Record(e)])
              else
                report.(total := report.total + 1, verified := report.verified + 1,
                        warnings := report.warnings + if CopyMissing(directory, e) then [e] else []),
              first, rows + [e], directory, codec)
  {
    hide Sound, CopyMissing;
    FilterNext(rows, e, SoundIn(directory, codec));
    FilterNext(rows, e, Not(SoundIn(directory, codec)));
    FilterNext(Filter(rows, SoundIn(directory, codec)), e, WithoutCopy(directory));
    hide Filter;
    if !Sound(directory, e, codec) {
      var unsound := Filter(rows, Not(SoundIn(directory, codec)));
      assert Records(unsound + [e]) == Records(unsound) + [Record(e)];
    }
  }

  // ---- the programs ----

  method LoadRecordBytes(directory: Tree, e: ManifestEntry, codec: Codec) returns (bytes: Option<Bytes>)
    ensures bytes == RecordBytes(directory, e, codec)
  {
    if !LocallySafe(e.file) {
      return None;
    }
    var file := OnDisk(e.file);
    if file !in directory || |directory[file]| > MAX_RECORD_BYTES {
      return None;
    }
    if e.encoding == "zstd" {
      bytes := codec.unpack(directory[file]);
      return;
    }
    return Some(directory[file]);
  }

  /** The loop's body up to counting an entry as verified. */
  method CheckRecord(directory: Tree, e: ManifestEntry, codec: Codec) returns (sound: bool)
    ensures sound <==> Sound(directory, e, codec)
  {
    var loaded := LoadRecordBytes(directory, e, codec);
    if loaded.None? || loaded.value == [] {
      return false;
    }
    if e.sensor == "camera" {
      var image := codec.image(loaded.value);
      if image.None? {
        return false;
      }
      var m := image.value;
      return !(m.width == 0 || m.height == 0 || m.step == 0 || m.encoding == "" || m.step * m.height > m.size
               || m.stamp != e.timestamp);
    } else if e.sensor == "lidar" {
      var cloud := codec.cloud(loaded.value);
      if cloud.None? {
        return false;
      }
      var m := cloud.value;
      if m.pointStep > 0 { FitsByDivision(m.width * m.height, m.pointStep, m.size); }
      return !(m.fields == 0 || m.pointStep == 0 || m.width * m.height > m.size / m.pointStep
               || m.stamp != e.timestamp);
    } else {
      return false;
    }
  }

  lemma FitsByDivision(points: nat, step: nat, size: nat)
    requires step > 0
    ensures points <= size / step <==> points * step <= size
  {
    var q := size / step;
    assert q * step <= size < (q + 1) * step;
    if points <= q {
      assert points * step <= q * step;
    } else {
      assert (q + 1) * step <= points * step;
    }
  }

  /** One row of the loop that is looked at. */
  method CheckNext(directory: Tree, e: ManifestEntry, codec: Codec, before: Report, ghost first: Report,
                   ghost rows: seq<ManifestEntry>)
    returns (report: Report)
    requires Counted(before, first, rows, directory, codec)
    ensures report.total == before.total + 1 && Counted(report, first, rows + [e], directory, codec)
  {
    CountedNext(before, first, rows, directory, codec, e);
    hide Counted, Sound, Exists, OnDisk, LocallySafe;
    report := before.(total := before.total + 1);
    var sound := CheckRecord(directory, e, codec);
    if !sound {
      return report.(failed := report.failed + 1, problems := report.problems + [Record(e)]);
    }
    report := report.(verified := report.verified + 1);
    if e.converted != "" && (!LocallySafe(e.converted) || !Exists(directory, OnDisk(e.converted))) {
      report := report.(warnings := report.warnings + [e]);
    }
  }

  lemma LimitReached(entries: seq<ManifestEntry>, i: nat, options: Options)
    requires 0 < i <= |entries| && options.limit > 0 && Wanted(options)(entries[i - 1])
    requires |Filter(entries[..i - 1], Wanted(options))| == options.limit
    ensures Considered(entries, options) == Filter(entries[..i - 1], Wanted(options))
  {
    assert entries[..i] == entries[..i - 1] + [entries[i - 1]];
    FilterNext(entries[..i - 1], entries[i - 1], Wanted(options));
    FilterPrefix(entries, i, Wanted(options));
  }

  lemma AllLooked(entries: seq<ManifestEntry>, options: Options)
    requires options.limit > 0 ==> |Filter(entries[..|entries|], Wanted(options))| <= options.limit
    ensures Considered(entries, options) == Filter(entries[..|entries|], Wanted(options))
  {
    assert entries[..|entries|] == entries;
  }

  /** The loop over the rows, continuing an opening report. */
  method CheckRecords(directory: Tree, entries: seq<ManifestEntry>, options: Options, codec: Codec, first: Report)
    returns (report: Report)
    requires first.total == first.verified == 0 && first.warnings == []
    ensures Counted(report, first, Considered(entries, options), directory, codec)
  {
    report := first;
    NothingCounted(report, directory, codec);
    assert Filter(entries[..0], Wanted(options)) == [];
    hide Sound, Counted, Filter, Considered;
    ghost var rows: seq<ManifestEntry> := [];
    ghost var stopped := false;
    var i := 0;
    while i < |entries|
      invariant !stopped && i <= |entries| && rows == Filter(entries[..i], Wanted(options))
      invariant report.total == |rows| && (options.limit > 0 ==> |rows| <= options.limit)
      invariant Counted(report, first, rows, directory, codec)
    {
      var e := entries[i];
      assert entries[..i + 1] == entries[..i] + [e];
      FilterNext(entries[..i], e, Wanted(options));
      i := i + 1;
      if options.sensor != "" && e.sensor != options.sensor {
        continue;
      }
      if options.limit != 0 && report.total >= options.limit {
        LimitReached(entries, i, options);
        stopped := true;
        break;
      }
      report := CheckNext(directory, e, codec, report, first, rows);
      rows := rows + [e];
    }
    if !stopped {
      AllLooked(entries, options);
    }
  }

  /** first is the report before its rows are looked at. */
  ghost predicate Judged(report: Report, directory: Tree, options: Options, codec: Codec)
  {
    var (entries, problems) := ManifestOf(TextOf(directory, RECORDS, codec));
    exists first: Report ::
      && first.failed == |problems|
      && (first.problems == [] <==> ChecksumsClear(directory, codec) && problems == [] && entries != [])
      && Counted(report, first, Considered(entries, options), directory, codec)
  }

  lemma NoRows(options: Options)
    ensures Considered([], options) == []
  {
  }

  method VerifyEventDirectory(directory: Tree, options: Options, codec: Codec) returns (report: Report)
    ensures Judged(report, directory, options, codec)
  {
    hide NoComplaint, LocallyAccepted, ManifestOf, Counted, Considered;
    var complaints: seq<Complaint> := [];
    if MANIFEST in directory {
      var ok, count := VerifyChecksumManifest(codec.text(directory[MANIFEST]), directory, codec.digest);
      complaints := seq(count, _ => Checksum);
    } else {
      complaints := [Checksum];
    }
    assert complaints == [] <==> ChecksumsClear(directory, codec);
    hide ChecksumsClear;
    var entries, problems := ReadManifest(TextOf(directory, RECORDS, codec));
    report := Report(0, 0, |problems|,
                     complaints + seq(|problems|, i requires 0 <= i < |problems| => Line(problems[i])), []);
    if entries == [] {
      report := report.(problems := report.problems + [NoEntries]);
      NothingCounted(report, directory, codec);
      assert Considered(entries, options) == [] by { NoRows(options); }
      return;
    }
    report := CheckRecords(directory, entries, options, codec, report);
  }

  // ---- what sound means ----

  /** Every row of the image lies within its data, and there is one. */
  lemma RowsLieWithin(m: Image, stamp: int)
    ensures ImageFits(m, stamp)
            <==> (&& m.width > 0 && m.height > 0 && m.step > 0 && m.encoding != "" && m.stamp == stamp
                  && forall row: nat :: row < m.height ==> row * m.step + m.step <= m.size)
  {
    forall row: nat | row < m.height ensures row * m.step + m.step <= m.height * m.step {
      assert (row + 1) * m.step <= m.height * m.step;
    }
    if m.height > 0 {
      var last: nat := m.height - 1;
      assert last * m.step + m.step == m.height * m.step;
    }
  }

  /** Every point of the cloud lies within its data. */
  lemma PointsLieWithin(m: Cloud, stamp: int)
    ensures CloudFits(m, stamp)
            <==> (&& m.fields > 0 && m.pointStep > 0 && m.stamp == stamp
                  && forall point: nat :: point < m.width * m.height ==> point * m.pointStep + m.pointStep <= m.size)
  {
    var points := m.width * m.height;
    forall point: nat | point < points ensures point * m.pointStep + m.pointStep <= points * m.pointStep {
      assert (point + 1) * m.pointStep <= points * m.pointStep;
    }
    if points > 0 {
      var last: nat := points - 1;
      assert last * m.pointStep + m.pointStep == points * m.pointStep;
    }
  }

  /** The file is there under a safe path, is no bigger than a gibibyte, and unpacks to these bytes. */
  predicate Loads(directory: Tree, e: ManifestEntry, codec: Codec, bytes: Bytes)
  {
    && LocallySafe(e.file) && OnDisk(e.file) in directory && |directory[OnDisk(e.file)]| <= 1073741824
    && if e.encoding == "zstd" then codec.unpack(directory[OnDisk(e.file)]) == Some(bytes)
       else directory[OnDisk(e.file)] == bytes
  }

  ghost predicate ImageWithin(m: Image, stamp: int)
  {
    && m.width > 0 && m.height > 0 && m.step > 0 && m.encoding != "" && m.stamp == stamp
    && forall row: nat :: row < m.height ==> row * m.step + m.step <= m.size
  }

  ghost predicate CloudWithin(m: Cloud, stamp: int)
  {
    && m.fields > 0 && m.pointStep > 0 && m.stamp == stamp
    && forall point: nat :: point < m.width * m.height ==> point * m.pointStep + m.pointStep <= m.size
  }

  /** A record is sound exactly when its file loads as something that is a message of its sensor, of its time, whose
      rows or points all lie within its data. */
  lemma SoundExactly(directory: Tree, e: ManifestEntry, codec: Codec)
    ensures Sound(directory, e, codec)
            <==> exists bytes: Bytes ::
                   && bytes != [] && Loads(directory, e, codec, bytes)
                   && ((e.sensor == "camera" && codec.image(bytes).Some?
                        && ImageWithin(codec.image(bytes).value, e.timestamp))
                    || (e.sensor == "lidar" && codec.cloud(bytes).Some?
                        && CloudWithin(codec.cloud(bytes).value, e.timestamp)))
  {
    hide LocallySafe, OnDisk;
    var loaded := RecordBytes(directory, e, codec);
    assert forall bytes :: Loads(directory, e, codec, bytes) <==> loaded == Some(bytes);
    if loaded.Some? {
      if codec.image(loaded.value).Some? { RowsLieWithin(codec.image(loaded.value).value, e.timestamp); }
      if codec.cloud(loaded.value).Some? { PointsLieWithin(codec.cloud(loaded.value).value, e.timestamp); }
    }
    hide RecordBytes, Loads, ImageFits, CloudFits;
  }

  lemma {:induction false} FilterIs<T>(s: seq<T>, keep: T -> bool, x: T)
    ensures x in Filter(s, keep) <==> x in s && keep(x)
  {
    if s != [] {
      FilterIs(s[..|s| - 1], keep, x);
      assert s == s[..|s| - 1] + [s[|s| - 1]];
    }
  }

  /** The rows looked at are those of the sensor asked for, the first ones when there is a limit. */
  lemma LookedAtExactly(entries: seq<ManifestEntry>, options: Options, e: ManifestEntry)
    ensures var rows, all := Considered(entries, options), Considered(entries, options.(limit := 0));
            && (e in all <==> e in entries && (options.sensor == "" || e.sensor == options.sensor))
            && rows <= all && (options.sensor == "" ==> all == entries)
            && |rows| == if options.limit > 0 && options.limit < |all| then options.limit else |all|
  {
    FilterIs(entries, Wanted(options), e);
    assert Filter(entries, Wanted(options)) == Filter(entries, Wanted(options.(limit := 0))) by {
      SameFilter(entries, Wanted(options), Wanted(options.(limit := 0)));
    }
    if options.sensor == "" { FilterAll(entries, Wanted(options)); }
    hide Filter;
  }

  lemma {:induction false} SameFilter<T>(s: seq<T>, a: T -> bool, b: T -> bool)
    requires forall x :: a(x) <==> b(x)
    ensures Filter(s, a) == Filter(s, b)
  {
    if s != [] { SameFilter(s[..|s| - 1], a, b); }
  }

  /** A row is complained of exactly when it is not sound, and warned of exactly when it is but names a converted copy
      that is not there under a safe path. */
  lemma ReportedExactly(report: Report, first: Report, rows: seq<ManifestEntry>, directory: Tree, codec: Codec,
                        e: ManifestEntry)
    requires Counted(report, first, rows, directory, codec)
    ensures e in report.warnings
            <==> (&& e in rows && Sound(directory, e, codec) && e.converted != ""
                  && !(&& LocallySafe(e.converted)
                       && (OnDisk(e.converted) in directory
                           || exists p :: p in directory && OnDisk(e.converted) + "/" <= p)))
    ensures Record(e) in report.problems[|first.problems|..] <==> e in rows && !Sound(directory, e, codec)
    ensures first.problems <= report.problems
  {
    var sound, unsound := Filter(rows, SoundIn(directory, codec)), Filter(rows, Not(SoundIn(directory, codec)));
    FilterIs(rows, SoundIn(directory, codec), e);
    FilterIs(rows, Not(SoundIn(directory, codec)), e);
    FilterIs(sound, WithoutCopy(directory), e);
    hide Sound, Filter, LocallySafe, OnDisk;
    var records := Records(unsound);
    assert report.problems[|first.problems|..] == records;
    if e in unsound {
      var i :| 0 <= i < |unsound| && unsound[i] == e;
      assert records[i] == Record(e);
    }
  }

  // ---- what a passed verification means ----

  /** A report passes exactly when the checksums hold, every line of manifest.csv reads, and the rows looked at are
      some and all sound; every row looked at is either verified or failed. */
  lemma PassedExactly(report: Report, directory: Tree, options: Options, codec: Codec)
    requires Judged(report, directory, options, codec)
    ensures var (entries, problems) := ManifestOf(TextOf(directory, RECORDS, codec));
            var rows := Considered(entries, options);
            && report.total == |rows| && report.verified + report.failed == |rows| + |problems|
            && (report.Ok() <==> ChecksumsClear(directory, codec) && problems == [] && rows != []
                                 && forall e :: e in rows ==> Sound(directory, e, codec))
  {
    hide ChecksumsClear, ManifestOf, Sound;
    var (entries, problems) := ManifestOf(TextOf(directory, RECORDS, codec));
    var rows := Considered(entries, options);
    NoRows(options);
    hide Considered;
    FilterSplits(rows, SoundIn(directory, codec));
    hide Filter;
    var unsound := Filter(rows, Not(SoundIn(directory, codec)));
    assert |Records(unsound)| == |unsound|;
    assert forall e :: e in rows ==> (SoundIn(directory, codec)(e) <==> Sound(directory, e, codec));
  }

  lemma RecordsAreHashed()
    ensures Hashed(RECORDS)
  {
    SplitAtFirst(RECORDS, '/', "");
  }

  /** Nobody looks at the checksum verifier's verdict, only at its complaints; still, what passes was accepted by it. */
  lemma PassedIsAccepted(report: Report, directory: Tree, options: Options, codec: Codec)
    requires Judged(report, directory, options, codec) && report.Ok()
    ensures MANIFEST in directory && LocallyAccepted(codec.text(directory[MANIFEST]), directory, codec.digest)
  {
    hide Judged, NoComplaint, Hashed, Sound;
    PassedExactly(report, directory, options, codec);
    RecordsAreHashed();
    NoRows(options);
    assert ManifestOf("") == ([], []);
    assert RECORDS in HashedFiles(directory);
  }

  /** A directory as the storage thread leaves it - batches of rows appended to manifest.csv, then manifest.sha256 -
      passes exactly when there is a row, every recorded row is sound and no file name holds a newline. */
  lemma WrittenVerifies(directory: Tree, order: seq<string>, content: Bytes, batches: seq<seq<ManifestEntry>>,
                        codec: Codec, report: Report)
    requires Recorded(HashedFiles(directory), directory, order, codec.digest, codec.text(content))
    requires RECORDS in directory && codec.text(directory[RECORDS]) == ManifestAfter(batches)
    requires forall e :: e in Flatten(batches) ==> PlainEntry(e)
    requires Judged(report, directory[MANIFEST := content], Options("", 0), codec)
    ensures report.Ok()
            <==> (&& Flatten(batches) != []
                  && (forall e :: e in Flatten(batches) ==> Sound(directory[MANIFEST := content], e, codec))
                  && forall p :: p in HashedFiles(directory) ==> '\n' !in p)
    ensures report.total == |Flatten(batches)| && report.verified + report.failed == |Flatten(batches)|
  {
    hide Sound, PlainEntry, Flatten, ManifestAfter, Hashed, Recorded, FileName, ManifestOf, NoComplaint;
    var rows, after := Flatten(batches), directory[MANIFEST := content];
    ManifestRoundTrip(batches);
    assert TextOf(after, RECORDS, codec) == ManifestAfter(batches);
    FilterAll(rows, Wanted(Options("", 0)));
    PassedExactly(report, after, Options("", 0), codec);
    LocalVerifierAcceptsWritten(directory, order, codec.digest, codec.text(content), content);
    HashedAfterWriting(directory, content);
    assert HashedFiles(directory) != {} by { SomethingRecorded(directory, order, content, codec); }
  }

  lemma SomethingRecorded(directory: Tree, order: seq<string>, content: Bytes, codec: Codec)
    requires Recorded(HashedFiles(directory), directory, order, codec.digest, codec.text(content))
    ensures HashedFiles(directory) != {}
  {
  }

  /** Whatever happened to the directory since manifest.sha256 was written, if it passes then the hashed files are the
      same ones, with the same digests. */
  lemma ChangesAreDetected(directory: Tree, order: seq<string>, content: Bytes, later: Tree, options: Options,
                           codec: Codec, report: Report)
    requires Recorded(HashedFiles(directory), directory, order, codec.digest, codec.text(content))
    requires forall p :: p in HashedFiles(directory) ==> '\n' !in p
    requires MANIFEST in later && later[MANIFEST] == content
    requires Judged(report, later, options, codec) && report.Ok()
    ensures HashedFiles(later) == HashedFiles(directory)
    ensures forall p :: p in HashedFiles(directory) ==> codec.digest(later[p]) == codec.digest(directory[p])
  {
    hide Judged, Hashed, FileName, Recorded, Table, Sound, ManifestOf, Considered, Lines, Split, TextOf;
    PassedExactly(report, later, options, codec);
    WrittenTableLocal(HashedFiles(directory), directory, order, codec.digest, codec.text(content));
    var listed := Listed(HashedFiles(directory), directory, codec.digest);
    assert Table(Lines(codec.text(content)), LocalEntry) == Some(listed);
  }
}
