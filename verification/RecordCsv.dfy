/**
 manifest.csv and pairs.csv: how the storage thread appends to them, include/raw_storage_worker.hpp:363-371, 463-464
 and 578-597, and how they are read back, include/record_io.hpp:73-200.
 */
module RecordCsv {
  import opened Prelude
  import opened Decimal
  import opened Text
  import PairLedger

  datatype ManifestEntry = ManifestEntry(sensor: string, timestamp: int, file: string, encoding: string,
                                         converted: string)

  /** A missing side reads as stamp 0. */
  datatype PairEntry = PairEntry(id: nat, status: string, cameraStamp: int, lidarStamp: int, difference: int,
                                 reason: string)

  /** line counts from 1, the header being line 1. */
  datatype Problem =
    | TooFewFields(line: nat, got: nat)
    | InvalidTimestamp(line: nat, text: string)
    | InvalidPairId(line: nat, text: string)
    | InvalidNumber(line: nat)

  datatype Reading<T> = Blank | Entry(entry: T) | Bad(problem: Problem)

  // ---- fields ----

  function WithoutCr(line: string): string
  {
    if line == [] then []
    else WithoutCr(line[..|line| - 1]) + if line[|line| - 1] == '\r' then [] else [line[|line| - 1]]
  }

  function CsvFields(line: string): (fields: seq<string>)
    ensures |fields| >= 1
  {
    Split(WithoutCr(line), ',')
  }

  /** Splitting a line extended by one character. */
  lemma {:induction false} SplitExtends(s: string, c: char, x: char)
    ensures var parts := Split(s, c);
            Split(s + [x], c) == if x == c then parts + [[]] else parts[..|parts| - 1] + [parts[|parts| - 1] + [x]]
  {
    if s == [] {
      assert s + [x] == [x] && [x][1..] == [];
      var parts: seq<string> := [[]];
      assert Split(s, c) == parts && parts[..0] == [] && parts[0] + [x] == [x];
      assert Split([x], c) == if x == c then parts + parts else [[x] + parts[0]] + parts[1..];
      assert [x] + parts[0] == [x];
    } else {
      SplitExtends(s[1..], c, x);
      assert (s + [x])[1..] == s[1..] + [x] && (s + [x])[0] == s[0];
      var rest, grown := Split(s[1..], c), Split(s[1..] + [x], c);
      hide Split;
      SplitFirst(s, c, rest);
      SplitFirst(s + [x], c, grown);
      SplitGrows(s[0], c, rest, grown, x);
    }
  }

  function Prefixed(x: char, c: char, rest: seq<string>): seq<string>
    requires rest != []
  {
    if x == c then [[]] + rest else [[x] + rest[0]] + rest[1..]
  }

  lemma SplitFirst(s: string, c: char, rest: seq<string>)
    requires s != [] && rest == Split(s[1..], c)
    ensures Split(s, c) == Prefixed(s[0], c, rest)
  {}

  lemma SplitGrows(head: char, c: char, rest: seq<string>, grown: seq<string>, x: char)
    requires rest != [] && grown == if x == c then rest + [[]] else rest[..|rest| - 1] + [rest[|rest| - 1] + [x]]
    ensures var parts := Prefixed(head, c, rest);
            Prefixed(head, c, grown)
            == if x == c then parts + [[]]
               else parts[..|parts| - 1] + [parts[|parts| - 1] + [x]]
  {
    if head != c && x != c && |rest| == 1 {
      assert [head] + (rest[0] + [x]) == ([head] + rest[0]) + [x];
    }
  }

  /** One more character: a comma starts a field, a carriage return is skipped. */
  lemma FieldsExtend(line: string, x: char)
    ensures var fields := CsvFields(line);
            CsvFields(line + [x]) == if x == ',' then fields + [[]]
                                     else if x == '\r' then fields
                                     else fields[..|fields| - 1] + [fields[|fields| - 1] + [x]]
  {
    assert (line + [x])[..|line|] == line;
    hide Split;
    SplitExtends(WithoutCr(line), ',', x);
    assert WithoutCr(line) + [] == WithoutCr(line);
  }

  method SplitCsvLine(line: string) returns (fields: seq<string>)
    ensures fields == CsvFields(line)
  {
    hide CsvFields;
    fields := [];
    var current: string := [];
    assert CsvFields([]) == [[]] by { NoFields(); }
    for i := 0 to |line|
      invariant fields + [current] == CsvFields(line[..i])
    {
      assert line[..i + 1] == line[..i] + [line[i]];
      FieldsExtend(line[..i], line[i]);
      assert (fields + [current])[..|fields|] == fields;
      if line[i] == ',' {
        fields := fields + [current];
        current := [];
      } else if line[i] != '\r' {
        current := current + [line[i]];
      }
    }
    assert line[..|line|] == line;
    fields := fields + [current];
  }

  lemma NoFields()
    ensures CsvFields([]) == [[]]
  {}

  // ---- reading ----

  function ReadManifestLine(line: string, number: nat): Reading<ManifestEntry>
  {
    if line == [] then Blank
    else
      var f := CsvFields(line);
      if |f| < 4 then Bad(TooFewFields(number, |f|))
      else
        var stamp := ParseI64(f[1]);
        if stamp.None? then Bad(InvalidTimestamp(number, f[1]))
        else Entry(ManifestEntry(f[0], stamp.value, f[2], f[3], if |f| >= 5 then f[4] else ""))
  }

  /** An empty field is 0 without being parsed. */
  function OptionalStamp(text: string): Option<int> { if text == [] then Some(0) else ParseI64(text) }

  function ReadPairLine(line: string, number: nat): Reading<PairEntry>
  {
    if line == [] then Blank
    else
      var f := CsvFields(line);
      if |f| < 6 then Bad(TooFewFields(number, |f|))
      else
        var id, camera, lidar, difference := ParseU64(f[0]), OptionalStamp(f[2]), OptionalStamp(f[3]), ParseI64(f[4]);
        if id.None? then Bad(InvalidPairId(number, f[0]))
        else if camera.None? || lidar.None? || difference.None? then Bad(InvalidNumber(number))
        else Entry(PairEntry(id.value, f[1], camera.value, lidar.value, difference.value, f[5]))
  }

  /** Entries and problems of the lines, the first of which has the given number. */
  function Gather<T>(lines: seq<string>, number: nat, read: (string, nat) -> Reading<T>): (r: (seq<T>, seq<Problem>))
  {
    if lines == [] then ([], [])
    else
      var (entries, problems) := Gather(lines[..|lines| - 1], number, read);
      match read(lines[|lines| - 1], number + |lines| - 1)
      case Blank => (entries, problems)
      case Entry(e) => (entries + [e], problems)
      case Bad(p) => (entries, problems + [p])
  }

  lemma GatherStep<T>(lines: seq<string>, i: nat, read: (string, nat) -> Reading<T>)
    requires i < |lines|
    ensures var (entries, problems) := Gather(lines[..i], 2, read);
            Gather(lines[..i + 1], 2, read) == match read(lines[i], 2 + i)
                                               case Blank => (entries, problems)
                                               case Entry(e) => (entries + [e], problems)
                                               case Bad(p) => (entries, problems + [p])
  {
    assert lines[..i + 1][..i] == lines[..i] && lines[..i + 1][i] == lines[i];
  }

  /** The lines after the header. */
  function Body(text: string): seq<string> { if Lines(text) == [] then [] else Lines(text)[1..] }

  function ManifestOf(text: string): (seq<ManifestEntry>, seq<Problem>) { Gather(Body(text), 2, ReadManifestLine) }

  function PairsOf(text: string): (seq<PairEntry>, seq<Problem>) { Gather(Body(text), 2, ReadPairLine) }

  method ReadManifest(text: string) returns (entries: seq<ManifestEntry>, problems: seq<Problem>)
    ensures (entries, problems) == ManifestOf(text)
  {
    entries, problems := [], [];
    var lines := Lines(text);
    if lines == [] {
      return;
    }
    var lineNumber := 1;
    ghost var body := lines[1..];
    while lineNumber < |lines|
      invariant 1 <= lineNumber <= |lines|
      invariant (entries, problems) == Gather(body[..lineNumber - 1], 2, ReadManifestLine)
    {
      var line := lines[lineNumber];
      lineNumber := lineNumber + 1;
      GatherStep(body, lineNumber - 2, ReadManifestLine);
      if line == [] {
        continue;
      }
      var fields := SplitCsvLine(line);
      if |fields| < 4 {
        problems := problems + [TooFewFields(lineNumber, |fields|)];
        continue;
      }
      var stamp := ParseI64(fields[1]);
      if stamp.None? {
        problems := problems + [InvalidTimestamp(lineNumber, fields[1])];
        continue;
      }
      entries := entries
        + [ManifestEntry(fields[0], stamp.value, fields[2], fields[3], if |fields| >= 5 then fields[4] else "")];
    }
    assert body[..|body|] == body;
  }

  method ReadPairs(text: string) returns (entries: seq<PairEntry>, problems: seq<Problem>)
    ensures (entries, problems) == PairsOf(text)
  {
    entries, problems := [], [];
    var lines := Lines(text);
    if lines == [] {
      return;
    }
    var lineNumber := 1;
    ghost var body := lines[1..];
    while lineNumber < |lines|
      invariant 1 <= lineNumber <= |lines|
      invariant (entries, problems) == Gather(body[..lineNumber - 1], 2, ReadPairLine)
    {
      var line := lines[lineNumber];
      lineNumber := lineNumber + 1;
      GatherStep(body, lineNumber - 2, ReadPairLine);
      if line == [] {
        continue;
      }
      var fields := SplitCsvLine(line);
      if |fields| < 6 {
        problems := problems + [TooFewFields(lineNumber, |fields|)];
        continue;
      }
      var id := ParseU64(fields[0]);
      if id.None? {
        problems := problems + [InvalidPairId(lineNumber, fields[0])];
        continue;
      }
      var camera, lidar, difference := OptionalStamp(fields[2]), OptionalStamp(fields[3]), ParseI64(fields[4]);
      if camera.None? || lidar.None? || difference.None? {
        problems := problems + [InvalidNumber(lineNumber)];
        continue;
      }
      entries := entries + [PairEntry(id.value, fields[1], camera.value, lidar.value, difference.value, fields[5])];
    }
    assert body[..|body|] == body;
  }

  // ---- writing ----

  function ManifestHeader(): string { Join(["sensor", "timestamp", "file", "encoding", "converted_file"], ',') }

  function PairsHeader(): string
  {
    Join(["pair_id", "status", "camera_timestamp", "lidar_timestamp", "time_diff_ns", "reason"], ',')
  }

  function ManifestLine(e: ManifestEntry): string
  {
    Join([e.sensor, IntText(e.timestamp), e.file, e.encoding, e.converted], ',')
  }

  function PairLine(r: PairLedger.Record): string
  {
    Join([Digits(r.id), r.status, if r.hasCamera then IntText(r.cameraStamp) else "",
          if r.hasLidar then IntText(r.lidarStamp) else "", IntText(r.difference), r.reason], ',')
  }

  function ManifestLines(rows: seq<ManifestEntry>): (lines: seq<string>)
    ensures |lines| == |rows|
  {
    seq(|rows|, i requires 0 <= i < |rows| => ManifestLine(rows[i]))
  }

  function PairLines(rows: seq<PairLedger.Record>): (lines: seq<string>)
    ensures |lines| == |rows|
  {
    seq(|rows|, i requires 0 <= i < |rows| => PairLine(rows[i]))
  }

  /** One job appends its rows, after the header if the file is still empty. */
  function AppendManifest(text: string, rows: seq<ManifestEntry>): string
  {
    (if text == [] then ManifestHeader() + "\n" else text) + Terminated(ManifestLines(rows))
  }

  /** A job without pairs does not even create the file. */
  function AppendPairs(text: string, rows: seq<PairLedger.Record>): string
  {
    if rows == [] then text
    else (if text == [] then PairsHeader() + "\n" else text) + Terminated(PairLines(rows))
  }

  function ManifestAfter(batches: seq<seq<ManifestEntry>>): string
  {
    if batches == [] then [] else AppendManifest(ManifestAfter(batches[..|batches| - 1]), batches[|batches| - 1])
  }

  function PairsAfter(batches: seq<seq<PairLedger.Record>>): string
  {
    if batches == [] then [] else AppendPairs(PairsAfter(batches[..|batches| - 1]), batches[|batches| - 1])
  }

  function Flatten<T>(batches: seq<seq<T>>): seq<T>
  {
    if batches == [] then [] else Flatten(batches[..|batches| - 1]) + batches[|batches| - 1]
  }

  // ---- round trips ----

  /** A field that needs no quoting. */
  predicate Plain(field: string) { ',' !in field && '\n' !in field && '\r' !in field }

  predicate PlainEntry(e: ManifestEntry)
  {
    Plain(e.sensor) && Plain(e.file) && Plain(e.encoding) && Plain(e.converted) && I64_MIN <= e.timestamp <= I64_MAX
  }

  predicate PlainRecord(r: PairLedger.Record)
  {
    && Plain(r.status) && Plain(r.reason) && r.id < U64_MODULUS && r.difference <= I64_MAX
    && I64_MIN <= r.cameraStamp <= I64_MAX && I64_MIN <= r.lidarStamp <= I64_MAX
  }

  /** What a ledger record reads back as. */
  function ReadBack(r: PairLedger.Record): PairEntry
  {
    PairEntry(r.id, r.status, if r.hasCamera then r.cameraStamp else 0, if r.hasLidar then r.lidarStamp else 0,
              r.difference, r.reason)
  }

  function ReadBackAll(rows: seq<PairLedger.Record>): (entries: seq<PairEntry>)
    ensures |entries| == |rows|
  {
    seq(|rows|, i requires 0 <= i < |rows| => ReadBack(rows[i]))
  }

  lemma NumbersArePlain(v: int, n: nat)
    ensures Plain(IntText(v)) && Plain(Digits(n)) && IntText(v) != [] && Digits(n) != []
  {
    IntCharacters(v);
    IntCharacters(n);
  }

  lemma {:induction false} NoCr(line: string)
    requires '\r' !in line
    ensures WithoutCr(line) == line
  {
    if line != [] {
      NoCr(line[..|line| - 1]);
      assert line[|line| - 1] in line;
    }
  }

  lemma {:induction false} JoinIsPlain(fields: seq<string>)
    requires forall f :: f in fields ==> Plain(f)
    ensures '\n' !in Join(fields, ',') && '\r' !in Join(fields, ',')
    ensures |fields| >= 2 ==> Join(fields, ',') != []
  {
    if |fields| > 0 { assert fields[0] in fields; }
    if |fields| > 1 {
      assert forall f :: f in fields[1..] ==> f in fields;
      JoinIsPlain(fields[1..]);
    }
  }

  lemma WordIsPlain(word: string)
    requires forall i :: 0 <= i < |word| ==> word[i] == '_' || 'a' <= word[i] <= 'z'
    ensures Plain(word)
  {}

  lemma ManifestWords()
    ensures Plain("sensor") && Plain("timestamp") && Plain("encoding")
  {
    WordIsPlain("sensor");
    WordIsPlain("timestamp");
    WordIsPlain("encoding");
  }

  lemma FileWords()
    ensures Plain("file") && Plain("converted_file")
  {
    WordIsPlain("file");
    WordIsPlain("converted_file");
  }

  lemma ManifestHeaderIsLine()
    ensures '\n' !in ManifestHeader() && ManifestHeader() != []
  {
    hide Plain, Join;
    ManifestWords();
    FileWords();
    JoinIsPlain(["sensor", "timestamp", "file", "encoding", "converted_file"]);
  }

  lemma PairsHeaderIsLine()
    ensures '\n' !in PairsHeader() && PairsHeader() != []
  {
    WordIsPlain("pair_id");
    WordIsPlain("status");
    WordIsPlain("camera_timestamp");
    WordIsPlain("lidar_timestamp");
    WordIsPlain("time_diff_ns");
    WordIsPlain("reason");
    hide Plain, Join;
    JoinIsPlain(["pair_id", "status", "camera_timestamp", "lidar_timestamp", "time_diff_ns", "reason"]);
  }

  /** Appending lines to a file that has its header, or gets it now. */
  lemma AppendedLines(header: string, text: string, done: seq<string>, more: seq<string>)
    requires text == Terminated([header] + done) || (text == [] && done == [])
    ensures (if text == [] then header + "\n" else text) + Terminated(more) == Terminated([header] + (done + more))
  {
    if text == [] {
      assert done == [] by { assert Terminated([header] + done) != []; }
      assert done + more == more && ([header] + more)[1..] == more;
    } else {
      assert [header] + (done + more) == ([header] + done) + more;
      TerminatedAppend([header] + done, more);
    }
  }

  /** Fields that need no quoting survive a line. */
  lemma JoinedFields(fields: seq<string>)
    requires |fields| >= 2 && forall f :: f in fields ==> Plain(f)
    ensures var line := Join(fields, ','); CsvFields(line) == fields && line != [] && '\n' !in line
  {
    JoinIsPlain(fields);
    NoCr(Join(fields, ','));
    SplitOfJoin(fields, ',');
  }

  lemma ManifestLineReads(e: ManifestEntry, number: nat)
    requires PlainEntry(e)
    ensures ReadManifestLine(ManifestLine(e), number) == Entry(e) && '\n' !in ManifestLine(e)
  {
    NumbersArePlain(e.timestamp, 0);
    I64RoundTrip(e.timestamp);
    hide IntText, Join, CsvFields, Plain, ParseI64, Digits;
    JoinedFields([e.sensor, IntText(e.timestamp), e.file, e.encoding, e.converted]);
  }

  lemma PairLineReads(r: PairLedger.Record, number: nat)
    requires PlainRecord(r)
    ensures ReadPairLine(PairLine(r), number) == Entry(ReadBack(r)) && '\n' !in PairLine(r)
  {
    NumbersArePlain(r.cameraStamp, r.id);
    NumbersArePlain(r.lidarStamp, r.id);
    NumbersArePlain(r.difference, r.id);
    I64RoundTrip(r.cameraStamp);
    I64RoundTrip(r.lidarStamp);
    I64RoundTrip(r.difference);
    U64RoundTrip(r.id);
    assert Plain("");
    hide IntText, Join, CsvFields, Plain, ParseI64, ParseU64, Digits;
    JoinedFields([Digits(r.id), r.status, if r.hasCamera then IntText(r.cameraStamp) else "",
                  if r.hasLidar then IntText(r.lidarStamp) else "", IntText(r.difference), r.reason]);
  }

  /** Lines that all read as entries are gathered in order, without problems. */
  lemma {:induction false} GatherAll<T>(lines: seq<string>, number: nat, read: (string, nat) -> Reading<T>,
                                        entries: seq<T>)
    requires |entries| == |lines|
    requires forall i :: 0 <= i < |lines| ==> read(lines[i], number + i) == Entry(entries[i])
    ensures Gather(lines, number, read) == (entries, [])
  {
    if lines != [] {
      GatherAll(lines[..|lines| - 1], number, read, entries[..|entries| - 1]);
      assert entries == entries[..|entries| - 1] + [entries[|entries| - 1]];
    }
  }

  lemma ManifestLinesSplit(a: seq<ManifestEntry>, b: seq<ManifestEntry>)
    ensures ManifestLines(a + b) == ManifestLines(a) + ManifestLines(b)
  {}

  /** A file is its header and the rows of all batches, each on its own line. */
  lemma {:induction false} ManifestIsLines(batches: seq<seq<ManifestEntry>>)
    ensures ManifestAfter(batches)
            == if batches == [] then [] else Terminated([ManifestHeader()] + ManifestLines(Flatten(batches)))
  {
    if batches != [] {
      var front, last := batches[..|batches| - 1], batches[|batches| - 1];
      ManifestIsLines(front);
      ManifestLinesSplit(Flatten(front), last);
      hide ManifestHeader, ManifestLines, Terminated;
      AppendedLines(ManifestHeader(), ManifestAfter(front), ManifestLines(Flatten(front)), ManifestLines(last));
    }
  }

  lemma PairLinesSplit(a: seq<PairLedger.Record>, b: seq<PairLedger.Record>)
    ensures PairLines(a + b) == PairLines(a) + PairLines(b)
  {}

  lemma {:induction false} PairsIsLines(batches: seq<seq<PairLedger.Record>>)
    ensures PairsAfter(batches)
            == if Flatten(batches) == [] then [] else Terminated([PairsHeader()] + PairLines(Flatten(batches)))
  {
    if batches != [] {
      var front, last := batches[..|batches| - 1], batches[|batches| - 1];
      PairsIsLines(front);
      PairLinesSplit(Flatten(front), last);
      hide PairsHeader, PairLines, Terminated;
      if last == [] {
        assert Flatten(batches) == Flatten(front);
      } else {
        AppendedLines(PairsHeader(), PairsAfter(front), PairLines(Flatten(front)), PairLines(last));
      }
    }
  }

  lemma BodyOfFile(header: string, lines: seq<string>, last: string)
    requires '\n' !in header && (forall l :: l in lines ==> '\n' !in l) && '\n' !in last
    ensures Body(Terminated([header] + lines) + last) == if last == [] then lines else lines + [last]
  {
    LinesOfTerminated([header] + lines, last);
    assert ([header] + lines)[1..] == lines;
    if last != [] { assert ([header] + lines + [last])[1..] == lines + [last]; }
  }

  lemma FileReads<T>(header: string, lines: seq<string>, read: (string, nat) -> Reading<T>, entries: seq<T>)
    requires '\n' !in header && |entries| == |lines|
    requires forall i :: 0 <= i < |lines| ==> read(lines[i], 2 + i) == Entry(entries[i]) && '\n' !in lines[i]
    ensures Gather(Body(Terminated([header] + lines)), 2, read) == (entries, [])
  {
    forall l | l in lines ensures '\n' !in l {
      var i :| 0 <= i < |lines| && lines[i] == l;
      assert read(lines[i], 2 + i) == Entry(entries[i]);
    }
    hide Body, Gather, Terminated;
    BodyOfFile(header, lines, []);
    assert Terminated([header] + lines) + [] == Terminated([header] + lines);
    GatherAll(lines, 2, read, entries);
  }

  lemma NothingToRead()
    ensures Body([]) == []
  {
    assert Lines([]) == [];
  }

  lemma ManifestLinesRead(rows: seq<ManifestEntry>, i: nat)
    requires i < |rows| && forall e :: e in rows ==> PlainEntry(e)
    ensures ReadManifestLine(ManifestLines(rows)[i], 2 + i) == Entry(rows[i]) && '\n' !in ManifestLines(rows)[i]
  {
    ManifestLineReads(rows[i], 2 + i);
  }

  lemma PairLinesRead(rows: seq<PairLedger.Record>, i: nat)
    requires i < |rows| && forall r :: r in rows ==> PlainRecord(r)
    ensures ReadPairLine(PairLines(rows)[i], 2 + i) == Entry(ReadBackAll(rows)[i]) && '\n' !in PairLines(rows)[i]
  {
    PairLineReads(rows[i], 2 + i);
  }

  /** Whatever batches of rows were appended, reading the manifest returns all rows in order and no problem. */
  lemma ManifestRoundTrip(batches: seq<seq<ManifestEntry>>)
    requires forall e :: e in Flatten(batches) ==> PlainEntry(e)
    ensures ManifestOf(ManifestAfter(batches)) == (Flatten(batches), [])
  {
    ManifestHeaderIsLine();
    hide ManifestHeader, PairsHeader;
    var rows, lines := Flatten(batches), ManifestLines(Flatten(batches));
    ManifestIsLines(batches);
    NothingToRead();
    if batches != [] {
      hide ManifestAfter, Flatten, ReadManifestLine, PlainEntry, Body, Gather, Terminated, ManifestLines;
      forall i: nat | i < |rows| ensures ReadManifestLine(lines[i], 2 + i) == Entry(rows[i]) && '\n' !in lines[i] {
        ManifestLinesRead(rows, i);
      }
      FileReads(ManifestHeader(), lines, ReadManifestLine, rows);
    }
  }

  /** The same for pairs.csv: ids and stamps come back as the same 64-bit numbers. */
  lemma PairsRoundTrip(batches: seq<seq<PairLedger.Record>>)
    requires forall r :: r in Flatten(batches) ==> PlainRecord(r)
    ensures PairsOf(PairsAfter(batches)) == (ReadBackAll(Flatten(batches)), [])
  {
    PairsHeaderIsLine();
    hide ManifestHeader, PairsHeader;
    var rows, lines := Flatten(batches), PairLines(Flatten(batches));
    PairsIsLines(batches);
    NothingToRead();
    if rows != [] {
      hide PairsAfter, Flatten, ReadPairLine, PlainRecord, Body, Gather, Terminated, PairLines, ReadBackAll;
      forall i: nat | i < |rows|
        ensures ReadPairLine(lines[i], 2 + i) == Entry(ReadBackAll(rows)[i]) && '\n' !in lines[i]
      {
        PairLinesRead(rows, i);
      }
      FileReads(PairsHeader(), lines, ReadPairLine, ReadBackAll(rows));
    }
  }

  /** Cut anywhere - a crash while appending - the manifest reads as its complete lines' entries and at most one more
      entry or problem. */
  lemma TornManifest(batches: seq<seq<ManifestEntry>>, n: nat)
    requires n <= |ManifestAfter(batches)| && forall e :: e in Flatten(batches) ==> PlainEntry(e)
    ensures exists k: nat ::
              k <= |Flatten(batches)| && ReadsAs(ManifestOf(ManifestAfter(batches)[..n]), Flatten(batches)[..k])
  {
    ManifestHeaderIsLine();
    hide ManifestHeader, PairsHeader;
    var rows, lines := Flatten(batches), ManifestLines(Flatten(batches));
    ManifestIsLines(batches);
    NothingToRead();
    if batches == [] {
      assert ReadsAs(ManifestOf([]), rows[..0]);
    } else {
      hide ManifestAfter, Flatten, ReadManifestLine, PlainEntry, Body, Gather, Terminated, ManifestLines, ReadsAs;
      forall i: nat | i < |rows| ensures ReadManifestLine(lines[i], 2 + i) == Entry(rows[i]) && '\n' !in lines[i] {
        ManifestLinesRead(rows, i);
      }
      var cut, part := PrefixOfTerminated([ManifestHeader()] + lines, n);
      TornBody(ManifestHeader(), lines, cut, part);
      var k: nat := if cut == 0 then 0 else cut - 1;
      TornReads(lines, rows, k, if cut == 0 then [] else part);
      assert cut == 0 ==> lines[..0] == [];
      assert ReadsAs(ManifestOf(ManifestAfter(batches)[..n]), rows[..k]);
    }
  }

  /** The given entries, and at most one more entry or problem. */
  ghost predicate ReadsAs<T(!new)>(r: (seq<T>, seq<Problem>), entries: seq<T>)
  {
    (r.0 == entries && |r.1| <= 1) || (exists extra :: r == (entries + [extra], []))
  }

  lemma TornBody(header: string, lines: seq<string>, k: nat, part: string)
    requires '\n' !in header && forall l :: l in lines ==> '\n' !in l
    requires k <= |lines| + 1 && (part != [] ==> k < |lines| + 1 && part <= ([header] + lines)[k])
    ensures Body(Terminated(([header] + lines)[..k]) + part)
            == if k == 0 then [] else if part == [] then lines[..k - 1] else lines[..k - 1] + [part]
  {
    var all := [header] + lines;
    assert forall l :: l in all ==> '\n' !in l;
    if part != [] { assert all[k] in all && forall x :: x in part ==> x in all[k]; }
    LinesOfTerminated(all[..k], part);
    if k > 0 {
      assert all[..k] == [header] + lines[..k - 1];
      BodyOfFile(header, lines[..k - 1], part);
    }
  }

  lemma TornReads(lines: seq<string>, rows: seq<ManifestEntry>, k: nat, part: string)
    requires k <= |lines| == |rows| && forall i :: 0 <= i < |rows| ==>
               ReadManifestLine(lines[i], 2 + i) == Entry(rows[i])
    ensures ReadsAs(Gather(if part == [] then lines[..k] else lines[..k] + [part], 2, ReadManifestLine), rows[..k])
  {
    GatherAll(lines[..k], 2, ReadManifestLine, rows[..k]);
    if part != [] {
      var torn := lines[..k] + [part];
      assert torn[..|torn| - 1] == lines[..k];
    }
  }
}
