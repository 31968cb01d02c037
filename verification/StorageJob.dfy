/**
 What the storage thread does with one job, include/raw_storage_worker.hpp:303-345 and 348-499: give every record a
 fresh file, append its manifest row, keep the event's progress, and at the last job decide the event.
 */
module StorageJob {
  import opened Prelude
  import opened Decimal
  import opened Synchronizer
  import opened RecordCsv
  import opened EventStore
  import opened EventCapture

  // ---- fresh file names ----

  function BaseName(prefix: string, k: nat): string
  {
    if k == 0 then prefix else prefix + "_" + Digits(k)
  }

  function RawFile(base: string): string { base + ".bin" }

  function ZstdFile(base: string): string { base + ".bin" + ".zst" }

  predicate Used(files: set<string>, base: string) { RawFile(base) in files || ZstdFile(base) in files }

  function UsedFile(files: set<string>, base: string): string
  {
    if RawFile(base) in files then RawFile(base) else ZstdFile(base)
  }

  lemma BaseNamesDiffer(prefix: string, j: nat, k: nat)
    requires BaseName(prefix, j) == BaseName(prefix, k)
    ensures j == k
  {
    DigitsDenote(j);
    DigitsDenote(k);
    hide Digits, Value;
    if j > 0 && k > 0 {
      assert Digits(j) == BaseName(prefix, j)[|prefix| + 1..] && Digits(k) == BaseName(prefix, k)[|prefix| + 1..];
    } else {
      assert j > 0 ==> |BaseName(prefix, j)| > |prefix|;
      assert k > 0 ==> |BaseName(prefix, k)| > |prefix|;
    }
  }

  /** Whatever their endings, the files of two different base names are different. */
  lemma FilesDiffer(base1: string, base2: string)
    requires base1 != base2
    ensures RawFile(base1) != RawFile(base2) && ZstdFile(base1) != ZstdFile(base2) && RawFile(base1) != ZstdFile(base2)
  {
    assert RawFile(base1)[..|RawFile(base1)| - 4] == base1 && RawFile(base2)[..|RawFile(base2)| - 4] == base2;
    assert ZstdFile(base1)[..|ZstdFile(base1)| - 8] == base1 && ZstdFile(base2)[..|ZstdFile(base2)| - 8] == base2;
    assert RawFile(base1)[|RawFile(base1)| - 1] == 'n' && ZstdFile(base2)[|ZstdFile(base2)| - 1] == 't';
  }

  lemma UsedFilesDiffer(files: set<string>, prefix: string, j: nat, k: nat)
    requires j != k
    ensures UsedFile(files, BaseName(prefix, j)) != UsedFile(files, BaseName(prefix, k))
  {
    if BaseName(prefix, j) == BaseName(prefix, k) { BaseNamesDiffer(prefix, j, k); }
    hide BaseName, RawFile, ZstdFile;
    FilesDiffer(BaseName(prefix, j), BaseName(prefix, k));
    FilesDiffer(BaseName(prefix, k), BaseName(prefix, j));
  }

  /** Numbers whose base name is used are no more than there are files. */
  lemma {:induction false} UsedAreFew(files: set<string>, prefix: string, n: nat) returns (hit: set<string>)
    requires forall k :: 0 <= k < n ==> Used(files, BaseName(prefix, k))
    ensures hit <= files && |hit| == n
    ensures forall f :: f in hit ==> exists k: nat :: k < n && f == UsedFile(files, BaseName(prefix, k))
  {
    if n == 0 {
      hit := {};
    } else {
      var before := UsedAreFew(files, prefix, n - 1);
      var f := UsedFile(files, BaseName(prefix, n - 1));
      assert f in files by { assert Used(files, BaseName(prefix, n - 1)); }
      hide BaseName, UsedFile, Used;
      if f in before {
        var k: nat :| k < n - 1 && f == UsedFile(files, BaseName(prefix, k));
        UsedFilesDiffer(files, prefix, k, n - 1);
        assert false;
      }
      hit := before + {f};
    }
  }

  /** The first numbered name none of whose files exists. */
  method FreshBase(prefix: string, files: set<string>) returns (base: string)
    ensures !Used(files, base) && base + ".bin" !in files && base + ".bin" + ".zst" !in files
    ensures base == prefix || exists k: nat :: k > 0 && base == prefix + "_" + Digits(k)
    ensures exists k: nat :: base == BaseName(prefix, k) && forall j :: 0 <= j < k ==> Used(files, BaseName(prefix, j))
  {
    var duplicate := 0;
    base := prefix;
    while RawFile(base) in files || ZstdFile(base) in files
      invariant base == BaseName(prefix, duplicate)
      invariant base == if duplicate == 0 then prefix else prefix + "_" + Digits(duplicate)
      invariant forall j :: 0 <= j < duplicate ==> Used(files, BaseName(prefix, j))
      decreases |files| - duplicate
    {
      ghost var hit := UsedAreFew(files, prefix, duplicate + 1);
      SubsetSize(hit, files);
      duplicate := duplicate + 1;
      base := prefix + "_" + Digits(duplicate);
    }
  }

  // ---- writing the records of a job ----

  /** A record and how the library calls and file writes for it turn out: packed is its compressed form, if compressing
      it and writing that worked. */
  datatype Record = Record(sensor: Sensor, stamp: int, enabled: bool, data: Bytes, packed: Option<Bytes>,
                           rawWritten: bool, converted: string, rowWritten: bool)

  datatype Options = Options(compress: bool, keepRaw: bool)

  function SensorText(sensor: Sensor): string { if sensor == Camera then "camera" else "lidar" }

  predicate Compressed(r: Record, options: Options) { options.compress && r.packed.Some? }

  /** The record is on disk in the form its row will name. */
  predicate Stored(r: Record, options: Options)
  {
    (Compressed(r, options) && !options.keepRaw) || r.rawWritten
  }

  predicate Recordable(r: Record, options: Options) { r.enabled ==> Stored(r, options) && r.rowWritten }

  predicate AllRecordable(records: seq<Record>, options: Options)
  {
    forall r :: r in records ==> Recordable(r, options)
  }

  lemma NextRecord(records: seq<Record>, i: nat, options: Options)
    requires i < |records|
    ensures AllRecordable(records[..i + 1], options)
            <==> AllRecordable(records[..i], options) && Recordable(records[i], options)
    ensures Enabled(records[..i + 1])
         == if records[i].enabled then Enabled(records[..i]) + [records[i]] else Enabled(records[..i])
  {
    assert records[..i + 1] == records[..i] + [records[i]] && records[..i + 1][..i] == records[..i];
    assert forall x :: x in records[..i + 1] <==> x in records[..i] || x == records[i];
    assert Enabled(records[..i]) + [] == Enabled(records[..i]);
  }

  /** A job goes well exactly when every record asked for can be stored in the form wanted and its row written. */
  lemma AllRecordableMeans(records: seq<Record>, options: Options)
    ensures AllRecordable(records, options)
            <==> forall r :: r in records && r.enabled ==>
                   r.rowWritten && ((options.compress && r.packed.Some? && !options.keepRaw) || r.rawWritten)
  {
  }

  lemma OneIsNotRecordable(records: seq<Record>, i: nat, options: Options)
    requires i < |records| && !Recordable(records[i], options)
    ensures !AllRecordable(records, options)
  {}

  function Enabled(records: seq<Record>): seq<Record>
  {
    if records == [] then []
    else Enabled(records[..|records| - 1]) + if records[|records| - 1].enabled then [records[|records| - 1]] else []
  }

  function Prefix(r: Record): string { SensorText(r.sensor) + "_" + IntText(r.stamp) }

  /** The file is called after the record, and holds it in the encoding claimed. */
  ghost predicate Holds(file: string, zipped: bool, r: Record, files: Tree)
  {
    && file in files && (if zipped then r.packed == Some(files[file]) else files[file] == r.data)
    && exists k: nat :: file == if zipped then ZstdFile(BaseName(Prefix(r), k)) else RawFile(BaseName(Prefix(r), k))
  }

  /** A row for the record, naming a file that holds it. */
  ghost predicate RowOf(row: ManifestEntry, r: Record, options: Options, files: Tree)
  {
    && row.sensor == SensorText(r.sensor) && row.timestamp == r.stamp && row.converted == r.converted
    && row.encoding == (if Compressed(r, options) then "zstd" else "raw")
    && Holds(row.file, Compressed(r, options), r, files)
  }

  ghost predicate RowsOf(rows: seq<ManifestEntry>, records: seq<Record>, options: Options, files: Tree)
  {
    |rows| == |records| && forall i :: 0 <= i < |rows| ==> RowOf(rows[i], records[i], options, files)
  }

  /** Nothing that was there is overwritten. */
  ghost predicate Grown(before: Tree, after: Tree)
  {
    forall f :: f in before ==> f in after && after[f] == before[f]
  }

  /** No row names a file that was there before, or that another row names; and each names a file that is there now. */
  ghost predicate FreshFiles(rows: seq<ManifestEntry>, before: Tree, after: Tree)
  {
    && Grown(before, after)
    && (forall i :: 0 <= i < |rows| ==> rows[i].file !in before && rows[i].file in after)
    && forall i, j :: 0 <= i < j < |rows| ==> rows[i].file != rows[j].file
  }

  /** One record: the file its row will name, if it could be stored, and the files now there. */
  method StoreRecord(r: Record, options: Options, present: Tree) returns (stored: Option<string>, files: Tree)
    ensures stored.Some? <==> (options.compress && r.packed.Some? && !options.keepRaw) || r.rawWritten
    ensures Grown(present, files)
    ensures stored.Some? ==>
              stored.value !in present && Holds(stored.value, options.compress && r.packed.Some?, r, files)
  {
    files := present;
    var base := FreshBase(Prefix(r), files.Keys);
    var name := RawFile(base);
    assert RawFile(base) != ZstdFile(base);
    var compressed := options.compress && r.packed.Some?;
    if compressed {
      name := ZstdFile(base);
      files := files[name := r.packed.value];
    }
    if !compressed || options.keepRaw {
      if !r.rawWritten {
        return None, files;
      }
      files := files[RawFile(base) := r.data];
    }
    return Some(name), files;
  }

  lemma FreshFilesGrow(rows: seq<ManifestEntry>, before: Tree, known: Tree, after: Tree)
    requires FreshFiles(rows, before, known) && Grown(known, after)
    ensures FreshFiles(rows, before, after)
  {}

  lemma RowsStay(rows: seq<ManifestEntry>, records: seq<Record>, options: Options, known: Tree, after: Tree)
    requires RowsOf(rows, records, options, known) && Grown(known, after)
    ensures RowsOf(rows, records, options, after)
  {
    forall i | 0 <= i < |rows| ensures RowOf(rows[i], records[i], options, after) {
      assert RowOf(rows[i], records[i], options, known);
    }
  }

  /** How far the record loop has come after these records. */
  ghost predicate SoFar(records: seq<Record>, options: Options, present: Tree, rows: seq<ManifestEntry>, ok: bool,
                        files: Tree)
  {
    && (ok <==> AllRecordable(records, options)) && (ok ==> RowsOf(rows, Enabled(records), options, files))
    && FreshFiles(rows, present, files)
  }

  lemma OneSkipped(records: seq<Record>, i: nat, options: Options, present: Tree, rows: seq<ManifestEntry>, ok: bool,
                   files: Tree)
    requires i < |records| && !records[i].enabled && SoFar(records[..i], options, present, rows, ok, files)
    ensures SoFar(records[..i + 1], options, present, rows, ok, files)
  {
    NextRecord(records, i, options);
    hide AllRecordable, FreshFiles, RowsOf, Enabled;
  }

  lemma OneLost(records: seq<Record>, i: nat, options: Options, present: Tree, rows: seq<ManifestEntry>, ok: bool,
                known: Tree, files: Tree)
    requires i < |records| && !Recordable(records[i], options) && Grown(known, files)
    requires SoFar(records[..i], options, present, rows, ok, known)
    ensures SoFar(records[..i + 1], options, present, rows, false, files)
    ensures SoFar(records, options, present, rows, false, files)
  {
    NextRecord(records, i, options);
    OneIsNotRecordable(records, i, options);
    hide AllRecordable, FreshFiles, RowsOf, Enabled, Grown, Recordable;
    FreshFilesGrow(rows, present, known, files);
  }

  lemma OneWritten(records: seq<Record>, i: nat, options: Options, present: Tree, rows: seq<ManifestEntry>, ok: bool,
                   known: Tree, files: Tree, row: ManifestEntry)
    requires i < |records| && Recordable(records[i], options) && records[i].enabled && Grown(known, files)
    requires SoFar(records[..i], options, present, rows, ok, known)
    requires row.file !in known && RowOf(row, records[i], options, files)
    ensures SoFar(records[..i + 1], options, present, rows + [row], ok, files)
  {
    NextRecord(records, i, options);
    assert Holds(row.file, Compressed(records[i], options), records[i], files);
    hide AllRecordable, FreshFiles, RowsOf, Enabled, Grown, Recordable, Holds, RowOf;
    OneMoreRow(rows, row, records[i], options, present, known, files);
    if ok { OneMoreRowOf(rows, row, Enabled(records[..i]), records[i], options, known, files); }
  }

  /** The record loop of writeJob: rows of the records stored, whether all went well, and the files now there. */
  method WriteRecords(records: seq<Record>, options: Options, present: Tree)
    returns (rows: seq<ManifestEntry>, ok: bool, files: Tree)
    ensures ok <==> AllRecordable(records, options)
    ensures ok ==> RowsOf(rows, Enabled(records), options, files)
    ensures FreshFiles(rows, present, files)
  {
    rows, ok, files := [], true, present;
    for i := 0 to |records|
      invariant SoFar(records[..i], options, present, rows, ok, files)
    {
      var r := records[i];
      hide SoFar, Grown, Holds;
      if !r.enabled {
        OneSkipped(records, i, options, present, rows, ok, files);
        continue;
      }
      ghost var known := files;
      var stored;
      stored, files := StoreRecord(r, options, files);
      if stored.None? {
        OneLost(records, i, options, present, rows, ok, known, files);
        ok := false;
        continue;
      }
      if !r.rowWritten {
        OneLost(records, i, options, present, rows, ok, known, files);
        ok := false;
        SoFarMeans(records, options, present, rows, ok, files);
        return;
      }
      var row := ManifestEntry(SensorText(r.sensor), r.stamp, stored.value,
                               if Compressed(r, options) then "zstd" else "raw", r.converted);
      OneWritten(records, i, options, present, rows, ok, known, files, row);
      rows := rows + [row];
    }
    assert records[..|records|] == records;
    SoFarMeans(records, options, present, rows, ok, files);
  }

  lemma SoFarMeans(records: seq<Record>, options: Options, present: Tree, rows: seq<ManifestEntry>, ok: bool,
                   files: Tree)
    requires SoFar(records, options, present, rows, ok, files)
    ensures ok <==> AllRecordable(records, options)
    ensures ok ==> RowsOf(rows, Enabled(records), options, files)
    ensures FreshFiles(rows, present, files)
  {
  }

  lemma OneMoreRowOf(rows: seq<ManifestEntry>, row: ManifestEntry, records: seq<Record>, r: Record, options: Options,
                     known: Tree, after: Tree)
    requires RowsOf(rows, records, options, known) && Grown(known, after) && RowOf(row, r, options, after)
    ensures RowsOf(rows + [row], records + [r], options, after)
  {
    RowsStay(rows, records, options, known, after);
    hide RowOf;
  }

  lemma OneMoreRow(rows: seq<ManifestEntry>, row: ManifestEntry, r: Record, options: Options, before: Tree, known: Tree,
                   after: Tree)
    requires FreshFiles(rows, before, known) && row.file !in known && Grown(known, after)
    requires Holds(row.file, Compressed(r, options), r, after)
    ensures FreshFiles(rows + [row], before, after)
  {}

  // ---- the event's progress and its decision ----

  /** The directory after its last job: failed, or complete with the rows counted. */
  function DecidedDisk(disk: Disk, p: Progress, checksums: bool, complete: Works, fail: Works): Disk
  {
    if p.failed || p.persisted == 0 || !checksums || !complete.written then FailedDisk(disk, fail)
    else CompletedDisk(disk, p.persisted, complete)
  }

  /** What the checksum manifest adds before the decision. */
  function Summed(disk: Disk, p: Progress, checksums: bool): Disk
  {
    if !p.failed && p.persisted > 0 && checksums then disk.(sealed := true) else disk
  }

  /** Progress and directories after one turn of the thread's loop: checksums is whether manifest.sha256 could be
      written. */
  function Accounted(progress: map<Name, Progress>, files: map<Name, Disk>, job: Job, done: Done, checksums: bool,
                     complete: Works, fail: Works): (map<Name, Progress>, map<Name, Disk>)
    requires job.dir in files
  {
    var p := Advanced(ProgressOf(progress, job.dir), done);
    if job.final then
      (progress - {job.dir},
       files[job.dir := DecidedDisk(Summed(files[job.dir], p, checksums), p, checksums, complete, fail)])
    else (progress[job.dir := p], files)
  }

  /** The directory after an event's last job: ok is whether every job went well, total the rows of all of them. */
  predicate DecidedBy(before: Disk, after: Disk, ok: bool, total: nat, checksums: bool, complete: Works, fail: Works)
  {
    if ok && total > 0 && checksums && complete.written then
      after == before.(complete := Some(total), sealed := true,
                       pending := before.pending && !complete.removed1, failed := before.failed && !complete.removed2)
    else
      && after == before.(failed := before.failed || fail.written, complete := after.complete,
                          pending := before.pending && !(fail.written && fail.removed1), sealed := after.sealed)
      && after.complete == (if fail.written && fail.removed2 then None else before.complete)
      && (after.sealed <==> before.sealed || (ok && total > 0 && checksums))
  }

  lemma AccountDecides(progress: map<Name, Progress>, files: map<Name, Disk>, job: Job, done: Done, checksums: bool,
                       complete: Works, fail: Works)
    requires job.dir in files
    ensures var p, (after, left) := ProgressOf(progress, job.dir),
                                    Accounted(progress, files, job, done, checksums, complete, fail);
            && left.Keys == files.Keys && (forall d :: d in files && d != job.dir ==> left[d] == files[d])
            && (job.final ==>
                  && job.dir !in after
                  && DecidedBy(files[job.dir], left[job.dir], !p.failed && done.ok, p.persisted + done.persisted,
                               checksums, complete, fail))
            && (!job.final ==> left == files && ProgressOf(after, job.dir).failed == (p.failed || !done.ok)
                               && ProgressOf(after, job.dir).persisted == p.persisted + done.persisted)
            && forall d :: d != job.dir ==>
                 ProgressOf(after, d) == ProgressOf(progress, d) && (d in after <==> d in progress)
  {
  }

  // ---- all jobs of an event ----

  /** One turn of the thread's loop. */
  datatype Turn = Turn(job: Job, done: Done, checksums: bool, complete: Works, fail: Works)

  /** After these turns, whatever events their jobs belong to. */
  function AfterTurns(progress: map<Name, Progress>, files: map<Name, Disk>, turns: seq<Turn>)
    : (r: (map<Name, Progress>, map<Name, Disk>))
    requires forall t :: t in turns ==> t.job.dir in files
    ensures r.1.Keys == files.Keys
  {
    if turns == [] then (progress, files)
    else
      var (before, left) := AfterTurns(progress, files, turns[..|turns| - 1]);
      var t := turns[|turns| - 1];
      Accounted(before, left, t.job, t.done, t.checksums, t.complete, t.fail)
  }

  function Total(turns: seq<Turn>, d: Name): nat
  {
    if turns == [] then 0
    else
      var t := turns[|turns| - 1];
      Total(turns[..|turns| - 1], d) + if t.job.dir == d then t.done.persisted else 0
  }

  predicate Faultless(turns: seq<Turn>, d: Name) { forall t :: t in turns && t.job.dir == d ==> t.done.ok }

  lemma {:induction false} ProgressIsSum(progress: map<Name, Progress>, files: map<Name, Disk>, turns: seq<Turn>,
                                         d: Name)
    requires (forall t :: t in turns ==> t.job.dir in files) && d !in progress && d in files
    requires forall t :: t in turns && t.job.dir == d ==> !t.job.final
    ensures var (after, left) := AfterTurns(progress, files, turns);
            && left[d] == files[d] && ProgressOf(after, d) == Progress(!Faultless(turns, d), Total(turns, d))
  {
    if turns != [] {
      var front, t := turns[..|turns| - 1], turns[|turns| - 1];
      assert turns == front + [t];
      ProgressIsSum(progress, files, front, d);
      var (before, left) := AfterTurns(progress, files, front);
      AccountDecides(before, left, t.job, t.done, t.checksums, t.complete, t.fail);
      hide Accounted, DecidedBy, ProgressOf;
    }
  }

  /** Whatever other events' jobs come between: after the last of an event's jobs its directory is complete, with the
      rows of all of them, exactly when none of them went wrong, there are rows at all, and checksums and .complete
      could be written; otherwise it has failed, if that could be written. */
  lemma EventIsDecided(progress: map<Name, Progress>, files: map<Name, Disk>, turns: seq<Turn>)
    requires turns != [] && forall t :: t in turns ==> t.job.dir in files
    requires var last := turns[|turns| - 1];
             && last.job.final && last.job.dir !in progress
             && forall i :: 0 <= i < |turns| - 1 && turns[i].job.dir == last.job.dir ==> !turns[i].job.final
    ensures var last, (after, left) := turns[|turns| - 1], AfterTurns(progress, files, turns);
            var d := last.job.dir;
            && d !in after
            && DecidedBy(files[d], left[d], Faultless(turns, d), Total(turns, d), last.checksums, last.complete,
                         last.fail)
  {
    var front, t := turns[..|turns| - 1], turns[|turns| - 1];
    assert turns == front + [t];
    ProgressIsSum(progress, files, front, t.job.dir);
    var (before, left) := AfterTurns(progress, files, front);
    AccountDecides(before, left, t.job, t.done, t.checksums, t.complete, t.fail);
    hide Accounted, DecidedBy;
  }

  class StorageThread {
    var eventProgress: map<Name, Progress>
    const store: RecordStore

    constructor (store: RecordStore)
      ensures eventProgress == map[] && this.store == store
    {
      eventProgress := map[];
      this.store := store;
    }

    /** One turn of the thread's loop after writeJob. */
    method Account(job: Job, done: Done, checksums: bool, complete: Works, fail: Works)
      requires job.dir in store.files && done.final == job.final
      modifies this, store
      ensures (eventProgress, store.files)
           == Accounted(old(eventProgress), old(store.files), job, done, checksums, complete, fail)
      ensures var before := ProgressOf(old(eventProgress), job.dir);
              job.final ==>
                DecidedBy(old(store.files)[job.dir], store.files[job.dir], !before.failed && done.ok,
                          before.persisted + done.persisted, checksums, complete, fail)
    {
      ghost var before := eventProgress;
      AccountDecides(eventProgress, store.files, job, done, checksums, complete, fail);
      hide DecidedBy, DecidedDisk, Summed;
      var progress := if job.dir in eventProgress then eventProgress[job.dir] else Progress(false, 0);
      progress := progress.(persisted := progress.persisted + done.persisted);
      if !done.ok {
        progress := progress.(failed := true);
      }
      eventProgress := eventProgress[job.dir := progress];
      if job.final {
        Decide(job.dir, progress, checksums, complete, fail);
        eventProgress := eventProgress - {job.dir};
        assert eventProgress == before - {job.dir};
      }
    }

    /** The part of that turn that follows an event's last job. */
    method Decide(d: Name, total: Progress, checksums: bool, complete: Works, fail: Works)
      requires d in store.files
      modifies store
      ensures store.files
           == old(store.files)[d := DecidedDisk(Summed(old(store.files)[d], total, checksums), total, checksums,
                                                complete, fail)]
    {
      hide FailedDisk;
      ghost var files, disk := store.files, store.files[d];
      assert files[d := disk] == files;
      var failed := total.failed || total.persisted == 0;
      if !failed {
        store.WriteChecksums(d, checksums);
        disk := store.files[d];
        failed := !checksums;
      }
      UpdateTwice(files, d, disk, disk);
      UpdateTwice(files, d, disk, FailedDisk(disk, fail));
      UpdateTwice(files, d, disk, CompletedDisk(disk, total.persisted, complete));
      if failed {
        var _ := store.FailDirectory(d, true, fail);
      } else {
        var written := store.CompleteDirectory(d, total.persisted, true, complete);
        if !written {
          var _ := store.FailDirectory(d, true, fail);
        }
      }
    }
  }
}
