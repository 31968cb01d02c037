/**
 What the storage thread has written reads back: the names it gives, include/raw_storage_worker.hpp:391-439, are safe
 paths to the verifier, include/record_io.hpp:276-298, and hold the records' own bytes; so a recorded event verifies.
 */
module StoredRecords {
  import opened Prelude
  import opened Text
  import opened Decimal
  import opened ReceiverNames
  import opened ChecksumManifest
  import opened RecordCsv
  import opened EventVerification
  import Synchronizer
  import StorageJob

  // ---- names ----

  /** What the names are made of before their endings. */
  predicate BaseCharacter(c: char) { 'a' <= c <= 'z' || IsDigit(c) || c == '_' || c == '-' }

  lemma BaseCharacters(r: StorageJob.Record, k: nat)
    ensures var base := StorageJob.BaseName(StorageJob.Prefix(r), k);
            |base| > 5 && forall c :: c in base ==> BaseCharacter(c)
  {
    IntCharacters(r.stamp);
    DigitsDenote(k);
    hide Digits, IntText;
    var text := StorageJob.SensorText(r.sensor);
    assert forall c :: c in text ==> BaseCharacter(c);
    assert forall c :: c in IntText(r.stamp) ==> BaseCharacter(c);
    assert k > 0 ==> forall c :: c in Digits(k) ==> BaseCharacter(c);
  }

  /** Neither a separator, nor a drive, nor a line break, nor anything that ends a field. */
  predicate Harmless(c: char) { c !in {'/', '\\', ':', ',', '\n', '\r', 0 as char} }

  lemma OnePart(base: string, ending: string)
    requires |base| > 5 && '.' !in base && forall c :: c in base + "." + ending ==> Harmless(c)
    ensures var name := base + "." + ending;
            && Split(name, '/') == [name] && Split(name, '.')[0] == base && Upper(base) !in DEVICE_NAMES
  {
    var name := base + "." + ending;
    assert name == base + ['.'] + ending;
    SplitAtFirst(base, '.', ending);
    SplitAtFirst(name, '/', "");
    UpperLength(base);
    LongIsNoDevice(Upper(base));
    hide Split, Upper;
  }

  /** A name of such characters with an ending is a safe path of one part. */
  lemma EndedIsSafe(base: string, ending: string)
    requires |base| > 5 && '.' !in base && ending != "" && ending[|ending| - 1] !in {'.', ' '}
    requires forall c :: c in base + "." + ending ==> Harmless(c)
    ensures var name := base + "." + ending;
            && LocallySafe(name) && OnDisk(name) == name && Plain(name)
            && (|name| <= MAX_RELATIVE_PATH ==> NormalPath(name))
  {
    var name := base + "." + ending;
    OnePart(base, ending);
    hide Split, Upper;
    assert name[|name| - 1] == ending[|ending| - 1] && name != "." && name != "..";
    assert !UnsafePart(name);
    hide UnsafePart;
    OnePartOnDisk(name);
    assert Harmless(name[0]);
    SlashesIdentity(name);
  }

  lemma OnePartOnDisk(name: string)
    requires name != "" && Split(name, '/') == [name]
    ensures OnDisk(name) == name
  {
    assert WithoutEmpty([name][1..]) == [];
    assert WithoutEmpty([name]) == [name];
  }

  lemma EndingIsSafe(base: string, zipped: bool)
    requires |base| > 5 && forall c :: c in base ==> BaseCharacter(c)
    ensures var name := if zipped then StorageJob.ZstdFile(base) else StorageJob.RawFile(base);
            && LocallySafe(name) && OnDisk(name) == name && Plain(name)
            && (|name| <= MAX_RELATIVE_PATH ==> NormalPath(name))
  {
    hide LocallySafe, OnDisk, Plain, NormalPath;
    assert base + ".bin" == base + "." + "bin" && base + ".bin" + ".zst" == base + "." + "bin.zst";
    assert forall c :: BaseCharacter(c) ==> Harmless(c) && c != '.';
    EndedIsSafe(base, if zipped then "bin.zst" else "bin");
  }

  /** The name of a stored record is a safe path to the verifier, needs no quoting in manifest.csv, and - unless it is
      longer than the receiver allows - is a path in normal form to the receiver. */
  lemma HeldNameIsSafe(file: string, zipped: bool, r: StorageJob.Record, files: Tree)
    requires StorageJob.Holds(file, zipped, r, files)
    ensures LocallySafe(file) && OnDisk(file) == file && Plain(file)
    ensures |file| <= MAX_RELATIVE_PATH ==> NormalPath(file)
  {
    hide LocallySafe, OnDisk, Plain, NormalPath, StorageJob.BaseName, StorageJob.Prefix, StorageJob.ZstdFile,
         StorageJob.RawFile;
    var k: nat :| file == if zipped then StorageJob.ZstdFile(StorageJob.BaseName(StorageJob.Prefix(r), k))
                          else StorageJob.RawFile(StorageJob.BaseName(StorageJob.Prefix(r), k));
    BaseCharacters(r, k);
    EndingIsSafe(StorageJob.BaseName(StorageJob.Prefix(r), k), zipped);
  }

  // ---- records ----

  /** The verifier's decompression undoes the storage thread's compression of this record, and the file that its row
      names is not too big for it. */
  predicate Readable(r: StorageJob.Record, options: StorageJob.Options, codec: Codec)
  {
    if StorageJob.Compressed(r, options) then
      |r.packed.value| <= MAX_RECORD_BYTES && codec.unpack(r.packed.value) == Some(r.data)
    else |r.data| <= MAX_RECORD_BYTES
  }

  /** The message in the record is one of its sensor and time that the verifier has no objection to. */
  predicate Fits(r: StorageJob.Record, codec: Codec)
  {
    && r.data != []
    && if r.sensor == Synchronizer.Camera then
         codec.image(r.data).Some? && ImageFits(codec.image(r.data).value, r.stamp)
       else codec.cloud(r.data).Some? && CloudFits(codec.cloud(r.data).value, r.stamp)
  }

  /** A row loads as its record's own bytes, whatever else has been written since; and it is sound exactly when the
      record's message fits. */
  lemma RowReadsBack(row: ManifestEntry, r: StorageJob.Record, options: StorageJob.Options, files: Tree,
                     directory: Tree,
                     codec: Codec)
    requires StorageJob.RowOf(row, r, options, files) && StorageJob.Grown(files, directory)
    requires Readable(r, options, codec)
    ensures RecordBytes(directory, row, codec) == Some(r.data)
    ensures Sound(directory, row, codec) <==> Fits(r, codec)
    ensures Plain(r.converted) && I64_MIN <= r.stamp <= I64_MAX ==> PlainEntry(row)
  {
    hide LocallySafe, OnDisk, ImageFits, CloudFits, NormalPath, StorageJob.BaseName, StorageJob.Prefix;
    HeldNameIsSafe(row.file, StorageJob.Compressed(r, options), r, files);
    assert "camera" != "lidar" && "zstd" != "raw";
  }

  // ---- a whole event ----

  /** No record is called like the checksum manifest. */
  lemma NotTheManifest(file: string, zipped: bool, r: StorageJob.Record, files: Tree)
    requires StorageJob.Holds(file, zipped, r, files)
    ensures file != MANIFEST
  {
    var k: nat :| file == if zipped then StorageJob.ZstdFile(StorageJob.BaseName(StorageJob.Prefix(r), k))
                          else StorageJob.RawFile(StorageJob.BaseName(StorageJob.Prefix(r), k));
    hide StorageJob.BaseName, StorageJob.Prefix;
    assert file[|file| - 1] != '6' == MANIFEST[|MANIFEST| - 1];
  }

  lemma {:induction false} AllRows(batches: seq<seq<ManifestEntry>>, jobs: seq<seq<StorageJob.Record>>,
                                   options: StorageJob.Options, files: Tree)
    requires |batches| == |jobs|
    requires forall i :: 0 <= i < |jobs| ==> StorageJob.RowsOf(batches[i], jobs[i], options, files)
    ensures StorageJob.RowsOf(Flatten(batches), Flatten(jobs), options, files)
    ensures |Flatten(batches)| == |Flatten(jobs)|
  {
    if jobs != [] {
      var n := |jobs| - 1;
      AllRows(batches[..n], jobs[..n], options, files);
      RowsJoin(Flatten(batches[..n]), Flatten(jobs[..n]), batches[n], jobs[n], options, files);
    }
  }

  lemma RowsJoin(rows: seq<ManifestEntry>, records: seq<StorageJob.Record>, more: seq<ManifestEntry>,
                 job: seq<StorageJob.Record>, options: StorageJob.Options, files: Tree)
    requires StorageJob.RowsOf(rows, records, options, files) && StorageJob.RowsOf(more, job, options, files)
    ensures StorageJob.RowsOf(rows + more, records + job, options, files)
  {
    hide StorageJob.RowOf;
  }

  /** The verifier can read them, and their rows need no quoting. */
  predicate AllReadable(records: seq<StorageJob.Record>, options: StorageJob.Options, codec: Codec)
  {
    forall r :: r in records ==> Readable(r, options, codec) && Plain(r.converted) && I64_MIN <= r.stamp <= I64_MAX
  }

  lemma RowsVerify(rows: seq<ManifestEntry>, records: seq<StorageJob.Record>, options: StorageJob.Options,
                   directory: Tree, content: Bytes, codec: Codec)
    requires StorageJob.RowsOf(rows, records, options, directory) && AllReadable(records, options, codec)
    ensures forall e :: e in rows ==> PlainEntry(e)
    ensures (forall e :: e in rows ==> Sound(directory[MANIFEST := content], e, codec))
            <==> forall r :: r in records ==> Fits(r, codec)
  {
    var after := directory[MANIFEST := content];
    forall i | 0 <= i < |rows|
      ensures PlainEntry(rows[i]) && (Sound(after, rows[i], codec) <==> Fits(records[i], codec))
    {
      assert StorageJob.RowOf(rows[i], records[i], options, directory) && records[i] in records;
      NotTheManifest(rows[i].file, StorageJob.Compressed(records[i], options), records[i], directory);
      assert StorageJob.RowOf(rows[i], records[i], options, after);
      hide Sound, Fits, PlainEntry, StorageJob.RowOf, Readable;
      RowReadsBack(rows[i], records[i], options, after, after, codec);
    }
    hide Sound, Fits, PlainEntry, StorageJob.RowOf, AllReadable;
    if forall e :: e in rows ==> Sound(after, e, codec) {
      forall r | r in records ensures Fits(r, codec) {
        var i :| 0 <= i < |records| && records[i] == r;
        assert rows[i] in rows;
      }
    }
    if forall r :: r in records ==> Fits(r, codec) {
      forall e | e in rows ensures Sound(after, e, codec) {
        var i :| 0 <= i < |rows| && rows[i] == e;
        assert records[i] in records;
      }
    }
  }

  /** From frames to a verified event: when the storage thread's jobs have stored their records and appended their rows,
      and manifest.sha256 has been written over what is there, the verifier passes the event exactly when there is a
      record, every record is a message that fits, and no file name holds a newline. */
  lemma RecordedEventVerifies(directory: Tree, order: seq<string>, content: Bytes, batches: seq<seq<ManifestEntry>>,
                              jobs: seq<seq<StorageJob.Record>>, options: StorageJob.Options, codec: Codec,
                              report: Report)
    requires Recorded(HashedFiles(directory), directory, order, codec.digest, codec.text(content))
    requires RECORDS in directory && codec.text(directory[RECORDS]) == ManifestAfter(batches) && |batches| == |jobs|
    requires forall i :: 0 <= i < |jobs| ==> StorageJob.RowsOf(batches[i], jobs[i], options, directory)
    requires AllReadable(Flatten(jobs), options, codec)
    requires Judged(report, directory[MANIFEST := content], Options("", 0), codec)
    ensures report.Ok()
            <==> (&& Flatten(jobs) != [] && (forall r :: r in Flatten(jobs) ==> Fits(r, codec))
                  && forall p :: p in HashedFiles(directory) ==> '\n' !in p)
  {
    hide Sound, Fits, Judged, Recorded, ManifestAfter, HashedFiles, AllReadable, StorageJob.RowsOf, PlainEntry, Flatten;
    AllRows(batches, jobs, options, directory);
    RowsVerify(Flatten(batches), Flatten(jobs), options, directory, content, codec);
    WrittenVerifies(directory, order, content, batches, codec, report);
  }
}
