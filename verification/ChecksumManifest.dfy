/**
 manifest.sha256: the printer (include/raw_storage_worker.hpp), the local verifier
 (include/record_io.hpp), the receiver's verifier (tools/receiver_node.py) and the three
 rules that choose which files of a directory count.
 */
module ChecksumManifest {
  import opened Prelude
  import opened Text
  import opened ReceiverNames

  const MANIFEST := "manifest.sha256"
  const MAX_MANIFEST_BYTES := 16 * 1024 * 1024

  // ---- which files count ----

  function FileName(path: string): string
  {
    var parts := Split(path, '/');
    parts[|parts| - 1]
  }

  predicate TemporaryName(name: string) { IsSuffix(name, ".tmp") && |name| > 4 }

  /** Listed by the printer and by the local verifier. */
  predicate Hashed(path: string)
  {
    var name := FileName(path);
    name != MANIFEST && (name == "" || name[0] != '.') && !TemporaryName(name)
  }

  /** Sent by the uploader. */
  predicate Uploaded(path: string)
  {
    var name := FileName(path);
    !(|name| > 1 && name[0] == '.') && !TemporaryName(name)
  }

  ghost function HashedFiles(directory: Tree): set<string>
  {
    set p | p in directory && Hashed(p)
  }

  ghost function UploadedFiles(directory: Tree): Tree
  {
    map p | p in directory && Uploaded(p) :: directory[p]
  }

  // ---- reading lines ----

  /** The characters at which str.splitlines breaks. */
  predicate PythonBreak(c: char)
  {
    c == '\n' || c == '\r' || c == 11 as char || c == 12 as char || c == 28 as char || c == 29 as char
    || c == 30 as char || c == '\U{0085}' || c == '\U{2028}' || c == '\U{2029}'
  }

  /** Every line break, CR LF pairs first, turned into one newline. */
  function Newlines(text: string): string
  {
    if text == "" then ""
    else if |text| >= 2 && text[0] == '\r' && text[1] == '\n' then "\n" + Newlines(text[2..])
    else [if PythonBreak(text[0]) then '\n' else text[0]] + Newlines(text[1..])
  }

  function PythonLines(text: string): seq<string> { Lines(Newlines(text)) }

  lemma {:induction false} NewlinesIdentity(text: string)
    requires forall c :: c in text && PythonBreak(c) ==> c == '\n'
    ensures Newlines(text) == text
  {
    if text != "" {
      assert text[0] in text;
      assert text == [text[0]] + text[1..];
      NewlinesIdentity(text[1..]);
    }
  }

  lemma {:induction false} NewlinesClean(text: string)
    ensures forall c :: c in Newlines(text) && PythonBreak(c) ==> c == '\n'
  {
    if text == "" {
    } else if |text| >= 2 && text[0] == '\r' && text[1] == '\n' {
      NewlinesClean(text[2..]);
    } else {
      NewlinesClean(text[1..]);
    }
  }

  // ---- one line ----

  predicate HexDigest(s: string)
  {
    |s| == 64 && forall c :: c in s ==> '0' <= c <= '9' || 'a' <= c <= 'f'
  }

  /** Position of the first two-blank separator, or the length of the line. */
  function SeparatorAt(line: string): (i: nat)
    ensures i <= |line|
    ensures i < |line| ==> i + 1 < |line| && line[i] == ' ' && line[i + 1] == ' '
  {
    if |line| < 2 then |line|
    else if line[0] == ' ' && line[1] == ' ' then 0
    else 1 + SeparatorAt(line[1..])
  }

  lemma {:induction false} SeparatorAfterDigest(digest: string, path: string)
    requires ' ' !in digest
    ensures SeparatorAt(digest + "  " + path) == |digest|
  {
    var line := digest + "  " + path;
    if digest == "" {
    } else {
      SeparatorAfterDigest(digest[1..], path);
      assert line[1..] == digest[1..] + "  " + path;
      assert line[0] == digest[0];
    }
  }

  function Row(digest: string, path: string): string { digest + "  " + path }

  datatype Entry = Entry(path: string, digest: string)

  /** One line as the receiver reads it. */
  function ReceiverEntry(line: string): Option<Entry>
  {
    var i := SeparatorAt(line);
    if i == |line| then None
    else if !HexDigest(line[..i]) || SafeRelative(line[i + 2..]).None? then None
    else Some(Entry(line[i + 2..], line[..i]))
  }

  /** record_io::safeRelativePath on a '/'-separated path: repeated separators collapse. */
  predicate LocallySafe(path: string)
  {
    var parts := Split(path, '/');
    && path != "" && path[0] != '/'
    && parts[|parts| - 1] != ""
    && forall part :: part in parts && part != "" ==> !UnsafePart(part) && '\\' !in part
  }

  /** One line as the local verifier reads it. */
  function LocalEntry(line: string): Option<Entry>
  {
    var i := SeparatorAt(line);
    if i != 64 || |line| <= 66 then None
    else if !HexDigest(line[..64]) || !LocallySafe(line[66..]) then None
    else Some(Entry(line[66..], line[..64]))
  }

  lemma NormalIsLocallySafe(path: string)
    requires NormalPath(path)
    ensures LocallySafe(path)
  {
    SlashesIdentity(path);
    JoinOfSplit(path, '/');
    var parts := Split(path, '/');
    assert UnsafePart("");
    assert parts[|parts| - 1] in parts;
  }

  lemma RowReads(digest: string, path: string)
    requires HexDigest(digest) && NormalPath(path)
    ensures ReceiverEntry(Row(digest, path)) == LocalEntry(Row(digest, path)) == Some(Entry(path, digest))
  {
    SeparatorAfterDigest(digest, path);
    NormalIsLocallySafe(path);
    var line := Row(digest, path);
    assert line[..64] == digest && line[66..] == path;
  }

  // ---- the whole list ----

  /** The path-to-digest table of a list of lines; None when a line is bad or repeats a path. */
  function Table(lines: seq<string>, entry: string -> Option<Entry>): Option<map<string, string>>
  {
    if lines == [] then Some(map[])
    else
      var before := Table(lines[..|lines| - 1], entry);
      var e := entry(lines[|lines| - 1]);
      if before.None? || e.None? || e.value.path in before.value then None
      else Some(before.value[e.value.path := e.value.digest])
  }

  lemma {:induction false} TablePrefix(lines: seq<string>, n: nat, entry: string -> Option<Entry>)
    requires n <= |lines| && Table(lines, entry).Some?
    ensures Table(lines[..n], entry).Some?
  {
    if n == |lines| {
      assert lines[..n] == lines;
    } else {
      TablePrefix(lines[..|lines| - 1], n, entry);
      assert lines[..|lines| - 1][..n] == lines[..n];
    }
  }

  /** Every path in the table is a piece of some line. */
  lemma {:induction false} TablePathsComeFromLines(lines: seq<string>, bad: char -> bool)
    requires forall line, c :: line in lines && c in line ==> !bad(c)
    ensures var t := Table(lines, ReceiverEntry); t.Some? ==> forall p, c :: p in t.value && c in p ==> !bad(c)
    ensures var t := Table(lines, LocalEntry); t.Some? ==> forall p, c :: p in t.value && c in p ==> !bad(c)
  {
    if lines != [] {
      TablePathsComeFromLines(lines[..|lines| - 1], bad);
      var last := lines[|lines| - 1];
      assert last in lines;
      assert forall k: nat :: k <= |last| ==> forall c :: c in last[k..] ==> c in last;
    }
  }

  ghost predicate Lists(order: seq<string>, paths: set<string>)
  {
    && Distinct(order)
    && (forall p :: p in order <==> p in paths)
  }

  function Rows(order: seq<string>, directory: Tree, digest: Bytes -> string): (rows: seq<string>)
    requires forall p :: p in order ==> p in directory
    ensures |rows| == |order|
  {
    seq(|order|, i requires 0 <= i < |order| => assert order[i] in order; Row(digest(directory[order[i]]), order[i]))
  }

  ghost function Digests(files: Tree, digest: Bytes -> string): (d: map<string, string>)
    ensures d.Keys == files.Keys
  {
    map p | p in files :: digest(files[p])
  }

  ghost predicate Distinct(order: seq<string>)
  {
    forall i, j :: 0 <= i < j < |order| ==> order[i] != order[j]
  }

  ghost function Listed(hashed: set<string>, directory: Tree, digest: Bytes -> string): map<string, string>
    requires hashed <= directory.Keys
  {
    map p | p in hashed :: digest(directory[p])
  }

  lemma {:induction false} TableOf(rows: seq<string>, order: seq<string>, values: map<string, string>,
                                   entry: string -> Option<Entry>)
    requires |rows| == |order| && Distinct(order)
    requires forall i :: 0 <= i < |order| ==> order[i] in values
    requires forall i :: 0 <= i < |order| ==> entry(rows[i]) == Some(Entry(order[i], values[order[i]]))
    ensures var t := Table(rows, entry);
            && t.Some? && (forall p :: p in t.value <==> p in order)
            && forall p :: p in t.value ==> p in values && t.value[p] == values[p]
  {
    if rows != [] {
      var n := |order| - 1;
      TableOf(rows[..n], order[..n], values, entry);
      var front, last := Table(rows[..n], entry).value, order[n];
      assert last !in front;
      assert Table(rows, entry) == Some(front[last := values[last]]);
      assert order == order[..n] + [last];
      hide Table;
    }
  }

  lemma TableOfRows(hashed: set<string>, order: seq<string>, directory: Tree, digest: Bytes -> string,
                    entry: string -> Option<Entry>)
    requires hashed <= directory.Keys && Lists(order, hashed)
    requires forall p :: p in hashed ==> entry(Row(digest(directory[p]), p)) == Some(Entry(p, digest(directory[p])))
    ensures Table(Rows(order, directory, digest), entry) == Some(Listed(hashed, directory, digest))
  {
    forall i | 0 <= i < |order| ensures order[i] in hashed { assert order[i] in order; }
    var rows, listed := Rows(order, directory, digest), Listed(hashed, directory, digest);
    TableOf(rows, order, listed, entry);
    var t := Table(rows, entry).value;
    assert forall p :: p in t <==> p in listed;
    assert t == listed;
  }

  // ---- verdicts ----

  datatype ChecksumError = ManifestMissing | ManifestTooLarge | Undecodable | InvalidLine | NoDataFiles
                         | FileSetMismatch | DigestMismatch

  /** The verdict on a manifest's table: its file set, then every digest. */
  ghost function TableVerdict(expected: Option<map<string, string>>, received: map<string, string>)
    : (r: Option<ChecksumError>)
    ensures r == None <==> expected.Some? && expected.value != map[]
                           && expected.value.Keys == received.Keys - {MANIFEST}
                           && forall p :: p in expected.value ==> received[p] == expected.value[p]
  {
    if expected.None? then Some(InvalidLine)
    else if expected.value == map[] then Some(NoDataFiles)
    else if expected.value.Keys != received.Keys - {MANIFEST} then Some(FileSetMismatch)
    else if exists p :: p in expected.value && received[p] != expected.value[p] then Some(DigestMismatch)
    else None
  }

  /** The receiver's verdict on the digests it computed while the chunks arrived. */
  ghost function ReceiverVerdict(manifest: Option<Bytes>, received: map<string, string>,
                                 decode: Bytes -> Option<string>): Option<ChecksumError>
  {
    if manifest.None? then Some(ManifestMissing)
    else if |manifest.value| > MAX_MANIFEST_BYTES then Some(ManifestTooLarge)
    else if decode(manifest.value).None? then Some(Undecodable)
    else TableVerdict(Table(PythonLines(decode(manifest.value).value), ReceiverEntry), received)
  }

  /** What leaves the local verifier without a complaint about a directory holding this manifest text. */
  ghost predicate NoComplaint(text: string, directory: Tree, digest: Bytes -> string)
  {
    var expected := Table(Lines(text), LocalEntry);
    && expected.Some?
    && expected.value.Keys == HashedFiles(directory)
    && forall p :: p in expected.value ==> digest(directory[p]) == expected.value[p]
  }

  /** Its verdict also wants one file at least. */
  ghost predicate LocallyAccepted(text: string, directory: Tree, digest: Bytes -> string)
  {
    NoComplaint(text, directory, digest) && HashedFiles(directory) != {}
  }

  // ---- the programs ----

  /** RawStorageWorker::writeChecksumManifest after its sort; order is the sorted listing. */
  method WriteChecksumManifest(directory: Tree, order: seq<string>, digest: Bytes -> string)
    returns (written: bool, content: string)
    requires Lists(order, HashedFiles(directory))
    ensures written == (HashedFiles(directory) != {})
    ensures content == Terminated(Rows(order, directory, digest))
  {
    content := "";
    for i := 0 to |order|
      invariant content == Terminated(Rows(order, directory, digest)[..i])
    {
      assert order[i] in order;
      var row := Row(digest(directory[order[i]]), order[i]);
      ghost var rows := Rows(order, directory, digest);
      TerminatedAppend(rows[..i], [row]);
      assert rows[..i + 1] == rows[..i] + [row];
      content := content + row + "\n";
    }
    assert Rows(order, directory, digest)[..|order|] == Rows(order, directory, digest);
    written := order != [];
    if order != [] { assert order[0] in HashedFiles(directory); }
  }

  /** ReceiverNode.verify_checksums */
  method VerifyChecksums(manifest: Option<Bytes>, received: map<string, string>, decode: Bytes -> Option<string>)
    returns (error: Option<ChecksumError>)
    ensures error == ReceiverVerdict(manifest, received, decode)
  {
    if manifest.None? { return Some(ManifestMissing); }
    if |manifest.value| > MAX_MANIFEST_BYTES { return Some(ManifestTooLarge); }
    var text := decode(manifest.value);
    if text.None? { return Some(Undecodable); }
    var lines := PythonLines(text.value);
    var expected: map<string, string> := map[];
    for n := 0 to |lines|
      invariant Table(lines[..n], ReceiverEntry) == Some(expected)
    {
      assert lines[..n + 1][..n] == lines[..n];
      var e := ReceiverEntry(lines[n]);
      if e.None? || e.value.path in expected {
        if Table(lines, ReceiverEntry).Some? { TablePrefix(lines, n + 1, ReceiverEntry); }
        return Some(InvalidLine);
      }
      expected := expected[e.value.path := e.value.digest];
    }
    assert lines[..|lines|] == lines;
    if expected == map[] { return Some(NoDataFiles); }
    if expected.Keys != received.Keys - {MANIFEST} { return Some(FileSetMismatch); }
    var rest := expected.Keys;
    while rest != {}
      invariant rest <= expected.Keys
      invariant forall p :: p in expected.Keys - rest ==> received[p] == expected[p]
    {
      var p :| p in rest;
      if received[p] != expected[p] { return Some(DigestMismatch); }
      rest := rest - {p};
    }
    return None;
  }

  /** The three scans of record_io::verifyChecksumManifest: lines, digests, file set. */
  method ReadLines(lines: seq<string>) returns (problems: nat, expected: map<string, string>)
    ensures problems == 0 <==> Table(lines, LocalEntry).Some?
    ensures problems == 0 ==> Table(lines, LocalEntry) == Some(expected)
  {
    problems, expected := 0, map[];
    for n := 0 to |lines|
      invariant problems == 0 <==> Table(lines[..n], LocalEntry).Some?
      invariant problems == 0 ==> Table(lines[..n], LocalEntry) == Some(expected)
    {
      assert lines[..n + 1][..n] == lines[..n];
      var e := LocalEntry(lines[n]);
      if e.None? || e.value.path in expected {
        problems := problems + 1;
      } else {
        expected := expected[e.value.path := e.value.digest];
      }
    }
    assert lines[..|lines|] == lines;
  }

  method CompareDigests(expected: map<string, string>, directory: Tree, digest: Bytes -> string)
    returns (problems: nat)
    ensures problems == 0 <==> forall p :: p in expected ==> p in directory && digest(directory[p]) == expected[p]
  {
    problems := 0;
    var rest := expected.Keys;
    while rest != {}
      invariant rest <= expected.Keys
      invariant problems == 0 <==>
        forall p :: p in expected.Keys - rest ==> p in directory && digest(directory[p]) == expected[p]
    {
      var p :| p in rest;
      if p !in directory || digest(directory[p]) != expected[p] { problems := problems + 1; }
      rest := rest - {p};
    }
  }

  method CompareFileSets(expected: set<string>, actual: set<string>) returns (problems: nat)
    ensures problems == 0 <==> expected == actual
  {
    if |actual| != |expected| { return 1; }
    problems := 0;
    var left := actual;
    while left != {}
      invariant left <= actual
      invariant problems == 0 <==> actual - left <= expected
    {
      var p :| p in left;
      if p !in expected { problems := problems + 1; }
      left := left - {p};
    }
    if actual <= expected { SubsetOfEqualSize(actual, expected); }
  }

  /** record_io::verifyChecksumManifest; every problem is counted, none stops the scan. */
  method VerifyChecksumManifest(text: string, directory: Tree, digest: Bytes -> string)
    returns (ok: bool, problems: nat)
    ensures ok <==> LocallyAccepted(text, directory, digest)
    ensures problems == 0 <==> NoComplaint(text, directory, digest)
  {
    var unread, expected := ReadLines(Lines(text));
    hide Table, Hashed, Lines;
    var mismatched := CompareDigests(expected, directory, digest);
    var actual := set p | p in directory && Hashed(p);
    assert actual == HashedFiles(directory);
    var misplaced := CompareFileSets(expected.Keys, actual);
    problems := unread + mismatched + misplaced;
    ok := expected != map[] && problems == 0;
  }

  // ---- agreement ----

  /** A manifest text as its writer produces it for these hashed files, whose paths are normal. */
  ghost predicate Recorded(hashed: set<string>, directory: Tree, order: seq<string>, digest: Bytes -> string,
                           text: string)
  {
    && hashed != {} && hashed <= directory.Keys
    && Lists(order, hashed)
    && (forall p :: p in hashed ==> NormalPath(p))
    && (forall content :: HexDigest(digest(content)))
    && text == Terminated(Rows(order, directory, digest))
  }

  lemma RowCharacters(order: seq<string>, directory: Tree, digest: Bytes -> string, bad: char -> bool)
    requires forall p :: p in order ==> p in directory
    requires forall content :: HexDigest(digest(content))
    requires forall c :: bad(c) ==> c != ' ' && !('0' <= c <= '9') && !('a' <= c <= 'f')
    requires forall p, c :: p in order && c in p ==> !bad(c)
    ensures forall r, c :: r in Rows(order, directory, digest) && c in r ==> !bad(c)
  {
    var rows := Rows(order, directory, digest);
    forall r, c | r in rows && c in r ensures !bad(c) {
      var i :| 0 <= i < |rows| && r == rows[i];
      var d := digest(directory[order[i]]);
      assert r == d + "  " + order[i] && order[i] in order && HexDigest(d);
    }
  }

  lemma {:induction false} TerminatedCharacters(rows: seq<string>, bad: char -> bool)
    requires forall r, c :: r in rows && c in r ==> !bad(c)
    ensures forall c :: c in Terminated(rows) && bad(c) ==> c == '\n'
  {
    if rows != [] {
      TerminatedCharacters(rows[1..], bad);
      assert rows[0] in rows;
    }
  }

  lemma WrittenTable(hashed: set<string>, directory: Tree, order: seq<string>, digest: Bytes -> string, text: string)
    requires Recorded(hashed, directory, order, digest, text)
    requires forall p :: p in hashed ==> '\n' !in p
    ensures Table(Lines(text), LocalEntry) == Some(Listed(hashed, directory, digest))
    ensures Table(Lines(text), ReceiverEntry) == Some(Listed(hashed, directory, digest))
  {
    var rows := Rows(order, directory, digest);
    RowCharacters(order, directory, digest, c => c == '\n');
    LinesOfTerminated(rows, "");
    assert text + "" == text;
    forall p | p in hashed
      ensures ReceiverEntry(Row(digest(directory[p]), p)) == LocalEntry(Row(digest(directory[p]), p))
           == Some(Entry(p, digest(directory[p])))
    {
      RowReads(digest(directory[p]), p);
    }
    TableOfRows(hashed, order, directory, digest, LocalEntry);
    TableOfRows(hashed, order, directory, digest, ReceiverEntry);
  }

  lemma WrittenTableLocal(hashed: set<string>, directory: Tree, order: seq<string>, digest: Bytes -> string,
                          text: string)
    requires Recorded(hashed, directory, order, digest, text)
    ensures (forall p :: p in hashed ==> '\n' !in p) ==>
              Table(Lines(text), LocalEntry) == Some(Listed(hashed, directory, digest))
    ensures !(forall p :: p in hashed ==> '\n' !in p) ==>
              var t := Table(Lines(text), LocalEntry); t.None? || t.value.Keys != hashed
  {
    if forall p :: p in hashed ==> '\n' !in p {
      WrittenTable(hashed, directory, order, digest, text);
    } else {
      LinesAreParts(text);
      TablePathsComeFromLines(Lines(text), c => c == '\n');
    }
  }

  lemma WrittenTableReceiver(hashed: set<string>, directory: Tree, order: seq<string>, digest: Bytes -> string,
                             text: string)
    requires Recorded(hashed, directory, order, digest, text)
    ensures (forall p, c :: p in hashed && c in p ==> !PythonBreak(c)) ==>
              Table(PythonLines(text), ReceiverEntry) == Some(Listed(hashed, directory, digest))
    ensures !(forall p, c :: p in hashed && c in p ==> !PythonBreak(c)) ==>
              var t := Table(PythonLines(text), ReceiverEntry); t.None? || !(hashed <= t.value.Keys)
  {
    var bad := c => PythonBreak(c);
    if forall p, c :: p in hashed && c in p ==> !PythonBreak(c) {
      RowCharacters(order, directory, digest, bad);
      TerminatedCharacters(Rows(order, directory, digest), bad);
      assert forall c :: c in text && bad(c) ==> c == '\n';
      NewlinesIdentity(text);
      WrittenTable(hashed, directory, order, digest, text);
    } else {
      NewlinesClean(text);
      LinesAreParts(Newlines(text));
      TablePathsComeFromLines(PythonLines(text), bad);
      var p, c :| p in hashed && c in p && PythonBreak(c);
      assert bad(c);
    }
  }

  lemma ManifestIsNotHashed()
    ensures FileName(MANIFEST) == MANIFEST && !Hashed(MANIFEST) && Uploaded(MANIFEST)
  {
    SplitAtFirst(MANIFEST, '/', "");
  }

  lemma HashedAfterWriting(directory: Tree, content: Bytes)
    ensures HashedFiles(directory[MANIFEST := content]) == HashedFiles(directory)
  {
    ManifestIsNotHashed();
  }

  /** The local verifier accepts what was written exactly when no file name holds a newline. */
  lemma LocalVerifierAcceptsWritten(directory: Tree, order: seq<string>, digest: Bytes -> string,
                                    text: string, content: Bytes)
    requires Recorded(HashedFiles(directory), directory, order, digest, text)
    ensures LocallyAccepted(text, directory[MANIFEST := content], digest)
        <==> forall p :: p in HashedFiles(directory) ==> '\n' !in p
  {
    hide FileName, Hashed, Table, NormalPath, HexDigest;
    var hashed, after := HashedFiles(directory), directory[MANIFEST := content];
    HashedAfterWriting(directory, content);
    WrittenTableLocal(hashed, directory, order, digest, text);
    assert MANIFEST !in hashed by { ManifestIsNotHashed(); }
    if forall p :: p in hashed ==> '\n' !in p {
      var p :| p in hashed;
      assert p in Listed(hashed, directory, digest);
    }
  }

  /** Files below the top level that are themselves called manifest.sha256. */
  ghost function NestedManifests(directory: Tree): set<string>
  {
    set p | p in directory && FileName(p) == MANIFEST && p != MANIFEST
  }

  /** The extra conditions under which the receiver agrees: Python breaks lines at ten characters, CR LF and FF among
      them. */
  ghost predicate ReceiverCanRead(directory: Tree)
  {
    && (forall p, c :: p in HashedFiles(directory) && c in p ==>
          c as int !in {10, 11, 12, 13, 28, 29, 30, 133, 8232, 8233})
    && NestedManifests(directory) == {}
  }

  /** The uploader selects the hashed files and every file named like the manifest. */
  lemma SelectionsDifferByManifests(path: string)
    requires FileName(path) != "."
    ensures Uploaded(path) <==> Hashed(path) || FileName(path) == MANIFEST
    ensures Hashed(path) ==> FileName(path) != MANIFEST
  {
    assert !TemporaryName(MANIFEST) && MANIFEST[0] != '.';
  }

  /** The receiver accepts what the uploader selects exactly when the manifest is no bigger than 16 MiB, it can also
      split every path, and no nested file is itself called manifest.sha256. */
  lemma ReceiverAcceptsWritten(directory: Tree, order: seq<string>, digest: Bytes -> string, text: string,
                               content: Bytes, decode: Bytes -> Option<string>)
    requires Recorded(HashedFiles(directory), directory, order, digest, text)
    requires forall p :: p in directory ==> FileName(p) != "."
    requires decode(content) == Some(text)
    ensures var sent := UploadedFiles(directory[MANIFEST := content]);
            && MANIFEST in sent && sent[MANIFEST] == content
            && (ReceiverVerdict(Some(content), Digests(sent, digest), decode) == None
                <==> |content| <= 16777216 && ReceiverCanRead(directory))
  {
    BreaksAre();
    hide FileName, Hashed, Uploaded, Table, PythonBreak, NormalPath, HexDigest, Lines, Rows, Terminated;
    var hashed, after := HashedFiles(directory), directory[MANIFEST := content];
    var sent := UploadedFiles(after);
    var nested := NestedManifests(directory);
    UploadedAfterWriting(directory, content);
    WrittenTableReceiver(hashed, directory, order, digest, text);
    var clean := forall p, c :: p in hashed && c in p ==> !PythonBreak(c);
    var listed, received := Listed(hashed, directory, digest), Digests(sent, digest);
    forall p | p in listed ensures received[p] == listed[p] { assert sent[p] == directory[p]; }
    assert listed != map[] by { var p :| p in hashed; assert p in listed; }
    VerdictOnListed(Table(PythonLines(text), ReceiverEntry), listed, received, nested, clean);
  }

  lemma BreaksAre()
    ensures forall c :: PythonBreak(c) <==> c as int in {10, 11, 12, 13, 28, 29, 30, 133, 8232, 8233}
  {
    assert '\U{0085}' as int == 133 && '\U{2028}' as int == 8232 && '\U{2029}' as int == 8233;
    assert '\n' as int == 10 && '\r' as int == 13;
  }

  /** A path is hashed exactly when what follows its last slash is not the manifest's name, no hidden name, and no name
      with the ending .tmp. */
  lemma HashedExactly(path: string)
    ensures Hashed(path)
            <==> exists front, name: string ::
                   && path == front + name && (front == "" || front[|front| - 1] == '/') && '/' !in name
                   && name != "manifest.sha256" && (name == "" || name[0] != '.')
                   && !(|name| > 4 && name[|name| - 4..] == ".tmp")
  {
    var front := LastPart(path);
    hide TemporaryName;
    Temporary(FileName(path));
    forall other, name: string
      | path == other + name && (other == "" || other[|other| - 1] == '/') && '/' !in name
      ensures name == FileName(path)
    {
      OnlyLastPart(front, FileName(path), other, name);
    }
    hide FileName;
    assert path == front + FileName(path);
  }

  lemma Temporary(name: string)
    ensures TemporaryName(name) <==> |name| > 4 && name[|name| - 4..] == ".tmp"
  {
    assert |".tmp"| == 4;
  }

  lemma {:induction false} JoinEndsInLast(parts: seq<string>) returns (front: string)
    requires parts != []
    ensures Join(parts, '/') == front + parts[|parts| - 1] && (front == "" || front[|front| - 1] == '/')
  {
    if |parts| == 1 {
      front := "";
    } else {
      var before := JoinEndsInLast(parts[1..]);
      front := parts[0] + ['/'] + before;
    }
  }

  lemma LastPart(path: string) returns (front: string)
    ensures path == front + FileName(path) && (front == "" || front[|front| - 1] == '/') && '/' !in FileName(path)
  {
    JoinOfSplit(path, '/');
    hide Split, Join;
    front := JoinEndsInLast(Split(path, '/'));
  }

  lemma LongerFrontHasSlash(front1: string, name1: string, front2: string, name2: string)
    requires front1 + name1 == front2 + name2 && |front1| < |front2| && front2[|front2| - 1] == '/'
    ensures '/' in name1
  {
    var path := front1 + name1;
    assert path[|front2| - 1] == front2[|front2| - 1] == name1[|front2| - 1 - |front1|];
  }

  lemma OnlyLastPart(front1: string, name1: string, front2: string, name2: string)
    requires front1 + name1 == front2 + name2 && '/' !in name1 && '/' !in name2
    requires (front1 == "" || front1[|front1| - 1] == '/') && (front2 == "" || front2[|front2| - 1] == '/')
    ensures name1 == name2
  {
    if |front1| < |front2| {
      LongerFrontHasSlash(front1, name1, front2, name2);
    } else if |front2| < |front1| {
      LongerFrontHasSlash(front2, name2, front1, name1);
    } else {
      assert name1 == (front1 + name1)[|front1|..] && name2 == (front2 + name2)[|front2|..];
    }
  }

  lemma UploadedAfterWriting(directory: Tree, content: Bytes)
    requires forall p :: p in directory ==> FileName(p) != "."
    ensures var sent := UploadedFiles(directory[MANIFEST := content]);
            var nested := NestedManifests(directory);
            && sent.Keys == HashedFiles(directory) + nested + {MANIFEST} && sent[MANIFEST] == content
            && MANIFEST !in HashedFiles(directory) && nested !! HashedFiles(directory)
  {
    hide FileName, TemporaryName;
    ManifestIsNotHashed();
    HashedAfterWriting(directory, content);
    var after := directory[MANIFEST := content];
    forall p | p in directory
      ensures Uploaded(p) <==> Hashed(p) || FileName(p) == MANIFEST
      ensures Hashed(p) ==> FileName(p) != MANIFEST
    {
      SelectionsDifferByManifests(p);
    }
    var sent := UploadedFiles(after);
    var nested := NestedManifests(directory);
    forall p ensures p in sent <==> p in HashedFiles(directory) + nested + {MANIFEST} {}
  }

  lemma VerdictOnListed(expected: Option<map<string, string>>, listed: map<string, string>,
                        received: map<string, string>, nested: set<string>, clean: bool)
    requires listed != map[]
    requires received.Keys == listed.Keys + nested + {MANIFEST}
    requires MANIFEST !in listed && MANIFEST !in nested && nested !! listed.Keys
    requires forall p :: p in listed ==> received[p] == listed[p]
    requires clean ==> expected == Some(listed)
    requires !clean ==> expected.None? || !(listed.Keys <= expected.value.Keys)
    ensures TableVerdict(expected, received) == None <==> clean && nested == {}
  {
    assert received.Keys - {MANIFEST} == listed.Keys + nested;
    if nested != {} {
      var p :| p in nested;
      assert p in received.Keys - {MANIFEST};
    }
  }

  lemma {:induction false} SameTable(lines: seq<string>)
    requires Table(lines, ReceiverEntry).Some? && Table(lines, LocalEntry).Some?
    ensures Table(lines, ReceiverEntry) == Table(lines, LocalEntry)
  {
    if lines != [] { SameTable(lines[..|lines| - 1]); }
  }

  /** What is neither a digest's character nor a blank can only be part of a path. */
  lemma {:induction false} CharacterOfPath(lines: seq<string>, line: string, c: char) returns (path: string)
    requires Table(lines, LocalEntry).Some? && line in lines && c in line
    requires c != ' ' && !('0' <= c <= '9') && !('a' <= c <= 'f')
    ensures path in Table(lines, LocalEntry).value && c in path
  {
    var front, last := lines[..|lines| - 1], lines[|lines| - 1];
    if line == last {
      path := LocalEntry(last).value.path;
      assert last == last[..64] + last[64..66] + last[66..];
      assert last[64..66] == "  ";
    } else {
      assert line in front;
      path := CharacterOfPath(front, line, c);
    }
  }

  lemma SameDigestsSameKeys(a: map<string, string>, b: map<string, string>, path: string)
    requires path in a && path !in b
    ensures a != b
  {}

  /** Acceptance of one manifest on both sides pins the files - same set, same digests - exactly when the manifest has
      no line break but the newline: any other one is part of a path to the local verifier and none to the receiver. */
  lemma BothAcceptSameFiles(text: string, directory: Tree, sent: Tree, digest: Bytes -> string,
                            content: Bytes, decode: Bytes -> Option<string>)
    requires decode(content) == Some(text)
    requires LocallyAccepted(text, directory, digest)
    requires ReceiverVerdict(Some(content), Digests(sent, digest), decode) == None
    ensures Digests(sent - {MANIFEST}, digest) == Digests(Restricted(directory, HashedFiles(directory)), digest)
        <==> forall c :: c in text && PythonBreak(c) ==> c == '\n'
  {
    if forall c :: c in text && PythonBreak(c) ==> c == '\n' {
      PlainManifestPins(text, directory, sent, digest, content, decode);
    } else {
      var c :| c in text && PythonBreak(c) && c != '\n';
      var line := LinesCover(text, c);
      var path := CharacterOfPath(Lines(text), line, c);
      NewlinesClean(text);
      LinesAreParts(Newlines(text));
      TablePathsComeFromLines(PythonLines(text), x => PythonBreak(x));
      var expected := Table(PythonLines(text), ReceiverEntry).value;
      hide FileName, Hashed, PythonBreak, Table, Lines, Newlines, LocalEntry, ReceiverEntry;
      assert path !in expected;
      assert Digests(sent, digest).Keys - {MANIFEST} == expected.Keys;
      assert Digests(sent - {MANIFEST}, digest).Keys == expected.Keys;
      SameDigestsSameKeys(Digests(Restricted(directory, HashedFiles(directory)), digest),
                          Digests(sent - {MANIFEST}, digest), path);
    }
  }

  lemma PlainManifestPins(text: string, directory: Tree, sent: Tree, digest: Bytes -> string,
                          content: Bytes, decode: Bytes -> Option<string>)
    requires decode(content) == Some(text)
    requires forall c :: c in text && PythonBreak(c) ==> c == '\n'
    requires LocallyAccepted(text, directory, digest)
    requires ReceiverVerdict(Some(content), Digests(sent, digest), decode) == None
    ensures Digests(sent - {MANIFEST}, digest) == Digests(Restricted(directory, HashedFiles(directory)), digest)
  {
    hide FileName, Hashed, PythonBreak;
    NewlinesIdentity(text);
    SameTable(Lines(text));
    hide Table;
    var expected := Table(Lines(text), LocalEntry).value;
    var received := Digests(sent, digest);
    assert received.Keys - {MANIFEST} == expected.Keys;
    assert Digests(sent - {MANIFEST}, digest) == expected;
  }

  ghost function Restricted(directory: Tree, paths: set<string>): Tree
  {
    map p | p in directory && p in paths :: directory[p]
  }
}
