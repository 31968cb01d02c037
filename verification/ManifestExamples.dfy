/**
 Concrete directories for manifest.sha256: one that everybody accepts, and two that the local verifier accepts and the
 receiver refuses.
 */
module ManifestExamples {
  import opened Prelude
  import opened Text
  import opened ReceiverNames
  import opened ChecksumManifest
  import opened Receiver

  // ---- names ----

  /** A name of one part with a long stem. */
  lemma OnePartIsNormal(name: string, stem: string, rest: string)
    requires name == stem || name == stem + "." + rest
    requires '.' !in stem && |stem| > 4 && |name| <= MAX_RELATIVE_PATH
    requires name[0] !in {'.', '/'} && forall c :: c in name ==> c !in {'/', '\\', ':', 0 as char}
    requires name[|name| - 1] !in {'.', ' '}
    ensures NormalPath(name) && FileName(name) == name
  {
    SplitAtFirst(name, '/', "");
    SplitAtFirst(stem, '.', rest);
    UpperLength(stem);
    SlashesIdentity(name);
    LongIsNoDevice(Upper(stem));
    hide Upper, Split, Slashes;
    assert stem + ['.'] + rest == stem + "." + rest;
    assert Split(name, '.')[0] == stem;
    assert !UnsafePart(name);
    hide UnsafePart;
  }

  // ---- a directory of one file ----

  /** A directory of one data file and its manifest. */
  lemma OneFile(file: string, data: Bytes, content: Bytes)
    requires Hashed(file) && Uploaded(file) && FileName(file) != MANIFEST
    ensures HashedFiles(map[file := data]) == {file} && NestedManifests(map[file := data]) == {}
    ensures UploadedFiles(map[file := data][MANIFEST := content]) == map[file := data, MANIFEST := content]
  {
    ManifestIsNotHashed();
    hide Hashed, Uploaded, FileName;
    var directory := map[file := data];
    assert forall p :: p in directory <==> p == file;
    assert file != MANIFEST;
  }

  lemma OneFileAccepted(file: string, data: Bytes, content: Bytes, lib: Library, text: string)
    requires Hashed(file) && Uploaded(file) && FileName(file) !in {MANIFEST, "."} && NormalPath(file)
    requires forall c :: c in file ==> !PythonBreak(c)
    requires (forall b: Bytes :: HexDigest(lib.digest(b))) && lib.decode(content) == Some(text)
    requires |content| <= MAX_MANIFEST_BYTES
    requires text == Terminated(Rows([file], map[file := data], lib.digest))
    ensures var files := map[file := data, MANIFEST := content];
            ReceiverVerdict(Get(files, MANIFEST), Digests(files, lib.digest), lib.decode) == None
  {
    hide Hashed, Uploaded, FileName, NormalPath, PythonBreak, HexDigest, Terminated, Rows, ReceiverVerdict, HashedFiles,
         NestedManifests, UploadedFiles;
    BreaksAre();
    OneFile(file, data, content);
    var directory := map[file := data];
    assert Lists([file], {file});
    assert Recorded(HashedFiles(directory), directory, [file], lib.digest, text);
    hide Lists, Recorded;
    ReceiverAcceptsWritten(directory, [file], lib.digest, text, content, lib.decode);
  }

  // ---- examples ----

  function ZeroDigest(): Bytes -> string { (b: Bytes) => seq(64, _ => '0') }

  const FILE: string := "frames"

  function Listing(): string { Terminated([Row(seq(64, _ => '0'), FILE)]) }

  lemma NamesOfExample()
    ensures NormalPath(FILE) && NormalPath(MANIFEST) && FileName(FILE) == FILE && FileName(MANIFEST) == MANIFEST
  {
    hide NormalPath, FileName;
    OnePartIsNormal(FILE, FILE, "");
    assert MANIFEST == "manifest" + "." + "sha256";
    OnePartIsNormal(MANIFEST, "manifest", "sha256");
  }

  lemma FileIsHashed()
    ensures Hashed(FILE) && Uploaded(FILE) && FILE != MANIFEST
  {
    NamesOfExample();
    hide FileName;
    assert |FILE| == 6 && FILE[2..] != ".tmp" && FILE[0] == 'f';
  }

  lemma FileHasNoBreak()
    ensures forall c :: c in FILE ==> !PythonBreak(c)
  {
    assert forall c :: c in FILE ==> 'a' <= c <= 's';
  }

  /** A name with a line break that is one to Python only. */
  const BROKEN := "frames\U{0085}"

  lemma BrokenIsHashed()
    ensures Hashed(BROKEN) && Uploaded(BROKEN) && NormalPath(BROKEN) && FileName(BROKEN) == BROKEN
    ensures PythonBreak('\U{0085}') && '\U{0085}' in BROKEN && '\n' !in BROKEN
  {
    BrokenCharacters();
    hide NormalPath, FileName, Split, Upper;
    OnePartIsNormal(BROKEN, BROKEN, "");
    assert |BROKEN| == 7 && BROKEN[0] == 'f' && BROKEN[3..][0] == 'm';
  }

  lemma BrokenCharacters()
    ensures forall c :: c in BROKEN ==> c == '\U{0085}' || 'a' <= c <= 's'
    ensures BROKEN[6] == '\U{0085}'
  {
    assert |BROKEN| == 7;
  }

  /** A file below the top level that is called like the manifest. */
  const NESTED := "images/manifest.sha256"

  lemma NestedIsUploaded()
    ensures !Hashed(NESTED) && Uploaded(NESTED) && FileName(NESTED) == MANIFEST && NESTED != MANIFEST
  {
    ManifestIsNotHashed();
    hide FileName, TemporaryName;
    NameBelow("images", MANIFEST);
    assert NESTED == "images" + ['/'] + MANIFEST && |NESTED| != |MANIFEST|;
  }

  lemma NameBelow(front: string, name: string)
    requires '/' !in front && '/' !in name
    ensures FileName(front + ['/'] + name) == name
  {
    SplitAtFirst(front, '/', name);
    SplitAtFirst(name, '/', "");
  }

  function TextOf(path: string): string { Terminated([Row(seq(64, _ => '0'), path)]) }

  /** Its writer's manifest passes on the disk and is refused by the receiver. */
  ghost predicate AcceptedOnlyLocally(directory: Tree, text: string)
  {
    var digest, after := ZeroDigest(), directory[MANIFEST := []];
    && LocallyAccepted(text, after, digest)
    && ReceiverVerdict(Some([]), Digests(UploadedFiles(after), digest), (b: Bytes) => Some(text)) != None
  }

  lemma UnreadableIsRefused(directory: Tree, path: string)
    requires HashedFiles(directory) == {path} && NormalPath(path) && '\n' !in path && !ReceiverCanRead(directory)
    requires forall p :: p in directory ==> FileName(p) != "."
    ensures AcceptedOnlyLocally(directory, TextOf(path))
  {
    assert HashedFiles(directory) <= directory.Keys;
    hide NormalPath, FileName, HashedFiles, ReceiverCanRead, UploadedFiles, ReceiverVerdict, LocallyAccepted,
         Terminated, Row, NestedManifests;
    assert path in HashedFiles(directory);
    assert Lists([path], {path});
    assert Rows([path], directory, ZeroDigest()) == [Row(seq(64, _ => '0'), path)];
    var text := TextOf(path);
    assert Recorded(HashedFiles(directory), directory, [path], ZeroDigest(), text);
    hide Recorded;
    LocalVerifierAcceptsWritten(directory, [path], ZeroDigest(), text, []);
    ReceiverAcceptsWritten(directory, [path], ZeroDigest(), text, [], (b: Bytes) => Some(text));
  }

  /** A directory with a second manifest below the top level. */
  lemma NestedManifestIsRefused()
    ensures AcceptedOnlyLocally(map[FILE := [1, 2], NESTED := []], TextOf(FILE))
  {
    FileIsHashed();
    FileHasNoBreak();
    NamesOfExample();
    NestedIsUploaded();
    hide Hashed, FileName, NormalPath, AcceptedOnlyLocally;
    var directory: Tree := map[FILE := [1, 2], NESTED := []];
    assert HashedFiles(directory) == {FILE} && NESTED in NestedManifests(directory);
    assert PythonBreak('\n');
    UnreadableIsRefused(directory, FILE);
  }

  /** A directory with a line break in a name that only Python takes for one. */
  lemma PythonBreakIsRefused()
    ensures AcceptedOnlyLocally(map[BROKEN := [1, 2]], TextOf(BROKEN))
  {
    BrokenIsHashed();
    hide Hashed, FileName, NormalPath, AcceptedOnlyLocally;
    var directory: Tree := map[BROKEN := [1, 2]];
    assert HashedFiles(directory) == {BROKEN};
    UnreadableIsRefused(directory, BROKEN);
  }
}
