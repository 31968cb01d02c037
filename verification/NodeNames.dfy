/**
 The names the node gives and the receiver judges: event directories, include/event_monitor.hpp:116-118, transfer ids,
 include/upload_worker.hpp:252, and paths, tools/receiver_node.py:33-63.
 */
module NodeNames {
  import opened Prelude
  import opened Text
  import opened Decimal
  import opened ReceiverNames
  import opened DirectoryNames
  import opened ChecksumManifest

  /** A letter, a digit, or one of three marks. */
  predicate NameCharacter(c: char)
  {
    'A' <= c <= 'Z' || 'a' <= c <= 'z' || '0' <= c <= '9' || c in {'_', '.', '-'}
  }

  /** The receiver takes an event directory's name exactly when the event's own name begins with a letter or digit, has
      only such characters, and leaves room: the whole name has at most 160. */
  lemma EventNamesExactly(event: string, sequence: nat, ns: nat)
    ensures ValidEventName(DirectoryName(event, sequence, ns))
            <==> (&& event != "" && NameCharacter(event[0]) && event[0] !in {'_', '.', '-'}
                  && (forall c :: c in event ==> NameCharacter(c))
                  && |event| + |Digits(sequence)| + |Digits(ns)| + 2 <= 160)
  {
    DigitsDenote(sequence);
    DigitsDenote(ns);
    hide Digits;
    var name := DirectoryName(event, sequence, ns);
    assert forall c :: c in name <==> c in event || c == '_' || c in Digits(sequence) || c in Digits(ns);
    if event != "" { assert name[0] == event[0]; } else { assert name[0] == '_'; }
  }

  /** And always takes the ids that transferIdFor makes of a time and a counter; and they hold no dot. */
  lemma IdsAreValid(ns: nat, counter: nat)
    requires |Digits(ns)| + |Digits(counter)| < 160
    ensures var id := Digits(ns) + "-" + Digits(counter); ValidEventName(id) && PlainId(id)
  {
    DigitsDenote(ns);
    DigitsDenote(counter);
    var id := Digits(ns) + "-" + Digits(counter);
    hide Digits;
    assert id[0] == Digits(ns)[0] && Digits(ns)[0] in Digits(ns);
    assert forall c :: c in id ==> IsDigit(c) || c == '-';
  }

  /** What a valid name makes of the inbox's entries: each is one directory directly below it, and none is hidden in
      another's place. */
  lemma EntriesAreDirectlyBelow(event: string, id: string)
    requires ValidEventName(event) && ValidEventName(id)
    ensures forall name :: name in {FinalName(event), BackupName(event), StagingName(event, id)} ==>
              && Split(name, '/') == [name] && '\\' !in name && name !in {"", ".", ".."}
              && forall c :: c in name ==> NameCharacter(c)
  {
    forall name | name in {FinalName(event), BackupName(event), StagingName(event, id)}
      ensures Split(name, '/') == [name] && '\\' !in name && name !in {"", ".", ".."}
      ensures forall c :: c in name ==> NameCharacter(c)
    {
      assert forall c :: c in ".backup" + ".part" ==> NameCharacter(c);
      assert Alphanumeric(event[0]);
      SplitAtFirst(name, '/', "");
      assert name == FinalName(event) || |name| > 5;
    }
  }

  // ---- paths ----

  /** Where a path leads from a directory, as a file system goes. */
  function Walk(directory: seq<string>, parts: seq<string>): seq<string>
    decreases |parts|
  {
    if parts == [] then directory
    else if parts[0] == ".." then Walk(if directory == [] then [] else directory[..|directory| - 1], parts[1..])
    else if parts[0] == "." || parts[0] == "" then Walk(directory, parts[1..])
    else Walk(directory + [parts[0]], parts[1..])
  }

  lemma {:induction false} WalksDown(directory: seq<string>, parts: seq<string>)
    requires forall part :: part in parts ==> part !in {"", ".", ".."}
    ensures Walk(directory, parts) == directory + parts
    decreases |parts|
  {
    if parts == [] {
      assert directory + parts == directory;
    } else {
      assert parts[0] in parts && forall part :: part in parts[1..] ==> part in parts;
      WalksDown(directory + [parts[0]], parts[1..]);
      assert directory + [parts[0]] + parts[1..] == directory + parts;
    }
  }

  /** An accepted path leads down, part by part, from whatever directory it is taken in; on no system does one of its
      parts hold a separator or a drive. */
  lemma AcceptedLeadsDown(path: string, directory: seq<string>)
    requires SafeRelative(path).Some?
    ensures var parts := SafeRelative(path).value;
            && Walk(directory, parts) == directory + parts && parts != []
            && (forall part, c :: part in parts && c in part ==> c !in {'/', '\\', ':', 0 as char})
            && (forall part :: part in parts ==> part[|part| - 1] !in {'.', ' '})
    ensures |path| <= 1024
  {
    var parts := SafeRelative(path).value;
    JoinOfSplit(Slashes(path), '/');
    assert '\\' !in Slashes(path);
    forall part | part in parts ensures !UnsafePart(part) {}
    WalksDown(directory, parts);
  }

  /** So does a path that the local verifier takes for safe, whatever its repeated slashes. */
  lemma LocallySafeLeadsDown(path: string, directory: seq<string>)
    requires LocallySafe(path)
    ensures var down := Walk(directory, Split(path, '/'));
            directory < down && forall i, c :: |directory| <= i < |down| && c in down[i] ==> c !in {'/', '\\', ':'}
  {
    var parts := Split(path, '/');
    JoinOfSplit(path, '/');
    forall part | part in parts && part != "" ensures !UnsafePart(part) && '\\' !in part {}
    WalksDownOver(directory, parts);
    var down := Walk(directory, parts);
    assert parts[|parts| - 1] in parts;
    forall i, c | |directory| <= i < |down| && c in down[i] ensures c !in {'/', '\\', ':'} {
      assert down[i] in parts && down[i] != "";
    }
  }

  /** Empty parts lead nowhere, the others down. */
  lemma {:induction false} WalksDownOver(directory: seq<string>, parts: seq<string>)
    requires forall part :: part in parts ==> part !in {".", ".."}
    ensures var down := Walk(directory, parts);
            && directory <= down && (forall i :: |directory| <= i < |down| ==> down[i] in parts && down[i] != "")
            && ((exists part :: part in parts && part != "") ==> directory < down)
    decreases |parts|
  {
    if parts != [] {
      assert parts[0] in parts && forall part :: part in parts[1..] ==> part in parts;
      assert parts == [parts[0]] + parts[1..];
      var next := if parts[0] == "" then directory else directory + [parts[0]];
      WalksDownOver(next, parts[1..]);
    }
  }

  // ---- lines of manifest.sha256 ----

  /** A line is an entry exactly when it is 64 lower-case hexadecimal digits, two blanks and a safe path: to the local
      verifier one that is not absolute and leads down, to the receiver one that its own rule accepts. */
  lemma EntriesExactly(line: string, digest: string, path: string)
    ensures LocalEntry(line) == Some(ChecksumManifest.Entry(path, digest))
            <==> line == digest + "  " + path && Hexadecimal(digest) && LocallySafe(path)
    ensures ReceiverEntry(line) == Some(ChecksumManifest.Entry(path, digest))
            <==> line == digest + "  " + path && Hexadecimal(digest) && SafeRelative(path).Some?
  {
    assert HexDigest(digest) <==> Hexadecimal(digest);
    if line == digest + "  " + path && Hexadecimal(digest) {
      SeparatorAfterDigest(digest, path);
      assert line[66..] == path && line[..64] == digest;
    }
    hide LocallySafe, SafeRelative, HexDigest;
    var i := SeparatorAt(line);
    if i < |line| { assert line == line[..i] + "  " + line[i + 2..]; }
  }

  predicate Hexadecimal(digest: string)
  {
    |digest| == 64 && forall c :: c in digest ==> '0' <= c <= '9' || 'a' <= c <= 'f'
  }
}
