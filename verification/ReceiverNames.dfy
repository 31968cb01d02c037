/** Names and paths of the receiver: tools/receiver_node.py, validators and inbox entry names. */
module ReceiverNames {
  import opened Prelude
  import opened Text

  const MAX_EVENT_NAME := 160
  const MAX_RELATIVE_PATH := 1024
  const DEVICE_NAMES: set<string> := {
    "CON", "PRN", "AUX", "NUL", "COM1", "COM2", "COM3", "COM4", "COM5",
    "COM6", "COM7", "COM8", "COM9", "LPT1", "LPT2", "LPT3", "LPT4", "LPT5",
    "LPT6", "LPT7", "LPT8", "LPT9" }

  predicate Alphanumeric(c: char)
  {
    'A' <= c <= 'Z' || 'a' <= c <= 'z' || '0' <= c <= '9'
  }

  predicate ValidEventName(name: string)
  {
    && 0 < |name| <= MAX_EVENT_NAME
    && Alphanumeric(name[0])
    && forall c :: c in name ==> Alphanumeric(c) || c == '_' || c == '.' || c == '-'
  }

  function Upper(s: string): string
  {
    if s == [] then []
    else [if 'a' <= s[0] <= 'z' then (s[0] as int - 32) as char else s[0]] + Upper(s[1..])
  }

  predicate UnsafePart(part: string)
  {
    || part == "" || part == "." || part == ".."
    || ':' in part
    || part[|part| - 1] == '.' || part[|part| - 1] == ' '
    || Upper(Split(part, '.')[0]) in DEVICE_NAMES
  }

  /** No device name is longer than four characters. */
  lemma {:induction false} UpperLength(s: string)
    ensures |Upper(s)| == |s|
  {
    if s != [] { UpperLength(s[1..]); }
  }

  lemma LongIsNoDevice(s: string)
    requires |s| > 4
    ensures s !in DEVICE_NAMES
  {
  }

  /** path.replace("\\", "/") */
  function Slashes(path: string): (s: string)
    ensures |s| == |path|
    ensures forall i :: 0 <= i < |path| ==> s[i] == if path[i] == '\\' then '/' else path[i]
  {
    if path == [] then []
    else [if path[0] == '\\' then '/' else path[0]] + Slashes(path[1..])
  }

  function SafeRelative(path: string): Option<seq<string>>
  {
    var normalized := Slashes(path);
    if |path| > MAX_RELATIVE_PATH then None
    else if normalized == "" || 0 as char in normalized || normalized[0] == '/' then None
    else
      var parts := Split(normalized, '/');
      if exists part :: part in parts && UnsafePart(part) then None else Some(parts)
  }

  /** A path the sender may use: accepted, and already free of backslashes. */
  predicate NormalPath(path: string)
  {
    SafeRelative(path).Some? && '\\' !in path
  }

  lemma SlashesIdentity(path: string)
    requires '\\' !in path
    ensures Slashes(path) == path
  {
    forall i | 0 <= i < |path| ensures Slashes(path)[i] == path[i] { assert path[i] in path; }
  }

  /** The key under which the receiver files a path is its slash form, which is itself normal. */
  lemma SafeRelativeNormalizes(path: string)
    ensures var r := SafeRelative(path);
            r.Some? ==>
              && Join(r.value, '/') == Slashes(path)
              && NormalPath(Join(r.value, '/'))
              && SafeRelative(Join(r.value, '/')) == r
    ensures NormalPath(path) ==> Join(SafeRelative(path).value, '/') == path
  {
    var normalized := Slashes(path);
    JoinOfSplit(normalized, '/');
    assert '\\' !in normalized;
    SlashesIdentity(normalized);
    if '\\' !in path { SlashesIdentity(path); }
  }

  function FinalName(event: string): string { event }

  function BackupName(event: string): string { "." + event + ".backup" }

  function StagingName(event: string, id: string): string { "." + event + "." + id + ".part" }

  /** A transfer id that can be told apart from the event name in a staging directory name. */
  predicate PlainId(id: string) { '.' !in id }

  /** One id is the end of the other, after a dot. */
  predicate DottedTail(id: string, longer: string)
  {
    |id| < |longer| && longer[|longer| - |id| - 1..] == "." + id
  }

  lemma LongerEndsInShorter(event1: string, id1: string, event2: string, id2: string)
    requires event1 + "." + id1 == event2 + "." + id2 && |id1| < |id2|
    ensures DottedTail(id1, id2)
  {
    var name := event1 + "." + id1;
    assert id2 == name[|event2| + 1..] && "." + id1 == name[|event1|..];
  }

  /** Two transactions share a staging name only if they are one, or one id is a dotted tail of the other. */
  lemma SharedStagingName(event1: string, id1: string, event2: string, id2: string)
    requires StagingName(event1, id1) == StagingName(event2, id2)
    ensures (event1 == event2 && id1 == id2) || DottedTail(id1, id2) || DottedTail(id2, id1)
  {
    var a, b := event1 + "." + id1, event2 + "." + id2;
    var name := StagingName(event1, id1);
    assert name == "." + a + ".part" == "." + b + ".part";
    assert a == name[1..|name| - 5] && b == name[1..|name| - 5];
    if |id1| < |id2| {
      LongerEndsInShorter(event1, id1, event2, id2);
    } else if |id2| < |id1| {
      LongerEndsInShorter(event2, id2, event1, id1);
    } else {
      assert event1 == a[..|event1|] && event2 == a[..|event2|] && id1 == a[|event1| + 1..] && id2 == a[|event2| + 1..];
    }
  }

  lemma DottedTailIsNotPlain(id: string, longer: string)
    requires DottedTail(id, longer)
    ensures !PlainId(longer)
  {
    assert longer[|longer| - |id| - 1] == ("." + id)[0];
  }

  lemma StagingNameInjective(event1: string, id1: string, event2: string, id2: string)
    requires PlainId(id1) && PlainId(id2)
    requires StagingName(event1, id1) == StagingName(event2, id2)
    ensures event1 == event2 && id1 == id2
  {
    SharedStagingName(event1, id1, event2, id2);
    if DottedTail(id1, id2) { DottedTailIsNotPlain(id1, id2); }
    if DottedTail(id2, id1) { DottedTailIsNotPlain(id2, id1); }
  }

  /** Two different transactions of valid names with one staging directory. */
  ghost predicate ShareStaging(event1: string, id1: string, event2: string, id2: string)
  {
    && ValidEventName(event1) && ValidEventName(id1) && ValidEventName(event2) && ValidEventName(id2)
    && !(event1 == event2 && id1 == id2) && StagingName(event1, id1) == StagingName(event2, id2)
  }

  lemma DottedTailShares(id: string, longer: string) returns (event: string)
    requires ValidEventName(id) && ValidEventName(longer) && DottedTail(id, longer)
    ensures ShareStaging(event, id, "a", longer)
  {
    var n := |longer| - |id| - 1;
    event := "a." + longer[..n];
    assert longer == longer[..n] + "." + id;
    assert StagingName(event, id) == "." + ("a." + longer[..n] + "." + id) + ".part" == StagingName("a", longer);
  }

  /** Transactions under two ids can come to share a staging directory exactly when one id is a dotted tail of the
      other. */
  lemma StagingSharedExactlyByDottedTails(id1: string, id2: string)
    requires ValidEventName(id1) && ValidEventName(id2)
    ensures (exists event1, event2 :: ShareStaging(event1, id1, event2, id2))
            <==> DottedTail(id1, id2) || DottedTail(id2, id1)
  {
    if event1, event2 :| ShareStaging(event1, id1, event2, id2) {
      SharedStagingName(event1, id1, event2, id2);
    } else if DottedTail(id1, id2) {
      var event := DottedTailShares(id1, id2);
    } else if DottedTail(id2, id1) {
      var event := DottedTailShares(id2, id1);
      assert ShareStaging("a", id1, event, id2);
    }
  }

  /** A pair of ids for which that happens. */
  lemma StagingNamesCanCoincide()
    ensures ShareStaging("a", "b.c", "a.b", "c")
  {
    assert StagingName("a", "b.c") == ".a.b.c.part" == StagingName("a.b", "c");
  }

  /** Final, backup and staging entries of valid events never share a name. */
  lemma InboxNamesDisjoint(event: string, other: string, id: string)
    requires ValidEventName(event)
    ensures FinalName(event) != BackupName(other)
    ensures FinalName(event) != StagingName(other, id)
    ensures BackupName(event) != StagingName(other, id)
    ensures BackupName(event) == BackupName(other) ==> event == other
  {
    assert Alphanumeric(event[0]);
    assert BackupName(other)[0] == '.' && StagingName(other, id)[0] == '.';
    var b, s := BackupName(event), StagingName(other, id);
    assert b[|b| - 1] == 'p' && s[|s| - 1] == 't';
    if b == BackupName(other) {
      assert event == b[1..|b| - 7];
      assert other == BackupName(other)[1..|b| - 7];
    }
  }
}
