/** Splitting, joining and line reading: the string primitives every reader and printer shares. */
module Text {

  function Split(s: string, c: char): (parts: seq<string>)
    ensures |parts| >= 1
  {
    if s == [] then [[]]
    else
      var rest := Split(s[1..], c);
      if s[0] == c then [[]] + rest else [[s[0]] + rest[0]] + rest[1..]
  }

  function Join(parts: seq<string>, c: char): string
  {
    if parts == [] then [] else if |parts| == 1 then parts[0] else parts[0] + [c] + Join(parts[1..], c)
  }

  lemma {:induction false} SplitAtFirst(a: string, c: char, b: string)
    requires c !in a
    ensures Split(a, c) == [a]
    ensures Split(a + [c] + b, c) == [a] + Split(b, c)
  {
    if a == [] {
      assert a + [c] + b == [c] + b;
      assert ([c] + b)[1..] == b;
    } else {
      SplitAtFirst(a[1..], c, b);
      assert (a + [c] + b)[1..] == a[1..] + [c] + b;
      assert [a[0]] + a[1..] == a;
    }
  }

  lemma {:induction false} SplitOfJoin(parts: seq<string>, c: char)
    requires parts != []
    requires forall p :: p in parts ==> c !in p
    ensures Split(Join(parts, c), c) == parts
  {
    assert parts[0] in parts;
    if |parts| == 1 {
      SplitAtFirst(parts[0], c, []);
    } else {
      var rest := parts[1..];
      assert forall p :: p in rest ==> p in parts;
      SplitOfJoin(rest, c);
      SplitAtFirst(parts[0], c, Join(rest, c));
      assert Join(parts, c) == parts[0] + [c] + Join(rest, c);
      assert parts == [parts[0]] + rest;
    }
  }

  lemma {:induction false} SplitParts(s: string, c: char)
    ensures forall p :: p in Split(s, c) ==> c !in p
    ensures forall p, x :: p in Split(s, c) && x in p ==> x in s
  {
    if s != [] {
      SplitParts(s[1..], c);
      var rest := Split(s[1..], c);
      assert s == [s[0]] + s[1..];
      if s[0] != c {
        forall p | p in Split(s, c) ensures c !in p && forall x :: x in p ==> x in s {
          if p != [s[0]] + rest[0] { assert p in rest; }
        }
      }
    }
  }

  lemma {:induction false} JoinBack(s: string, c: char)
    ensures Join(Split(s, c), c) == s
  {
    if s != [] {
      JoinBack(s[1..], c);
      var rest := Split(s[1..], c);
      assert s == [s[0]] + s[1..];
      if s[0] == c {
        assert ([[]] + rest)[1..] == rest;
      } else {
        assert ([[s[0]] + rest[0]] + rest[1..])[1..] == rest[1..];
      }
    }
  }

  lemma JoinOfSplit(s: string, c: char)
    ensures Join(Split(s, c), c) == s
    ensures forall p :: p in Split(s, c) ==> c !in p
    ensures forall p, x :: p in Split(s, c) && x in p ==> x in s
  {
    JoinBack(s, c);
    SplitParts(s, c);
  }

  /** What repeated std::getline returns: the last line needs no terminator but must be non-empty. */
  function Lines(s: string): seq<string>
  {
    var parts := Split(s, '\n');
    if parts[|parts| - 1] == [] then parts[..|parts| - 1] else parts
  }

  lemma LinesAreParts(s: string)
    ensures forall line :: line in Lines(s) ==> '\n' !in line && forall x :: x in line ==> x in s
  {
    JoinOfSplit(s, '\n');
  }

  lemma {:induction false} SplitCovers(s: string, c: char, x: char) returns (part: string)
    requires x in s && x != c
    ensures part in Split(s, c) && x in part
  {
    var rest := Split(s[1..], c);
    if s[0] == x {
      part := [s[0]] + rest[0];
    } else {
      assert x in s[1..] by { assert s == [s[0]] + s[1..]; }
      part := SplitCovers(s[1..], c, x);
      if s[0] != c && part == rest[0] { part := [s[0]] + part; }
    }
  }

  /** Every character but the newline is in some line. */
  lemma LinesCover(s: string, x: char) returns (line: string)
    requires x in s && x != '\n'
    ensures line in Lines(s) && x in line
  {
    line := SplitCovers(s, '\n', x);
  }

  /** Every row followed by a newline. */
  function Terminated(rows: seq<string>): string
  {
    if rows == [] then [] else rows[0] + ['\n'] + Terminated(rows[1..])
  }

  lemma {:induction false} TerminatedAppend(a: seq<string>, b: seq<string>)
    ensures Terminated(a + b) == Terminated(a) + Terminated(b)
  {
    if a == [] {
      assert a + b == b;
    } else {
      TerminatedAppend(a[1..], b);
      assert (a + b)[1..] == a[1..] + b;
      var head, mid, tail := a[0] + ['\n'], Terminated(a[1..]), Terminated(b);
      assert head + (mid + tail) == (head + mid) + tail;
    }
  }

  lemma {:induction false} SplitTerminated(rows: seq<string>, last: string)
    requires forall r :: r in rows ==> '\n' !in r
    requires '\n' !in last
    ensures Split(Terminated(rows) + last, '\n') == rows + [last]
  {
    if rows == [] {
      SplitAtFirst(last, '\n', []);
      assert Terminated(rows) + last == last;
    } else {
      SplitTerminated(rows[1..], last);
      assert Terminated(rows) + last == rows[0] + ['\n'] + (Terminated(rows[1..]) + last);
      SplitAtFirst(rows[0], '\n', Terminated(rows[1..]) + last);
    }
  }

  lemma LinesOfTerminated(rows: seq<string>, last: string)
    requires forall r :: r in rows ==> '\n' !in r
    requires '\n' !in last
    ensures Lines(Terminated(rows) + last) == if last == [] then rows else rows + [last]
  {
    SplitTerminated(rows, last);
  }

  /** A prefix of a terminated text is some complete rows and a prefix of the next one. */
  lemma {:induction false} PrefixOfTerminated(rows: seq<string>, n: nat) returns (k: nat, part: string)
    requires n <= |Terminated(rows)|
    ensures k <= |rows|
    ensures Terminated(rows)[..n] == Terminated(rows[..k]) + part
    ensures part != [] ==> k < |rows| && part <= rows[k]
  {
    if rows == [] {
      k, part := 0, [];
    } else {
      var text := Terminated(rows);
      if n <= |rows[0]| {
        k, part := 0, rows[0][..n];
        assert text[..n] == part;
      } else {
        var j, p := PrefixOfTerminated(rows[1..], n - |rows[0]| - 1);
        k, part := j + 1, p;
        assert rows[..k][1..] == rows[1..][..j];
        assert text[..n] == rows[0] + ['\n'] + Terminated(rows[1..])[..n - |rows[0]| - 1];
      }
    }
  }

  predicate IsSuffix(s: string, t: string)
  {
    |t| <= |s| && s[|s| - |t|..] == t
  }
}
