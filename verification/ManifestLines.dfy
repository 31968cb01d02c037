/**
 How manifest.sha256 is cut into lines and gathered into a table, whatever it holds: tools/receiver_node.py:265-277.
 */
module ManifestLines {
  import opened Prelude
  import opened Text
  import opened ChecksumManifest

  // ---- lines ----

  /** One of the ten characters at which str.splitlines ends a line, or a carriage return and a newline together. */
  predicate LineEnd(end: string)
  {
    end == "\r\n" || (|end| == 1 && end[0] as int in {10, 11, 12, 13, 28, 29, 30, 133, 8232, 8233})
  }

  predicate Unbroken(row: string)
  {
    forall c :: c in row ==> c as int !in {10, 11, 12, 13, 28, 29, 30, 133, 8232, 8233}
  }

  /** Rows with an end each, and what comes after the last end. */
  function Ended(rows: seq<string>, ends: seq<string>, last: string): string
    requires |rows| == |ends|
  {
    if rows == [] then last else rows[0] + ends[0] + Ended(rows[1..], ends[1..], last)
  }

  /** No carriage return is followed by a newline that is not its own. */
  predicate Separate(end: string, rest: string) { end == "\r" && rest != "" ==> rest[0] != '\n' }

  lemma {:induction false} NewlinesStep(row: string, end: string, rest: string)
    requires Unbroken(row) && LineEnd(end) && Separate(end, rest)
    ensures Newlines(row + end + rest) == row + ['\n'] + Newlines(rest)
  {
    BreaksAre();
    var text := row + end + rest;
    if row == "" {
      assert text == end + rest && text[|end|..] == rest;
      assert [] + ['\n'] + Newlines(rest) == ['\n'] + Newlines(rest);
      if |end| == 1 && |text| >= 2 { assert text[1] == rest[0]; }
    } else {
      assert row[0] in row && forall c :: c in row[1..] ==> c in row;
      NewlinesStep(row[1..], end, rest);
      assert text[0] == row[0] && text[1..] == row[1..] + end + rest;
      assert [row[0]] + (row[1..] + ['\n'] + Newlines(rest)) == row + ['\n'] + Newlines(rest);
    }
  }

  lemma {:induction false} UnbrokenStays(row: string)
    requires Unbroken(row)
    ensures Newlines(row) == row
  {
    BreaksAre();
    NewlinesIdentity(row);
  }

  lemma LinesStep(row: string, rest: string)
    requires '\n' !in row
    ensures Lines(row + ['\n'] + rest) == [row] + Lines(rest)
  {
    SplitAtFirst(row, '\n', rest);
    hide Split;
    var parts := Split(rest, '\n');
    assert ([row] + parts)[..|parts|] == [row] + parts[..|parts| - 1];
  }

  /** Whatever ends the rows, the receiver reads just these lines, and one more if something follows the last end. */
  lemma {:induction false} PythonLinesExactly(rows: seq<string>, ends: seq<string>, last: string)
    requires |rows| == |ends| && (forall row :: row in rows ==> Unbroken(row)) && Unbroken(last)
    requires forall i :: 0 <= i < |rows| ==>
               LineEnd(ends[i]) && Separate(ends[i], Ended(rows[i + 1..], ends[i + 1..], last))
    ensures PythonLines(Ended(rows, ends, last)) == rows + if last == "" then [] else [last]
  {
    if rows == [] {
      UnbrokenStays(last);
      SplitAtFirst(last, '\n', "");
    } else {
      var rest := Ended(rows[1..], ends[1..], last);
      assert rows[0] in rows && forall row :: row in rows[1..] ==> row in rows;
      assert rows[1..] == rows[0 + 1..] && ends[1..] == ends[0 + 1..];
      forall i | 0 <= i < |rows| - 1
        ensures LineEnd(ends[1..][i])
                && Separate(ends[1..][i], Ended(rows[1..][i + 1..], ends[1..][i + 1..], last))
      {
        assert rows[1..][i + 1..] == rows[i + 1 + 1..] && ends[1..][i + 1..] == ends[i + 1 + 1..];
        assert LineEnd(ends[i + 1]);
      }
      hide LineEnd, Separate;
      PythonLinesExactly(rows[1..], ends[1..], last);
      NewlinesStep(rows[0], ends[0], rest);
      hide Newlines, Lines;
      LinesStep(rows[0], Newlines(rest));
    }
  }

  // ---- the table ----

  /** Every line is an entry, and no two name the same path. */
  ghost predicate Proper(lines: seq<string>, entry: string -> Option<Entry>)
  {
    && (forall i :: 0 <= i < |lines| ==> entry(lines[i]).Some?)
    && forall i, j :: 0 <= i < j < |lines| ==> entry(lines[i]).value.path != entry(lines[j]).value.path
  }

  /** Some line is an entry of this path. */
  ghost predicate Named(lines: seq<string>, entry: string -> Option<Entry>, path: string, digest: string)
  {
    exists i :: 0 <= i < |lines| && entry(lines[i]) == Some(ChecksumManifest.Entry(path, digest))
  }

  lemma NamedNext(lines: seq<string>, entry: string -> Option<Entry>, path: string, digest: string)
    requires lines != []
    ensures Named(lines, entry, path, digest)
            <==> Named(lines[..|lines| - 1], entry, path, digest)
                 || entry(lines[|lines| - 1]) == Some(ChecksumManifest.Entry(path, digest))
  {
    var front := lines[..|lines| - 1];
    if Named(front, entry, path, digest) {
      var i :| 0 <= i < |front| && entry(front[i]) == Some(ChecksumManifest.Entry(path, digest));
      assert lines[i] == front[i];
    }
  }

  /** There is a table exactly when every line is an entry and no two name the same path; and it holds just these
      entries. */
  lemma {:induction false} TableExactly(lines: seq<string>, entry: string -> Option<Entry>)
    ensures Table(lines, entry).Some? <==> Proper(lines, entry)
    ensures Table(lines, entry).Some? ==>
              forall path, digest :: Get(Table(lines, entry).value, path) == Some(digest)
                                     <==> Named(lines, entry, path, digest)
  {
    if lines != [] {
      var front, last := lines[..|lines| - 1], lines[|lines| - 1];
      TableExactly(front, entry);
      forall path, digest { NamedNext(lines, entry, path, digest); }
      assert lines == front + [last];
      if Table(front, entry).Some? && entry(last).Some? {
        var before, e := Table(front, entry).value, entry(last).value;
        if e.path in before {
          assert Named(front, entry, e.path, before[e.path]);
          var i :| 0 <= i < |front| && entry(front[i]) == Some(ChecksumManifest.Entry(e.path, before[e.path]));
          assert !Proper(lines, entry);
        } else {
          forall i | 0 <= i < |front| ensures entry(front[i]).value.path != e.path {
            var f := entry(front[i]).value;
            assert Named(front, entry, f.path, f.digest) && Get(before, f.path) == Some(f.digest);
          }
          assert Proper(lines, entry);
          var e' := ChecksumManifest.Entry(e.path, e.digest);
          assert forall path, digest ::
            Get(before[e.path := e.digest], path) == Some(digest)
            <==> (Get(before, path) == Some(digest) || ChecksumManifest.Entry(path, digest) == e');
        }
      } else {
        assert !Proper(front, entry) ==> !Proper(lines, entry);
      }
    }
  }
}
