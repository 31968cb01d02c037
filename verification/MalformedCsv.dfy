/** What the readers of manifest.csv and pairs.csv make of any line at all, include/record_io.hpp:73-200. */
module MalformedCsv {
  import opened Prelude
  import opened Text
  import opened Decimal
  import opened RecordCsv

  // ---- fields ----

  lemma {:induction false} WithoutCrJoins(a: string, b: string)
    ensures WithoutCr(a + b) == WithoutCr(a) + WithoutCr(b)
  {
    if b == [] {
      assert a + b == a && WithoutCr(a) + [] == WithoutCr(a);
    } else {
      var front, last := b[..|b| - 1], b[|b| - 1];
      WithoutCrJoins(a, front);
      assert (a + b)[..|a + b| - 1] == a + front && (a + b)[|a + b| - 1] == last;
    }
  }

  lemma {:induction false} NoCrStays(line: string)
    requires '\r' !in line
    ensures WithoutCr(line) == line
  {
    if line != [] {
      NoCrStays(line[..|line| - 1]);
      assert line == line[..|line| - 1] + [line[|line| - 1]];
    }
  }

  /** Carriage returns count for nothing wherever they stand, and the fields of a line without any are what stands
      between its commas. */
  lemma FieldsExactly(line: string, a: string, b: string)
    ensures CsvFields(a + "\r" + b) == CsvFields(a + b)
    ensures '\r' !in line ==> Join(CsvFields(line), ',') == line && forall f :: f in CsvFields(line) ==> ',' !in f
  {
    WithoutCrJoins(a + "\r", b);
    WithoutCrJoins(a, "\r");
    WithoutCrJoins(a, b);
    assert "\r"[..0] == [] && WithoutCr("\r") == [];
    assert WithoutCr(a) + [] == WithoutCr(a);
    if '\r' !in line {
      NoCrStays(line);
      JoinOfSplit(line, ',');
    }
  }

  // ---- every line is accounted for ----

  ghost predicate Read<T>(lines: seq<string>, number: nat, read: (string, nat) -> Reading<T>, i: nat, r: Reading<T>)
  {
    i < |lines| && read(lines[i], number + i) == r
  }

  /** Lines that are not blank. */
  function Inked<T>(lines: seq<string>, number: nat, read: (string, nat) -> Reading<T>): nat
  {
    if lines == [] then 0
    else
      var n := |lines| - 1;
      Inked(lines[..n], number, read) + if read(lines[n], number + n).Blank? then 0 else 1
  }

  lemma ReadOneMore<T>(lines: seq<string>, number: nat, read: (string, nat) -> Reading<T>, r: Reading<T>)
    requires lines != []
    ensures var n := |lines| - 1;
            (exists i: nat :: Read(lines, number, read, i, r))
            <==> (exists i: nat :: Read(lines[..n], number, read, i, r)) || read(lines[n], number + n) == r
  {
    var n := |lines| - 1;
    if i: nat :| Read(lines, number, read, i, r) {
      if i < n { assert Read(lines[..n], number, read, i, r); }
    }
    if i: nat :| Read(lines[..n], number, read, i, r) { assert Read(lines, number, read, i, r); }
    if read(lines[n], number + n) == r { assert Read(lines, number, read, n, r); }
  }

  lemma {:induction false} GatherHas<T>(lines: seq<string>, number: nat, read: (string, nat) -> Reading<T>, e: T,
                                        p: Problem)
    ensures var (entries, problems) := Gather(lines, number, read);
            && (e in entries <==> exists i: nat :: Read(lines, number, read, i, Entry(e)))
            && (p in problems <==> exists i: nat :: Read(lines, number, read, i, Bad(p)))
            && |entries| + |problems| == Inked(lines, number, read)
  {
    if lines != [] {
      var n := |lines| - 1;
      var front := lines[..n];
      GatherHas(front, number, read, e, p);
      ReadOneMore(lines, number, read, Entry(e));
      ReadOneMore(lines, number, read, Bad(p));
      hide Read;
    } else {
      assert forall i: nat, r :: !Read(lines, number, read, i, r);
    }
  }

  lemma {:induction false} InkedAre<T>(lines: seq<string>, number: nat, read: (string, nat) -> Reading<T>)
    requires forall line, n :: read(line, n).Blank? <==> line == []
    ensures Inked(lines, number, read) == Filled(lines)
  {
    if lines != [] { InkedAre(lines[..|lines| - 1], number, read); }
  }

  function Filled(lines: seq<string>): nat
  {
    if lines == [] then 0 else Filled(lines[..|lines| - 1]) + if lines[|lines| - 1] == [] then 0 else 1
  }

  // ---- manifest.csv ----

  /** At least four fields, the second of which is a 64-bit number. */
  predicate GoodRow(line: string)
  {
    var f := CsvFields(line);
    line != [] && |f| >= 4 && ParseI64(f[1]).Some?
  }

  lemma ManifestLineReads(line: string, number: nat)
    ensures var r := ReadManifestLine(line, number);
            && (r.Blank? <==> line == []) && (r.Entry? <==> GoodRow(line))
            && (r.Entry? ==> r.entry == EntryOf(line))
            && (r.Bad? ==> r.problem.line == number)
  {
  }

  /** Every line of manifest.csv after the header but a blank one comes to exactly one entry or one problem; the entries
      are those of the lines with four fields and a 64-bit time, field by field; a problem is reported for each of the
      others, under its number, and for no other. */
  lemma ManifestExactly(text: string, e: ManifestEntry, number: nat)
    requires number >= 2
    ensures var (entries, problems), body := ManifestOf(text), Body(text);
            && |entries| + |problems| == Filled(body)
            && (e in entries
                <==> exists i: nat :: i < |body| && GoodRow(body[i]) && e == EntryOf(body[i]))
            && ((exists p :: p in problems && p.line == number)
                <==> number < 2 + |body| && body[number - 2] != [] && !GoodRow(body[number - 2]))
  {
    var body, problems := Body(text), ManifestOf(text).1;
    forall line, n { ManifestLineReads(line, n); }
    hide ReadManifestLine, Gather, GoodRow, EntryOf, CsvFields, Body;
    InkedAre(body, 2, ReadManifestLine);
    GatherHas(body, 2, ReadManifestLine, e, TooFewFields(0, 0));
    if i: nat :| i < |body| && GoodRow(body[i]) && e == EntryOf(body[i]) {
      assert Read(body, 2, ReadManifestLine, i, Entry(e));
    }
    if p :| p in problems && p.line == number {
      GatherHas(body, 2, ReadManifestLine, e, p);
      var i: nat :| Read(body, 2, ReadManifestLine, i, Bad(p));
      assert number == i + 2;
    }
    if number < 2 + |body| && body[number - 2] != [] && !GoodRow(body[number - 2]) {
      var p := ReadManifestLine(body[number - 2], number).problem;
      GatherHas(body, 2, ReadManifestLine, e, p);
      assert Read(body, 2, ReadManifestLine, number - 2, Bad(p));
    }
  }

  function EntryOf(line: string): ManifestEntry
    requires GoodRow(line)
  {
    var f := CsvFields(line);
    ManifestEntry(f[0], ParseI64(f[1]).value, f[2], f[3], if |f| > 4 then f[4] else "")
  }

  // ---- pairs.csv ----

  /** At least six fields; an id, a difference, and two stamps that may be left out. */
  predicate GoodPair(line: string)
  {
    var f := CsvFields(line);
    && line != [] && |f| >= 6 && ParseU64(f[0]).Some? && ParseI64(f[4]).Some?
    && (f[2] == [] || ParseI64(f[2]).Some?) && (f[3] == [] || ParseI64(f[3]).Some?)
  }

  function PairOf(line: string): PairEntry
    requires GoodPair(line)
  {
    var f := CsvFields(line);
    PairEntry(ParseU64(f[0]).value, f[1], if f[2] == [] then 0 else ParseI64(f[2]).value,
              if f[3] == [] then 0 else ParseI64(f[3]).value, ParseI64(f[4]).value, f[5])
  }

  lemma PairLineReads(line: string, number: nat)
    ensures var r := ReadPairLine(line, number);
            && (r.Blank? <==> line == []) && (r.Entry? <==> GoodPair(line))
            && (r.Entry? ==> r.entry == PairOf(line)) && (r.Bad? ==> r.problem.line == number)
  {
  }

  /** The same for pairs.csv. */
  lemma PairsExactly(text: string, e: PairEntry, number: nat)
    requires number >= 2
    ensures var (entries, problems), body := PairsOf(text), Body(text);
            && |entries| + |problems| == Filled(body)
            && (e in entries <==> exists i: nat :: i < |body| && GoodPair(body[i]) && e == PairOf(body[i]))
            && ((exists p :: p in problems && p.line == number)
                <==> number < 2 + |body| && body[number - 2] != [] && !GoodPair(body[number - 2]))
  {
    var body, problems := Body(text), PairsOf(text).1;
    forall line, n { PairLineReads(line, n); }
    hide ReadPairLine, Gather, GoodPair, PairOf, CsvFields, Body;
    InkedAre(body, 2, ReadPairLine);
    GatherHas(body, 2, ReadPairLine, e, TooFewFields(0, 0));
    if i: nat :| i < |body| && GoodPair(body[i]) && e == PairOf(body[i]) {
      assert Read(body, 2, ReadPairLine, i, Entry(e));
    }
    if p :| p in problems && p.line == number {
      GatherHas(body, 2, ReadPairLine, e, p);
      var i: nat :| Read(body, 2, ReadPairLine, i, Bad(p));
      assert number == i + 2;
    }
    if number < 2 + |body| && body[number - 2] != [] && !GoodPair(body[number - 2]) {
      var p := ReadPairLine(body[number - 2], number).problem;
      GatherHas(body, 2, ReadPairLine, e, p);
      assert Read(body, 2, ReadPairLine, number - 2, Bad(p));
    }
  }
}
