/**
 Event directory names, include/event_monitor.hpp:116-118, and the parser that reads their time back,
 include/disk_space_manager.hpp:162-183.
 */
module DirectoryNames {
  import opened Prelude
  import opened Decimal

  newtype int64 = x: int | -0x8000_0000_0000_0000 <= x <= 0x7FFF_FFFF_FFFF_FFFF

  function DirectoryName(event: string, sequence: nat, ns: nat): string
  {
    event + "_" + Digits(sequence) + "_" + Digits(ns)
  }

  /** Where the last '_' is. */
  function LastUnderscore(name: string): (i: Option<nat>)
    ensures i.Some? ==> i.value < |name| && name[i.value] == '_' && '_' !in name[i.value + 1..]
    ensures i.None? ==> '_' !in name
  {
    if name == [] then None
    else
      var n := |name| - 1;
      if name[n] == '_' then Some(n)
      else
        var i := LastUnderscore(name[..n]);
        assert i.Some? ==> name[i.value + 1..] == name[..n][i.value + 1..] + [name[n]];
        assert name == name[..n] + [name[n]];
        i
  }

  /** The digits after the last '_', when there are at least nine characters and something before the '_'. */
  function Tail(name: string): Option<string>
  {
    var separator := LastUnderscore(name);
    if separator.None? || separator.value == 0 || |name| - (separator.value + 1) < 9 then None
    else Some(name[separator.value + 1..])
  }

  /** A time the parser accepts. */
  predicate IsTimestamp(tail: string) { AllDigits(tail) && Value(tail) <= I64_MAX }

  function EventTimestamp(name: string): int
  {
    match Tail(name)
    case None => -1
    case Some(tail) => if IsTimestamp(tail) then Value(tail) else -1
  }

  lemma ValueStep(digits: string, i: nat)
    requires i < |digits| && AllDigits(digits[..i + 1])
    ensures AllDigits(digits[..i]) && IsDigit(digits[i])
    ensures Value(digits[..i + 1]) == Value(digits[..i]) * 10 + (digits[i] as int - '0' as int)
  {
    assert digits[..i + 1][..i] == digits[..i];
    assert digits[..i + 1][i] == digits[i] && digits[i] in digits[..i + 1];
    assert forall c :: c in digits[..i] ==> c in digits[..i + 1];
  }

  /** Appending digits never lowers the number. */
  lemma {:induction false} ValueGrows(digits: string, i: nat)
    requires AllDigits(digits) && i <= |digits|
    ensures AllDigits(digits[..i]) && Value(digits[..i]) <= Value(digits)
  {
    if i == |digits| {
      assert digits[..i] == digits;
    } else {
      var front := digits[..|digits| - 1];
      assert forall c :: c in front ==> c in digits;
      ValueGrows(front, i);
      assert front[..i] == digits[..i];
      assert digits[..|digits|] == digits;
      ValueStep(digits, |digits| - 1);
    }
  }

  /** Digit by digit in 64-bit arithmetic; the guard keeps every intermediate value in range. */
  method ParseEventTimestamp(name: string) returns (timestamp: int64)
    ensures timestamp as int == EventTimestamp(name)
  {
    var separator := LastUnderscore(name);
    if separator.None? || separator.value == 0 || separator.value + 1 >= |name| {
      return -1;
    }
    var digits := name[separator.value + 1..];
    if |digits| < 9 {
      return -1;
    }
    var value: int64 := 0;
    for i := 0 to |digits|
      invariant AllDigits(digits[..i]) && value as int == Value(digits[..i])
    {
      assert digits[..i + 1][i] == digits[i];
      if digits[i] < '0' || digits[i] > '9' {
        assert digits[i] in digits && !IsDigit(digits[i]);
        return -1;
      }
      assert forall c :: c in digits[..i + 1] ==> c in digits[..i] || c == digits[i];
      ValueStep(digits, i);
      var digit := (digits[i] as int - '0' as int) as int64;
      if value > (0x7FFF_FFFF_FFFF_FFFF - digit) / 10 {
        if AllDigits(digits) { ValueGrows(digits, i + 1); }
        return -1;
      }
      value := value * 10 + digit;
    }
    assert digits[..|digits|] == digits;
    return value;
  }

  /** A non-negative result exactly for names that end, after a '_' that is neither missing nor first, in at least
      nine digits denoting a 64-bit time. */
  lemma ParsedExactly(name: string)
    ensures EventTimestamp(name) >= 0
            <==> exists i: nat :: 0 < i && i + 9 < |name| && name[i] == '_' && IsTimestamp(name[i + 1..])
  {
    hide IsTimestamp, Value;
    if EventTimestamp(name) >= 0 {
      var i := LastUnderscore(name).value;
      assert 0 < i && i + 9 < |name| && name[i] == '_' && IsTimestamp(name[i + 1..]);
    }
    if i: nat :| 0 < i && i + 9 < |name| && name[i] == '_' && IsTimestamp(name[i + 1..]) {
      TimestampHasNoUnderscore(name[i + 1..]);
      LastUnderscoreIs(name, i);
    }
  }

  lemma TimestampHasNoUnderscore(tail: string)
    requires IsTimestamp(tail)
    ensures '_' !in tail && Value(tail) >= 0
  {}

  lemma LastUnderscoreIs(name: string, i: nat)
    requires i < |name| && name[i] == '_' && '_' !in name[i + 1..]
    ensures LastUnderscore(name) == Some(i)
  {
    var j := LastUnderscore(name).value;
    assert forall k :: i < k < |name| ==> name[i + 1..][k - i - 1] == name[k];
    assert forall k :: j < k < |name| ==> name[j + 1..][k - j - 1] == name[k];
  }

  lemma SplitsAtLast(front: string, tail: string)
    requires '_' !in tail
    ensures LastUnderscore(front + "_" + tail) == Some(|front|)
    ensures (front + "_" + tail)[|front| + 1..] == tail && (front + "_" + tail)[..|front|] == front
  {
    LastUnderscoreIs(front + "_" + tail, |front|);
  }

  /** The time in a directory name is read back. */
  lemma DirectoryNameRoundTrip(event: string, sequence: nat, ns: nat)
    requires event != [] && 100_000_000 <= ns <= I64_MAX
    ensures EventTimestamp(DirectoryName(event, sequence, ns)) == ns
  {
    DigitsDenote(ns);
    PowersOfTen();
    DigitsLength(ns, 8);
    assert '_' !in Digits(ns);
    hide Digits, Value, Power10;
    SplitsAtLast(event + "_" + Digits(sequence), Digits(ns));
  }

  lemma PowersOfTen()
    ensures Power10(8) == 100_000_000
  {
    assert Power10(4) == 10_000;
    assert Power10(8) == 10_000 * Power10(4);
  }

  /** Different events of one process never share a directory: the name determines event, sequence and time. */
  lemma DirectoryNamesDiffer(event1: string, sequence1: nat, ns1: nat, event2: string, sequence2: nat, ns2: nat)
    requires DirectoryName(event1, sequence1, ns1) == DirectoryName(event2, sequence2, ns2)
    ensures event1 == event2 && sequence1 == sequence2 && ns1 == ns2
  {
    DigitsDenote(ns1);
    DigitsDenote(ns2);
    DigitsDenote(sequence1);
    DigitsDenote(sequence2);
    assert '_' !in Digits(ns1) && '_' !in Digits(ns2) && '_' !in Digits(sequence1) && '_' !in Digits(sequence2);
    var front1, front2 := event1 + "_" + Digits(sequence1), event2 + "_" + Digits(sequence2);
    hide Digits, Value;
    SplitsAtLast(front1, Digits(ns1));
    SplitsAtLast(front2, Digits(ns2));
    SplitsAtLast(event1, Digits(sequence1));
    SplitsAtLast(event2, Digits(sequence2));
  }
}
