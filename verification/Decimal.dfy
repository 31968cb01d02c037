/** Decimal printing and the std::stoll / std::stoull readers of include/record_io.hpp. */
module Decimal {
  import opened Prelude

  const I64_MAX: int := 0x7FFF_FFFF_FFFF_FFFF
  const I64_MIN: int := -0x8000_0000_0000_0000
  const U64_MODULUS: int := 0x1_0000_0000_0000_0000

  predicate IsDigit(c: char) { '0' <= c <= '9' }

  predicate AllDigits(s: string) { forall c :: c in s ==> IsDigit(c) }

  function Digits(n: nat): (s: string)
  {
    var last := [(n % 10 + '0' as int) as char];
    if n < 10 then last else Digits(n / 10) + last
  }

  /** The number a digit string denotes. */
  function Value(s: string): nat
    requires AllDigits(s)
  {
    if s == [] then 0
    else
      var last := s[|s| - 1];
      assert IsDigit(last);
      Value(s[..|s| - 1]) * 10 + (last as int - '0' as int)
  }

  /** std::to_string */
  function IntText(v: int): string
  {
    if v < 0 then ['-'] + Digits(-v) else Digits(v)
  }

  lemma {:induction false} DigitsDenote(n: nat)
    ensures Digits(n) != [] && AllDigits(Digits(n)) && Value(Digits(n)) == n
    ensures |Digits(n)| > 1 ==> Digits(n)[0] != '0'
  {
    var last := [(n % 10 + '0' as int) as char];
    if n >= 10 {
      DigitsDenote(n / 10);
      assert Digits(n)[..|Digits(n)| - 1] == Digits(n / 10);
    } else {
      assert Digits(n)[..0] == [];
    }
  }

  /** A number with at least k + 1 digits is what prints to at least k + 1 characters. */
  lemma {:induction false} DigitsLength(n: nat, k: nat)
    requires n >= Power10(k)
    ensures |Digits(n)| > k
  {
    if k > 0 {
      DigitsLength(n / 10, k - 1);
    }
  }

  function Power10(k: nat): nat
    ensures Power10(k) >= 1
    ensures k > 0 ==> Power10(k) >= 10
  {
    if k == 0 then 1 else 10 * Power10(k - 1)
  }

  predicate IsSpace(c: char)
  {
    c == ' ' || c == '\t' || c == '\n' || c == '\r' || c == 11 as char || c == 12 as char
  }

  function SkipSpaces(s: string): string
  {
    if s != [] && IsSpace(s[0]) then SkipSpaces(s[1..]) else s
  }

  /** An optional sign and the rest. */
  function Signed(s: string): (bool, string)
  {
    if s != [] && s[0] == '-' then (true, s[1..])
    else if s != [] && s[0] == '+' then (false, s[1..])
    else (false, s)
  }

  function ParseI64(text: string): (r: Option<int>)
    ensures r.Some? ==> I64_MIN <= r.value <= I64_MAX
  {
    var (negative, body) := Signed(SkipSpaces(text));
    if body == [] || !AllDigits(body) then None
    else
      var magnitude: int := Value(body);
      var v := if negative then -magnitude else magnitude;
      if I64_MIN <= v <= I64_MAX then Some(v) else None
  }

  function ParseU64(text: string): (r: Option<nat>)
    ensures r.Some? ==> r.value < U64_MODULUS
  {
    if text == [] || text[0] == '-' then None
    else
      var (negative, body) := Signed(SkipSpaces(text));
      if body == [] || !AllDigits(body) || Value(body) >= U64_MODULUS then None
      else if negative && Value(body) > 0 then Some(U64_MODULUS - Value(body))
      else Some(Value(body))
  }

  lemma NumberStart(n: nat)
    ensures Digits(n) != [] && AllDigits(Digits(n)) && Value(Digits(n)) == n
    ensures SkipSpaces(Digits(n)) == Digits(n)
    ensures Signed(Digits(n)) == (false, Digits(n))
  {
    DigitsDenote(n);
    assert Digits(n)[0] in Digits(n);
  }

  lemma I64RoundTrip(v: int)
    ensures ParseI64(IntText(v)) == if I64_MIN <= v <= I64_MAX then Some(v) else None
  {
    hide Digits, Value;
    if v < 0 {
      NumberStart(-v);
      var text := ['-'] + Digits(-v);
      assert text[1..] == Digits(-v);
      assert SkipSpaces(text) == text;
    } else {
      NumberStart(v);
    }
  }

  lemma U64RoundTrip(v: nat)
    ensures ParseU64(Digits(v)) == if v < U64_MODULUS then Some(v) else None
  {
    hide Digits, Value;
    NumberStart(v);
    assert Digits(v)[0] in Digits(v);
  }

  lemma IntCharacters(v: int)
    ensures IntText(v) != []
    ensures forall c :: c in IntText(v) ==> IsDigit(c) || c == '-'
  {
    DigitsDenote(if v < 0 then -v else v);
  }

  // ---- what reads as a number ----

  /** Blanks, then at most one sign, then a digit and only digits. */
  predicate Numeral(text: string, blanks: string, sign: string, digits: string)
  {
    && text == blanks + sign + digits && (forall c :: c in blanks ==> IsSpace(c))
    && sign in {"", "-", "+"} && digits != [] && AllDigits(digits)
  }

  lemma {:induction false} SkipsBlanks(blanks: string, rest: string)
    requires (forall c :: c in blanks ==> IsSpace(c)) && rest != [] && !IsSpace(rest[0])
    ensures SkipSpaces(blanks + rest) == rest
  {
    if blanks == [] {
      assert blanks + rest == rest;
    } else {
      SkipsBlanks(blanks[1..], rest);
      assert (blanks + rest)[1..] == blanks[1..] + rest;
    }
  }

  lemma {:induction false} SkippedAreBlanks(text: string) returns (blanks: string)
    ensures text == blanks + SkipSpaces(text) && forall c :: c in blanks ==> IsSpace(c)
  {
    if text != [] && IsSpace(text[0]) {
      var more := SkippedAreBlanks(text[1..]);
      blanks := [text[0]] + more;
      assert text == [text[0]] + text[1..];
    } else {
      blanks := [];
    }
  }

  lemma NumeralReads(text: string, blanks: string, sign: string, digits: string)
    requires Numeral(text, blanks, sign, digits)
    ensures Signed(SkipSpaces(text)) == (sign == "-", digits)
  {
    var rest := sign + digits;
    assert IsDigit(digits[0]) by { assert digits[0] in digits; }
    assert text == blanks + rest;
    SkipsBlanks(blanks, rest);
    if sign == "" { assert rest == digits; } else { assert rest[1..] == digits; }
  }

  /** A text reads as a number exactly when it is a numeral whose value fits 64 bits; and that is what it reads as. */
  lemma ReadsExactly(text: string, v: int)
    ensures ParseI64(text) == Some(v)
            <==> (&& I64_MIN <= v <= I64_MAX
                  && exists blanks, sign, digits :: Numeral(text, blanks, sign, digits)
                                                    && v == (if sign == "-" then -1 else 1) * Value(digits))
  {
    hide SkipSpaces, Value, AllDigits, IsSpace;
    forall blanks, sign, digits | Numeral(text, blanks, sign, digits)
      ensures Signed(SkipSpaces(text)) == (sign == "-", digits)
    {
      NumeralReads(text, blanks, sign, digits);
    }
    if ParseI64(text) == Some(v) {
      var blanks := SkippedAreBlanks(text);
      var rest := SkipSpaces(text);
      var (negative, digits) := Signed(rest);
      var sign := if negative then "-" else if digits == rest then "" else "+";
      assert rest == sign + digits;
      assert Numeral(text, blanks, sign, digits);
    }
  }

  /** An unsigned number must not begin with a minus; a minus after blanks wraps around, as std::stoull has it. */
  lemma ReadsUnsignedExactly(text: string, v: nat)
    ensures ParseU64(text) == Some(v)
            <==> (&& (text != [] && text[0] != '-')
                  && exists blanks, sign, digits ::
                       && Numeral(text, blanks, sign, digits) && Value(digits) < U64_MODULUS
                       && v == if sign == "-" && Value(digits) > 0 then U64_MODULUS - Value(digits) else Value(digits))
  {
    hide SkipSpaces, Value, AllDigits, IsSpace;
    forall blanks, sign, digits | Numeral(text, blanks, sign, digits)
      ensures Signed(SkipSpaces(text)) == (sign == "-", digits)
    {
      NumeralReads(text, blanks, sign, digits);
    }
    if ParseU64(text) == Some(v) {
      var blanks := SkippedAreBlanks(text);
      var rest := SkipSpaces(text);
      var (negative, digits) := Signed(rest);
      var sign := if negative then "-" else if digits == rest then "" else "+";
      assert rest == sign + digits;
      assert Numeral(text, blanks, sign, digits);
    }
  }
}
