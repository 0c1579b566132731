/**
 * Signed decimal text of integers, as Ruby's `Integer#to_s` writes it
 * ("-400", "0", "99"), and a parser that reads such text back.
 * The quota headers carry their numbers in this form.
 */
module Decimal {
  import opened Optional

  predicate IsDigit(c: char) {
    '0' <= c <= '9'
  }

  predicate AllDigits(s: string) {
    forall i :: 0 <= i < |s| ==> IsDigit(s[i])
  }

  function DigitValue(c: char): nat
    requires IsDigit(c)
  {
    c as int - '0' as int
  }

  function DigitChar(d: nat): (c: char)
    requires d < 10
    ensures IsDigit(c) && DigitValue(c) == d
  {
    ('0' as int + d) as char
  }

  /** The digits of `n`, most significant first. */
  function NatToString(n: nat): (s: string)
    ensures |s| >= 1 && AllDigits(s)
    ensures s[0] == '0' ==> n == 0 && s == "0"
    decreases n
  {
    if n < 10 then [DigitChar(n)] else NatToString(n / 10) + [DigitChar(n % 10)]
  }

  /**
   * The canonical decimal form: a minus sign only before a non-zero number,
   * then at least one digit and no leading zero ("0", "-400", never "-0" or "007").
   */
  predicate Canonical(s: string) {
    if |s| >= 1 && s[0] == '-' then |s| >= 2 && AllDigits(s[1..]) && s[1] != '0'
    else |s| >= 1 && AllDigits(s) && (s[0] == '0' ==> s == "0")
  }

  /** `Integer#to_s`: a minus sign for negative numbers, then the digits. */
  function IntToString(i: int): (s: string)
    ensures Canonical(s)
    ensures s[0] == '-' <==> i < 0
  {
    if i < 0 then "-" + NatToString(-i) else NatToString(i)
  }

  /** The number a string of digits denotes. */
  function DigitsValue(s: string): nat
    requires AllDigits(s)
  {
    if s == [] then 0 else DigitsValue(s[..|s| - 1]) * 10 + DigitValue(s[|s| - 1])
  }

  /** Reads an optional minus sign followed by at least one digit; anything else is `None`. */
  function ParseInt(s: string): Option<int> {
    if |s| >= 2 && s[0] == '-' && AllDigits(s[1..]) then Some(-(DigitsValue(s[1..]) as int))
    else if |s| >= 1 && AllDigits(s) then Some(DigitsValue(s))
    else None
  }

  lemma {:induction false} NatRoundTrip(n: nat)
    ensures DigitsValue(NatToString(n)) == n
    decreases n
  {
    if n >= 10 {
      NatRoundTrip(n / 10);
      var s := NatToString(n);
      assert s[..|s| - 1] == NatToString(n / 10);
    }
  }

  /** Reading back what `IntToString` wrote gives the number, sign included. */
  lemma IntRoundTrip(i: int)
    ensures ParseInt(IntToString(i)) == Some(i)
  {
    if i < 0 {
      NatRoundTrip(-i);
      assert IntToString(i)[1..] == NatToString(-i);
    } else {
      NatRoundTrip(i);
    }
  }

  lemma DigitCharValue(c: char)
    requires IsDigit(c)
    ensures DigitChar(DigitValue(c)) == c
  {
  }

  /** Digits that do not start with a zero denote a positive number. */
  lemma {:induction false} LeadingDigitPositive(s: string)
    requires |s| >= 1 && AllDigits(s) && s[0] != '0'
    ensures DigitsValue(s) >= 1
    decreases |s|
  {
    if |s| > 1 {
      LeadingDigitPositive(s[..|s| - 1]);
    }
  }

  /** Digits without a leading zero are exactly what `NatToString` writes for their value. */
  lemma {:induction false} DigitsRoundTrip(s: string)
    requires |s| >= 1 && AllDigits(s) && (s[0] == '0' ==> s == "0")
    ensures NatToString(DigitsValue(s)) == s
    decreases |s|
  {
    var c := s[|s| - 1];
    DigitCharValue(c);
    if |s| > 1 {
      var t := s[..|s| - 1];
      LeadingDigitPositive(t);
      DigitsRoundTrip(t);
      assert s == t + [c];
    }
  }

  /** Canonical text is what `IntToString` writes for the number it reads as. */
  lemma CanonicalRoundTrip(s: string)
    requires Canonical(s)
    ensures ParseInt(s).Some? && IntToString(ParseInt(s).value) == s
  {
    if s[0] == '-' {
      var t := s[1..];
      LeadingDigitPositive(t);
      DigitsRoundTrip(t);
      assert s == "-" + t;
    } else {
      DigitsRoundTrip(s);
    }
  }

  /** Distinct numbers are written differently. */
  lemma IntToStringInjective(i: int, j: int)
    ensures IntToString(i) == IntToString(j) <==> i == j
  {
    IntRoundTrip(i);
    IntRoundTrip(j);
  }

  /** The header values the quota examples show. */
  lemma QuotaExamples()
    ensures IntToString(99) == "99" && IntToString(98) == "98" && IntToString(97) == "97"
    ensures IntToString(95) == "95" && IntToString(90) == "90"
    ensures IntToString(0) == "0" && IntToString(-400) == "-400"
  {
  }

}
