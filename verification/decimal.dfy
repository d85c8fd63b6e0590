/** Decimal rendering of integers, as done by `std::to_string` and by
    `std::ostream::operator<<` on integer values, together with the parser
    that inverts it. */
module Decimal {
  import opened Wrappers

  predicate IsDigit(c: char) {
    '0' <= c <= '9'
  }

  predicate AllDigits(s: string) {
    forall i :: 0 <= i < |s| ==> IsDigit(s[i])
  }

  function DigitChar(d: nat): (c: char)
    requires d < 10
    ensures IsDigit(c)
  {
    (('0' as int) + d) as char
  }

  function DigitValue(c: char): (d: nat)
    requires IsDigit(c)
    ensures d < 10 && DigitChar(d) == c
  {
    (c as int) - ('0' as int)
  }

  /** The shortest decimal numeral of `n`: digits only, no leading zero. */
  function NatToDecimal(n: nat): (s: string)
    ensures |s| > 0 && AllDigits(s)
    ensures |s| > 1 ==> s[0] != '0'
    ensures n == 0 <==> s == "0"
    decreases n
  {
    if n < 10 then [DigitChar(n)] else NatToDecimal(n / 10) + [DigitChar(n % 10)]
  }

  /** The value of a string of digits, most significant digit first. */
  function DigitsValue(s: string): nat
    requires AllDigits(s)
    decreases |s|
  {
    if |s| == 0 then 0 else DigitsValue(s[..|s| - 1]) * 10 + DigitValue(s[|s| - 1])
  }

  /** A numeral as the printers write it: a non-empty run of digits with no
      leading zero unless it is "0" itself. */
  predicate Canonical(s: string) {
    |s| > 0 && AllDigits(s) && (|s| > 1 ==> s[0] != '0')
  }

  /** Parses a numeral written the way the printers write it; a padded
      numeral such as "007" is rejected. */
  function ParseNat(s: string): (r: Option<nat>)
    ensures r.Some? <==> |s| > 0 && AllDigits(s) && (|s| > 1 ==> s[0] != '0')
  {
    if Canonical(s) then Some(DigitsValue(s)) else None
  }

  lemma {:induction false} DigitsValueOfDecimal(n: nat)
    ensures DigitsValue(NatToDecimal(n)) == n
    decreases n
  {
    if n >= 10 {
      var s := NatToDecimal(n);
      assert s[..|s| - 1] == NatToDecimal(n / 10);
      DigitsValueOfDecimal(n / 10);
    }
  }

  /** Parsing inverts rendering. */
  lemma NatRoundTrip(n: nat)
    ensures ParseNat(NatToDecimal(n)) == Some(n)
  {
    DigitsValueOfDecimal(n);
  }

  /** A digit run that does not start with '0' has a positive value. */
  lemma {:induction false} LeadingDigitPositive(s: string)
    requires |s| > 0 && AllDigits(s) && s[0] != '0'
    ensures DigitsValue(s) >= 1
    decreases |s|
  {
    if |s| > 1 {
      var p := s[..|s| - 1];
      assert p[0] == s[0];
      LeadingDigitPositive(p);
    }
  }

  /** A canonical numeral is the printed form of its value. */
  lemma {:induction false} CanonicalIsDecimal(s: string)
    requires Canonical(s)
    ensures NatToDecimal(DigitsValue(s)) == s
    decreases |s|
  {
    if |s| > 1 {
      var p := s[..|s| - 1];
      var c := s[|s| - 1];
      assert p[0] == s[0];
      assert Canonical(p);
      LeadingDigitPositive(p);
      var n := DigitsValue(s);
      assert n == DigitsValue(p) * 10 + DigitValue(c);
      assert n / 10 == DigitsValue(p) && n % 10 == DigitValue(c);
      CanonicalIsDecimal(p);
      assert s == p + [c];
    }
  }

  /** The parser accepts exactly the printed numerals: a text reads back as
      `n` if and only if it is the text printed for `n`. */
  lemma ParseNatExact(s: string, n: nat)
    ensures ParseNat(s) == Some(n) <==> s == NatToDecimal(n)
  {
    NatRoundTrip(n);
    if ParseNat(s) == Some(n) {
      CanonicalIsDecimal(s);
    }
  }

  /** Signed decimal, a leading '-' for negative values (`std::to_string`). */
  function IntToDecimal(i: int): (s: string)
    ensures |s| > 0
    ensures i >= 0 <==> s[0] != '-'
  {
    if i < 0 then "-" + NatToDecimal(-i) else NatToDecimal(i)
  }

  function ParseInt(s: string): Option<int> {
    if |s| > 0 && s[0] == '-' then
      match ParseNat(s[1..])
      case Some(n) => if n == 0 then None else Some(-(n as int))
      case None => None
    else
      match ParseNat(s)
      case Some(n) => Some(n as int)
      case None => None
  }

  lemma IntRoundTrip(i: int)
    ensures ParseInt(IntToDecimal(i)) == Some(i)
  {
    var s := IntToDecimal(i);
    if i < 0 {
      var d := NatToDecimal(-i);
      assert s == "-" + d && s[0] == '-';
      assert s[1..] == d;
      NatRoundTrip(-i);
    } else {
      assert s == NatToDecimal(i) && (|s| == 0 || s[0] != '-');
      NatRoundTrip(i);
    }
  }

  /** The signed parser accepts exactly the printed numerals: no padding, no
      '+' and no "-0". */
  lemma ParseIntExact(s: string, i: int)
    ensures ParseInt(s) == Some(i) <==> s == IntToDecimal(i)
  {
    IntRoundTrip(i);
    if ParseInt(s) == Some(i) {
      if |s| > 0 && s[0] == '-' {
        ParseNatExact(s[1..], -i);
        assert s == "-" + s[1..];
      } else {
        ParseNatExact(s, i);
      }
    }
  }

  /** A zero-padded numeral is not a printed numeral and does not parse. */
  lemma PaddedNumeralRejected()
    ensures ParseNat("007") == None && ParseInt("007") == None && ParseInt("-0") == None
  {
    assert !Canonical("007");
    assert "-0"[1..] == "0";
  }

  /** Truncating division, the rounding of C++ integer division and of
      `std::chrono::duration_cast` (toward zero, unlike Dafny's `/`). */
  function TruncDiv(a: int, b: int): (q: int)
    requires b > 0
    ensures a >= 0 ==> 0 <= q * b <= a < (q + 1) * b
    ensures a < 0 ==> (q - 1) * b < a <= q * b <= 0
  {
    var n := if a >= 0 then a else -a;
    DivisionBounds(n, b);
    if a >= 0 then n / b else -(n / b)
  }

  lemma DivisionBounds(n: nat, b: int)
    requires b > 0
    ensures 0 <= (n / b) * b <= n < (n / b + 1) * b
  {
    assert n == (n / b) * b + n % b;
  }

  /** Length of the run of digits at the start of `s`. */
  function DigitRun(s: string): (k: nat)
    ensures k <= |s| && AllDigits(s[..k])
    ensures k < |s| ==> !IsDigit(s[k])
    decreases |s|
  {
    if |s| > 0 && IsDigit(s[0]) then
      var k := 1 + DigitRun(s[1..]);
      assert s[..k] == [s[0]] + s[1..][..k - 1];
      k
    else 0
  }

  /** A numeral followed by a non-digit is read back exactly up to its end. */
  lemma {:induction false} DigitRunOfNumeral(d: string, rest: string)
    requires AllDigits(d)
    requires |rest| > 0 ==> !IsDigit(rest[0])
    ensures DigitRun(d + rest) == |d|
    decreases |d|
  {
    if |d| > 0 {
      assert (d + rest)[1..] == d[1..] + rest;
      DigitRunOfNumeral(d[1..], rest);
    }
  }
}
