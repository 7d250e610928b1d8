/**
 * Character-level helpers shared by the configuration file format and the
 * error text: the C locale's `isspace`, a line scanner, whitespace skipping,
 * `%i` formatting and `atoi`.
 */
module Text {

  /** `isspace` in the C locale: space, tab, newline, vertical tab, form feed, carriage return. */
  predicate IsSpace(c: char) {
    c == ' ' || c == '\t' || c == '\n' || c == '\U{B}' || c == '\U{C}' || c == '\r'
  }

  predicate IsDigit(c: char) {
    '0' <= c <= '9'
  }

  /** The longest prefix of `s` holding no newline: what a `%[^\n]` conversion reads. */
  function Line(s: string): (r: string)
    ensures |r| <= |s|
    ensures '\n' !in r
  {
    if s == [] || s[0] == '\n' then [] else [s[0]] + Line(s[1..])
  }

  /** What a whitespace directive of a scanf format skips: every leading space character. */
  function SkipSpace(s: string): (r: string)
    ensures |r| <= |s|
    ensures r == [] || !IsSpace(r[0])
  {
    if s != [] && IsSpace(s[0]) then SkipSpace(s[1..]) else s
  }

  function DigitChar(d: nat): char
    requires d < 10
  {
    "0123456789"[d]
  }

  /** Decimal digits of `n`, most significant first, no leading zero. */
  function NatToString(n: nat): (r: string)
    ensures |r| > 0
    ensures forall i :: 0 <= i < |r| ==> IsDigit(r[i])
    ensures r[0] == '0' ==> n == 0
  {
    if n < 10 then [DigitChar(n)] else NatToString(n / 10) + [DigitChar(n % 10)]
  }

  /** `printf("%i", n)`. */
  function IntToString(n: int): (r: string)
    ensures |r| > 0
    ensures r[0] == '-' || IsDigit(r[0])
  {
    if n < 0 then "-" + NatToString(-n) else NatToString(n)
  }

  /** The value of a string of decimal digits. */
  function DigitsValue(ds: string): (v: nat)
    requires forall i :: 0 <= i < |ds| ==> IsDigit(ds[i])
  {
    if ds == [] then 0
    else
      var last := ds[|ds| - 1];
      assert IsDigit(last);
      DigitsValue(ds[..|ds| - 1]) * 10 + ((last as int) - ('0' as int))
  }

  /** The longest prefix of `s` made of decimal digits. */
  function LeadingDigits(s: string): (r: string)
    ensures r <= s
    ensures forall i :: 0 <= i < |r| ==> IsDigit(r[i])
    ensures |r| < |s| ==> !IsDigit(s[|r|])
  {
    if s != [] && IsDigit(s[0]) then [s[0]] + LeadingDigits(s[1..]) else []
  }

  /**
   * `atoi`: skip leading white space, take an optional sign, then the longest
   * run of digits; no digits gives 0.
   */
  function Atoi(s: string): int {
    var t := SkipSpace(s);
    if t != [] && t[0] == '-' then 0 - DigitsValue(LeadingDigits(t[1..]))
    else if t != [] && t[0] == '+' then DigitsValue(LeadingDigits(t[1..]))
    else DigitsValue(LeadingDigits(t))
  }

  lemma {:induction false} DigitsValueOfNat(n: nat)
    ensures DigitsValue(NatToString(n)) == n
  {
    var r := NatToString(n);
    if n >= 10 {
      DigitsValueOfNat(n / 10);
      assert r[..|r| - 1] == NatToString(n / 10);
      assert r[|r| - 1] == DigitChar(n % 10);
    } else {
      assert r == [DigitChar(n)];
    }
  }

  lemma {:induction false} LeadingDigitsOfDigits(ds: string, rest: string)
    requires forall i :: 0 <= i < |ds| ==> IsDigit(ds[i])
    requires rest == [] || !IsDigit(rest[0])
    ensures LeadingDigits(ds + rest) == ds
  {
    if ds != [] {
      assert (ds + rest)[1..] == ds[1..] + rest;
      LeadingDigitsOfDigits(ds[1..], rest);
    }
  }

  /** `atoi` of digits followed by a non-digit is the value of the digits. */
  lemma AtoiNat(m: nat, rest: string)
    requires rest == [] || !IsDigit(rest[0])
    ensures Atoi(NatToString(m) + rest) == m
  {
    var ds := NatToString(m);
    var t := ds + rest;
    assert t[0] == ds[0];
    assert SkipSpace(t) == t;
    LeadingDigitsOfDigits(ds, rest);
    DigitsValueOfNat(m);
  }

  /** `atoi` of a minus sign, digits, then a non-digit is the negated value of the digits. */
  lemma AtoiNegative(m: nat, rest: string)
    requires rest == [] || !IsDigit(rest[0])
    ensures Atoi(['-'] + (NatToString(m) + rest)) == -(m as int)
  {
    var x := NatToString(m) + rest;
    var t := ['-'] + x;
    assert t[0] == '-';
    assert SkipSpace(t) == t;
    assert t[1..] == x;
    LeadingDigitsOfDigits(NatToString(m), rest);
    DigitsValueOfNat(m);
  }

  /**
   * `atoi` reads back what `%i` printed, whatever follows the number as long
   * as it does not start with a digit.
   */
  lemma AtoiIntToString(n: int, rest: string)
    requires rest == [] || !IsDigit(rest[0])
    ensures Atoi(IntToString(n) + rest) == n
  {
    if n < 0 {
      var m: nat := -n;
      var ds := NatToString(m);
      var x := ds + rest;
      assert IntToString(n) + rest == ['-'] + x;
      AtoiNegative(m, rest);
    } else {
      AtoiNat(n, rest);
    }
  }

  /** The round trip `atoi(sprintf("%i", n)) == n`. */
  lemma AtoiRoundTrip(n: int)
    ensures Atoi(IntToString(n)) == n
  {
    AtoiIntToString(n, []);
    assert IntToString(n) + [] == IntToString(n);
  }
}
