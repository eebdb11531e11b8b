/** Decimal digits: the digit test and the `strtoul` parse used by the
    natural-order comparator, and the `std::to_string` rendering of an
    `int64_t` used by the text printer. */
module Decimal {

  /** The signed 64-bit integer of `int64_t`. */
  newtype int64 = x: int | -0x8000_0000_0000_0000 <= x < 0x8000_0000_0000_0000

  /** `chr >= '0' && chr <= '9'`. */
  predicate IsDigit(c: char) {
    '0' <= c <= '9'
  }

  predicate AllDigits(s: string) {
    forall k :: 0 <= k < |s| ==> IsDigit(s[k])
  }

  function DigitValue(c: char): (d: nat)
    requires IsDigit(c)
    ensures d < 10
  {
    c as int - '0' as int
  }

  function DigitChar(d: nat): (c: char)
    requires d < 10
    ensures IsDigit(c) && DigitValue(c) == d
  {
    ('0' as int + d) as char
  }

  /** The unsigned value of a run of decimal digits, most significant first. */
  function DigitsValue(s: string): nat
    requires AllDigits(s)
  {
    if s == [] then 0 else DigitsValue(s[..|s| - 1]) * 10 + DigitValue(s[|s| - 1])
  }

  /** Length of the longest prefix of `s` made of digits: where `strtoul`
      stops, and so where its end pointer is left. */
  function DigitRunLength(s: string): (n: nat)
    ensures n <= |s|
    ensures AllDigits(s[..n])
    ensures n == |s| || !IsDigit(s[n])
  {
    if s == [] || !IsDigit(s[0]) then 0 else 1 + DigitRunLength(s[1..])
  }

  /** A decimal numeral as `std::to_string` writes one: digits, and no
      leading zero unless the numeral is "0". */
  predicate Canonical(s: string) {
    |s| >= 1 && AllDigits(s) && (s[0] != '0' || |s| == 1)
  }

  /** The digits of a natural number, without leading zeros. */
  function NatToDigits(n: nat): (s: string)
    ensures Canonical(s)
    ensures DigitsValue(s) == n
  {
    var last := [DigitChar(n % 10)];
    if n < 10 then last
    else
      var prefix := NatToDigits(n / 10);
      assert (prefix + last)[..|prefix + last| - 1] == prefix;
      CanonicalMagnitude(prefix);
      prefix + last
  }

  /** A numeral without a leading zero and with more than one digit is at
      least 10; with a nonzero first digit it is at least 1. */
  lemma {:induction false} LeadingDigitPositive(s: string)
    requires |s| >= 1 && AllDigits(s) && s[0] != '0'
    ensures DigitsValue(s) >= 1
    ensures |s| >= 2 ==> DigitsValue(s) >= 10
  {
    if |s| >= 2 {
      var init := s[..|s| - 1];
      assert init[0] == s[0];
      LeadingDigitPositive(init);
    }
  }

  lemma LastDigitSplit(a: nat, x: nat, b: nat, y: nat)
    requires x < 10 && y < 10 && a * 10 + x == b * 10 + y
    ensures a == b && x == y
  {
  }

  /** A one-digit numeral is below 10 and a longer one at least 10; only
      "0" starts with '0'. */
  lemma CanonicalMagnitude(s: string)
    requires Canonical(s)
    ensures |s| == 1 ==> DigitsValue(s) == DigitValue(s[0]) < 10
    ensures |s| >= 2 ==> DigitsValue(s) >= 10
    ensures s[0] == '0' ==> DigitsValue(s) == 0
  {
    if |s| >= 2 {
      LeadingDigitPositive(s);
    } else {
      assert s[..0] == [];
    }
  }

  /** Equal values have the same canonical numeral, so the numeral of a
      number is determined by its value. */
  lemma {:induction false} CanonicalUnique(s: string, t: string)
    requires Canonical(s) && Canonical(t) && DigitsValue(s) == DigitsValue(t)
    ensures s == t
    decreases |s|
  {
    CanonicalMagnitude(s);
    CanonicalMagnitude(t);
    if |s| >= 2 {
      var ps, pt := s[..|s| - 1], t[..|t| - 1];
      assert ps[0] == s[0] && pt[0] == t[0];
      LastDigitSplit(DigitsValue(ps), DigitValue(s[|s| - 1]), DigitsValue(pt), DigitValue(t[|t| - 1]));
      CanonicalUnique(ps, pt);
      assert s == ps + [s[|s| - 1]] && t == pt + [t[|t| - 1]];
    }
  }

  /** `std::to_string(int64_t)`: a minus sign for negative values, then the
      digits of the magnitude without leading zeros. */
  function Int64ToString(n: int64): (s: string)
    ensures |s| >= 1
    ensures n >= 0 ==> Canonical(s) && DigitsValue(s) == n as int
    ensures n < 0 ==> s[0] == '-' && Canonical(s[1..]) && DigitsValue(s[1..]) == -(n as int)
    ensures n < 0 ==> |s| >= 2 && s[1] != '0'
  {
    if n < 0 then
      var digits := NatToDigits(-(n as int));
      assert ("-" + digits)[1..] == digits;
      CanonicalMagnitude(digits);
      "-" + digits
    else NatToDigits(n as int)
  }

  /** The text of a number is fixed by the contract above: any string that
      meets it is that text. */
  lemma Int64ToStringUnique(n: int64, s: string)
    requires n >= 0 ==> Canonical(s) && DigitsValue(s) == n as int
    requires n < 0 ==> |s| >= 1 && s[0] == '-' && Canonical(s[1..]) && DigitsValue(s[1..]) == -(n as int)
    ensures s == Int64ToString(n)
  {
    var r := Int64ToString(n);
    if n >= 0 {
      CanonicalUnique(s, r);
    } else {
      CanonicalUnique(s[1..], r[1..]);
      assert s == [s[0]] + s[1..] && r == [r[0]] + r[1..];
    }
  }
}
