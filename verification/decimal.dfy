/**
  Decimal text of natural numbers: the analogues of Python's `str()` on a
  non-negative int and of `int()` on a string made only of digits.
 */
module Decimal {

  predicate IsDigit(c: char) {
    '0' <= c <= '9'
  }

  predicate IsDigits(s: string) {
    forall i :: 0 <= i < |s| ==> IsDigit(s[i])
  }

  /** A digit string as `str()` would print it: non-empty, and no leading
      zero unless the whole text is "0". */
  predicate Canonical(s: string) {
    && IsDigits(s)
    && |s| >= 1
    && (|s| == 1 || s[0] != '0')
  }

  function DigitValue(c: char): (d: nat)
    requires IsDigit(c)
    ensures d < 10
  {
    c as int - '0' as int
  }

  function DigitChar(d: nat): (c: char)
    requires d < 10
    ensures IsDigit(c) && DigitValue(c) == d
  {
    ('0' as int + d) as char
  }

  /** `str(k)` for a non-negative `k`. */
  function NatToDecimal(k: nat): (s: string)
    ensures Canonical(s)
    ensures s[0] == '0' <==> k == 0
    decreases k
  {
    if k < 10 then [DigitChar(k)]
    else NatToDecimal(k / 10) + [DigitChar(k % 10)]
  }

  /** `int(s)` for a string of digits; the empty string has value 0. */
  function DecimalValue(s: string): nat
    requires IsDigits(s)
  {
    if |s| == 0 then 0
    else 10 * DecimalValue(s[..|s| - 1]) + DigitValue(s[|s| - 1])
  }

  /** Appending a digit to a positive number appends its character to the
      text. */
  lemma NatToDecimalAppendDigit(k: nat, d: nat)
    requires 1 <= k && d < 10
    ensures NatToDecimal(10 * k + d) == NatToDecimal(k) + [DigitChar(d)]
  {
    assert (10 * k + d) / 10 == k && (10 * k + d) % 10 == d;
  }

  /** `int(str(k)) == k`. */
  lemma {:induction false} DecimalValueOfNatToDecimal(k: nat)
    ensures DecimalValue(NatToDecimal(k)) == k
    decreases k
  {
    var s := NatToDecimal(k);
    if k >= 10 {
      var p := NatToDecimal(k / 10);
      assert s == p + [DigitChar(k % 10)];
      assert s[..|s| - 1] == p;
      DecimalValueOfNatToDecimal(k / 10);
    }
  }

  /** A digit string whose first digit is not '0' denotes a positive number. */
  lemma {:induction false} LeadingNonzeroIsPositive(s: string)
    requires IsDigits(s) && |s| >= 1 && s[0] != '0'
    ensures DecimalValue(s) >= 1
    decreases |s|
  {
    if |s| > 1 {
      var p := s[..|s| - 1];
      assert p[0] == s[0];
      LeadingNonzeroIsPositive(p);
    }
  }

  /** `str(int(s)) == s` exactly when `s` is canonical. */
  lemma {:induction false} NatToDecimalOfDecimalValue(s: string)
    requires Canonical(s)
    ensures NatToDecimal(DecimalValue(s)) == s
    decreases |s|
  {
    var v := DecimalValue(s);
    if |s| == 1 {
      assert s[..0] == [];
      assert DecimalValue(s[..0]) == 0;
      assert v == DigitValue(s[0]);
      assert [DigitChar(v)] == s;
    } else {
      var p := s[..|s| - 1];
      var d := DigitValue(s[|s| - 1]);
      assert p[0] == s[0];
      LeadingNonzeroIsPositive(p);
      NatToDecimalOfDecimalValue(p);
      var w := DecimalValue(p);
      assert v == 10 * w + d;
      assert v / 10 == w && v % 10 == d;
      assert DigitChar(d) == s[|s| - 1];
      assert s == p + [s[|s| - 1]];
    }
  }

  /** The texts `str()` can produce are exactly the canonical digit strings. */
  lemma CanonicalIffDecimalText(s: string)
    ensures Canonical(s) <==> exists k: nat :: NatToDecimal(k) == s
  {
    if Canonical(s) {
      NatToDecimalOfDecimalValue(s);
    }
  }

  /** Different numbers have different decimal texts. */
  lemma NatToDecimalInjective(a: nat, b: nat)
    requires NatToDecimal(a) == NatToDecimal(b)
    ensures a == b
  {
    DecimalValueOfNatToDecimal(a);
    DecimalValueOfNatToDecimal(b);
  }
}
