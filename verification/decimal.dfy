/** Decimal rendering of a non-negative integer, as a JavaScript template literal prints it. */
module Decimal {
  import opened JsText

  predicate AllDigits(s: string) {
    forall k | 0 <= k < |s| :: IsAsciiDigit(s[k])
  }

  function DigitChar(d: nat): (c: char)
    requires d < 10
    ensures IsAsciiDigit(c)
  {
    (48 + d) as char
  }

  function DigitValue(c: char): (d: nat)
    requires IsAsciiDigit(c)
    ensures d < 10
  {
    (c as int) - 48
  }

  /** `${n}` for a non-negative integer `n`: its digits, most significant first, without leading zeros. */
  function Digits(n: nat): (r: string)
    ensures |r| > 0 && AllDigits(r)
    ensures r[0] == '0' ==> n == 0 && r == "0"
  {
    if n < 10 then [DigitChar(n)] else Digits(n / 10) + [DigitChar(n % 10)]
  }

  /** The number a string of decimal digits denotes. */
  function ValueOf(s: string): nat
    requires AllDigits(s)
  {
    if s == [] then 0 else 10 * ValueOf(s[..|s| - 1]) + DigitValue(s[|s| - 1])
  }

  /** Reading back the printed digits recovers the number. */
  lemma {:induction false} ValueOfDigits(n: nat)
    ensures ValueOf(Digits(n)) == n
  {
    var r := Digits(n);
    if n < 10 {
      assert r[..|r| - 1] == [];
    } else {
      ValueOfDigits(n / 10);
      assert r[..|r| - 1] == Digits(n / 10);
    }
  }

  /** A digit string without a leading zero is the printing of its value: `Digits` is the only such rendering. */
  lemma {:induction false} DigitsCanonical(s: string)
    requires |s| > 0 && AllDigits(s) && (s[0] == '0' ==> s == "0")
    ensures Digits(ValueOf(s)) == s
  {
    var last := s[|s| - 1];
    assert DigitChar(DigitValue(last)) == last;
    var p := s[..|s| - 1];
    if |s| > 1 {
      assert p[0] == s[0];
      DigitsCanonical(p);
      var v := ValueOf(s);
      assert v == 10 * ValueOf(p) + DigitValue(last);
      assert p[0] != '0';
      assert Digits(0) == "0";
      assert v / 10 == ValueOf(p) && v % 10 == DigitValue(last);
      assert s == p + [last];
    } else {
      assert ValueOf(s) == 10 * ValueOf(p) + DigitValue(last);
      assert p == [];
      assert s == [last];
    }
  }

  /** Distinct numbers print differently. */
  lemma DigitsInjective(m: nat, n: nat)
    requires Digits(m) == Digits(n)
    ensures m == n
  {
    ValueOfDigits(m);
    ValueOfDigits(n);
  }
}
