/** Decimal digit strings: zero-padded rendering (`"%0*d"`), `str(n)` and reading digits back. */
module Decimal {

  predicate IsDigit(c: char) {
    '0' <= c <= '9'
  }

  predicate AllDigits(s: string) {
    forall i :: 0 <= i < |s| ==> IsDigit(s[i])
  }

  function DigitChar(n: nat): (c: char)
    requires n < 10
    ensures IsDigit(c)
  {
    (n + '0' as int) as char
  }

  function DigitValue(c: char): (n: nat)
    requires IsDigit(c)
    ensures n < 10
  {
    c as int - '0' as int
  }

  function Pow10(w: nat): (p: nat)
    ensures p >= 1
  {
    if w == 0 then 1 else 10 * Pow10(w - 1)
  }

  /** The value of a digit string, most significant digit first. */
  function ValueOf(s: string): nat
    requires AllDigits(s)
  {
    if s == [] then 0 else ValueOf(s[..|s| - 1]) * 10 + DigitValue(s[|s| - 1])
  }

  /** `"%0{w}d" % n`: `n` in exactly `w` digits (`n` must fit). */
  function Digits(n: nat, w: nat): (s: string)
    ensures |s| == w && AllDigits(s)
  {
    if w == 0 then "" else Digits(n / 10, w - 1) + [DigitChar(n % 10)]
  }

  /** `str(n)` for a natural number: no leading zeros. */
  function DecimalText(n: nat): (s: string)
    ensures |s| >= 1 && AllDigits(s)
  {
    if n < 10 then [DigitChar(n)] else DecimalText(n / 10) + [DigitChar(n % 10)]
  }

  lemma {:induction false} ValueOfDigits(n: nat, w: nat)
    requires n < Pow10(w)
    ensures ValueOf(Digits(n, w)) == n
  {
    if w > 0 {
      var s := Digits(n, w);
      assert s[..|s| - 1] == Digits(n / 10, w - 1);
      ValueOfDigits(n / 10, w - 1);
    }
  }

  lemma {:induction false} ValueOfDecimalText(n: nat)
    ensures ValueOf(DecimalText(n)) == n
  {
    var s := DecimalText(n);
    if n >= 10 {
      assert s[..|s| - 1] == DecimalText(n / 10);
      ValueOfDecimalText(n / 10);
    }
  }

  lemma {:induction false} DigitsOfValue(s: string)
    requires AllDigits(s)
    ensures ValueOf(s) < Pow10(|s|)
    ensures Digits(ValueOf(s), |s|) == s
  {
    if s != [] {
      var p := s[..|s| - 1];
      DigitsOfValue(p);
      var v := ValueOf(s);
      assert v / 10 == ValueOf(p) && v % 10 == DigitValue(s[|s| - 1]);
      assert s == p + [s[|s| - 1]];
    }
  }
}
