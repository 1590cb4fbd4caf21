/** Decimal digits: the `%d` rendering of a count and the value of a run
    of digits as `Integer.parseInt` reads it. */
module Decimal {
  import opened Text

  predicate AllDigits(s: string) {
    forall i :: 0 <= i < |s| ==> IsDigit(s[i])
  }

  function DigitChar(d: nat): (c: char)
    requires d < 10
    ensures IsDigit(c)
  {
    ('0' as int + d) as char
  }

  function DigitValue(c: char): (d: nat)
    requires IsDigit(c)
    ensures d < 10
  {
    c as int - '0' as int
  }

  /** `%d` of a count: the shortest run of digits whose value it is. */
  function DecimalOf(n: nat): (s: string)
    ensures s != [] && AllDigits(s)
    ensures s[0] == '0' ==> n == 0 && s == "0"
  {
    if n < 10 then [DigitChar(n)]
    else
      var s := DecimalOf(n / 10) + [DigitChar(n % 10)];
      assert s[0] == DecimalOf(n / 10)[0];
      s
  }

  /** The value of a run of digits. */
  function ValueOf(s: string): nat
    requires AllDigits(s)
  {
    if s == [] then 0 else ValueOf(s[..|s| - 1]) * 10 + DigitValue(s[|s| - 1])
  }

  /** Reading a rendered count gives the count back. */
  lemma {:induction false} ValueOfDecimal(n: nat)
    ensures ValueOf(DecimalOf(n)) == n
  {
    if n >= 10 {
      ValueOfDecimal(n / 10);
      var s := DecimalOf(n);
      assert s[..|s| - 1] == DecimalOf(n / 10);
    }
  }

  /** Different counts render differently. */
  lemma DecimalInjective(m: nat, n: nat)
    requires DecimalOf(m) == DecimalOf(n)
    ensures m == n
  {
    ValueOfDecimal(m);
    ValueOfDecimal(n);
  }
}
