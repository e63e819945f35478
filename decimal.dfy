/**
 * The decimal numeral JavaScript writes when a non-negative integer below
 * 2^53 is put into a template string (`${i}`), and the value read back from
 * a numeral. From 10^21 on JavaScript writes exponent notation, but the
 * scripts' counters are doubles that never get past 2^53.
 */
module Decimal {

  predicate IsDigit(c: char)
  {
    '0' <= c <= '9'
  }

  function DigitChar(d: nat): (c: char)
    requires d < 10
    ensures IsDigit(c)
  {
    ('0' as int + d) as char
  }

  function DigitValue(c: char): nat
    requires IsDigit(c)
  {
    (c as int - '0' as int)
  }

  /** The shortest decimal numeral of `n`, most significant digit first. */
  function Show(n: nat): (s: string)
    ensures |s| >= 1 && forall c <- s :: IsDigit(c)
    ensures n >= 10 ==> |s| >= 2
  {
    if n < 10 then [DigitChar(n)] else Show(n / 10) + [DigitChar(n % 10)]
  }

  /** The number a string of digits denotes. */
  function Value(s: string): nat
    requires forall c <- s :: IsDigit(c)
  {
    if s == [] then 0 else Value(s[..|s| - 1]) * 10 + DigitValue(s[|s| - 1])
  }

  /** Reading back the numeral `Show` writes gives the number again. */
  lemma {:induction false} ValueOfShow(n: nat)
    ensures Value(Show(n)) == n
  {
    var s := Show(n);
    if n >= 10 {
      ValueOfShow(n / 10);
      assert s[..|s| - 1] == Show(n / 10);
    }
  }

  /** Distinct numbers are written as distinct numerals. */
  lemma ShowInjective(a: nat, b: nat)
    requires Show(a) == Show(b)
    ensures a == b
  {
    ValueOfShow(a);
    ValueOfShow(b);
  }
}
