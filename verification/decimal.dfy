/**
 Decimal rendering of naturals, as Java's string concatenation `prefix + i`
 renders a non-negative `int`, together with the parse back to a number that
 shows the rendering loses nothing: distinct indices give distinct names.
 */
module Decimal {

  predicate IsDigit(ch: char) {
    '0' <= ch <= '9'
  }

  predicate AllDigits(s: string) {
    forall i :: 0 <= i < |s| ==> IsDigit(s[i])
  }

  function DigitValue(ch: char): nat
    requires IsDigit(ch)
  {
    ch as int - '0' as int
  }

  function DigitChar(d: nat): (ch: char)
    requires d < 10
    ensures IsDigit(ch) && DigitValue(ch) == d
  {
    ('0' as int + d) as char
  }

  /** The decimal digits of n, most significant first, without leading zeros
      (`Integer.toString(n)` for n >= 0). */
  function Digits(n: nat): (s: string)
    ensures |s| >= 1 && AllDigits(s)
    ensures s[0] == '0' <==> n == 0
    decreases n
  {
    if n < 10 then [DigitChar(n)] else Digits(n / 10) + [DigitChar(n % 10)]
  }

  /** The number a string of decimal digits denotes. */
  function Value(s: string): nat
    requires AllDigits(s)
  {
    if |s| == 0 then 0 else Value(s[..|s| - 1]) * 10 + DigitValue(s[|s| - 1])
  }

  /** Reading the digits of n back gives n. */
  lemma {:induction false} ValueOfDigits(n: nat)
    ensures Value(Digits(n)) == n
  {
    if n >= 10 {
      var s := Digits(n);
      assert s[..|s| - 1] == Digits(n / 10);
      ValueOfDigits(n / 10);
    }
  }

  lemma DigitsInjective(a: nat, b: nat)
    ensures Digits(a) == Digits(b) ==> a == b
  {
    ValueOfDigits(a);
    ValueOfDigits(b);
  }

  /** `prefix + a` and `prefix + b` are the same string only when a == b. */
  lemma PrefixedInjective(prefix: string, a: nat, b: nat)
    ensures prefix + Digits(a) == prefix + Digits(b) ==> a == b
  {
    if prefix + Digits(a) == prefix + Digits(b) {
      assert (prefix + Digits(a))[|prefix|..] == Digits(a);
      assert (prefix + Digits(b))[|prefix|..] == Digits(b);
      DigitsInjective(a, b);
    }
  }
}
