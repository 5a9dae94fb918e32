/** Decimal digits: printing a natural number, reading it back, and the exact values of decimal fractions. */
module Decimal {

  predicate IsDigit(c: char) { '0' <= c <= '9' }

  predicate AllDigits(s: string) { forall i | 0 <= i < |s| :: IsDigit(s[i]) }

  function DigitValue(c: char): (d: nat)
    requires IsDigit(c)
    ensures d < 10
  {
    c as int - '0' as int
  }

  function DigitChar(d: nat): (c: char)
    requires d < 10
    ensures IsDigit(c) && DigitValue(c) == d
  {
    (d + '0' as int) as char
  }

  /** fmt "%d" of a non-negative integer */
  function Print(n: nat): (s: string)
    ensures s != [] && AllDigits(s)
  {
    if n < 10 then [DigitChar(n)] else Print(n / 10) + [DigitChar(n % 10)]
  }

  /** the number a digit string denotes, leading zeros allowed */
  function Parse(s: string): nat
    requires AllDigits(s)
  {
    if s == [] then 0 else 10 * Parse(s[..|s| - 1]) + DigitValue(s[|s| - 1])
  }

  lemma {:induction false} ParsePrint(n: nat)
    ensures Parse(Print(n)) == n
  {
    if n >= 10 {
      ParsePrint(n / 10);
      assert Print(n)[..|Print(n)| - 1] == Print(n / 10);
    } else {
      assert Print(n)[..0] == "";
    }
  }

  /** 10 to an integer power */
  function Pow10(e: int): (r: real)
    ensures r > 0.0
    decreases if e < 0 then -e else e
  {
    if e == 0 then 1.0 else if e > 0 then 10.0 * Pow10(e - 1) else Pow10(e + 1) / 10.0
  }

  lemma {:induction false} Pow10Step(e: int)
    ensures Pow10(e + 1) == 10.0 * Pow10(e)
  {
  }

  lemma {:induction false} Pow10Monotone(a: int, b: int)
    requires a <= b
    ensures Pow10(a) <= Pow10(b)
    decreases b - a
  {
    if a < b {
      Pow10Monotone(a, b - 1);
      Pow10Step(b - 1);
    }
  }

  /** 0.d1d2d3... */
  function Fraction(s: string): (r: real)
    requires AllDigits(s)
    ensures 0.0 <= r < 1.0
  {
    if s == [] then 0.0 else (DigitValue(s[0]) as real + Fraction(s[1..])) / 10.0
  }

  predicate NoTrailingZero(s: string) { s != [] ==> s[|s| - 1] != '0' }

  lemma {:induction false} FractionPositive(s: string)
    requires AllDigits(s) && s != [] && NoTrailingZero(s)
    ensures Fraction(s) > 0.0
  {
    if |s| > 1 {
      FractionPositive(s[1..]);
    }
  }

  lemma {:induction false} IntegerPart(a: int, b: int, x: real, y: real)
    requires 0.0 <= x < 1.0 && 0.0 <= y < 1.0
    requires a as real + x == b as real + y
    ensures a == b
  {
  }

  lemma {:induction false} FractionInjective(s: string, t: string)
    requires AllDigits(s) && AllDigits(t) && NoTrailingZero(s) && NoTrailingZero(t)
    requires Fraction(s) == Fraction(t)
    ensures s == t
  {
    if s == [] || t == [] {
      if s != [] { FractionPositive(s); }
      if t != [] { FractionPositive(t); }
    } else {
      IntegerPart(DigitValue(s[0]), DigitValue(t[0]), Fraction(s[1..]), Fraction(t[1..]));
      FractionInjective(s[1..], t[1..]);
      assert s == [s[0]] + s[1..] && t == [t[0]] + t[1..];
    }
  }
}
