/** JSON values as encoding/json decodes them into Go's `any`. */
module Json {
  import opened Decimal

  /** A number in scientific form: plus or minus 0.digits times ten to the power `point`. */
  datatype Scientific = Scientific(neg: bool, digits: string, point: int) {
    predicate Canonical() {
      && AllDigits(digits) && NoTrailingZero(digits)
      && (digits == "" ==> !neg && point == 0)
      && (digits != "" ==> digits[0] != '0')
    }
  }

  /** A decoded number: a float64 is identified with the shortest decimal that denotes it. */
  type Number = n: Scientific | n.Canonical() witness Scientific(false, "", 0)

  function Magnitude(n: Number): real {
    Fraction(n.digits) * Pow10(n.point)
  }

  function Value(n: Number): real {
    if n.neg then -Magnitude(n) else Magnitude(n)
  }

  lemma {:induction false} ProductPositive(x: real, y: real)
    requires x > 0.0 && y > 0.0
    ensures x * y > 0.0
  {
  }

  lemma {:induction false} ProductLess(f: real, g: real, p: real)
    requires f < g && p > 0.0
    ensures f * p < g * p
  {
    ProductPositive(g - f, p);
    assert (g - f) * p == g * p - f * p;
  }

  lemma {:induction false} BelowOne(f: real, p: real, m: real)
    requires f < 1.0 && p > 0.0 && m == f * p
    ensures m < p
  {
    ProductPositive(1.0 - f, p);
    assert (1.0 - f) * p == p - f * p;
  }

  lemma {:induction false} AboveTenth(f: real, p: real, m: real)
    requires f >= 0.1 && p > 0.0 && m == f * p
    ensures p <= 10.0 * m
  {
    if f > 0.1 { ProductPositive(f - 0.1, p); }
    assert (f - 0.1) * p == f * p - 0.1 * p;
  }

  lemma {:induction false} ScaledFraction(f: real, p: real, q: real, m: real)
    requires 0.1 <= f < 1.0 && p == 10.0 * q && q > 0.0 && m == f * p
    ensures q <= m < p
  {
    BelowOne(f, p, m);
    AboveTenth(f, p, m);
  }

  lemma {:induction false} ScalingIsInjective(f: real, g: real, p: real, m: real)
    requires p > 0.0 && m == f * p && m == g * p
    ensures f == g
  {
    if f < g {
      ProductLess(f, g, p);
    } else if g < f {
      ProductLess(g, f, p);
    }
  }

  lemma {:induction false} MagnitudeBounds(n: Number)
    requires n.digits != ""
    ensures 0.0 < Pow10(n.point - 1) <= Magnitude(n) < Pow10(n.point)
  {
    var f, p, q := Fraction(n.digits), Pow10(n.point), Pow10(n.point - 1);
    assert p == 10.0 * q by { Pow10Step(n.point - 1); }
    assert f >= 0.1 by { assert DigitValue(n.digits[0]) >= 1; }
    ScaledFraction(f, p, q, Magnitude(n));
  }

  lemma {:induction false} MagnitudeOrdersPoints(a: Number, b: Number)
    requires a.digits != "" && b.digits != "" && Magnitude(a) == Magnitude(b)
    ensures a.point <= b.point
  {
    MagnitudeBounds(a);
    MagnitudeBounds(b);
    if b.point < a.point {
      Pow10Monotone(b.point, a.point - 1);
    }
  }

  lemma {:induction false} MagnitudeInjective(a: Number, b: Number)
    requires a.digits != "" && b.digits != "" && Magnitude(a) == Magnitude(b)
    ensures a.point == b.point && a.digits == b.digits
  {
    MagnitudeOrdersPoints(a, b);
    MagnitudeOrdersPoints(b, a);
    ScalingIsInjective(Fraction(a.digits), Fraction(b.digits), Pow10(a.point), Magnitude(a));
    FractionInjective(a.digits, b.digits);
  }

  /** Different numbers have different values. */
  lemma {:induction false} ValueInjective(a: Number, b: Number)
    requires Value(a) == Value(b)
    ensures a == b
  {
    if a.digits != "" { MagnitudeBounds(a); }
    if b.digits != "" { MagnitudeBounds(b); }
    if a.digits != "" && b.digits != "" {
      MagnitudeInjective(a, b);
    }
  }

  datatype Json =
    | Null
    | Bool(b: bool)
    | Num(n: Number)
    | String(s: string)
    | Array(elems: seq<Json>)
    | Object(fields: map<string, Json>)

  const EmptyObject := Object(map[])

  /** Values that a flattened payload stores whole. */
  predicate IsLeaf(v: Json) { v.Object? ==> v == EmptyObject }

  datatype Option<+T> = None | Some(value: T)
}
