/** Exact real arithmetic standing for the C math library and its float constants. */
module Numbers {

  const FLT_MAX := 340282346638528859811704183484516925440.0
  const FLT_EPSILON := 0.00000011920928955078125

  function Abs(x: real): real {
    if x < 0.0 then -x else x
  }

  /** The magnitude of `x` with the sign of `s`; exact reals have no negative zero. */
  function CopySign(x: real, s: real): real {
    if s < 0.0 then -Abs(x) else Abs(x)
  }

  // Multiplication by name: proofs hide these two and reason about products as about any function.

  function Times(x: real, y: real): real {
    x * y
  }

  function Square(x: real): real {
    x * x
  }

  /** The functions of the C math library used by the fusion code. */
  datatype MathLibrary = MathLibrary(sqrt: real -> real, sin: real -> real, cos: real -> real) {
    ghost predicate Valid() {
      && (forall x {:trigger sqrt(x)} :: 0.0 <= x ==> 0.0 <= sqrt(x) && Square(sqrt(x)) == x)
      && (forall t {:trigger sin(t)} :: Square(sin(t)) + Square(cos(t)) == 1.0)
      && sin(0.0) == 0.0
      && cos(0.0) == 1.0
    }
  }

  lemma RootPositive(m: MathLibrary, x: real)
    requires m.Valid() && 0.0 < x
    ensures 0.0 < m.sqrt(x) && Square(m.sqrt(x)) == x
  {
    assert Square(0.0) == 0.0;
    hide Square;
  }

  lemma SquarePositive(x: real)
    requires x != 0.0
    ensures 0.0 < Square(x)
  {
    TimesPositive(Abs(x), Abs(x));
    assert Times(Abs(x), Abs(x)) == Square(x);
    hide Square;
    hide Times;
  }

  lemma TimesPositive(x: real, y: real)
    requires 0.0 < x && 0.0 < y
    ensures 0.0 < Times(x, y)
  {}

  lemma SquareNonNegative(x: real)
    ensures 0.0 <= Square(x)
  {}

  /** Non-negative numbers are ordered as their squares. */
  lemma SquareOrder(x: real, y: real)
    requires 0.0 <= x && 0.0 <= y
    ensures x < y <==> Square(x) < Square(y)
  {
    if x < y {
      ProductOrder(x, y);
    } else if y < x {
      ProductOrder(y, x);
    }
  }

  lemma ProductOrder(x: real, y: real)
    requires 0.0 <= x < y
    ensures x * x < y * y
  {
    calc { x * x; <= x * y; < y * y; }
  }

  /** Non-negative numbers with the same square are equal. */
  lemma SquareInjective(x: real, y: real)
    requires 0.0 <= x && 0.0 <= y && Square(x) == Square(y)
    ensures x == y
  {
    hide Square;
    SquareOrder(x, y);
    SquareOrder(y, x);
  }

  lemma TimesMonotone(a: real, x: real, y: real)
    requires 0.0 <= a && x <= y
    ensures Times(a, x) <= Times(a, y)
  {}

  lemma TimesNonNegative(x: real, y: real)
    requires 0.0 <= x && 0.0 <= y
    ensures 0.0 <= Times(x, y)
  {}

  /** A factor that leaves a positive number unchanged is 1. */
  lemma UnitFactor(x: real, y: real)
    requires 0.0 < y && Times(x, y) == y
    ensures x == 1.0
  {
    assert (x - 1.0) * y == 0.0;
  }

  /** A quotient whose parts agree in sign is not negative. */
  lemma QuotientSign(x: real, s: real)
    requires s != 0.0 && (x < 0.0 <==> s < 0.0)
    ensures 0.0 <= x / s
  {
    var r := x / s;
    assert r * s == x;
    assert r < 0.0 && s < 0.0 ==> r * s > 0.0;
    assert r < 0.0 && 0.0 < s ==> r * s < 0.0;
  }
}
