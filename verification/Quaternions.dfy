/** Rotation quaternions: the in-place operations of the fusion code and the algebra behind them. */
module Quaternions {
  import opened Numbers

  const MAG_TOL := 0.0001

  datatype Quat = Quat(a: real, b: real, c: real, d: real)

  const IDENTITY := Quat(0.0, 0.0, 0.0, 1.0)

  function Sum4(a: real, b: real, c: real, d: real): real {
    a * a + b * b + c * c + d * d
  }

  function Norm2(q: Quat): real {
    Sum4(q.a, q.b, q.c, q.d)
  }

  function Dot(p: Quat, q: Quat): real {
    p.a * q.a + p.b * q.b + p.c * q.c + p.d * q.d
  }

  /** Within the tolerance in which a quaternion counts as normalized. */
  predicate NearUnit(q: Quat) {
    1.0 - MAG_TOL <= Norm2(q) <= 1.0 + MAG_TOL
  }

  function Conjugate(q: Quat): Quat {
    Quat(-q.a, -q.b, -q.c, q.d)
  }

  function Negate(q: Quat): Quat {
    Quat(-q.a, -q.b, -q.c, -q.d)
  }

  function ProductA(p: Quat, q: Quat): real {
    p.d * q.a + p.a * q.d + p.b * q.c - p.c * q.b
  }

  function ProductB(p: Quat, q: Quat): real {
    p.d * q.b - p.a * q.c + p.b * q.d + p.c * q.a
  }

  function ProductC(p: Quat, q: Quat): real {
    p.d * q.c + p.a * q.b - p.b * q.a + p.c * q.d
  }

  function ProductD(p: Quat, q: Quat): real {
    p.d * q.d - p.a * q.a - p.b * q.b - p.c * q.c
  }

  function Product(p: Quat, q: Quat): Quat {
    Quat(ProductA(p, q), ProductB(p, q), ProductC(p, q), ProductD(p, q))
  }

  function Quotient(q: Quat, s: real): Quat
    requires s != 0.0
  {
    Quat(q.a / s, q.b / s, q.c / s, q.d / s)
  }

  function Mix(s: real, x: real, t: real, y: real): real {
    s * x + t * y
  }

  function Combination(s: real, p: Quat, t: real, q: Quat): Quat {
    Quat(Mix(s, p.a, t, q.a), Mix(s, p.b, t, q.b), Mix(s, p.c, t, q.c), Mix(s, p.d, t, q.d))
  }

  function Distance2(p: Quat, q: Quat): real {
    Sum4(p.a - q.a, p.b - q.b, p.c - q.c, p.d - q.d)
  }

  /** The result of renormalizing `q`, and 1 when `q` is too small for it. */
  function Renormalized(m: MathLibrary, q: Quat): (Quat, int)
    requires m.Valid()
  {
    var mag := Norm2(q);
    if mag < MAG_TOL then (IDENTITY, 1)
    else if mag > 1.0 + MAG_TOL || mag < 1.0 - MAG_TOL then
      RootPositive(m, mag);
      (Quotient(q, CopySign(m.sqrt(mag), q.d)), 0)
    else (q, 0)
  }

  /** The weight of `q` when interpolating from `p`: negative when `-q` is closer to `p` than `q`. */
  function Weight(p: Quat, q: Quat, alpha: real): real {
    if Distance2(p, Negate(q)) < Distance2(p, q) then -(1.0 - alpha) else 1.0 - alpha
  }

  /** The renormalized interpolant of `p` and whichever of `q`, `-q` is closer to `p`. */
  function Interpolated(m: MathLibrary, p: Quat, q: Quat, alpha: real): (Quat, int)
    requires m.Valid()
  {
    Renormalized(m, Combination(alpha, p, Weight(p, q, alpha), q))
  }

  // ----- algebra

  lemma FourSquaresExpanded(p: Quat, q: Quat)
    ensures Sum4(p.d * q.a + p.a * q.d + p.b * q.c - p.c * q.b,
                 p.d * q.b - p.a * q.c + p.b * q.d + p.c * q.a,
                 p.d * q.c + p.a * q.b - p.b * q.a + p.c * q.d,
                 p.d * q.d - p.a * q.a - p.b * q.b - p.c * q.c)
         == Times(Sum4(p.a, p.b, p.c, p.d), Sum4(q.a, q.b, q.c, q.d))
  {}

  lemma FourSquaresFolded(p: Quat, q: Quat)
    ensures Sum4(ProductA(p, q), ProductB(p, q), ProductC(p, q), ProductD(p, q))
         == Times(Sum4(p.a, p.b, p.c, p.d), Sum4(q.a, q.b, q.c, q.d))
  {
    hide Sum4;
    hide Times;
    FourSquaresExpanded(p, q);
    assert ProductA(p, q) == p.d * q.a + p.a * q.d + p.b * q.c - p.c * q.b;
    assert ProductB(p, q) == p.d * q.b - p.a * q.c + p.b * q.d + p.c * q.a;
    assert ProductC(p, q) == p.d * q.c + p.a * q.b - p.b * q.a + p.c * q.d;
    assert ProductD(p, q) == p.d * q.d - p.a * q.a - p.b * q.b - p.c * q.c;
  }

  /** Euler's four-square identity: the norm is multiplicative. */
  lemma FourSquares(p: Quat, q: Quat)
    ensures Norm2(Product(p, q)) == Times(Norm2(p), Norm2(q))
  {
    FourSquaresFolded(p, q);
    hide Sum4;
    hide Times;
    hide ProductA;
    hide ProductB;
    hide ProductC;
    hide ProductD;
  }

  lemma ProductTimes(p: Quat, q: Quat)
    ensures ProductA(p, q) == Times(p.d, q.a) + Times(p.a, q.d) + Times(p.b, q.c) - Times(p.c, q.b)
    ensures ProductB(p, q) == Times(p.d, q.b) - Times(p.a, q.c) + Times(p.b, q.d) + Times(p.c, q.a)
    ensures ProductC(p, q) == Times(p.d, q.c) + Times(p.a, q.b) - Times(p.b, q.a) + Times(p.c, q.d)
    ensures ProductD(p, q) == Times(p.d, q.d) - Times(p.a, q.a) - Times(p.b, q.b) - Times(p.c, q.c)
  {}

  lemma UnitTimes()
    ensures Times(0.0, 0.0) == 0.0 && Times(0.0, 1.0) == 0.0 && Times(1.0, 0.0) == 0.0 && Times(1.0, 1.0) == 1.0
  {}

  const UNIT_I := Quat(1.0, 0.0, 0.0, 0.0)
  const UNIT_J := Quat(0.0, 1.0, 0.0, 0.0)
  const UNIT_K := Quat(0.0, 0.0, 1.0, 0.0)

  /** Hamilton's rules for the three imaginary units. */
  lemma HamiltonRules()
    ensures Product(UNIT_I, UNIT_J) == UNIT_K && Product(UNIT_J, UNIT_K) == UNIT_I && Product(UNIT_K, UNIT_I) == UNIT_J
    ensures Product(UNIT_I, UNIT_I) == Quat(0.0, 0.0, 0.0, -1.0)
    ensures Product(UNIT_J, UNIT_J) == Quat(0.0, 0.0, 0.0, -1.0)
    ensures Product(UNIT_K, UNIT_K) == Quat(0.0, 0.0, 0.0, -1.0)
  {
    hide Times;
    hide ProductA;
    hide ProductB;
    hide ProductC;
    hide ProductD;
    UnitTimes();
    ProductTimes(UNIT_I, UNIT_J);
    ProductTimes(UNIT_J, UNIT_K);
    ProductTimes(UNIT_K, UNIT_I);
    ProductTimes(UNIT_I, UNIT_I);
    ProductTimes(UNIT_J, UNIT_J);
    ProductTimes(UNIT_K, UNIT_K);
  }

  lemma ProductExpanded(p: Quat, q: Quat)
    ensures Product(p, q) == Quat(p.d * q.a + p.a * q.d + p.b * q.c - p.c * q.b,
                                  p.d * q.b - p.a * q.c + p.b * q.d + p.c * q.a,
                                  p.d * q.c + p.a * q.b - p.b * q.a + p.c * q.d,
                                  p.d * q.d - p.a * q.a - p.b * q.b - p.c * q.c)
  {}

  lemma AssociativeA(p: Quat, q: Quat, r: Quat)
    ensures ProductA(Quat(p.d * q.a + p.a * q.d + p.b * q.c - p.c * q.b,
                       p.d * q.b - p.a * q.c + p.b * q.d + p.c * q.a,
                       p.d * q.c + p.a * q.b - p.b * q.a + p.c * q.d,
                       p.d * q.d - p.a * q.a - p.b * q.b - p.c * q.c), r)
         == ProductA(p, Quat(q.d * r.a + q.a * r.d + q.b * r.c - q.c * r.b,
                            q.d * r.b - q.a * r.c + q.b * r.d + q.c * r.a,
                            q.d * r.c + q.a * r.b - q.b * r.a + q.c * r.d,
                            q.d * r.d - q.a * r.a - q.b * r.b - q.c * r.c))
  {}

  lemma AssociativeB(p: Quat, q: Quat, r: Quat)
    ensures ProductB(Quat(p.d * q.a + p.a * q.d + p.b * q.c - p.c * q.b,
                       p.d * q.b - p.a * q.c + p.b * q.d + p.c * q.a,
                       p.d * q.c + p.a * q.b - p.b * q.a + p.c * q.d,
                       p.d * q.d - p.a * q.a - p.b * q.b - p.c * q.c), r)
         == ProductB(p, Quat(q.d * r.a + q.a * r.d + q.b * r.c - q.c * r.b,
                            q.d * r.b - q.a * r.c + q.b * r.d + q.c * r.a,
                            q.d * r.c + q.a * r.b - q.b * r.a + q.c * r.d,
                            q.d * r.d - q.a * r.a - q.b * r.b - q.c * r.c))
  {}

  lemma AssociativeC(p: Quat, q: Quat, r: Quat)
    ensures ProductC(Quat(p.d * q.a + p.a * q.d + p.b * q.c - p.c * q.b,
                       p.d * q.b - p.a * q.c + p.b * q.d + p.c * q.a,
                       p.d * q.c + p.a * q.b - p.b * q.a + p.c * q.d,
                       p.d * q.d - p.a * q.a - p.b * q.b - p.c * q.c), r)
         == ProductC(p, Quat(q.d * r.a + q.a * r.d + q.b * r.c - q.c * r.b,
                            q.d * r.b - q.a * r.c + q.b * r.d + q.c * r.a,
                            q.d * r.c + q.a * r.b - q.b * r.a + q.c * r.d,
                            q.d * r.d - q.a * r.a - q.b * r.b - q.c * r.c))
  {}

  lemma AssociativeD(p: Quat, q: Quat, r: Quat)
    ensures ProductD(Quat(p.d * q.a + p.a * q.d + p.b * q.c - p.c * q.b,
                       p.d * q.b - p.a * q.c + p.b * q.d + p.c * q.a,
                       p.d * q.c + p.a * q.b - p.b * q.a + p.c * q.d,
                       p.d * q.d - p.a * q.a - p.b * q.b - p.c * q.c), r)
         == ProductD(p, Quat(q.d * r.a + q.a * r.d + q.b * r.c - q.c * r.b,
                            q.d * r.b - q.a * r.c + q.b * r.d + q.c * r.a,
                            q.d * r.c + q.a * r.b - q.b * r.a + q.c * r.d,
                            q.d * r.d - q.a * r.a - q.b * r.b - q.c * r.c))
  {}

  lemma ProductAssociative(p: Quat, q: Quat, r: Quat)
    ensures Product(Product(p, q), r) == Product(p, Product(q, r))
  {
    AssociativeA(p, q, r);
    AssociativeB(p, q, r);
    AssociativeC(p, q, r);
    AssociativeD(p, q, r);
    ProductExpanded(p, q);
    ProductExpanded(q, r);
    hide ProductA;
    hide ProductB;
    hide ProductC;
    hide ProductD;
  }

  lemma ProductNegated(p: Quat, q: Quat)
    ensures Product(Negate(p), q) == Negate(Product(p, q))
  {}

  lemma NegateTwice(q: Quat)
    ensures Negate(Negate(q)) == q
  {}

  lemma SignNorms(q: Quat)
    ensures Norm2(Conjugate(q)) == Norm2(q)
    ensures Norm2(Negate(q)) == Norm2(q)
  {
    assert Sum4(-q.a, -q.b, -q.c, q.d) == Sum4(q.a, q.b, q.c, q.d);
    assert Sum4(-q.a, -q.b, -q.c, -q.d) == Sum4(q.a, q.b, q.c, q.d);
    hide Sum4;
  }

  /** On any quaternion the conjugate is the inverse, up to the squared norm. */
  lemma ConjugateInverts(q: Quat)
    ensures Product(q, Conjugate(q)) == Quat(0.0, 0.0, 0.0, Norm2(q))
    ensures Product(Conjugate(q), q) == Quat(0.0, 0.0, 0.0, Norm2(q))
  {}

  lemma CombinationNormExpanded(s: real, p: Quat, t: real, q: Quat)
    ensures Sum4(s * p.a + t * q.a, s * p.b + t * q.b, s * p.c + t * q.c, s * p.d + t * q.d)
         == Times(Square(s), Sum4(p.a, p.b, p.c, p.d)) + Times(Square(t), Sum4(q.a, q.b, q.c, q.d))
            + 2.0 * Times(s, Times(t, Dot(p, q)))
  {}

  lemma CombinationNormFolded(s: real, p: Quat, t: real, q: Quat)
    ensures Sum4(Mix(s, p.a, t, q.a), Mix(s, p.b, t, q.b), Mix(s, p.c, t, q.c), Mix(s, p.d, t, q.d))
         == Times(Square(s), Sum4(p.a, p.b, p.c, p.d)) + Times(Square(t), Sum4(q.a, q.b, q.c, q.d))
            + 2.0 * Times(s, Times(t, Dot(p, q)))
  {
    hide Sum4;
    hide Times;
    hide Square;
    hide Dot;
    CombinationNormExpanded(s, p, t, q);
    assert Mix(s, p.a, t, q.a) == s * p.a + t * q.a;
    assert Mix(s, p.b, t, q.b) == s * p.b + t * q.b;
    assert Mix(s, p.c, t, q.c) == s * p.c + t * q.c;
    assert Mix(s, p.d, t, q.d) == s * p.d + t * q.d;
  }

  lemma CombinationNorm(s: real, p: Quat, t: real, q: Quat)
    ensures Norm2(Combination(s, p, t, q))
         == Times(Square(s), Norm2(p)) + Times(Square(t), Norm2(q)) + 2.0 * Times(s, Times(t, Dot(p, q)))
  {
    CombinationNormFolded(s, p, t, q);
    hide Mix;
    hide Sum4;
    hide Times;
    hide Square;
    hide Dot;
  }

  /** The distance test picks the sign that makes the dot product non-negative. */
  lemma ShorterArc(p: Quat, q: Quat)
    ensures Distance2(p, Negate(q)) < Distance2(p, q) <==> Dot(p, q) < 0.0
  {
    assert Sum4(p.a - -q.a, p.b - -q.b, p.c - -q.c, p.d - -q.d)
        == Sum4(p.a - q.a, p.b - q.b, p.c - q.c, p.d - q.d) + 4.0 * Dot(p, q);
    hide Sum4;
    hide Dot;
  }

  lemma QuotientNormExpanded(q: Quat, s: real)
    requires s != 0.0
    ensures Times(Sum4(q.a / s, q.b / s, q.c / s, q.d / s), Square(s)) == Sum4(q.a, q.b, q.c, q.d)
  {
    ScaledNorm(q.a / s, q.b / s, q.c / s, q.d / s, s);
    hide Sum4;
    hide Times;
    hide Square;
    assert (q.a / s) * s == q.a && (q.b / s) * s == q.b && (q.c / s) * s == q.c && (q.d / s) * s == q.d;
  }

  lemma ScaledNorm(a: real, b: real, c: real, d: real, s: real)
    ensures Times(Sum4(a, b, c, d), Square(s)) == Sum4(a * s, b * s, c * s, d * s)
  {}

  /** Renormalizing fails exactly on small quaternions; it leaves a nearly normalized one alone
      and scales any other to norm 1 with a non-negative scalar part. */
  lemma RenormalizedMeaning(m: MathLibrary, q: Quat)
    requires m.Valid()
    ensures var (r, ret) := Renormalized(m, q);
      && (ret == 1 <==> Norm2(q) < MAG_TOL)
      && (ret == 0 || (ret == 1 && r == IDENTITY))
      && NearUnit(r)
      && (NearUnit(q) ==> r == q)
      && (!NearUnit(q) ==> Norm2(r) == 1.0 && 0.0 <= r.d)
  {
    var mag := Norm2(q);
    assert Sum4(0.0, 0.0, 0.0, 1.0) == 1.0;
    hide Sum4;
    if MAG_TOL <= mag && !NearUnit(q) {
      RescaledToUnit(m, q);
    }
  }

  /** The three outcomes in numbers: the identity and code 1, no change, or a positive multiple of the
      quaternion or of its negative, whichever has the non-negative scalar part. */
  lemma RenormalizedExactly(m: MathLibrary, q: Quat)
    requires m.Valid()
    ensures Norm2(q) < 0.0001 ==> Renormalized(m, q) == (Quat(0.0, 0.0, 0.0, 1.0), 1)
    ensures 0.9999 <= Norm2(q) <= 1.0001 ==> Renormalized(m, q) == (q, 0)
    ensures 0.0001 <= Norm2(q) && !(0.9999 <= Norm2(q) <= 1.0001) ==>
      var r, l := Renormalized(m, q).0, if q.d < 0.0 then -m.sqrt(Norm2(q)) else m.sqrt(Norm2(q));
      && Renormalized(m, q).1 == 0 && Square(l) == Norm2(q)
      && q == Quat(Times(r.a, l), Times(r.b, l), Times(r.c, l), Times(r.d, l))
  {
    var n := Norm2(q);
    hide Norm2;
    if 0.0001 <= n && !(0.9999 <= n <= 1.0001) {
      RootPositive(m, n);
      assert Square(-m.sqrt(n)) == Square(m.sqrt(n));
      var l := if q.d < 0.0 then -m.sqrt(n) else m.sqrt(n);
      QuotientTimes(q, l);
      hide Square;
      hide Times;
      hide Quotient;
    }
  }

  lemma QuotientTimes(q: Quat, s: real)
    requires s != 0.0
    ensures var r := Quotient(q, s); q == Quat(Times(r.a, s), Times(r.b, s), Times(r.c, s), Times(r.d, s))
  {}

  lemma RescaledToUnit(m: MathLibrary, q: Quat)
    requires m.Valid() && 0.0 < Norm2(q)
    ensures var s := CopySign(m.sqrt(Norm2(q)), q.d);
      s != 0.0 && Norm2(Quotient(q, s)) == 1.0 && 0.0 <= Quotient(q, s).d
  {
    var mag := Norm2(q);
    var s := CopySign(m.sqrt(mag), q.d);
    RootPositive(m, mag);
    assert Square(-m.sqrt(mag)) == Square(m.sqrt(mag));
    QuotientNormExpanded(q, s);
    QuotientSign(q.d, s);
    hide Sum4;
    hide Square;
    hide Times;
    UnitFactor(Norm2(Quotient(q, s)), mag);
  }

  /** Between nearly normalized quaternions the shorter-arc interpolant never degenerates. */
  lemma InterpolationSucceeds(m: MathLibrary, p: Quat, q: Quat, alpha: real)
    requires m.Valid() && NearUnit(p) && NearUnit(q) && 0.0 <= alpha <= 1.0
    ensures Interpolated(m, p, q, alpha).1 == 0
    ensures NearUnit(Interpolated(m, p, q, alpha).0)
  {
    ShorterArcNorm(p, q, alpha);
    hide Combination;
    hide Weight;
    hide Norm2;
    hide Renormalized;
    RenormalizedMeaning(m, Combination(alpha, p, Weight(p, q, alpha), q));
  }

  /** The interpolant before renormalization: `alpha` of `p` and the rest of `q`, or of `-q` if that is on
      the side of `p`. */
  lemma InterpolatedExactly(m: MathLibrary, p: Quat, q: Quat, alpha: real)
    requires m.Valid()
    ensures var v := if Dot(p, q) < 0.0 then alpha - 1.0 else 1.0 - alpha;
      Interpolated(m, p, q, alpha)
      == Renormalized(m, Quat(Times(alpha, p.a) + Times(v, q.a), Times(alpha, p.b) + Times(v, q.b),
                              Times(alpha, p.c) + Times(v, q.c), Times(alpha, p.d) + Times(v, q.d)))
  {
    ShorterArc(p, q);
    var v := if Dot(p, q) < 0.0 then alpha - 1.0 else 1.0 - alpha;
    assert Weight(p, q, alpha) == v by { hide Dot; hide Distance2; }
    CombinationTimes(alpha, p, v, q);
    hide Renormalized;
    hide Dot;
    hide Weight;
    hide Times;
    hide Combination;
  }

  lemma CombinationTimes(s: real, p: Quat, t: real, q: Quat)
    ensures Combination(s, p, t, q) == Quat(Times(s, p.a) + Times(t, q.a), Times(s, p.b) + Times(t, q.b),
                                            Times(s, p.c) + Times(t, q.c), Times(s, p.d) + Times(t, q.d))
  {}

  lemma ShorterArcNorm(p: Quat, q: Quat, alpha: real)
    requires NearUnit(p) && NearUnit(q) && 0.0 <= alpha <= 1.0
    ensures 0.4 <= Norm2(Combination(alpha, p, Weight(p, q, alpha), q))
  {
    hide Combination;
    hide Distance2;
    hide Norm2;
    hide Dot;
    hide Times;
    hide Square;
    var beta := Weight(p, q, alpha);
    ShorterArc(p, q);
    CombinationNorm(alpha, p, beta, q);
    CrossTerm(beta, Dot(p, q));
    TimesNonNegative(alpha, Times(beta, Dot(p, q)));
    HalfSquares(alpha, beta);
    Weighted(Square(alpha), Square(beta), Norm2(p), Norm2(q));
  }

  lemma CrossTerm(t: real, dot: real)
    requires if dot < 0.0 then t <= 0.0 else 0.0 <= t
    ensures 0.0 <= Times(t, dot)
  {}

  lemma HalfSquares(s: real, t: real)
    requires s + t == 1.0 || s - t == 1.0
    ensures 0.5 <= Square(s) + Square(t) && 0.0 <= Square(s) && 0.0 <= Square(t)
  {
    SquareNonNegative(s - 0.5);
    assert Square(s) + Square(t) == 2.0 * Square(s - 0.5) + 0.5;
    SquareNonNegative(s);
    SquareNonNegative(t);
    hide Square;
  }

  lemma Weighted(s: real, t: real, x: real, y: real)
    requires 0.0 <= s && 0.0 <= t && 0.5 <= s + t
    requires 0.8 <= x && 0.8 <= y
    ensures 0.4 <= Times(s, x) + Times(t, y)
  {
    TimesMonotone(s, 0.8, x);
    TimesMonotone(t, 0.8, y);
    assert Times(s, 0.8) + Times(t, 0.8) == 0.8 * (s + t);
    hide Times;
  }

  // ----- the mutable structure and the operations on it

  class QuatData {
    var a: real
    var b: real
    var c: real
    var d: real
    var accuracy: real
    var timestamp: int

    constructor (q: Quat, accuracy: real, timestamp: int)
      ensures Value() == q && this.accuracy == accuracy && this.timestamp == timestamp
    {
      a, b, c, d := q.a, q.b, q.c, q.d;
      this.accuracy, this.timestamp := accuracy, timestamp;
    }

    function Value(): Quat
      reads this
    {
      Quat(a, b, c, d)
    }

    method Store(q: Quat)
      modifies this`a, this`b, this`c, this`d
      ensures Value() == q
    {
      a, b, c, d := q.a, q.b, q.c, q.d;
    }

    /** Structure assignment. */
    method Assign(other: QuatData)
      modifies this
      ensures Value() == old(other.Value())
      ensures accuracy == old(other.accuracy) && timestamp == old(other.timestamp)
    {
      a, b, c, d := other.a, other.b, other.c, other.d;
      accuracy, timestamp := other.accuracy, other.timestamp;
    }
  }

  method Inv(out: QuatData, q: QuatData)
    modifies out`a, out`b, out`c, out`d
    ensures out.Value() == Conjugate(old(q.Value()))
  {
    out.a := -q.a;
    out.b := -q.b;
    out.c := -q.c;
    out.d := q.d;
  }

  method Renormalize(m: MathLibrary, q: QuatData) returns (ret: int)
    requires m.Valid()
    modifies q`a, q`b, q`c, q`d
    ensures (q.Value(), ret) == Renormalized(m, old(q.Value()))
  {
    hide Norm2;
    hide Quotient;
    var mag := Norm2(q.Value());
    if mag < MAG_TOL {
      q.Store(Quat(0.0, 0.0, 0.0, 1.0));
      return 1;
    } else if mag > 1.0 + MAG_TOL || mag < 1.0 - MAG_TOL {
      RootPositive(m, mag);
      mag := CopySign(m.sqrt(mag), q.d);
      q.Store(Quotient(q.Value(), mag));
    }
    return 0;
  }

  /** The product, renormalized; `q` may be `q1` or `q2`. */
  method Mul(m: MathLibrary, q: QuatData, q1: QuatData, q2: QuatData) returns (ret: int)
    requires m.Valid()
    modifies q`a, q`b, q`c, q`d
    ensures (q.Value(), ret) == Renormalized(m, Product(old(q1.Value()), old(q2.Value())))
  {
    hide Product;
    hide Renormalized;
    var out := new QuatData(Product(q1.Value(), q2.Value()), 0.0, 0);
    ret := Renormalize(m, out);
    q.Store(out.Value());
  }

  method MulNoRenormalize(q: QuatData, q1: QuatData, q2: QuatData)
    modifies q`a, q`b, q`c, q`d
    ensures q.Value() == Product(old(q1.Value()), old(q2.Value()))
  {
    hide Product;
    var out := Product(q1.Value(), q2.Value());
    q.Store(out);
  }

  /** The shorter-arc interpolant; `out` may be `q1` or `q2`. */
  method LinInterp(m: MathLibrary, out: QuatData, q1: QuatData, q2: QuatData, alpha: real) returns (ret: int)
    requires m.Valid()
    modifies out`a, out`b, out`c, out`d
    ensures (out.Value(), ret) == Interpolated(m, old(q1.Value()), old(q2.Value()), alpha)
  {
    hide Distance2;
    hide Mix;
    hide Renormalized;
    var oneMinusAlpha := 1.0 - alpha;
    var minusQ2 := Negate(q2.Value());
    if Distance2(q1.Value(), minusQ2) < Distance2(q1.Value(), q2.Value()) {
      oneMinusAlpha := -oneMinusAlpha;
    }
    out.a := Mix(alpha, q1.a, oneMinusAlpha, q2.a);
    out.b := Mix(alpha, q1.b, oneMinusAlpha, q2.b);
    out.c := Mix(alpha, q1.c, oneMinusAlpha, q2.c);
    out.d := Mix(alpha, q1.d, oneMinusAlpha, q2.d);
    ret := Renormalize(m, out);
  }
}
