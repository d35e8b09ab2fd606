/** Gravity and linear acceleration from the game rotation vector. */
module LinearAccelGravity {
  import opened Numbers
  import opened Quaternions
  import opened Vectors
  import opened Frames
  import opened Fusion
  import GameRotation

  /** Standard gravity, as Android's sensor header defines it. */
  const GRAVITY_EARTH := 9.80665

  /** The world's up axis seen from the device, renormalized on the way as the code does. */
  function UpQuat(m: MathLibrary, q: Quat): Quat
    requires m.Valid()
  {
    Product(Conjugate(q), Renormalized(m, Product(Pure(AXIS_Z), q)).0)
  }

  function PartOf(x: real, mag: real): real
    requires mag != 0.0
  {
    (x / mag) * GRAVITY_EARTH
  }

  /** The vector part of `u`, of length `mag`, brought to the length of gravity. */
  function GravityVector(u: Quat, mag: real): Vec
    requires mag != 0.0
  {
    Vec(PartOf(u.a, mag), PartOf(u.b, mag), PartOf(u.c, mag))
  }

  function Opposite(v: Vec): Vec {
    Vec(-v.x, -v.y, -v.z)
  }

  /** The gravity vector of a rotation: the turned z axis, scaled to gravity's length. */
  function TrueGravity(q: Quat): Vec
    requires Norm2(q) != 0.0
  {
    GravityVector(Turned(q, AXIS_Z), Norm2(q))
  }

  // ----- the turned axis

  lemma TurnedScalarExpanded(q: Quat)
    ensures Turned(q, AXIS_Z).d == 0.0
  {
    TurnedZ(q);
  }

  lemma TurnedNorm(q: Quat)
    ensures Norm2(Turned(q, AXIS_Z)) == Square(Norm2(q))
  {
    FourSquares(Conjugate(q), Product(Pure(AXIS_Z), q));
    FourSquares(Pure(AXIS_Z), q);
    SignNorms(q);
    assert Norm2(Pure(AXIS_Z)) == 1.0;
    hide Norm2;
    hide Product;
    assert Times(1.0, Norm2(q)) == Norm2(q);
    assert Times(Norm2(q), Norm2(q)) == Square(Norm2(q));
    hide Times;
    hide Square;
  }

  lemma PartsExpanded(a: real, b: real, c: real, mag: real)
    requires mag != 0.0
    ensures Times(Dot3(Vec(PartOf(a, mag), PartOf(b, mag), PartOf(c, mag)),
                       Vec(PartOf(a, mag), PartOf(b, mag), PartOf(c, mag))), Square(mag))
         == Times(a * a + b * b + c * c, Square(GRAVITY_EARTH))
  {
    var x, y, z := a / mag, b / mag, c / mag;
    ScaledParts(x, y, z, mag, GRAVITY_EARTH);
    assert x * mag == a && y * mag == b && z * mag == c;
    hide Dot3;
    hide Times;
    hide Square;
  }

  lemma ScaledParts(x: real, y: real, z: real, s: real, g: real)
    ensures Times(Dot3(Vec(x * g, y * g, z * g), Vec(x * g, y * g, z * g)), Square(s))
         == Times((x * s) * (x * s) + (y * s) * (y * s) + (z * s) * (z * s), Square(g))
  {}

  lemma SumOfSquares(q: Quat)
    ensures Norm2(q) == Square(q.a) + Square(q.b) + Square(q.c) + Square(q.d)
  {}

  const ZERO := Quat(0.0, 0.0, 0.0, 0.0)

  /** Only the all-zero quaternion, the value before the first accepted reading, has norm 0. */
  lemma NormPositive(q: Quat)
    ensures 0.0 < Norm2(q) <==> q != ZERO
  {
    SumOfSquares(q);
    hide Sum4;
    assert Square(0.0) == 0.0;
    SquareNonNegative(q.a);
    SquareNonNegative(q.b);
    SquareNonNegative(q.c);
    SquareNonNegative(q.d);
    if q.a != 0.0 { SquarePositive(q.a); }
    if q.b != 0.0 { SquarePositive(q.b); }
    if q.c != 0.0 { SquarePositive(q.c); }
    if q.d != 0.0 { SquarePositive(q.d); }
    hide Square;
  }

  lemma UpQuatNonZero(m: MathLibrary, q: Quat)
    requires m.Valid() && 0.0 < Norm2(q)
    ensures 0.0 < Norm2(UpQuat(m, q)) && 0.0 < m.sqrt(Norm2(UpQuat(m, q)))
  {
    var p := Product(Pure(AXIS_Z), q);
    RenormalizedMeaning(m, p);
    FourSquares(Conjugate(q), Renormalized(m, p).0);
    SignNorms(q);
    hide Norm2;
    hide Product;
    hide Renormalized;
    TimesPositive(Norm2(q), Norm2(Renormalized(m, p).0));
    RootPositive(m, Norm2(UpQuat(m, q)));
  }

  /** The gravity the code computes. */
  function Gravity(m: MathLibrary, q: Quat): Vec
    requires m.Valid() && 0.0 < Norm2(q)
  {
    UpQuatNonZero(m, q);
    GravityVector(UpQuat(m, q), m.sqrt(Norm2(UpQuat(m, q))))
  }

  // ----- gravity is right

  /** The turned up axis, scaled, has exactly the length of gravity. */
  lemma TrueGravityLength(q: Quat)
    requires Norm2(q) != 0.0
    ensures Dot3(TrueGravity(q), TrueGravity(q)) == Square(GRAVITY_EARTH)
  {
    var t, n := Turned(q, AXIS_Z), Norm2(q);
    TurnedNorm(q);
    TurnedScalarExpanded(q);
    assert Sum4(t.a, t.b, t.c, 0.0) == t.a * t.a + t.b * t.b + t.c * t.c;
    PartsExpanded(t.a, t.b, t.c, n);
    SquarePositive(n);
    var g := TrueGravity(q);
    assert Times(Dot3(g, g), Square(n)) == Times(Square(n), Dot3(g, g));
    hide Dot3;
    hide Times;
    hide Square;
    hide Sum4;
    hide Turned;
    CancelFactor(Square(n), Dot3(g, g), Square(GRAVITY_EARTH));
  }

  lemma NearUnitGravity(m: MathLibrary, q: Quat)
    requires m.Valid() && NearUnit(q)
    ensures UpQuat(m, q) == Turned(q, AXIS_Z)
    ensures Gravity(m, q) == TrueGravity(q)
  {
    var p := Product(Pure(AXIS_Z), q);
    FourSquares(Pure(AXIS_Z), q);
    assert Norm2(Pure(AXIS_Z)) == 1.0;
    assert Times(1.0, Norm2(q)) == Norm2(q);
    RenormalizedMeaning(m, p);
    TurnedNorm(q);
    hide Norm2;
    hide Product;
    hide Renormalized;
    hide Times;
    hide Square;
    RootPositive(m, Norm2(UpQuat(m, q))) by { UpQuatNonZero(m, q); }
    SquareInjective(m.sqrt(Norm2(UpQuat(m, q))), Norm2(q));
  }

  lemma ProductOfQuotient(p: Quat, r: Quat, s: real)
    requires s != 0.0
    ensures Product(p, Quotient(r, s)) == Quotient(Product(p, r), s)
  {
    ProductAOfQuotient(p, r, s);
    ProductBOfQuotient(p, r, s);
    ProductCOfQuotient(p, r, s);
    ProductDOfQuotient(p, r, s);
    hide ProductA;
    hide ProductB;
    hide ProductC;
    hide ProductD;
  }

  lemma ProductAOfQuotient(p: Quat, r: Quat, s: real)
    requires s != 0.0
    ensures ProductA(p, Quotient(r, s)) == ProductA(p, r) / s
  {}

  lemma ProductBOfQuotient(p: Quat, r: Quat, s: real)
    requires s != 0.0
    ensures ProductB(p, Quotient(r, s)) == ProductB(p, r) / s
  {}

  lemma ProductCOfQuotient(p: Quat, r: Quat, s: real)
    requires s != 0.0
    ensures ProductC(p, Quotient(r, s)) == ProductC(p, r) / s
  {}

  lemma ProductDOfQuotient(p: Quat, r: Quat, s: real)
    requires s != 0.0
    ensures ProductD(p, Quotient(r, s)) == ProductD(p, r) / s
  {}

  lemma PartOfQuotient(x: real, s: real, r: real, n: real)
    requires 0.0 < r && n != 0.0 && Square(r) == n && (s == r || s == -r)
    ensures PartOf(x / s, r) == if s == r then PartOf(x, n) else -PartOf(x, n)
  {}

  lemma RescaledGravity(m: MathLibrary, q: Quat)
    requires m.Valid() && MAG_TOL <= Norm2(q) && !NearUnit(q)
    ensures Gravity(m, q) == if q.c <= 0.0 then TrueGravity(q) else Opposite(TrueGravity(q))
  {
    var p := Product(Pure(AXIS_Z), q);
    assert p == Quat(-q.b, q.a, q.d, -q.c);
    FourSquares(Pure(AXIS_Z), q);
    assert Norm2(Pure(AXIS_Z)) == 1.0;
    assert Times(1.0, Norm2(q)) == Norm2(q) == Times(Norm2(q), 1.0);
    var n := Norm2(q);
    var r := m.sqrt(n);
    RootPositive(m, n);
    RenormalizedMeaning(m, p);
    var s := CopySign(r, p.d);
    ProductOfQuotient(Conjugate(q), p, s);
    FourSquares(Conjugate(q), Quotient(p, s));
    SignNorms(q);
    var t := Turned(q, AXIS_Z);
    hide Norm2;
    hide Product;
    hide Times;
    hide Square;
    assert UpQuat(m, q) == Quotient(t, s);
    assert Norm2(UpQuat(m, q)) == n;
    PartOfQuotient(t.a, s, r, n);
    PartOfQuotient(t.b, s, r, n);
    PartOfQuotient(t.c, s, r, n);
    hide PartOf;
  }

  lemma OppositeDiffers(g: Vec)
    requires Dot3(g, g) == Square(GRAVITY_EARTH)
    ensures Opposite(g) != g
  {
    OppositeOfZero(g);
    assert GRAVITY_EARTH * GRAVITY_EARTH > 96.0;
    hide Dot3;
    hide Opposite;
  }

  lemma OppositeOfZero(g: Vec)
    ensures Opposite(g) == g ==> Dot3(g, g) == 0.0
  {
    if Opposite(g) == g {
      assert g.x == 0.0;
      assert g.y == 0.0;
      assert g.z == 0.0;
      hide Opposite;
      assert g == Vec(0.0, 0.0, 0.0);
    }
  }

  // ----- rotations too small to be renormalized

  lemma PartsEqual(x: real, y: real, r: real)
    requires r != 0.0
    ensures PartOf(x, r) == PartOf(y, r) <==> x == y
  {
    assert (x / r) * r == x && (y / r) * r == y;
  }

  lemma TurnedPart(t: real, n: real, r: real)
    requires 0.0 < r && Square(r) == n && n != 0.0
    ensures PartOf(t, n) == PartOf(t / r, r)
  {
    PartOfQuotient(t, r, r, n);
  }

  /** When the product cannot be renormalized it becomes the identity, and gravity is read off the
      conjugate. */
  lemma SmallGravity(m: MathLibrary, q: Quat)
    requires m.Valid() && 0.0 < Norm2(q) < MAG_TOL
    ensures 0.0 < m.sqrt(Norm2(q)) && Square(m.sqrt(Norm2(q))) == Norm2(q)
    ensures Gravity(m, q) == GravityVector(Conjugate(q), m.sqrt(Norm2(q)))
  {
    var p := Product(Pure(AXIS_Z), q);
    FourSquares(Pure(AXIS_Z), q);
    assert Norm2(Pure(AXIS_Z)) == 1.0;
    assert Times(1.0, Norm2(q)) == Norm2(q);
    hide Times;
    RenormalizedMeaning(m, p);
    assert Product(Conjugate(q), IDENTITY) == Conjugate(q);
    SignNorms(q);
    RootPositive(m, Norm2(q));
    hide Norm2;
    hide Product;
    hide Square;
  }

  /** What the conjugate must look like to be parallel to the turned axis, for a rotation of length `r`. */
  lemma SmallParallel(q: Quat, r: real)
    requires 0.0 < r && Square(r) == Norm2(q) && Norm2(q) != 0.0
    ensures GravityVector(Conjugate(q), r) == TrueGravity(q)
       <==> Times(-q.a, r) == Turned(q, AXIS_Z).a && Times(-q.b, r) == Turned(q, AXIS_Z).b
            && Times(-q.c, r) == Turned(q, AXIS_Z).c
  {
    var t, n := Turned(q, AXIS_Z), Norm2(q);
    SquarePositive(r);
    hide Norm2;
    hide Turned;
    TurnedPart(t.a, n, r);
    TurnedPart(t.b, n, r);
    TurnedPart(t.c, n, r);
    PartsEqual(-q.a, t.a / r, r);
    PartsEqual(-q.b, t.b / r, r);
    PartsEqual(-q.c, t.c / r, r);
    QuotientOf(-q.a, t.a, r);
    QuotientOf(-q.b, t.b, r);
    QuotientOf(-q.c, t.c, r);
    hide PartOf;
    hide Square;
    hide Times;
  }

  lemma QuotientOf(x: real, t: real, r: real)
    requires r != 0.0
    ensures x == t / r <==> Times(x, r) == t
  {
    assert (t / r) * r == t;
    assert x * r == (t / r) * r ==> (x - t / r) * r == 0.0;
  }

  /** It is, only for the half turn around the z axis that points down. */
  lemma ParallelIsHalfTurn(q: Quat, r: real)
    requires 0.0 < r && Square(r) == Norm2(q)
    requires Times(-q.a, r) == Turned(q, AXIS_Z).a && Times(-q.b, r) == Turned(q, AXIS_Z).b
    requires Times(-q.c, r) == Turned(q, AXIS_Z).c
    ensures q.a == 0.0 && q.b == 0.0 && q.d == 0.0 && q.c == -r
  {
    // The lengths agree, so the scalar part is zero.
    ParallelLengths(q, r);
    TurnedZ(q);
    SumOfSquares(q);
    assert Square(0.0) == 0.0;
    hide Norm2;
    hide Turned;
    // 2 a c == -a r, 2 b c == -b r and 2 c^2 - r^2 == -c r.
    assert Times(0.0, q.a) == 0.0 && Times(0.0, q.b) == 0.0;
    HalfTurnRoots(q.a, q.b, q.c, r);
  }

  lemma ScaledSquare(x: real, r: real)
    ensures Square(Times(-x, r)) == Times(Square(x), Square(r))
  {}

  lemma SpreadTimes(a: real, b: real, c: real, n: real)
    ensures Times(a + b + c, n) == Times(a, n) + Times(b, n) + Times(c, n)
  {}

  lemma ParallelLengths(q: Quat, r: real)
    requires 0.0 < r && Square(r) == Norm2(q)
    requires Times(-q.a, r) == Turned(q, AXIS_Z).a && Times(-q.b, r) == Turned(q, AXIS_Z).b
    requires Times(-q.c, r) == Turned(q, AXIS_Z).c
    ensures q.d == 0.0
  {
    var t, n := Turned(q, AXIS_Z), Norm2(q);
    TurnedNorm(q);
    TurnedScalarExpanded(q);
    SumOfSquares(q);
    SumOfSquares(t);
    ScaledSquare(q.a, r);
    ScaledSquare(q.b, r);
    ScaledSquare(q.c, r);
    SpreadTimes(Square(q.a), Square(q.b), Square(q.c), n);
    SquarePositive(r);
    assert Square(0.0) == 0.0 && Times(n, n) == Square(n);
    assert Times(n - Square(q.d), n) == Times(n, n) - Times(Square(q.d), n);
    hide Norm2;
    hide Turned;
    hide Square;
    assert Times(Square(q.d), n) == 0.0;
    if q.d != 0.0 {
      SquarePositive(q.d);
      TimesPositive(Square(q.d), n);
    }
  }

  lemma HalfTurnRoots(a: real, b: real, c: real, r: real)
    requires 0.0 < r && Square(r) == Square(a) + Square(b) + Square(c)
    requires 2.0 * Times(a, c) == Times(-a, r) && 2.0 * Times(b, c) == Times(-b, r)
    requires Square(c) - Square(a) - Square(b) == Times(-c, r)
    ensures a == 0.0 && b == 0.0 && c == -r
  {
    assert (2.0 * c - r) * (c + r) == 0.0;
    assert a * (2.0 * c + r) == 0.0;
    assert b * (2.0 * c + r) == 0.0;
    assert 2.0 * c == r ==> a == 0.0 && b == 0.0;
    assert c == -r;
  }

  /** Conversely that half turn is parallel. */
  lemma HalfTurnIsParallel(q: Quat, r: real)
    requires 0.0 < r && q == Quat(0.0, 0.0, -r, 0.0)
    ensures Times(-q.a, r) == Turned(q, AXIS_Z).a && Times(-q.b, r) == Turned(q, AXIS_Z).b
    ensures Times(-q.c, r) == Turned(q, AXIS_Z).c
  {
    TurnedZ(q);
    assert Square(-r) == Square(r) == Times(r, r) && Square(0.0) == 0.0;
    assert Times(0.0, -r) == 0.0 && Times(0.0, r) == 0.0 && Times(0.0, 0.0) == 0.0;
    hide Turned;
    hide Times;
    hide Square;
  }

  /** A rotation that cannot be renormalized gives the right gravity only if it is a half turn around
      the z axis with that axis pointing down. */
  lemma SmallGravityExact(m: MathLibrary, q: Quat)
    requires m.Valid() && 0.0 < Norm2(q) < MAG_TOL
    ensures Gravity(m, q) == TrueGravity(q) <==> q.a == 0.0 && q.b == 0.0 && q.d == 0.0 && q.c <= 0.0
  {
    SmallGravity(m, q);
    var r := m.sqrt(Norm2(q));
    SmallParallel(q, r);
    if Gravity(m, q) == TrueGravity(q) {
      ParallelIsHalfTurn(q, r);
    }
    if q.a == 0.0 && q.b == 0.0 && q.d == 0.0 && q.c <= 0.0 {
      SumOfSquares(q);
      assert Square(0.0) == 0.0 && Square(-q.c) == Square(q.c);
      hide Square;
      hide Norm2;
      hide Gravity;
      hide TrueGravity;
      SquareInjective(r, -q.c);
      HalfTurnIsParallel(q, r);
    }
  }

  /** Gravity is the turned up axis, for every rotation but zero, if and only if the rotation is
      within the tolerance; or its `c` component is not positive, so that renormalizing the product,
      whose scalar part is `-c`, does not flip it; and in that case either the product can be
      renormalized at all or the rotation is the half turn for which it does not matter. Where the
      product is flipped, gravity comes out upside down. */
  lemma GravityExact(m: MathLibrary, q: Quat)
    requires m.Valid() && 0.0 < Norm2(q)
    ensures Gravity(m, q) == TrueGravity(q)
       <==> NearUnit(q) || (q.c <= 0.0 && (MAG_TOL <= Norm2(q) || (q.a == 0.0 && q.b == 0.0 && q.d == 0.0)))
    ensures MAG_TOL <= Norm2(q) && Gravity(m, q) != TrueGravity(q) ==> Gravity(m, q) == Opposite(TrueGravity(q))
    ensures Norm2(q) < MAG_TOL ==> 0.0 < m.sqrt(Norm2(q)) && Gravity(m, q) == GravityVector(Conjugate(q), m.sqrt(Norm2(q)))
  {
    hide Gravity;
    hide TrueGravity;
    hide GravityVector;
    hide Norm2;
    hide Opposite;
    hide Dot3;
    hide Square;
    if NearUnit(q) {
      NearUnitGravity(m, q);
    } else if MAG_TOL <= Norm2(q) {
      RescaledGravity(m, q);
      TrueGravityLength(q);
      OppositeDiffers(TrueGravity(q));
    } else {
      SmallGravity(m, q);
      SmallGravityExact(m, q);
    }
  }

  /** For every normalized rotation the turned z axis has no scalar part and gravity has exactly
      its standard length. */
  lemma GravityLength(m: MathLibrary, q: Quat)
    requires m.Valid() && NearUnit(q)
    ensures Dot3(Gravity(m, q), Gravity(m, q)) == Square(GRAVITY_EARTH)
    ensures UpQuat(m, q).d == 0.0
  {
    NearUnitGravity(m, q);
    TrueGravityLength(q);
    TurnedScalarExpanded(q);
  }

  /** Gravity of a near-unit rotation, in numbers. */
  lemma GravityInNumbers(m: MathLibrary, q: Quat)
    requires m.Valid() && NearUnit(q)
    ensures var n := Norm2(q);
      Gravity(m, q) == Vec((2.0 * Times(q.a, q.c) - 2.0 * Times(q.d, q.b)) / n * 9.80665,
                           (2.0 * Times(q.b, q.c) + 2.0 * Times(q.d, q.a)) / n * 9.80665,
                           (Square(q.c) - Square(q.a) - Square(q.b) + Square(q.d)) / n * 9.80665)
  {
    NearUnitGravity(m, q);
    TurnedZ(q);
    hide Gravity;
    hide Turned;
    hide Norm2;
    hide Times;
    hide Square;
  }

  /** The quaternion of an accepted frame gives gravity along the frame's up vector, which is the
      normalized acceleration. */
  lemma FrameGravity(m: MathLibrary, f: Frame)
    requires m.Valid() && IsRotation(f)
    requires 0.0 < TraceD(f) || (0.0 <= f.h.y && 0.0 <= f.h.z && 0.0 <= f.m.z)
    ensures Norm2(FrameQuat(m, f)) == 1.0
    ensures Gravity(m, FrameQuat(m, f)) == Scaled(f.n, GRAVITY_EARTH)
  {
    var q := FrameQuat(m, f);
    FrameQuatReproduces(m, f);
    FrameQuatUnit(m, f);
    assert Turned(q, AXIS_Z) == Pure(f.n);
    hide IsRotation;
    hide FrameQuat;
    hide Reproduces;
    hide Turned;
    hide Gravity;
    hide Norm2;
    NearUnitGravity(m, q);
  }

  // ----- runs of the two algorithms together

  /** The rotation left in the fusion data: the last one put out. */
  function Held(outs: seq<GameRotation.Option<Quat>>): GameRotation.Option<Quat> {
    if outs == [] then GameRotation.None
    else if outs[|outs| - 1].Some? then outs[|outs| - 1]
    else Held(outs[..|outs| - 1])
  }

  lemma {:induction false} HeldIsOutput(outs: seq<GameRotation.Option<Quat>>)
    ensures Held(outs).Some? ==> Held(outs) in outs
  {
    if outs != [] && outs[|outs| - 1].None? {
      HeldIsOutput(outs[..|outs| - 1]);
    }
  }

  /** From the first accepted reading of a run on, gravity has its standard length at every reading,
      also at those that the game rotation rejects. */
  lemma RunGravityLength(m: MathLibrary, s: GameRotation.State, readings: seq<GameRotation.Reading>, k: nat)
    requires m.Valid() && GameRotation.GyroIntegration.Sound(s.gis)
    requires k <= |readings|
    ensures |GameRotation.Outputs(m, s, readings)| == |readings|
    ensures var held := Held(GameRotation.Outputs(m, s, readings)[..k]);
      held.Some? ==> 0.0 < Norm2(held.value)
                     && Dot3(Gravity(m, held.value), Gravity(m, held.value)) == Square(GRAVITY_EARTH)
  {
    var outs := GameRotation.Outputs(m, s, readings);
    GameRotation.OutputsBlended(m, s, readings);
    hide GameRotation.Blended;
    hide GameRotation.Outputs;
    hide NearUnit;
    HeldIsOutput(outs[..k]);
    if Held(outs[..k]).Some? {
      GravityLength(m, Held(outs[..k]).value);
    }
  }

  // ----- the stateful code

  /** Writes gravity and linear acceleration for the rotation in `fusionData`; the all-zero one would
      make the code divide zero by zero. */
  method ProcessFusion(m: MathLibrary, fusionData: FusionData) returns (ok: bool)
    requires m.Valid() && fusionData.gameRotation.Value() != ZERO
    modifies fusionData`gravity, fusionData`linearAccel
    ensures ok
    ensures var g := (NormPositive(fusionData.gameRotation.Value()); Gravity(m, fusionData.gameRotation.Value()));
      fusionData.gravity == Cart(g.x, g.y, g.z, fusionData.gameRotation.timestamp)
    ensures fusionData.gravity.x + fusionData.linearAccel.x == fusionData.accel.x
    ensures fusionData.gravity.y + fusionData.linearAccel.y == fusionData.accel.y
    ensures fusionData.gravity.z + fusionData.linearAccel.z == fusionData.accel.z
    ensures fusionData.linearAccel.timestamp == fusionData.gameRotation.timestamp
  {
    hide Product;
    hide Norm2;
    hide Renormalized;
    hide PartOf;
    NormPositive(fusionData.gameRotation.Value());
    var qz := new QuatData(Pure(AXIS_Z), 0.0, 0);
    var qGrav := new QuatData(IDENTITY, 0.0, 0);
    Inv(qGrav, fusionData.gameRotation);
    var _ := Mul(m, qz, qz, fusionData.gameRotation);
    MulNoRenormalize(qGrav, qGrav, qz);
    var mag := m.sqrt(Norm2(qGrav.Value()));
    UpQuatNonZero(m, fusionData.gameRotation.Value());
    fusionData.gravity := Cart(PartOf(qGrav.a, mag), PartOf(qGrav.b, mag), PartOf(qGrav.c, mag),
                               fusionData.gameRotation.timestamp);
    fusionData.linearAccel := Cart(fusionData.accel.x - fusionData.gravity.x,
                                   fusionData.accel.y - fusionData.gravity.y,
                                   fusionData.accel.z - fusionData.gravity.z,
                                   fusionData.gameRotation.timestamp);
    return true;
  }
}
