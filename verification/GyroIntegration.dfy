/** Complementary filter that carries an orientation forward with the gyroscope. */
module GyroIntegration {
  import opened Numbers
  import opened Quaternions
  import opened Fusion

  const FILTER_ALPHA_FAST := 0.0
  const FILTER_ALPHA_SLOW := 0.003
  const FILTER_SELECT_THRESH := 0.5
  const GYRO_MIN_DELAY_US := 5000.0
  const NORMALIZABLE := 0.00001

  /** The persistent state as a value. */
  datatype State = State(initialized: bool, quat: Quat, timestamp: int)

  datatype Sample = Sample(rv: Quat, rvTimestamp: int, gyro: Cart)

  /** Seconds between the time stamp of the state and the gyro sample. */
  function Elapsed(stamp: int, gyro: Cart): real {
    if gyro.timestamp != stamp then (gyro.timestamp - stamp) as real / 1000000000.0
    else GYRO_MIN_DELAY_US / 1000000.0
  }

  function Axis(v: Cart, s: real): Cart
    requires s != 0.0
  {
    Cart(v.x / s, v.y / s, v.z / s, v.timestamp)
  }

  function HalfAngle(dt: real, speed: real): real {
    dt * speed / 2.0
  }

  /** The rotation by half-angle `t` around `axis`. */
  function Turn(m: MathLibrary, axis: Cart, t: real): Quat {
    Quat(m.sin(t) * axis.x, m.sin(t) * axis.y, m.sin(t) * axis.z, m.cos(t))
  }

  /** The rotation that the gyro sample stands for over `dt` seconds. */
  function Increment(m: MathLibrary, gyro: Cart, dt: real): Quat
    requires m.Valid()
  {
    var g := SumSquares(gyro);
    if g > NORMALIZABLE then
      RootPositive(m, g);
      Turn(m, Axis(gyro, m.sqrt(g)), HalfAngle(dt, m.sqrt(g)))
    else Turn(m, gyro, 0.0)
  }

  /** The interpolation weight. Below the normalizable size the squared magnitude is compared. */
  function Alpha(m: MathLibrary, gyro: Cart): real {
    var g := SumSquares(gyro);
    if (if g > NORMALIZABLE then m.sqrt(g) else g) < FILTER_SELECT_THRESH then FILTER_ALPHA_SLOW
    else FILTER_ALPHA_FAST
  }

  function Primed(s: State, rv: Quat, rvTimestamp: int): State {
    if s.initialized then s else State(true, rv, rvTimestamp)
  }

  /** The orientation turned by the gyro sample, before it is pulled toward the reference. */
  function Predicted(m: MathLibrary, s: State, gyro: Cart): (Quat, int)
    requires m.Valid()
  {
    Renormalized(m, Product(s.quat, Renormalized(m, Increment(m, gyro, Elapsed(s.timestamp, gyro))).0))
  }

  /** One step: the new state, and whether it produced an output (otherwise the state was reset). */
  function Step(m: MathLibrary, state: State, i: Sample): (State, bool)
    requires m.Valid()
  {
    var s := Primed(state, i.rv, i.rvTimestamp);
    var (predicted, ret) := Predicted(m, s, i.gyro);
    if ret != 0 then (State(false, predicted, i.gyro.timestamp), false)
    else (State(true, Interpolated(m, i.rv, predicted, Alpha(m, i.gyro)).0, i.gyro.timestamp), true)
  }

  /** The return codes of the three renormalizations in a step: of the increment, of the product, and
      of the interpolant. The code looks only at the second. */
  datatype Codes = Codes(increment: int, product: int, interpolation: int)

  const NO_FAILURES := Codes(0, 0, 0)

  function StepCodes(m: MathLibrary, state: State, i: Sample): Codes
    requires m.Valid()
  {
    var s := Primed(state, i.rv, i.rvTimestamp);
    var delta := Renormalized(m, Increment(m, i.gyro, Elapsed(s.timestamp, i.gyro)));
    var (predicted, ret) := Predicted(m, s, i.gyro);
    Codes(delta.1, ret, if ret != 0 then 0 else Interpolated(m, i.rv, predicted, Alpha(m, i.gyro)).1)
  }

  /** A run from `s`: the final state, and how often each renormalization failed on the way. */
  function Run(m: MathLibrary, s: State, inputs: seq<Sample>): (State, Codes)
    requires m.Valid()
    decreases |inputs|
  {
    if inputs == [] then (s, NO_FAILURES)
    else
      var c := StepCodes(m, s, inputs[0]);
      var (t, rest) := Run(m, Step(m, s, inputs[0]).0, inputs[1..]);
      (t, Codes(c.increment + rest.increment, c.product + rest.product, c.interpolation + rest.interpolation))
  }

  ghost predicate Sound(s: State) {
    s.initialized ==> NearUnit(s.quat)
  }

  // ----- one step

  lemma ScaledSum(x: real, y: real, z: real, s: real)
    ensures Times(Sum3(x, y, z), Square(s)) == Sum3(x * s, y * s, z * s)
  {}

  lemma AxisIsUnit(v: Cart, s: real)
    requires s != 0.0 && 0.0 < SumSquares(v) && Square(s) == SumSquares(v)
    ensures SumSquares(Axis(v, s)) == 1.0
  {
    ScaledSum(v.x / s, v.y / s, v.z / s, s);
    assert (v.x / s) * s == v.x && (v.y / s) * s == v.y && (v.z / s) * s == v.z;
    hide Sum3;
    hide Times;
    hide Square;
    UnitFactor(SumSquares(Axis(v, s)), SumSquares(v));
  }

  lemma TurnNormExpanded(s: real, c: real, x: real, y: real, z: real)
    ensures Sum4(s * x, s * y, s * z, c) == Times(Square(s), Sum3(x, y, z)) + Square(c)
  {}

  lemma TurnNorm(m: MathLibrary, axis: Cart, t: real)
    requires m.Valid() && SumSquares(axis) == 1.0
    ensures Norm2(Turn(m, axis, t)) == 1.0
  {
    var s, c := m.sin(t), m.cos(t);
    TurnNormExpanded(s, c, axis.x, axis.y, axis.z);
    assert Times(Square(s), 1.0) == Square(s);
    hide Sum3;
    hide Sum4;
    hide Times;
    hide Square;
  }

  /** What addition formulas say of sine and cosine at two angles. */
  ghost predicate AddsAngles(m: MathLibrary, s: real, t: real) {
    && m.sin(s + t) == Times(m.sin(s), m.cos(t)) + Times(m.cos(s), m.sin(t))
    && m.cos(s + t) == Times(m.cos(s), m.cos(t)) - Times(m.sin(s), m.sin(t))
  }

  lemma TurnedVectorsExpanded(ss: real, cs: real, st: real, ct: real, x: real, y: real, z: real)
    ensures ProductA(Quat(Times(ss, x), Times(ss, y), Times(ss, z), cs), Quat(Times(st, x), Times(st, y), Times(st, z), ct)) == Times(Times(ss, ct) + Times(cs, st), x)
    ensures ProductB(Quat(Times(ss, x), Times(ss, y), Times(ss, z), cs), Quat(Times(st, x), Times(st, y), Times(st, z), ct)) == Times(Times(ss, ct) + Times(cs, st), y)
    ensures ProductC(Quat(Times(ss, x), Times(ss, y), Times(ss, z), cs), Quat(Times(st, x), Times(st, y), Times(st, z), ct)) == Times(Times(ss, ct) + Times(cs, st), z)
  {}

  lemma TurnedScalarsExpanded(ss: real, cs: real, st: real, ct: real, x: real, y: real, z: real)
    ensures ProductD(Quat(Times(ss, x), Times(ss, y), Times(ss, z), cs), Quat(Times(st, x), Times(st, y), Times(st, z), ct))
         == Times(cs, ct) - Times(Times(ss, st), Sum3(x, y, z))
  {}

  lemma TurnExpanded(m: MathLibrary, axis: Cart, t: real)
    ensures Turn(m, axis, t) == Quat(Times(m.sin(t), axis.x), Times(m.sin(t), axis.y), Times(m.sin(t), axis.z), m.cos(t))
  {}

  /** Turning around a unit axis by one angle and then another is turning by their sum. */
  lemma TurnsCompose(m: MathLibrary, axis: Cart, s: real, t: real)
    requires SumSquares(axis) == 1.0 && AddsAngles(m, s, t)
    ensures Product(Turn(m, axis, s), Turn(m, axis, t)) == Turn(m, axis, s + t)
  {
    TurnedVectorsExpanded(m.sin(s), m.cos(s), m.sin(t), m.cos(t), axis.x, axis.y, axis.z);
    TurnedScalarsExpanded(m.sin(s), m.cos(s), m.sin(t), m.cos(t), axis.x, axis.y, axis.z);
    TurnExpanded(m, axis, s);
    TurnExpanded(m, axis, t);
    TurnExpanded(m, axis, s + t);
    assert Times(Times(m.sin(s), m.sin(t)), 1.0) == Times(m.sin(s), m.sin(t));
    hide Turn;
    hide Times;
    hide Sum3;
    hide ProductA;
    hide ProductB;
    hide ProductC;
    hide ProductD;
  }

  /** Integrating a steady rate over one interval and then another is integrating it over both. */
  lemma IncrementsCompose(m: MathLibrary, gyro: Cart, dt: real, more: real)
    requires m.Valid() && SumSquares(gyro) > NORMALIZABLE
    requires AddsAngles(m, HalfAngle(dt, m.sqrt(SumSquares(gyro))), HalfAngle(more, m.sqrt(SumSquares(gyro))))
    ensures Product(Increment(m, gyro, dt), Increment(m, gyro, more)) == Increment(m, gyro, dt + more)
  {
    var g := SumSquares(gyro);
    RootPositive(m, g);
    AxisIsUnit(gyro, m.sqrt(g));
    var speed := m.sqrt(g);
    assert HalfAngle(dt, speed) + HalfAngle(more, speed) == HalfAngle(dt + more, speed);
    hide HalfAngle;
    hide AddsAngles;
    hide Turn;
    hide Product;
    hide SumSquares;
    TurnsCompose(m, Axis(gyro, speed), HalfAngle(dt, speed), HalfAngle(more, speed));
  }

  /** The increment is a unit quaternion whatever the gyro reads, so renormalizing it does nothing. */
  lemma IncrementIsUnit(m: MathLibrary, gyro: Cart, dt: real)
    requires m.Valid()
    ensures Norm2(Increment(m, gyro, dt)) == 1.0
  {
    if SumSquares(gyro) > NORMALIZABLE {
      FastIncrement(m, gyro, dt);
    } else {
      assert Turn(m, gyro, 0.0) == IDENTITY;
    }
  }

  lemma FastIncrement(m: MathLibrary, gyro: Cart, dt: real)
    requires m.Valid() && SumSquares(gyro) > NORMALIZABLE
    ensures Norm2(Increment(m, gyro, dt)) == 1.0
  {
    hide SumSquares;
    hide Axis;
    hide Turn;
    hide Norm2;
    var s := m.sqrt(SumSquares(gyro));
    RootPositive(m, SumSquares(gyro));
    AxisIsUnit(gyro, s);
    TurnNorm(m, Axis(gyro, s), HalfAngle(dt, s));
  }

  /** The prediction never fails and keeps the norm exactly. */
  lemma PredictionSucceeds(m: MathLibrary, s: State, gyro: Cart)
    requires m.Valid() && NearUnit(s.quat)
    ensures Renormalized(m, Increment(m, gyro, Elapsed(s.timestamp, gyro))).1 == 0
    ensures Predicted(m, s, gyro) == (Product(s.quat, Increment(m, gyro, Elapsed(s.timestamp, gyro))), 0)
    ensures Norm2(Predicted(m, s, gyro).0) == Norm2(s.quat)
  {
    var delta := Increment(m, gyro, Elapsed(s.timestamp, gyro));
    IncrementIsUnit(m, gyro, Elapsed(s.timestamp, gyro));
    RenormalizedMeaning(m, delta);
    FourSquares(s.quat, delta);
    hide Product;
    hide Norm2;
    RenormalizedMeaning(m, Product(s.quat, delta));
  }

  /** The state's rotation turned by the gyro sample, without any renormalization. */
  function TurnedState(m: MathLibrary, state: State, i: Sample): Quat
    requires m.Valid()
  {
    var s := Primed(state, i.rv, i.rvTimestamp);
    Product(s.quat, Increment(m, i.gyro, Elapsed(s.timestamp, i.gyro)))
  }

  /** The reference and the turned rotation, weighted along the shorter arc. */
  function Blend(m: MathLibrary, state: State, i: Sample): Quat
    requires m.Valid()
  {
    var turned := TurnedState(m, state, i);
    Combination(Alpha(m, i.gyro), i.rv, Weight(i.rv, turned, Alpha(m, i.gyro)), turned)
  }

  /** A step on a nearly normalized reference: no renormalization fails, and the new rotation is the
      blend, which stays away from zero, rescaled to norm 1 if its norm is out of tolerance. */
  lemma StepSound(m: MathLibrary, s: State, i: Sample)
    requires m.Valid() && Sound(s) && NearUnit(i.rv)
    ensures StepCodes(m, s, i) == NO_FAILURES && Step(m, s, i).1
    ensures 0.4 <= Norm2(Blend(m, s, i))
    ensures Step(m, s, i).0 == State(true, Renormalized(m, Blend(m, s, i)).0, i.gyro.timestamp)
    ensures NearUnit(Step(m, s, i).0.quat)
  {
    hide Norm2;
    hide Renormalized;
    hide SumSquares;
    hide Combination;
    hide Weight;
    hide Product;
    hide Alpha;
    var p := Primed(s, i.rv, i.rvTimestamp);
    var alpha := Alpha(m, i.gyro);
    assert 0.0 <= alpha <= 1.0 by { AlphaInRange(m, i.gyro); }
    PredictionSucceeds(m, p, i.gyro);
    hide Predicted;
    ShorterArcNorm(i.rv, TurnedState(m, s, i), alpha);
    InterpolationSucceeds(m, i.rv, TurnedState(m, s, i), alpha);
  }

  lemma AlphaInRange(m: MathLibrary, gyro: Cart)
    ensures 0.0 <= Alpha(m, gyro) <= 1.0
  {}

  /** With the gyro turning fast, the reference has no weight: the new orientation is the turned one. */
  lemma FastStep(m: MathLibrary, s: State, i: Sample)
    requires m.Valid() && s.initialized && NearUnit(s.quat) && Alpha(m, i.gyro) == FILTER_ALPHA_FAST
    ensures var turned := Product(s.quat, Increment(m, i.gyro, Elapsed(s.timestamp, i.gyro)));
      Step(m, s, i).0.quat == if Dot(i.rv, turned) < 0.0 then Negate(turned) else turned
  {
    PredictionSucceeds(m, s, i.gyro);
    var turned := Predicted(m, s, i.gyro).0;
    ShorterArc(i.rv, turned);
    SignNorms(turned);
    var q := if Dot(i.rv, turned) < 0.0 then Negate(turned) else turned;
    RenormalizedMeaning(m, q);
    hide Product;
    hide Norm2;
    hide Distance2;
    hide Dot;
    var beta := if Distance2(i.rv, Negate(turned)) < Distance2(i.rv, turned) then -(1.0 - 0.0) else 1.0 - 0.0;
    assert Combination(0.0, i.rv, beta, turned) == q;
  }

  // ----- what a step turns by, in numbers

  /** With a rate `r` above the threshold the rotation is turned, on the right, around the direction of
      the gyro reading and by half of `r` times the seconds since the time stamp of the state, or 5 ms
      if the stamps are equal; a state that is not initialized starts from the reference. */
  lemma TurnedByRate(m: MathLibrary, s: State, i: Sample, r: real)
    requires m.Valid() && 0.0 <= r
    requires r * r == i.gyro.x * i.gyro.x + i.gyro.y * i.gyro.y + i.gyro.z * i.gyro.z > 0.00001
    ensures r != 0.0
    ensures var q, stamp := if s.initialized then s.quat else i.rv, if s.initialized then s.timestamp else i.rvTimestamp;
      var dt := if i.gyro.timestamp == stamp then 0.005 else (i.gyro.timestamp - stamp) as real / 1000000000.0;
      var t := Times(dt, r) / 2.0;
      TurnedState(m, s, i) == Product(q, Quat(Times(m.sin(t), i.gyro.x / r), Times(m.sin(t), i.gyro.y / r),
                                              Times(m.sin(t), i.gyro.z / r), m.cos(t)))
  {
    RootIsRate(m, i.gyro, r);
    var p := Primed(s, i.rv, i.rvTimestamp);
    var dt := Elapsed(p.timestamp, i.gyro);
    HalfAngleIs(dt, r);
    hide HalfAngle;
    hide SumSquares;
    assert Increment(m, i.gyro, dt) == Turn(m, Axis(i.gyro, r), Times(dt, r) / 2.0);
    TurnExpanded(m, Axis(i.gyro, r), Times(dt, r) / 2.0);
    hide Product;
    hide Turn;
    hide Times;
    hide Increment;
  }

  lemma HalfAngleIs(dt: real, r: real)
    ensures HalfAngle(dt, r) == Times(dt, r) / 2.0
  {}

  lemma RootIsRate(m: MathLibrary, gyro: Cart, r: real)
    requires m.Valid() && 0.0 <= r && r * r == gyro.x * gyro.x + gyro.y * gyro.y + gyro.z * gyro.z
    ensures SumSquares(gyro) == r * r && m.sqrt(SumSquares(gyro)) == r
  {
    var g := SumSquares(gyro);
    assert g == Square(r);
    SquareNonNegative(r);
    hide Square;
    SquareInjective(m.sqrt(g), r);
  }

  /** Below the threshold it is not turned at all. */
  lemma NotTurned(m: MathLibrary, s: State, i: Sample)
    requires m.Valid()
    requires i.gyro.x * i.gyro.x + i.gyro.y * i.gyro.y + i.gyro.z * i.gyro.z <= 0.00001
    ensures TurnedState(m, s, i) == if s.initialized then s.quat else i.rv
  {
    var p := Primed(s, i.rv, i.rvTimestamp);
    assert SumSquares(i.gyro) <= NORMALIZABLE;
    SlowIncrement(m, i.gyro, Elapsed(p.timestamp, i.gyro));
    TurnedByNothing(p.quat);
    hide Product;
    hide Increment;
    hide SumSquares;
  }

  lemma SlowIncrement(m: MathLibrary, gyro: Cart, dt: real)
    requires m.Valid() && SumSquares(gyro) <= NORMALIZABLE
    ensures Increment(m, gyro, dt) == IDENTITY
  {
    hide SumSquares;
    StillTurn(m, gyro);
    hide Turn;
  }

  lemma StillTurn(m: MathLibrary, gyro: Cart)
    requires m.Valid()
    ensures Turn(m, gyro, 0.0) == IDENTITY
  {}

  lemma TurnedByNothing(q: Quat)
    ensures Product(q, IDENTITY) == q
  {}

  /** The blend gives the reference a weight of 0.003 below half a radian per second and none above;
      the turned rotation has the rest, with the sign that faces the reference. */
  lemma BlendWeights(m: MathLibrary, s: State, i: Sample, r: real)
    requires m.Valid() && 0.0 <= r
    requires r * r == i.gyro.x * i.gyro.x + i.gyro.y * i.gyro.y + i.gyro.z * i.gyro.z
    ensures var p, q := i.rv, TurnedState(m, s, i);
      var away := Dot(p, q) < 0.0;
      Blend(m, s, i)
      == if r < 0.5 then
           if away then Quat(0.003 * p.a - 0.997 * q.a, 0.003 * p.b - 0.997 * q.b, 0.003 * p.c - 0.997 * q.c, 0.003 * p.d - 0.997 * q.d)
           else Quat(0.003 * p.a + 0.997 * q.a, 0.003 * p.b + 0.997 * q.b, 0.003 * p.c + 0.997 * q.c, 0.003 * p.d + 0.997 * q.d)
         else if away then Quat(-q.a, -q.b, -q.c, -q.d) else q
  {
    var p, q := i.rv, TurnedState(m, s, i);
    AlphaIs(m, i.gyro, r);
    ShorterArc(p, q);
    BlendsAt(p, q);
    hide TurnedState;
    hide Alpha;
    hide Distance2;
    hide Combination;
    hide Dot;
  }

  lemma BlendsAt(p: Quat, q: Quat)
    ensures Combination(0.003, p, -0.997, q)
         == Quat(0.003 * p.a - 0.997 * q.a, 0.003 * p.b - 0.997 * q.b, 0.003 * p.c - 0.997 * q.c, 0.003 * p.d - 0.997 * q.d)
    ensures Combination(0.003, p, 0.997, q)
         == Quat(0.003 * p.a + 0.997 * q.a, 0.003 * p.b + 0.997 * q.b, 0.003 * p.c + 0.997 * q.c, 0.003 * p.d + 0.997 * q.d)
    ensures Combination(0.0, p, -1.0, q) == Quat(-q.a, -q.b, -q.c, -q.d)
    ensures Combination(0.0, p, 1.0, q) == q
  {}

  lemma AlphaIs(m: MathLibrary, gyro: Cart, r: real)
    requires m.Valid() && 0.0 <= r && r * r == gyro.x * gyro.x + gyro.y * gyro.y + gyro.z * gyro.z
    ensures Alpha(m, gyro) == if r < 0.5 then 0.003 else 0.0
  {
    RootIsRate(m, gyro, r);
    RateBelowHalf(r);
    hide SumSquares;
  }

  lemma RateBelowHalf(r: real)
    requires 0.0 <= r
    ensures r * r <= 0.00001 ==> r < 0.5 && r * r < 0.5
    ensures 0.5 <= r ==> 0.25 <= r * r
  {}

  // ----- a steady rate over a run

  /** The addition formulas at all angles. */
  ghost predicate AngleSums(m: MathLibrary) {
    forall s, t :: AddsAngles(m, s, t)
  }

  /** Turning by the angle `t` around the direction of a gyro reading of size `r`. */
  function TurnBy(m: MathLibrary, gyro: Cart, r: real, t: real): Quat
    requires r != 0.0
  {
    Quat(Times(m.sin(t), gyro.x / r), Times(m.sin(t), gyro.y / r), Times(m.sin(t), gyro.z / r), m.cos(t))
  }

  lemma TurnBySum(m: MathLibrary, gyro: Cart, r: real, s: real, t: real)
    requires m.Valid() && AngleSums(m) && 0.0 < r && r * r == gyro.x * gyro.x + gyro.y * gyro.y + gyro.z * gyro.z
    ensures Product(TurnBy(m, gyro, r, s), TurnBy(m, gyro, r, t)) == TurnBy(m, gyro, r, s + t)
  {
    assert AddsAngles(m, s, t);
    RootIsRate(m, gyro, r);
    SquarePositive(r);
    assert Square(r) == SumSquares(gyro);
    hide SumSquares;
    hide Square;
    hide Product;
    AxisIsUnit(gyro, r);
    TurnsCompose(m, Axis(gyro, r), s, t);
    TurnExpanded(m, Axis(gyro, r), s);
    TurnExpanded(m, Axis(gyro, r), t);
    TurnExpanded(m, Axis(gyro, r), s + t);
    hide Turn;
    hide Times;
  }

  ghost predicate SteadyFrom(gyro: Cart, stamp: int, inputs: seq<Sample>) {
    && (forall k :: 0 <= k < |inputs| ==> NearUnit(inputs[k].rv))
    && (forall k :: 0 <= k < |inputs| ==> inputs[k].gyro == gyro.(timestamp := inputs[k].gyro.timestamp))
    && (inputs != [] ==> inputs[0].gyro.timestamp != stamp)
    && (forall k :: 0 < k < |inputs| ==> inputs[k].gyro.timestamp != inputs[k - 1].gyro.timestamp)
  }

  /** A steady rate of at least half a radian per second, sampled at any stamps that differ from one to
      the next, turns the rotation by the half angle of the whole time from the first stamp to the
      last, up to the sign of the quaternion. */
  lemma {:induction false} SteadyTurn(m: MathLibrary, s: State, inputs: seq<Sample>, gyro: Cart, r: real)
    requires m.Valid() && AngleSums(m) && s.initialized && NearUnit(s.quat)
    requires 0.5 <= r && r * r == gyro.x * gyro.x + gyro.y * gyro.y + gyro.z * gyro.z
    requires inputs != [] && SteadyFrom(gyro, s.timestamp, inputs)
    ensures var t := Times((inputs[|inputs| - 1].gyro.timestamp - s.timestamp) as real / 1000000000.0, r) / 2.0;
      var q := Product(s.quat, TurnBy(m, gyro, r, t));
      Run(m, s, inputs).0.quat == q || Run(m, s, inputs).0.quat == Negate(q)
    decreases |inputs|
  {
    hide Step;
    hide StepCodes;
    hide Product;
    hide TurnBy;
    hide NearUnit;
    hide Times;
    hide AngleSums;
    var i, rest := inputs[0], inputs[1..];
    var s1 := Step(m, s, i).0;
    SteadyStep(m, s, i, r);
    SteadyTurnBy(m, gyro, i.gyro, r, Times((i.gyro.timestamp - s.timestamp) as real / 1000000000.0, r) / 2.0);
    assert Run(m, s, inputs).0 == Run(m, s1, rest).0;
    if rest == [] {
      assert Run(m, s1, rest).0 == s1;
    } else {
      SteadyTurn(m, s1, rest, gyro, r);
      var first, last := i.gyro.timestamp, inputs[|inputs| - 1].gyro.timestamp;
      assert last == rest[|rest| - 1].gyro.timestamp;
      HalfAnglesAdd(first - s.timestamp, last - first, r);
      SteadyCompose(m, gyro, r, Times((first - s.timestamp) as real / 1000000000.0, r) / 2.0,
                    Times((last - first) as real / 1000000000.0, r) / 2.0, s.quat, s1.quat, Run(m, s1, rest).0.quat);
    }
  }

  lemma SteadyTurnBy(m: MathLibrary, gyro: Cart, other: Cart, r: real, t: real)
    requires r != 0.0 && other == gyro.(timestamp := other.timestamp)
    ensures TurnBy(m, other, r, t) == TurnBy(m, gyro, r, t)
  {}

  lemma SteadyCompose(m: MathLibrary, gyro: Cart, r: real, s: real, t: real, q0: Quat, q1: Quat, q2: Quat)
    requires m.Valid() && AngleSums(m) && 0.0 < r && r * r == gyro.x * gyro.x + gyro.y * gyro.y + gyro.z * gyro.z
    requires var q := Product(q0, TurnBy(m, gyro, r, s)); q1 == q || q1 == Negate(q)
    requires var q := Product(q1, TurnBy(m, gyro, r, t)); q2 == q || q2 == Negate(q)
    ensures var q := Product(q0, TurnBy(m, gyro, r, s + t)); q2 == q || q2 == Negate(q)
  {
    var d1, d2 := TurnBy(m, gyro, r, s), TurnBy(m, gyro, r, t);
    TurnBySum(m, gyro, r, s, t);
    ProductAssociative(q0, d1, d2);
    ProductNegated(Product(q0, d1), d2);
    NegateTwice(Product(q0, Product(d1, d2)));
    hide Product;
    hide TurnBy;
    hide Negate;
  }

  lemma HalfAnglesAdd(a: int, b: int, r: real)
    ensures Times(a as real / 1000000000.0, r) / 2.0 + Times(b as real / 1000000000.0, r) / 2.0
         == Times((a + b) as real / 1000000000.0, r) / 2.0
  {}

  lemma SteadyStep(m: MathLibrary, s: State, i: Sample, r: real)
    requires m.Valid() && s.initialized && NearUnit(s.quat) && NearUnit(i.rv) && i.gyro.timestamp != s.timestamp
    requires 0.5 <= r && r * r == i.gyro.x * i.gyro.x + i.gyro.y * i.gyro.y + i.gyro.z * i.gyro.z
    ensures var t := Times((i.gyro.timestamp - s.timestamp) as real / 1000000000.0, r) / 2.0;
      var q := Product(s.quat, TurnBy(m, i.gyro, r, t));
      var s1 := Step(m, s, i).0;
      s1.initialized && NearUnit(s1.quat) && s1.timestamp == i.gyro.timestamp && (s1.quat == q || s1.quat == Negate(q))
  {
    RateBelowHalf(r);
    TurnedByRate(m, s, i, r);
    AlphaIs(m, i.gyro, r);
    hide Alpha;
    hide Increment;
    hide Times;
    FastStep(m, s, i);
    StepSound(m, s, i);
    hide Step;
    hide StepCodes;
    hide Blend;
    hide Product;
    hide Norm2;
    hide SumSquares;
    hide Dot;
  }

  // ----- the sign of the scalar part

  /** The output's scalar part is non-negative if and only if the blend is rescaled or its own scalar
      part is non-negative: nothing else gives it a sign. */
  lemma ScalarPart(m: MathLibrary, s: State, i: Sample)
    requires m.Valid() && Sound(s) && NearUnit(i.rv)
    ensures 0.0 <= Step(m, s, i).0.quat.d <==> !NearUnit(Blend(m, s, i)) || 0.0 <= Blend(m, s, i).d
  {
    StepSound(m, s, i);
    var c := Blend(m, s, i);
    hide Blend;
    hide Step;
    RenormalizedMeaning(m, c);
    hide Renormalized;
    hide Norm2;
  }

  /** With the gyro turning fast that is decided by the turned rotation and the side of it on which
      the reference lies. */
  lemma FastScalarPart(m: MathLibrary, s: State, i: Sample)
    requires m.Valid() && Sound(s) && NearUnit(i.rv) && Alpha(m, i.gyro) == FILTER_ALPHA_FAST
    ensures var turned := TurnedState(m, s, i);
      0.0 <= Step(m, s, i).0.quat.d <==> if Dot(i.rv, turned) < 0.0 then turned.d <= 0.0 else 0.0 <= turned.d
  {
    hide Alpha;
    hide Product;
    hide Norm2;
    hide Predicted;
    hide Interpolated;
    hide Dot;
    var p := Primed(s, i.rv, i.rvTimestamp);
    FastStep(m, p, i);
  }

  lemma DotWithProductExpanded(p: Quat, q: Quat)
    ensures Dot(p, Quat(p.d * q.a + p.a * q.d + p.b * q.c - p.c * q.b,
                        p.d * q.b - p.a * q.c + p.b * q.d + p.c * q.a,
                        p.d * q.c + p.a * q.b - p.b * q.a + p.c * q.d,
                        p.d * q.d - p.a * q.a - p.b * q.b - p.c * q.c)) == Times(Norm2(p), q.d)
  {}

  lemma DotWithProduct(p: Quat, q: Quat)
    ensures Dot(p, Product(p, q)) == Times(Norm2(p), q.d)
  {
    DotWithProductExpanded(p, q);
    ProductExpanded(p, q);
    hide Dot;
    hide Norm2;
    hide Times;
    hide Product;
  }

  /** And at the first step, where the reference itself is turned, by the increment and the scalar
      part of the turned reference alone. */
  lemma FirstScalarPart(m: MathLibrary, s: State, i: Sample)
    requires m.Valid() && !s.initialized && NearUnit(i.rv) && Alpha(m, i.gyro) == FILTER_ALPHA_FAST
    ensures var delta := Increment(m, i.gyro, Elapsed(i.rvTimestamp, i.gyro));
      0.0 <= Step(m, s, i).0.quat.d
      <==> if delta.d < 0.0 then Product(i.rv, delta).d <= 0.0 else 0.0 <= Product(i.rv, delta).d
  {
    var delta := Increment(m, i.gyro, Elapsed(i.rvTimestamp, i.gyro));
    DotWithProduct(i.rv, delta);
    FastScalarPart(m, s, i);
    assert 0.0 < Norm2(i.rv);
    hide Norm2;
    hide Product;
    hide Dot;
    hide Increment;
    hide Step;
    SignOfProduct(Norm2(i.rv), delta.d);
  }

  lemma SignOfProduct(n: real, x: real)
    requires 0.0 < n
    ensures Times(n, x) < 0.0 <==> x < 0.0
  {}

  // ----- runs

  /** Over any run on nearly normalized references no renormalization ever fails, neither of an
      increment nor of a product nor of an interpolant; so the filter is never reset, and it stays
      normalized. */
  lemma {:induction false} RunNeverResets(m: MathLibrary, s: State, inputs: seq<Sample>)
    requires m.Valid() && Sound(s)
    requires forall i :: 0 <= i < |inputs| ==> NearUnit(inputs[i].rv)
    ensures Run(m, s, inputs).1 == NO_FAILURES
    ensures Sound(Run(m, s, inputs).0)
    ensures inputs != [] ==> Run(m, s, inputs).0.initialized
    decreases |inputs|
  {
    hide NearUnit;
    hide Step;
    hide StepCodes;
    hide Blend;
    if inputs != [] {
      StepSound(m, s, inputs[0]);
      assert Sound(Step(m, s, inputs[0]).0);
      RunNeverResets(m, Step(m, s, inputs[0]).0, inputs[1..]);
      if inputs[1..] == [] {
        assert Run(m, Step(m, s, inputs[0]).0, inputs[1..]) == (Step(m, s, inputs[0]).0, NO_FAILURES);
      }
    }
  }

  // ----- the stateful code

  class GyroIntegrationState {
    var initialized: bool
    const quatGyro: QuatData

    constructor ()
      ensures !initialized && fresh(quatGyro)
    {
      initialized := false;
      quatGyro := new QuatData(Quat(0.0, 0.0, 0.0, 0.0), 0.0, 0);
    }

    function Abstract(): State
      reads this, quatGyro
    {
      State(initialized, quatGyro.Value(), quatGyro.timestamp)
    }
  }

  /** The normalized increment for a gyro sample, and the magnitude that selects the filter. */
  method GyroDelta(m: MathLibrary, gyro: Cart, dt: real) returns (delta: QuatData, gyroMag: real, ghost code: int)
    requires m.Valid()
    ensures fresh(delta) && (delta.Value(), code) == Renormalized(m, Increment(m, gyro, dt))
    ensures Alpha(m, gyro) == if gyroMag < FILTER_SELECT_THRESH then FILTER_ALPHA_SLOW else FILTER_ALPHA_FAST
  {
    hide Renormalized;
    hide SumSquares;
    hide Turn;
    hide Axis;
    hide HalfAngle;
    var axis := gyro;
    gyroMag := SumSquares(axis);
    var halfTheta := 0.0;
    if gyroMag > NORMALIZABLE {
      RootPositive(m, gyroMag);
      gyroMag := m.sqrt(gyroMag);
      axis := Axis(axis, gyroMag);
      halfTheta := HalfAngle(dt, gyroMag);
    }
    delta := new QuatData(Turn(m, axis, halfTheta), 0.0, 0);
    code := Renormalize(m, delta);
  }

  /** Integrates one gyro sample; `rvOut` and `rvIn` may be the same structure. The return codes are
      those of the calls made on the way. */
  method Integrate(m: MathLibrary, gis: GyroIntegrationState, rvOut: QuatData, rvIn: QuatData, fusionData: FusionData)
    returns (ghost codes: Codes)
    requires m.Valid() && gis.quatGyro != rvOut && gis.quatGyro != rvIn
    modifies gis, gis.quatGyro, rvOut
    ensures var (s, ok) := Step(m, old(gis.Abstract()),
                                Sample(old(rvIn.Value()), old(rvIn.timestamp), fusionData.gyro));
      && gis.Abstract() == s
      && (ok ==> rvOut.Value() == s.quat && rvOut.timestamp == s.timestamp)
      && (!ok ==> rvOut.Value() == old(rvOut.Value()) && rvOut.timestamp == old(rvOut.timestamp))
      && (ok ==> rvOut.accuracy == gis.quatGyro.accuracy)
      && gis.quatGyro.accuracy == old(gis.quatGyro.accuracy)
    ensures codes == StepCodes(m, old(gis.Abstract()),
                               Sample(old(rvIn.Value()), old(rvIn.timestamp), fusionData.gyro))
  {
    hide Renormalized;
    hide Interpolated;
    hide Product;
    hide Increment;
    hide Alpha;
    hide Elapsed;
    if !gis.initialized {
      gis.quatGyro.Store(rvIn.Value());
      gis.quatGyro.timestamp := rvIn.timestamp;
      gis.initialized := true;
    }
    assert gis.Abstract() == Primed(old(gis.Abstract()), old(rvIn.Value()), old(rvIn.timestamp));
    var dt := Elapsed(gis.quatGyro.timestamp, fusionData.gyro);
    gis.quatGyro.timestamp := fusionData.gyro.timestamp;
    var quatGyroDelta, gyroMag;
    ghost var increment: int, interpolation: int;
    quatGyroDelta, gyroMag, increment := GyroDelta(m, fusionData.gyro, dt);
    var bad := Mul(m, gis.quatGyro, gis.quatGyro, quatGyroDelta);
    if bad != 0 {
      gis.initialized := false;
      return Codes(increment, bad, 0);
    }
    var nineAxisFilter := if gyroMag < FILTER_SELECT_THRESH then FILTER_ALPHA_SLOW else FILTER_ALPHA_FAST;
    interpolation := LinInterp(m, gis.quatGyro, rvIn, gis.quatGyro, nineAxisFilter);
    rvOut.Assign(gis.quatGyro);
    codes := Codes(increment, bad, interpolation);
  }
}
