/** The six-axis rotation vector: filtered gravity and a gyro-carried east make a world frame. */
module GameRotation {
  import opened Numbers
  import opened Quaternions
  import opened Vectors
  import opened Frames
  import opened Fusion
  import opened PermSort
  import GyroIntegration

  const SIX_AXIS_FILTER_ALPHA := 0.016
  const TINY := 2.0 * FLT_EPSILON

  // ----- one call on values

  datatype Option<T> = None | Some(value: T)

  /** The persistent variables of the algorithm. */
  datatype State = State(gis: GyroIntegration.State, initialized: bool, nRaw: Vec, h: Vec)

  datatype Attempt = Rejected(h: Vec) | Accepted(frame: Frame)

  function Component(v: Vec, i: nat): real
    requires i < 3
  {
    if i == 0 then v.x else if i == 1 then v.y else v.z
  }

  /** The first coordinate of largest magnitude. */
  function Largest(v: Vec): nat {
    if Abs(v.x) >= Abs(v.y) && Abs(v.x) >= Abs(v.z) then 0
    else if Abs(v.y) >= Abs(v.z) then 1
    else 2
  }

  /** The coordinate that makes a vector of ones orthogonal to one with coordinate sum `s + c`. */
  function Balance(s: real, c: real): real
    requires c != 0.0
  {
    -s / c
  }

  /** An arbitrary vector orthogonal to `v`, dividing by the largest coordinate. */
  function InitialEast(v: Vec): Vec
    requires Component(v, Largest(v)) != 0.0
  {
    if Largest(v) == 0 then Vec(Balance(v.y + v.z, v.x), 1.0, 1.0)
    else if Largest(v) == 1 then Vec(1.0, Balance(v.x + v.z, v.y), 1.0)
    else Vec(1.0, 1.0, Balance(v.x + v.y, v.z))
  }

  function Filtered(v: Vec, nRaw: Vec): Vec {
    Vec(Mix(SIX_AXIS_FILTER_ALPHA, v.x, 1.0 - SIX_AXIS_FILTER_ALPHA, nRaw.x),
        Mix(SIX_AXIS_FILTER_ALPHA, v.y, 1.0 - SIX_AXIS_FILTER_ALPHA, nRaw.y),
        Mix(SIX_AXIS_FILTER_ALPHA, v.z, 1.0 - SIX_AXIS_FILTER_ALPHA, nRaw.z))
  }

  /** The component of `h` across the up direction `n`. */
  function Horizontal(h: Vec, n: Vec): Vec {
    Less(h, Dot3(h, n), n)
  }

  /** Orthonormalizes gravity and east; a rejected attempt leaves `h` as far as it got. */
  function BuildFrame(m: MathLibrary, nRaw: Vec, h: Vec): Attempt {
    if Length(m, nRaw) < TINY then Rejected(h)
    else
      var n := Over(nRaw, Length(m, nRaw));
      var east := Horizontal(h, n);
      if Length(m, east) < TINY then Rejected(east)
      else
        var e := Over(east, Length(m, east));
        Accepted(Frame(e, Cross(n, e), n))
  }

  /** The east vector that a rotation implies, kept for the next call. */
  function EastOf(m: MathLibrary, q: Quat): Vec
    requires m.Valid()
  {
    var e := Product(Conjugate(q), Renormalized(m, Product(Pure(AXIS_X), q)).0);
    Vec(e.a, e.b, e.c)
  }

  function Restarted(s: State, reset: bool): State {
    if reset then s.(gis := s.gis.(initialized := false), initialized := false) else s
  }

  /** In free fall there is no direction to start from. */
  predicate FreeFall(v: Vec) {
    Abs(Component(v, Largest(v))) <= TINY
  }

  function AfterFrame(m: MathLibrary, s: State, nRaw: Vec, a: Attempt, gyro: Cart): (State, Option<Quat>)
    requires m.Valid()
  {
    match a
    case Rejected(h) => (State(s.gis, true, nRaw, h), None)
    case Accepted(f) =>
      var (gis, ok) := GyroIntegration.Step(m, s.gis, GyroIntegration.Sample(FrameQuat(m, f), gyro.timestamp, gyro));
      var q := if ok then gis.quat else FrameQuat(m, f);
      (State(gis, true, nRaw, EastOf(m, q)), Some(q))
  }

  /** One call: the new state, and the rotation unless the call is rejected. */
  function Fuse(m: MathLibrary, state: State, v: Vec, gyro: Cart, reset: bool): (State, Option<Quat>)
    requires m.Valid()
  {
    var s := Restarted(state, reset);
    if s.initialized then
      var nRaw := Filtered(v, s.nRaw);
      AfterFrame(m, s, nRaw, BuildFrame(m, nRaw, s.h), gyro)
    else if FreeFall(v) then (s.(nRaw := v), None)
    else AfterFrame(m, s, v, BuildFrame(m, v, InitialEast(v)), gyro)
  }

  // ----- what one call guarantees

  /** The starting east vector is orthogonal to gravity and long enough to be normalized. */
  lemma InitialEastOrthogonal(v: Vec)
    requires Component(v, Largest(v)) != 0.0
    ensures Dot3(InitialEast(v), v) == 0.0
    ensures 2.0 <= Dot3(InitialEast(v), InitialEast(v))
  {
    BalanceTimes(v.y + v.z, v.x);
    BalanceTimes(v.x + v.z, v.y);
    BalanceTimes(v.x + v.y, v.z);
    var h := InitialEast(v);
    DotSquares(h);
    DotTimes(h, v);
    SquareNonNegative(h.x);
    SquareNonNegative(h.y);
    SquareNonNegative(h.z);
    assert forall x :: Times(1.0, x) == x;
    assert Square(1.0) == 1.0;
    hide Dot3;
    hide Balance;
    hide Square;
    hide Times;
  }

  lemma BalanceTimes(s: real, c: real)
    ensures c != 0.0 ==> Times(Balance(s, c), c) == -s
  {}

  /** Every accepted attempt yields a proper rotation. */
  lemma AcceptedIsRotation(m: MathLibrary, nRaw: Vec, h: Vec)
    requires m.Valid() && BuildFrame(m, nRaw, h).Accepted?
    ensures IsRotation(BuildFrame(m, nRaw, h).frame)
  {
    hide IsRotation;
    hide Dot3;
    hide Less;
    hide Cross;
    hide Length;
    var n := Over(nRaw, Length(m, nRaw));
    OverLength(m, nRaw);
    var east := Horizontal(h, n);
    LessOrthogonal(h, n);
    var e := Over(east, Length(m, east));
    OverLength(m, east);
    OverStaysOrthogonal(east, Length(m, east), n);
    FrameIsRotation(n, e);
  }

  lemma OverStaysOrthogonal(u: Vec, s: real, n: Vec)
    requires s != 0.0 && Dot3(u, n) == 0.0
    ensures Dot3(n, Over(u, s)) == 0.0
  {
    OverDotLeft(u, s, n);
    assert Dot3(n, Over(u, s)) == Dot3(Over(u, s), n);
    hide Dot3;
    ZeroFactor(Dot3(Over(u, s), n), s);
  }

  lemma ZeroFactor(x: real, s: real)
    requires s != 0.0 && Times(x, s) == 0.0
    ensures x == 0.0
  {}

  /** Outside free fall the first call is never rejected. */
  lemma FirstFrameAccepted(m: MathLibrary, v: Vec)
    requires m.Valid() && !FreeFall(v)
    ensures BuildFrame(m, v, InitialEast(v)).Accepted?
  {
    var h := InitialEast(v);
    InitialEastOrthogonal(v);
    LongerThanLargest(m, v);
    var s := Length(m, v);
    LengthNonNegative(m, h);
    assert Square(TINY) < 2.0;
    SquareOrder(Length(m, h), TINY);
    assert Dot3(v, h) == Dot3(h, v);
    OverStaysOrthogonal(v, s, h);
    assert Less(h, 0.0, Over(v, s)) == h;
  }

  lemma LongerThanLargest(m: MathLibrary, v: Vec)
    requires m.Valid()
    ensures Abs(Component(v, Largest(v))) <= Length(m, v)
  {
    var c := Component(v, Largest(v));
    LengthNonNegative(m, v);
    DotSquares(v);
    SquareNonNegative(v.x);
    SquareNonNegative(v.y);
    SquareNonNegative(v.z);
    assert Square(Abs(c)) == Square(c);
    hide Square;
    hide Dot3;
    SquareOrder(Length(m, v), Abs(c));
  }

  // ----- the east vector that is kept

  /** A nearly normalized rotation keeps the x axis turned by it, which has no scalar part. */
  lemma EastIsTurned(m: MathLibrary, q: Quat)
    requires m.Valid() && NearUnit(q)
    ensures Turned(q, AXIS_X) == Pure(EastOf(m, q))
  {
    var p := Product(Pure(AXIS_X), q);
    FourSquares(Pure(AXIS_X), q);
    assert Norm2(Pure(AXIS_X)) == 1.0;
    assert Times(1.0, Norm2(q)) == Norm2(q);
    TurnedX(q);
    hide Norm2;
    hide Times;
    hide Square;
    RenormalizedMeaning(m, p);
    hide Product;
    hide Renormalized;
  }

  /** Without rotation in between, the east vector of a frame is kept as it was, under the same
      condition as the frame itself. */
  lemma EastKept(m: MathLibrary, f: Frame)
    requires m.Valid() && IsRotation(f)
    ensures 0.0 < TraceD(f) || (0.0 <= f.h.y && 0.0 <= f.h.z && 0.0 <= f.m.z) ==> EastOf(m, FrameQuat(m, f)) == f.h
  {
    var q := FrameQuat(m, f);
    FrameQuatReproduces(m, f);
    FrameQuatUnit(m, f);
    assert Reproduces(q, f) ==> Turned(q, AXIS_X) == Pure(f.h);
    hide IsRotation;
    hide FrameQuat;
    hide Reproduces;
    hide Turned;
    hide EastOf;
    hide Norm2;
    EastIsTurned(m, q);
  }

  // ----- every output is a blend that needed no fallback

  datatype Reading = Reading(accel: Vec, gyro: Cart, reset: bool)

  /** The world frame of a call, or why there is none. */
  function FrameOf(m: MathLibrary, state: State, r: Reading): Attempt {
    var s := Restarted(state, r.reset);
    if s.initialized then BuildFrame(m, Filtered(r.accel, s.nRaw), s.h)
    else if FreeFall(r.accel) then Rejected(s.h)
    else BuildFrame(m, r.accel, InitialEast(r.accel))
  }

  /** What a call with frame `f` hands to the integration. */
  function SampleOf(m: MathLibrary, f: Frame, gyro: Cart): GyroIntegration.Sample {
    GyroIntegration.Sample(FrameQuat(m, f), gyro.timestamp, gyro)
  }

  /** `out` is what the call must put out: the unit quaternion of its frame blended with the gyro
      state turned by the increment. No renormalization fails on the way, and the blend is away from
      zero. */
  ghost predicate Blended(m: MathLibrary, state: State, r: Reading, out: Quat)
    requires m.Valid()
  {
    var a, gis := FrameOf(m, state, r), Restarted(state, r.reset).gis;
    && a.Accepted? && IsRotation(a.frame) && Norm2(FrameQuat(m, a.frame)) == 1.0
    && GyroIntegration.StepCodes(m, gis, SampleOf(m, a.frame, r.gyro)) == GyroIntegration.NO_FAILURES
    && 0.4 <= Norm2(GyroIntegration.Blend(m, gis, SampleOf(m, a.frame, r.gyro)))
    && out == Renormalized(m, GyroIntegration.Blend(m, gis, SampleOf(m, a.frame, r.gyro))).0
  }

  lemma FrameOfIsRotation(m: MathLibrary, state: State, r: Reading)
    requires m.Valid() && FrameOf(m, state, r).Accepted?
    ensures IsRotation(FrameOf(m, state, r).frame)
    ensures Norm2(FrameQuat(m, FrameOf(m, state, r).frame)) == 1.0
  {
    hide BuildFrame;
    hide IsRotation;
    hide Filtered;
    hide Norm2;
    hide FrameQuat;
    var s := Restarted(state, r.reset);
    if s.initialized {
      AcceptedIsRotation(m, Filtered(r.accel, s.nRaw), s.h);
    } else {
      AcceptedIsRotation(m, r.accel, InitialEast(r.accel));
    }
    FrameQuatUnit(m, FrameOf(m, state, r).frame);
  }

  /** A call is accepted exactly when it has a frame, and then steps the gyro state with it. */
  lemma FuseSteps(m: MathLibrary, state: State, r: Reading)
    requires m.Valid()
    ensures var (t, out) := Fuse(m, state, r.accel, r.gyro, r.reset);
      var a, gis := FrameOf(m, state, r), Restarted(state, r.reset).gis;
      && (out.Some? <==> a.Accepted?)
      && (a.Rejected? ==> t.gis == gis)
      && (a.Accepted? ==> var (stepped, ok) := GyroIntegration.Step(m, gis, SampleOf(m, a.frame, r.gyro));
           t.gis == stepped && (ok ==> out.value == stepped.quat))
  {
    hide BuildFrame;
    hide FrameQuat;
    hide Filtered;
    hide FreeFall;
    hide InitialEast;
    hide EastOf;
    hide GyroIntegration.Step;
  }

  /** Every call keeps the gyro state normalized; it puts out the blend of its frame and its gyro
      state, or nothing; and right after a start it is rejected exactly in free fall. */
  lemma FuseSound(m: MathLibrary, state: State, r: Reading)
    requires m.Valid() && GyroIntegration.Sound(state.gis)
    ensures var (t, out) := Fuse(m, state, r.accel, r.gyro, r.reset);
      && GyroIntegration.Sound(t.gis)
      && (out.Some? <==> FrameOf(m, state, r).Accepted?)
      && (out.Some? ==> Blended(m, state, r, out.value) && NearUnit(out.value))
      && (r.reset || !state.initialized ==> (out.Some? <==> !FreeFall(r.accel)))
  {
    FuseSteps(m, state, r);
    if !FreeFall(r.accel) {
      FirstFrameAccepted(m, r.accel);
    }
    var a, gis := FrameOf(m, state, r), Restarted(state, r.reset).gis;
    assert GyroIntegration.Sound(gis);
    if a.Accepted? {
      FrameOfIsRotation(m, state, r);
      GyroIntegration.StepSound(m, gis, SampleOf(m, a.frame, r.gyro)) by { hide FrameOf; hide FrameQuat; }
    }
    hide Fuse;
    hide BuildFrame;
    hide IsRotation;
    hide FrameQuat;
    hide GyroIntegration.Step;
    hide GyroIntegration.StepCodes;
    hide GyroIntegration.Blend;
  }

  // ----- what a call keeps, in numbers

  /** The frame of gravity `nRaw` and east `h`: there is one exactly when gravity and the part of east
      across it are at least twice the float epsilon long. Up is gravity scaled down by its length,
      east is that part scaled down by its own, and north is up cross east. */
  lemma FrameMeaning(m: MathLibrary, nRaw: Vec, h: Vec)
    requires m.Valid()
    ensures var a, len := BuildFrame(m, nRaw, h), m.sqrt(Dot3(nRaw, nRaw));
      && (len < 0.0000002384185791015625 ==> a == Rejected(h))
      && (0.0000002384185791015625 <= len ==>
            var n := Vec(nRaw.x / len, nRaw.y / len, nRaw.z / len);
            var across := Vec(h.x - Times(Dot3(h, n), n.x), h.y - Times(Dot3(h, n), n.y), h.z - Times(Dot3(h, n), n.z));
            var s := m.sqrt(Dot3(across, across));
            && (a.Accepted? <==> 0.0000002384185791015625 <= s)
            && (a.Rejected? ==> a.h == across)
            && (a.Accepted? ==> a.frame.n == n && a.frame.h == Vec(across.x / s, across.y / s, across.z / s)
                                && a.frame.m == Cross(n, a.frame.h)))
  {
    var len := m.sqrt(Dot3(nRaw, nRaw));
    assert TINY == 0.0000002384185791015625;
    if TINY <= len {
      var n := Over(nRaw, len);
      LessTimes(h, Dot3(h, n), n);
      hide Less;
      hide Times;
      hide Dot3;
      hide Cross;
    }
  }

  lemma LessTimes(v: Vec, s: real, u: Vec)
    ensures Less(v, s, u) == Vec(v.x - Times(s, u.x), v.y - Times(s, u.y), v.z - Times(s, u.z))
  {}

  /** The first east: 1 in the two coordinates that are not the first of largest magnitude. */
  lemma InitialEastOnes(v: Vec, k: nat, i: nat)
    requires k < 3 && i < 3 && i != k
    requires forall j :: 0 <= j < 3 ==> Component(v, j) <= Abs(Component(v, k)) && -Component(v, j) <= Abs(Component(v, k))
    requires forall j :: 0 <= j < k ==> Component(v, j) < Abs(Component(v, k)) && -Component(v, j) < Abs(Component(v, k))
    requires Component(v, k) != 0.0
    ensures Largest(v) == k && Component(InitialEast(v), i) == 1.0
  {
    assert Component(v, 0) <= Abs(Component(v, k)) && Component(v, 1) <= Abs(Component(v, k)) && Component(v, 2) <= Abs(Component(v, k));
    assert -Component(v, 0) <= Abs(Component(v, k)) && -Component(v, 1) <= Abs(Component(v, k)) && -Component(v, 2) <= Abs(Component(v, k));
    assert k > 0 ==> Component(v, 0) < Abs(Component(v, k)) && -Component(v, 0) < Abs(Component(v, k));
    assert k > 1 ==> Component(v, 1) < Abs(Component(v, k)) && -Component(v, 1) < Abs(Component(v, k));
    hide Balance;
  }

  /** What a call keeps besides the gyro state. Gravity is the reading itself at a start, and else 1.6
      percent of it and 98.4 percent of what was kept. A start in free fall, every coordinate within
      twice the float epsilon, leaves the algorithm unstarted and east as it was. Any other call builds
      its frame from that gravity and from the kept east, or the first east at a start; a rejected one
      leaves east as far as it got, and an accepted one keeps the x axis turned by its output. */
  lemma KeptState(m: MathLibrary, state: State, r: Reading)
    requires m.Valid() && GyroIntegration.Sound(state.gis)
    ensures var (t, out) := Fuse(m, state, r.accel, r.gyro, r.reset);
      var (v, n) := (r.accel, state.nRaw);
      var start, tiny := r.reset || !state.initialized, 0.0000002384185791015625;
      var falls := start && -tiny <= v.x <= tiny && -tiny <= v.y <= tiny && -tiny <= v.z <= tiny;
      && t.initialized == !falls
      && (start ==> t.nRaw == v)
      && (!start ==> t.nRaw == Vec(0.016 * v.x + 0.984 * n.x, 0.016 * v.y + 0.984 * n.y, 0.016 * v.z + 0.984 * n.z))
      && (falls ==> out.None? && t.h == state.h)
      && (!falls ==> FrameOf(m, state, r) == BuildFrame(m, t.nRaw, if start then InitialEast(v) else state.h)
                     && (out.Some? <==> FrameOf(m, state, r).Accepted?))
      && (!falls && out.None? ==> t.h == FrameOf(m, state, r).h)
      && (out.Some? ==> Turned(out.value, AXIS_X) == Pure(t.h))
  {
    KeptEast(m, state, r);
    FuseSteps(m, state, r);
    FilteredMeaning(r.accel, state.nRaw);
    FreeFallMeaning(r.accel);
    hide FreeFall;
    hide Filtered;
    hide BuildFrame;
    hide EastOf;
    hide FrameQuat;
    hide InitialEast;
    hide Turned;
    hide GyroIntegration.Step;
  }

  lemma FilteredMeaning(v: Vec, n: Vec)
    ensures Filtered(v, n) == Vec(0.016 * v.x + 0.984 * n.x, 0.016 * v.y + 0.984 * n.y, 0.016 * v.z + 0.984 * n.z)
  {}

  lemma FreeFallMeaning(v: Vec)
    ensures var tiny := 0.0000002384185791015625;
      FreeFall(v) <==> -tiny <= v.x <= tiny && -tiny <= v.y <= tiny && -tiny <= v.z <= tiny
  {}

  lemma KeptEast(m: MathLibrary, state: State, r: Reading)
    requires m.Valid() && GyroIntegration.Sound(state.gis)
    ensures var (t, out) := Fuse(m, state, r.accel, r.gyro, r.reset);
      out.Some? ==> Turned(out.value, AXIS_X) == Pure(t.h)
  {
    FuseSound(m, state, r);
    var (t, out) := Fuse(m, state, r.accel, r.gyro, r.reset);
    if out.Some? {
      EastIsTurned(m, out.value);
      hide BuildFrame;
      hide EastOf;
      hide FrameQuat;
      hide InitialEast;
      hide Filtered;
      hide FreeFall;
      hide Turned;
      hide NearUnit;
      hide Blended;
      hide GyroIntegration.Step;
    }
  }

  // ----- the sign of the scalar part

  /** The scalar part of an output is non-negative, as the code's comment has it, if and only if the
      blend is rescaled or its own scalar part is non-negative. With the gyro turning fast that is a
      matter of the turned gyro state, and at a first call of the turned frame quaternion. */
  lemma OutputScalarPart(m: MathLibrary, state: State, r: Reading)
    requires m.Valid() && GyroIntegration.Sound(state.gis) && FrameOf(m, state, r).Accepted?
    ensures var out := Fuse(m, state, r.accel, r.gyro, r.reset).1;
      var gis, i := Restarted(state, r.reset).gis, SampleOf(m, FrameOf(m, state, r).frame, r.gyro);
      var blend, turned := GyroIntegration.Blend(m, gis, i), GyroIntegration.TurnedState(m, gis, i);
      var delta := GyroIntegration.Increment(m, r.gyro, GyroIntegration.GYRO_MIN_DELAY_US / 1000000.0);
      && out.Some?
      && (0.0 <= out.value.d <==> !NearUnit(blend) || 0.0 <= blend.d)
      && (GyroIntegration.Alpha(m, r.gyro) == GyroIntegration.FILTER_ALPHA_FAST ==>
           (0.0 <= out.value.d <==> if Dot(i.rv, turned) < 0.0 then turned.d <= 0.0 else 0.0 <= turned.d))
      && (GyroIntegration.Alpha(m, r.gyro) == GyroIntegration.FILTER_ALPHA_FAST && !gis.initialized ==>
           (0.0 <= out.value.d
            <==> if delta.d < 0.0 then Product(i.rv, delta).d <= 0.0 else 0.0 <= Product(i.rv, delta).d))
  {
    var gis, i := Restarted(state, r.reset).gis, SampleOf(m, FrameOf(m, state, r).frame, r.gyro);
    FuseSteps(m, state, r);
    FrameOfIsRotation(m, state, r);
    hide Fuse;
    hide FrameOf;
    hide IsRotation;
    hide FrameQuat;
    hide Product;
    hide Dot;
    hide Norm2;
    assert NearUnit(i.rv);
    GyroIntegration.StepSound(m, gis, i);
    GyroIntegration.ScalarPart(m, gis, i);
    hide GyroIntegration.Step;
    hide GyroIntegration.Blend;
    hide GyroIntegration.Increment;
    if GyroIntegration.Alpha(m, r.gyro) == GyroIntegration.FILTER_ALPHA_FAST {
      GyroIntegration.FastScalarPart(m, gis, i);
      if !gis.initialized {
        GyroIntegration.FirstScalarPart(m, gis, i);
      }
    }
  }

  // ----- the filter

  /** Gravity after `k` equal readings. */
  function FilteredTimes(v: Vec, nRaw: Vec, k: nat): Vec {
    if k == 0 then nRaw else Filtered(v, FilteredTimes(v, nRaw, k - 1))
  }

  /** What is left of a deviation after `k` readings. */
  function Decay(k: nat): real {
    if k == 0 then 1.0 else (1.0 - SIX_AXIS_FILTER_ALPHA) * Decay(k - 1)
  }

  function Deviated(target: real, from: real, k: nat): real {
    target + Times(Decay(k), from - target)
  }

  lemma DeviatedStep(target: real, from: real, k: nat)
    requires k > 0
    ensures Mix(SIX_AXIS_FILTER_ALPHA, target, 1.0 - SIX_AXIS_FILTER_ALPHA, Deviated(target, from, k - 1))
         == Deviated(target, from, k)
  {
    var d := from - target;
    assert Times((1.0 - SIX_AXIS_FILTER_ALPHA) * Decay(k - 1), d) == (1.0 - SIX_AXIS_FILTER_ALPHA) * Times(Decay(k - 1), d);
    hide Times;
  }

  /** Under a steady reading the filtered gravity approaches it geometrically, keeping the fraction
      0.984 of its deviation at each call, in every component. */
  lemma {:induction false} FilterConverges(v: Vec, nRaw: Vec, k: nat)
    ensures FilteredTimes(v, nRaw, k)
         == Vec(Deviated(v.x, nRaw.x, k), Deviated(v.y, nRaw.y, k), Deviated(v.z, nRaw.z, k))
    ensures 0.0 < Decay(k) <= 1.0
  {
    if k > 0 {
      FilterConverges(v, nRaw, k - 1);
      DeviatedStep(v.x, nRaw.x, k);
      DeviatedStep(v.y, nRaw.y, k);
      DeviatedStep(v.z, nRaw.z, k);
      hide Deviated;
      hide Mix;
    }
  }

  // ----- runs

  /** The state after a run of readings. */
  function After(m: MathLibrary, s: State, readings: seq<Reading>): State
    requires m.Valid()
  {
    if readings == [] then s
    else
      var r := readings[|readings| - 1];
      Fuse(m, After(m, s, readings[..|readings| - 1]), r.accel, r.gyro, r.reset).0
  }

  function Outputs(m: MathLibrary, s: State, readings: seq<Reading>): (outs: seq<Option<Quat>>)
    requires m.Valid()
    ensures |outs| == |readings|
  {
    if readings == [] then []
    else
      var r, before := readings[|readings| - 1], readings[..|readings| - 1];
      Outputs(m, s, before) + [Fuse(m, After(m, s, before), r.accel, r.gyro, r.reset).1]
  }

  /** Over any run, whatever the readings and resets: every rotation put out is, up to rescaling, the
      blend of its call's frame with the gyro state that the run has led to. No renormalization has
      failed, so nothing is a fallback, and every output is normalized. */
  lemma {:induction false} OutputsBlended(m: MathLibrary, s: State, readings: seq<Reading>)
    requires m.Valid() && GyroIntegration.Sound(s.gis)
    ensures GyroIntegration.Sound(After(m, s, readings).gis)
    ensures forall i :: 0 <= i < |readings| && Outputs(m, s, readings)[i].Some? ==>
      var out := Outputs(m, s, readings)[i].value;
      Blended(m, After(m, s, readings[..i]), readings[i], out) && NearUnit(out)
  {
    hide Fuse;
    hide NearUnit;
    hide Blended;
    hide GyroIntegration.Sound;
    if readings != [] {
      var before := readings[..|readings| - 1];
      OutputsBlended(m, s, before);
      FuseSound(m, After(m, s, before), readings[|readings| - 1]);
      assert forall i :: 0 <= i < |before| ==> before[..i] == readings[..i] && before[i] == readings[i];
    }
  }

  /** After a call of a run that put out `q`, the next frame, if it is not a start, is built around
      gravity from the x axis turned by `q`: east follows the gyro. */
  lemma EastFollows(m: MathLibrary, s: State, readings: seq<Reading>, next: Reading, q: Quat)
    requires m.Valid() && GyroIntegration.Sound(s.gis) && readings != []
    requires Outputs(m, s, readings)[|readings| - 1] == Some(q)
    requires !next.reset && FrameOf(m, After(m, s, readings), next).Accepted?
    ensures var state := After(m, s, readings);
      var f := FrameOf(m, state, next).frame;
      && state.initialized
      && Turned(q, AXIS_X) == Pure(state.h)
      && exists l :: 0.0 < l && Less(state.h, Dot3(state.h, f.n), f.n) == Vec(Times(f.h.x, l), Times(f.h.y, l), Times(f.h.z, l))
  {
    var before, r := readings[..|readings| - 1], readings[|readings| - 1];
    OutputsBlended(m, s, before);
    KeptState(m, After(m, s, before), r);
    FuseSound(m, After(m, s, before), r);
    var state := After(m, s, readings);
    hide Fuse;
    hide Turned;
    hide BuildFrame;
    NextEast(m, Filtered(next.accel, state.nRaw), state.h);
  }

  lemma NextEast(m: MathLibrary, nRaw: Vec, h: Vec)
    requires m.Valid() && BuildFrame(m, nRaw, h).Accepted?
    ensures var f := BuildFrame(m, nRaw, h).frame;
      exists l :: 0.0 < l && Less(h, Dot3(h, f.n), f.n) == Vec(Times(f.h.x, l), Times(f.h.y, l), Times(f.h.z, l))
  {
    var f := BuildFrame(m, nRaw, h).frame;
    var across := Less(h, Dot3(h, f.n), f.n);
    var l := Length(m, across);
    hide Less;
    hide Dot3;
    hide Cross;
    OverTimes(across, l);
  }

  lemma OverTimes(v: Vec, s: real)
    requires s != 0.0
    ensures var u := Over(v, s); v == Vec(Times(u.x, s), Times(u.y, s), Times(u.z, s))
  {}

  /** Under a steady reading the gravity of a running filter approaches it geometrically over the
      calls, whether or not they are accepted. */
  lemma {:induction false} GravityConverges(m: MathLibrary, s: State, readings: seq<Reading>, v: Vec)
    requires m.Valid() && s.initialized
    requires forall i :: 0 <= i < |readings| ==> readings[i].accel == v && !readings[i].reset
    ensures After(m, s, readings).initialized
    ensures After(m, s, readings).nRaw == Vec(Deviated(v.x, s.nRaw.x, |readings|),
                                              Deviated(v.y, s.nRaw.y, |readings|),
                                              Deviated(v.z, s.nRaw.z, |readings|))
  {
    FilterConverges(v, s.nRaw, |readings|);
    RunFilters(m, s, readings, v);
  }

  lemma {:induction false} RunFilters(m: MathLibrary, s: State, readings: seq<Reading>, v: Vec)
    requires m.Valid() && s.initialized
    requires forall i :: 0 <= i < |readings| ==> readings[i].accel == v && !readings[i].reset
    ensures After(m, s, readings).initialized
    ensures After(m, s, readings).nRaw == FilteredTimes(v, s.nRaw, |readings|)
  {
    if readings != [] {
      hide Filtered;
      hide BuildFrame;
      hide GyroIntegration.Step;
      hide EastOf;
      hide FrameQuat;
      RunFilters(m, s, readings[..|readings| - 1], v);
    }
  }

  // ----- two readings

  lemma RootOf(m: MathLibrary, x: real, root: real)
    requires m.Valid() && 0.0 <= root && Square(root) == x && 0.0 <= x
    ensures m.sqrt(x) == root
  {
    SquareInjective(m.sqrt(x), root);
  }

  /** A first frame from its two lengths and its two normalized vectors. */
  lemma FirstFrameIs(m: MathLibrary, v: Vec, h: Vec, n: Vec, e: Vec)
    requires m.Valid() && TINY <= Length(m, v) && Over(v, Length(m, v)) == n
    requires Horizontal(h, n) == h && TINY <= Length(m, h) && Over(h, Length(m, h)) == e
    ensures BuildFrame(m, v, h) == Accepted(Frame(e, Cross(n, e), n))
  {
    hide Length;
    hide Over;
    hide Horizontal;
    hide Cross;
  }

  const FACE_DOWN := Vec(0.0, 0.0, -1.0)

  const DIAGONAL := Vec(1.0, 1.0, 0.0)

  lemma FaceDownEast()
    ensures !FreeFall(FACE_DOWN) && InitialEast(FACE_DOWN) == DIAGONAL
  {}

  lemma HorizontalAlready(h: Vec, n: Vec)
    requires Times(h.x, n.x) + Times(h.y, n.y) + Times(h.z, n.z) == 0.0
    ensures Horizontal(h, n) == h
  {
    DotTimes(h, n);
    hide Dot3;
    hide Times;
    assert Less(h, 0.0, n) == h;
  }

  lemma LengthIs(m: MathLibrary, v: Vec, root: real)
    requires m.Valid() && 0.0 <= root && Square(root) == Square(v.x) + Square(v.y) + Square(v.z)
    ensures Length(m, v) == root
  {
    DotSquares(v);
    SquareNonNegative(root);
    hide Dot3;
    hide Square;
    RootOf(m, Square(root), root);
  }

  lemma FaceDownVectors()
    ensures Over(FACE_DOWN, 1.0) == FACE_DOWN
    ensures Horizontal(DIAGONAL, FACE_DOWN) == DIAGONAL
  {
    assert Times(1.0, 0.0) == 0.0 && Times(0.0, -1.0) == 0.0;
    hide Times;
    hide Horizontal;
    HorizontalAlready(DIAGONAL, FACE_DOWN);
  }

  lemma FaceDownNorth(u: real)
    ensures Cross(FACE_DOWN, Vec(u, u, 0.0)) == Vec(u, -u, 0.0)
  {}

  lemma FaceDownLengths(m: MathLibrary)
    requires m.Valid()
    ensures Length(m, FACE_DOWN) == 1.0 && Length(m, DIAGONAL) == RootOfTwo(m)
  {
    assert Square(1.0) == 1.0 && Square(-1.0) == 1.0 && Square(0.0) == 0.0;
    RootPositive(m, 2.0);
    hide Square;
    hide Length;
    LengthIs(m, FACE_DOWN, 1.0);
    LengthIs(m, DIAGONAL, RootOfTwo(m));
  }

  lemma Diagonal(m: MathLibrary, u: real)
    requires m.Valid() && u == 1.0 / RootOfTwo(m)
    ensures TINY <= RootOfTwo(m) && 0.0 < u && Over(DIAGONAL, RootOfTwo(m)) == Vec(u, u, 0.0)
  {
    RootPositive(m, 2.0);
    QuotientSign(1.0, m.sqrt(2.0));
    assert Square(TINY) <= 2.0;
    SquareOrder(m.sqrt(2.0), TINY);
  }

  function RootOfTwo(m: MathLibrary): real
    requires m.Valid()
    ensures RootOfTwo(m) != 0.0
  {
    RootPositive(m, 2.0);
    m.sqrt(2.0)
  }

  /** The frame of the first reading of a device that lies face down: a half turn. */
  lemma FaceDownFrame(m: MathLibrary, u: real)
    requires m.Valid() && u == 1.0 / RootOfTwo(m)
    ensures !FreeFall(FACE_DOWN) && 0.0 < u
    ensures BuildFrame(m, FACE_DOWN, InitialEast(FACE_DOWN))
         == Accepted(Frame(Vec(u, u, 0.0), Vec(u, -u, 0.0), FACE_DOWN))
  {
    hide Dot3;
    hide Over;
    hide Horizontal;
    hide Cross;
    hide InitialEast;
    hide FreeFall;
    hide BuildFrame;
    hide RootOfTwo;
    hide Length;
    hide FACE_DOWN;
    FaceDownEast();
    FaceDownVectors();
    FaceDownNorth(u);
    FaceDownLengths(m);
    Diagonal(m, u);
    FirstFrameIs(m, FACE_DOWN, DIAGONAL, FACE_DOWN, Vec(u, u, 0.0));
  }

  /** The quaternion of that frame has scalar part 0 and a positive first component. */
  lemma FaceDownQuat(m: MathLibrary)
    requires m.Valid()
    ensures var a := BuildFrame(m, FACE_DOWN, InitialEast(FACE_DOWN));
      a.Accepted? && FrameQuat(m, a.frame).d == 0.0 && 0.0 < FrameQuat(m, a.frame).a
  {
    FaceDownFrame(m, 1.0 / RootOfTwo(m));
    hide RootOfTwo;
    AcceptedIsRotation(m, FACE_DOWN, InitialEast(FACE_DOWN));
    var f := BuildFrame(m, FACE_DOWN, InitialEast(FACE_DOWN)).frame;
    hide BuildFrame;
    Components(m, f);
    hide IsRotation;
    hide FrameQuat;
    var q := FrameQuat(m, f);
    if q.d != 0.0 { SquarePositive(q.d); }
    assert Square(0.0) == 0.0;
    assert q.a != 0.0;
    hide Square;
  }

  /** The scalar part of an output can be negative: whatever happened before, let a call with reset
      find the device face down and rolling by one radian per second. */
  lemma ScalarPartTurnsNegative(m: MathLibrary, state: State, t: int)
    requires m.Valid() && GyroIntegration.Sound(state.gis)
    requires 0.0 < m.sin(0.0025) && 0.0 <= m.cos(0.0025)
    ensures var out := Fuse(m, state, FACE_DOWN, Cart(1.0, 0.0, 0.0, t), true).1;
      out.Some? && out.value.d < 0.0
  {
    var gyro := Cart(1.0, 0.0, 0.0, t);
    var r := Reading(FACE_DOWN, gyro, true);
    var a := FrameOf(m, state, r);
    assert a == BuildFrame(m, FACE_DOWN, InitialEast(FACE_DOWN)) by { FaceDownFrame(m, 1.0 / RootOfTwo(m)); }
    FaceDownQuat(m);
    hide FrameOf;
    hide BuildFrame;
    hide FrameQuat;
    hide Fuse;
    OutputScalarPart(m, state, r);
    RollIncrement(m, gyro);
    RolledScalar(FrameQuat(m, a.frame), m.sin(0.0025), m.cos(0.0025));
    hide Product;
    hide Dot;
    hide NearUnit;
  }

  lemma RolledScalar(q: Quat, s: real, c: real)
    requires q.d == 0.0 && 0.0 < q.a && 0.0 < s
    ensures Product(q, Quat(s, 0.0, 0.0, c)).d < 0.0
  {
    assert ProductD(q, Quat(s, 0.0, 0.0, c)) == Times(0.0, c) - Times(q.a, s);
    TimesPositive(q.a, s);
  }

  lemma RollIncrement(m: MathLibrary, gyro: Cart)
    requires m.Valid() && gyro.x == 1.0 && gyro.y == 0.0 && gyro.z == 0.0
    ensures GyroIntegration.Increment(m, gyro, 0.005) == Quat(m.sin(0.0025), 0.0, 0.0, m.cos(0.0025))
    ensures GyroIntegration.Alpha(m, gyro) == GyroIntegration.FILTER_ALPHA_FAST
  {
    assert SumSquares(gyro) == 1.0;
    assert Square(1.0) == 1.0;
    RootOf(m, 1.0, 1.0);
    assert GyroIntegration.HalfAngle(0.005, 1.0) == 0.0025;
  }

  const TILTED := Vec(-5.0, -2.0, -14.0)

  const TILTED_EAST := Vec(1.0, 1.0, -0.5)
  const TILTED_UP := Vec(-1.0 / 3.0, -2.0 / 15.0, -14.0 / 15.0)
  const TILTED_UNIT_EAST := Vec(2.0 / 3.0, 2.0 / 3.0, -1.0 / 3.0)

  lemma TiltedVectors()
    ensures !FreeFall(TILTED) && InitialEast(TILTED) == TILTED_EAST
    ensures Over(TILTED, 15.0) == TILTED_UP && Over(TILTED_EAST, 1.5) == TILTED_UNIT_EAST
  {}

  lemma TiltedAcross()
    ensures Horizontal(TILTED_EAST, TILTED_UP) == TILTED_EAST
  {
    assert Times(1.0, -1.0 / 3.0) == -1.0 / 3.0 && Times(1.0, -2.0 / 15.0) == -2.0 / 15.0;
    assert Times(-0.5, -14.0 / 15.0) == 7.0 / 15.0;
    hide Times;
    hide Horizontal;
    HorizontalAlready(TILTED_EAST, TILTED_UP);
  }

  lemma TiltedNorth()
    ensures Cross(TILTED_UP, TILTED_UNIT_EAST).y == -11.0 / 15.0
  {
    CrossTimes(TILTED_UP, TILTED_UNIT_EAST);
    assert Times(-14.0 / 15.0, 2.0 / 3.0) == -28.0 / 45.0 && Times(-1.0 / 3.0, -1.0 / 3.0) == 1.0 / 9.0;
    hide Times;
    hide CrossX;
    hide CrossY;
    hide CrossZ;
  }

  lemma TiltedLengths(m: MathLibrary)
    requires m.Valid()
    ensures Length(m, TILTED) == 15.0 && Length(m, TILTED_EAST) == 1.5
  {
    assert Square(15.0) == 225.0 && Square(-5.0) == 25.0 && Square(-2.0) == 4.0 && Square(-14.0) == 196.0;
    assert Square(1.5) == 2.25 && Square(1.0) == 1.0 && Square(-0.5) == 0.25;
    hide Square;
    hide Length;
    LengthIs(m, TILTED, 15.0);
    LengthIs(m, TILTED_EAST, 1.5);
  }

  /** A first reading whose quaternion does not reproduce its frame. */
  lemma HalfTurnReading(m: MathLibrary)
    requires m.Valid()
    ensures !FreeFall(TILTED)
    ensures var a := BuildFrame(m, TILTED, InitialEast(TILTED));
      a.Accepted? && !Reproduces(FrameQuat(m, a.frame), a.frame)
  {
    hide Dot3;
    hide Over;
    hide Horizontal;
    hide Cross;
    hide InitialEast;
    hide FreeFall;
    hide Length;
    hide IsRotation;
    hide FrameQuat;
    hide Reproduces;
    TiltedVectors();
    TiltedAcross();
    TiltedNorth();
    TiltedLengths(m);
    FirstFrameIs(m, TILTED, TILTED_EAST, TILTED_UP, TILTED_UNIT_EAST);
    var f := Frame(TILTED_UNIT_EAST, Cross(TILTED_UP, TILTED_UNIT_EAST), TILTED_UP);
    assert TraceD(f) == 0.0 && f.h.z < 0.0;
    hide BuildFrame;
    AcceptedIsRotation(m, TILTED, TILTED_EAST);
    FrameQuatReproduces(m, f);
  }

  // ----- the stateful code

  class GameRotationVector {
    const gis: GyroIntegration.GyroIntegrationState
    var initialized: bool
    const nRaw: array<real>
    const h: array<real>

    ghost predicate Valid()
      reads this, gis, gis.quatGyro
    {
      && nRaw.Length == 3 && h.Length == 3 && nRaw != h
      && GyroIntegration.Sound(gis.Abstract())
    }

    constructor ()
      ensures Valid() && !initialized && !gis.initialized
      ensures fresh(gis) && fresh(gis.quatGyro) && fresh(nRaw) && fresh(h)
    {
      gis := new GyroIntegration.GyroIntegrationState();
      initialized := false;
      nRaw := new real[3](_ => 0.0);
      h := new real[3](_ => 0.0);
    }

    function Abstract(): State
      requires nRaw.Length == 3 && h.Length == 3
      reads this, gis, gis.quatGyro, nRaw, h
    {
      State(gis.Abstract(), initialized, Load(nRaw), Load(h))
    }

    /** Sets `h` to a vector orthogonal to `nRaw`; false in free fall. */
    method ChooseEast(n: array<real>) returns (ok: bool)
      requires nRaw.Length == 3 && h.Length == 3 && nRaw != h && n.Length == 3 && n != nRaw && n != h
      requires Load(n) == Load(nRaw)
      modifies n, h
      ensures ok == !FreeFall(Load(nRaw))
      ensures Load(h) == if ok then InitialEast(Load(nRaw)) else old(Load(h))
    {
      hide IsPermutation;
      hide SortedByMagnitude;
      hide FirstLargest;
      hide FreeFall;
      hide InitialEast;
      var nPerm := new nat[3];
      assert n[..] == [n[0], n[1], n[2]] && nRaw[..] == [nRaw[0], nRaw[1], nRaw[2]];
      var _ := PermSort.PermSort(nPerm, n);
      FirstIsLargest(nRaw[..], nPerm[0]);
      assert nPerm[..] == [nPerm[0], nPerm[1], nPerm[2]];
      ThreePlaces(nPerm[..]);
      ok := SpreadEast(nPerm[0], nPerm[1], nPerm[2]);
    }

    method SpreadEast(p0: nat, p1: nat, p2: nat) returns (ok: bool)
      requires nRaw.Length == 3 && h.Length == 3 && nRaw != h
      requires p0 < 3 && p1 < 3 && p2 < 3 && p0 != p1 && p1 != p2 && p2 != p0
      requires p0 == Largest(Load(nRaw))
      modifies h
      ensures ok == !FreeFall(Load(nRaw))
      ensures Load(h) == if ok then InitialEast(Load(nRaw)) else old(Load(h))
    {
      hide Balance;
      if Abs(nRaw[p0]) <= TINY {
        return false;
      }
      h[p2] := 1.0;
      h[p1] := 1.0;
      h[p0] := Balance(nRaw[p2] + nRaw[p1], nRaw[p0]);
      return true;
    }

    static lemma FirstIsLargest(s: seq<real>, k: nat)
      requires |s| == 3 && FirstLargest(s, k)
      ensures k == Largest(Vec(s[0], s[1], s[2]))
    {}

    static lemma ThreePlaces(p: seq<nat>)
      requires |p| == 3 && IsPermutation(p)
      ensures p[0] < 3 && p[1] < 3 && p[2] < 3 && p[0] != p[1] && p[1] != p[2] && p[2] != p[0]
    {}

    /** Builds the world frame from `nRaw` and `h`, leaving its rows in `h`, `north` and `n`. */
    method Orthonormalize(m: MathLibrary, n: array<real>, north: array<real>) returns (ok: bool)
      requires nRaw.Length == 3 && h.Length == 3 && n.Length == 3 && north.Length == 3
      requires n !in {nRaw, h} && north !in {nRaw, h, n} && nRaw != h
      modifies h, n, north
      ensures var a := BuildFrame(m, Load(nRaw), old(Load(h)));
        if ok then a == Accepted(Frame(Load(h), Load(north), Load(n))) else a == Rejected(Load(h))
    {
      hide Cross;
      hide Over;
      hide Dot3;
      hide Less;
      hide Length;
      var tmpNorm := Length(m, Load(nRaw));
      if tmpNorm < TINY {
        return false;
      }
      Store(n, Over(Load(nRaw), tmpNorm));
      Store(h, Horizontal(Load(h), Load(n)));
      tmpNorm := Length(m, Load(h));
      if tmpNorm < TINY {
        return false;
      }
      Store(h, Over(Load(h), tmpNorm));
      Cross3(north, n, h);
      return true;
    }

    /** Integrates the rotation of an accepted frame and keeps the east vector it implies. */
    method FuseFrame(m: MathLibrary, fusionData: FusionData, f: Frame)
      requires m.Valid() && fusionData.gameRotation != gis.quatGyro && h.Length == 3 && nRaw.Length == 3 && nRaw != h
      requires fusionData.gameRotation.timestamp == fusionData.gyro.timestamp
      requires initialized
      modifies gis, gis.quatGyro, h, fusionData.gameRotation
      ensures var (s, out) := AfterFrame(m, old(Abstract()), Load(nRaw), Accepted(f), fusionData.gyro);
        Abstract() == s && Some(fusionData.gameRotation.Value()) == out
      ensures fusionData.gameRotation.timestamp == fusionData.gyro.timestamp
    {
      hide FrameQuat;
      hide EastOf;
      fusionData.gameRotation.Store(FrameQuat(m, f));
      fusionData.gameRotation.accuracy := 0.0;
      var _ := GyroIntegration.Integrate(m, gis, fusionData.gameRotation, fusionData.gameRotation, fusionData);
      StepTimestamp(m, old(gis.Abstract()), GyroIntegration.Sample(FrameQuat(m, f), fusionData.gyro.timestamp, fusionData.gyro));
      hide GyroIntegration.Step;
      UpdateEast(m, fusionData.gameRotation);
    }

    static lemma StepTimestamp(m: MathLibrary, s: GyroIntegration.State, i: GyroIntegration.Sample)
      requires m.Valid()
      ensures GyroIntegration.Step(m, s, i).0.timestamp == i.gyro.timestamp
    {}

    /** Processes one reading; false when the call is rejected. */
    method ProcessFusion(m: MathLibrary, fusionData: FusionData, reset: bool) returns (ok: bool)
      requires m.Valid() && Valid() && fusionData.gameRotation != gis.quatGyro
      modifies this, gis, gis.quatGyro, nRaw, h
      modifies fusionData.gameRotation
      ensures Valid()
      ensures var accel := Vec(fusionData.accel.x, fusionData.accel.y, fusionData.accel.z);
        var (s, out) := Fuse(m, old(Abstract()), accel, fusionData.gyro, reset);
        && Abstract() == s
        && ok == out.Some?
        && fusionData.gameRotation.Value() == (if ok then out.value else old(fusionData.gameRotation.Value()))
        && fusionData.gameRotation.timestamp == fusionData.gyro.timestamp
    {
      hide InitialEast;
      hide FreeFall;
      hide Filtered;
      hide BuildFrame;
      hide GyroIntegration.Step;
      hide EastOf;
      hide FrameQuat;
      ghost var v := Vec(fusionData.accel.x, fusionData.accel.y, fusionData.accel.z);
      FuseSound(m, Abstract(), Reading(v, fusionData.gyro, reset));
      hide GyroIntegration.Sound;
      hide Blended;
      if reset {
        gis.initialized := false;
        initialized := false;
      }
      var n := new real[3][fusionData.accel.x, fusionData.accel.y, fusionData.accel.z];
      var north := new real[3];
      assert Load(n) == v;
      fusionData.gameRotation.timestamp := fusionData.gyro.timestamp;
      if initialized {
        Store(nRaw, Filtered(Load(n), Load(nRaw)));
      } else {
        Store(nRaw, Load(n));
        var upright := ChooseEast(n);
        if !upright {
          return false;
        }
        initialized := true;
      }
      var accepted := Orthonormalize(m, n, north);
      if !accepted {
        return false;
      }
      FuseFrame(m, fusionData, Frame(Load(h), Load(north), Load(n)));
      return true;
    }

    /** Keeps the east vector current: the x axis turned by the new rotation. */
    method UpdateEast(m: MathLibrary, rotation: QuatData)
      requires m.Valid() && h.Length == 3
      modifies h
      ensures Load(h) == EastOf(m, rotation.Value())
    {
      hide Product;
      hide Renormalized;
      var qx := new QuatData(Pure(AXIS_X), 0.0, 0);
      var qEast := new QuatData(Quat(0.0, 0.0, 0.0, 0.0), 0.0, 0);
      Inv(qEast, rotation);
      var _ := Mul(m, qx, qx, rotation);
      MulNoRenormalize(qEast, qEast, qx);
      Store(h, Vec(qEast.a, qEast.b, qEast.c));
    }
  }
}
