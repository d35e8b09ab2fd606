/** World frames (east, north, up) as rotation matrices, and the quaternion recovered from one. */
module Frames {
  import opened Numbers
  import opened Quaternions
  import opened Vectors

  /** The rows of the rotation matrix from device to world coordinates. */
  datatype Frame = Frame(h: Vec, m: Vec, n: Vec)

  /** A proper rotation: orthonormal rows and columns, and every entry equal to its cofactor. */
  ghost predicate IsRotation(f: Frame) {
    && RowsOrthonormal(f)
    && ColumnsOrthonormal(f)
    && f.h == Cross(f.m, f.n) && f.m == Cross(f.n, f.h) && f.n == Cross(f.h, f.m)
  }

  ghost predicate RowsOrthonormal(f: Frame) {
    && Dot3(f.h, f.h) == 1.0 && Dot3(f.m, f.m) == 1.0 && Dot3(f.n, f.n) == 1.0
    && Dot3(f.h, f.m) == 0.0 && Dot3(f.m, f.n) == 0.0 && Dot3(f.n, f.h) == 0.0
  }

  ghost predicate ColumnsOrthonormal(f: Frame) {
    && Square(f.h.x) + Square(f.m.x) + Square(f.n.x) == 1.0
    && Square(f.h.y) + Square(f.m.y) + Square(f.n.y) == 1.0
    && Square(f.h.z) + Square(f.m.z) + Square(f.n.z) == 1.0
    && Times(f.h.x, f.h.y) + Times(f.m.x, f.m.y) + Times(f.n.x, f.n.y) == 0.0
    && Times(f.h.y, f.h.z) + Times(f.m.y, f.m.z) + Times(f.n.y, f.n.z) == 0.0
    && Times(f.h.z, f.h.x) + Times(f.m.z, f.m.x) + Times(f.n.z, f.n.x) == 0.0
  }

  // Four times the squares of the quaternion's components.

  function TraceA(f: Frame): real { 1.0 + f.h.x - f.m.y - f.n.z }

  function TraceB(f: Frame): real { 1.0 - f.h.x + f.m.y - f.n.z }

  function TraceC(f: Frame): real { 1.0 - f.h.x - f.m.y + f.n.z }

  function TraceD(f: Frame): real { 1.0 + f.h.x + f.m.y + f.n.z }

  /** The quaternion recovered from a rotation matrix; the absolute values guard the roots. */
  function FrameQuat(m: MathLibrary, f: Frame): Quat {
    Quat(CopySign(0.5 * m.sqrt(Abs(TraceA(f))), f.n.y - f.m.z),
         CopySign(0.5 * m.sqrt(Abs(TraceB(f))), f.h.z - f.n.x),
         CopySign(0.5 * m.sqrt(Abs(TraceC(f))), f.m.x - f.h.y),
         0.5 * m.sqrt(Abs(TraceD(f))))
  }

  function Pure(v: Vec): Quat {
    Quat(v.x, v.y, v.z, 0.0)
  }

  /** The vector `v` turned by the conjugate of `q`, as the code does it: q^-1 * v * q. */
  function Turned(q: Quat, v: Vec): Quat {
    Product(Conjugate(q), Product(Pure(v), q))
  }

  const AXIS_X := Vec(1.0, 0.0, 0.0)
  const AXIS_Y := Vec(0.0, 1.0, 0.0)
  const AXIS_Z := Vec(0.0, 0.0, 1.0)

  /** Conjugation by `q` takes the three axes to the rows of the frame. */
  ghost predicate Reproduces(q: Quat, f: Frame) {
    Turned(q, AXIS_X) == Pure(f.h) && Turned(q, AXIS_Y) == Pure(f.m) && Turned(q, AXIS_Z) == Pure(f.n)
  }

  // ----- two orthogonal unit vectors and their cross product form a rotation

  lemma GramX(n: Vec, h: Vec)
    ensures Square(CrossX(n, h))
         == Times(Dot3(n, n), Dot3(h, h)) - Square(Dot3(n, h)) - Times(Dot3(h, h), Square(n.x))
            - Times(Dot3(n, n), Square(h.x)) + 2.0 * Times(Dot3(n, h), Times(n.x, h.x))
  {}

  lemma GramY(n: Vec, h: Vec)
    ensures Square(CrossY(n, h))
         == Times(Dot3(n, n), Dot3(h, h)) - Square(Dot3(n, h)) - Times(Dot3(h, h), Square(n.y))
            - Times(Dot3(n, n), Square(h.y)) + 2.0 * Times(Dot3(n, h), Times(n.y, h.y))
  {}

  lemma GramZ(n: Vec, h: Vec)
    ensures Square(CrossZ(n, h))
         == Times(Dot3(n, n), Dot3(h, h)) - Square(Dot3(n, h)) - Times(Dot3(h, h), Square(n.z))
            - Times(Dot3(n, n), Square(h.z)) + 2.0 * Times(Dot3(n, h), Times(n.z, h.z))
  {}

  lemma GramXY(n: Vec, h: Vec)
    ensures Times(CrossX(n, h), CrossY(n, h))
         == Times(Dot3(n, h), n.x * h.y + n.y * h.x) - Times(Dot3(h, h), Times(n.x, n.y))
            - Times(Dot3(n, n), Times(h.x, h.y))
  {}

  lemma GramYZ(n: Vec, h: Vec)
    ensures Times(CrossY(n, h), CrossZ(n, h))
         == Times(Dot3(n, h), n.y * h.z + n.z * h.y) - Times(Dot3(h, h), Times(n.y, n.z))
            - Times(Dot3(n, n), Times(h.y, h.z))
  {}

  lemma GramZX(n: Vec, h: Vec)
    ensures Times(CrossZ(n, h), CrossX(n, h))
         == Times(Dot3(n, h), n.z * h.x + n.x * h.z) - Times(Dot3(h, h), Times(n.z, n.x))
            - Times(Dot3(n, n), Times(h.z, h.x))
  {}

  lemma ColumnsFromRows(n: Vec, h: Vec)
    requires Dot3(n, n) == 1.0 && Dot3(h, h) == 1.0 && Dot3(n, h) == 0.0
    ensures ColumnsOrthonormal(Frame(h, Cross(n, h), n))
  {
    GramX(n, h);
    GramY(n, h);
    GramZ(n, h);
    GramXY(n, h);
    GramYZ(n, h);
    GramZX(n, h);
    assert forall x :: Times(0.0, x) == 0.0 && Times(1.0, x) == x;
    assert Square(0.0) == 0.0;
    hide Times;
    hide Square;
    hide Dot3;
    hide CrossX;
    hide CrossY;
    hide CrossZ;
  }

  lemma CrossNorm(n: Vec, h: Vec)
    ensures Dot3(Cross(n, h), Cross(n, h)) == Times(Dot3(n, n), Dot3(h, h)) - Square(Dot3(n, h))
    ensures Dot3(h, Cross(n, h)) == 0.0
    ensures Dot3(Cross(n, h), n) == 0.0
  {}

  /** The two vector triple products. */
  lemma TripleProducts(n: Vec, h: Vec)
    requires Dot3(n, n) == 1.0 && Dot3(h, h) == 1.0 && Dot3(n, h) == 0.0
    ensures h == Cross(Cross(n, h), n) && n == Cross(h, Cross(n, h))
  {}

  lemma FrameIsRotation(n: Vec, h: Vec)
    requires Dot3(n, n) == 1.0 && Dot3(h, h) == 1.0 && Dot3(n, h) == 0.0
    ensures IsRotation(Frame(h, Cross(n, h), n))
  {
    ColumnsFromRows(n, h);
    TripleProducts(n, h);
    CrossNorm(n, h);
    assert Times(1.0, 1.0) == 1.0 && Square(0.0) == 0.0;
    hide Times;
    hide Square;
    hide Dot3;
    hide CrossX;
    hide CrossY;
    hide CrossZ;
    hide ColumnsOrthonormal;
  }

  // ----- the products of the four traces

  /** For two diagonal entries `x`, `y`, the third one `z`, and the entries `p`, `q` across from `z`. */
  lemma TraceProducts(x: real, y: real, z: real, p: real, q: real)
    requires Square(p) + Square(q) == 1.0 - Square(x) - Square(y) + Square(z)
    requires z == Times(x, y) - Times(p, q)
    ensures Times(1.0 + x - y - z, 1.0 - x + y - z) == Square(p + q)
    ensures Times(1.0 + x + y + z, 1.0 - x - y + z) == Square(p - q)
  {
    TracesExpanded(x, y, z);
    assert Square(p + q) == Square(p) + Square(q) + 2.0 * Times(p, q);
    assert Square(p - q) == Square(p) + Square(q) - 2.0 * Times(p, q);
    hide Square;
    hide Times;
  }

  lemma TracesExpanded(x: real, y: real, z: real)
    ensures Times(1.0 + x - y - z, 1.0 - x + y - z)
         == 1.0 - 2.0 * z + Square(z) - Square(x) - Square(y) + 2.0 * Times(x, y)
    ensures Times(1.0 + x + y + z, 1.0 - x - y + z)
         == 1.0 + 2.0 * z + Square(z) - Square(x) - Square(y) - 2.0 * Times(x, y)
  {}

  lemma MixedProduct(x: real, y: real, z: real, p: real, q: real, a: real, b: real, c: real, d: real)
    requires q == Times(a, c) - Times(p, z) && p == Times(b, d) - Times(q, z)
    requires Times(x, p) + Times(q, y) + Times(a, d) == 0.0
    requires Times(x, q) + Times(p, y) + Times(c, b) == 0.0
    ensures Times(1.0 + x + y + z, p + q) == Times(a - b, c - d)
  {
    assert Times(1.0 + x + y + z, p + q) == p + q + Times(x, p) + Times(x, q) + Times(p, y) + Times(q, y) + Times(p, z) + Times(q, z);
    assert Times(a - b, c - d) == Times(a, c) - Times(a, d) - Times(c, b) + Times(b, d);
    hide Times;
  }

  /** The pairwise products of the traces of a rotation are perfect squares. */
  lemma RotationTraces(f: Frame)
    requires IsRotation(f)
    ensures Times(TraceA(f), TraceB(f)) == Square(f.h.y + f.m.x)
    ensures Times(TraceD(f), TraceC(f)) == Square(f.h.y - f.m.x)
    ensures Times(TraceA(f), TraceC(f)) == Square(f.h.z + f.n.x)
    ensures Times(TraceD(f), TraceB(f)) == Square(f.h.z - f.n.x)
    ensures Times(TraceB(f), TraceC(f)) == Square(f.m.z + f.n.y)
    ensures Times(TraceD(f), TraceA(f)) == Square(f.m.z - f.n.y)
  {
    DotSquares(f.h);
    DotSquares(f.m);
    DotSquares(f.n);
    CrossTimes(f.m, f.n);
    CrossTimes(f.n, f.h);
    CrossTimes(f.h, f.m);
    assert forall x, y :: Times(x, y) == Times(y, x);
    hide Times;
    hide Square;
    hide Dot3;
    hide CrossX;
    hide CrossY;
    hide CrossZ;
    TraceProducts(f.h.x, f.m.y, f.n.z, f.h.y, f.m.x);
    TraceProducts(f.h.x, f.n.z, f.m.y, f.h.z, f.n.x);
    TraceProducts(f.m.y, f.n.z, f.h.x, f.m.z, f.n.y);
  }

  lemma RotationMixed(f: Frame)
    requires IsRotation(f)
    ensures Times(TraceD(f), f.h.y + f.m.x) == Times(f.n.y - f.m.z, f.h.z - f.n.x)
    ensures Times(TraceD(f), f.h.z + f.n.x) == Times(f.n.y - f.m.z, f.m.x - f.h.y)
    ensures Times(TraceD(f), f.m.z + f.n.y) == Times(f.h.z - f.n.x, f.m.x - f.h.y)
  {
    DotTimes(f.h, f.m);
    DotTimes(f.m, f.n);
    DotTimes(f.n, f.h);
    CrossTimes(f.m, f.n);
    CrossTimes(f.n, f.h);
    CrossTimes(f.h, f.m);
    assert forall x, y :: Times(x, y) == Times(y, x);
    assert Times(f.m.z - f.n.y, f.h.y - f.m.x) == Times(f.n.y - f.m.z, f.m.x - f.h.y);
    hide Times;
    hide Square;
    hide Dot3;
    hide CrossX;
    hide CrossY;
    hide CrossZ;
    MixedProduct(f.h.x, f.m.y, f.n.z, f.h.y, f.m.x, f.n.y, f.m.z, f.h.z, f.n.x);
    MixedProduct(f.h.x, f.n.z, f.m.y, f.h.z, f.n.x, f.m.z, f.n.y, f.h.y, f.m.x);
    MixedProduct(f.m.y, f.n.z, f.h.x, f.m.z, f.n.y, f.h.z, f.n.x, f.m.x, f.h.y);
  }

  lemma DotSquares(v: Vec)
    ensures Dot3(v, v) == Square(v.x) + Square(v.y) + Square(v.z)
  {}

  lemma DotTimes(u: Vec, v: Vec)
    ensures Dot3(u, v) == Times(u.x, v.x) + Times(u.y, v.y) + Times(u.z, v.z)
  {}

  lemma CrossTimes(u: Vec, v: Vec)
    ensures CrossX(u, v) == Times(u.y, v.z) - Times(u.z, v.y)
    ensures CrossY(u, v) == Times(u.z, v.x) - Times(u.x, v.z)
    ensures CrossZ(u, v) == Times(u.x, v.y) - Times(u.y, v.x)
  {}

  // ----- the roots

  /** A negative trace would force all the others below zero, yet they add up to 4. */
  lemma OthersNonPositive(t: real, u: real)
    requires t < 0.0 && 0.0 <= Times(t, u)
    ensures u <= 0.0
  {
    assert 0.0 < u ==> t * u < 0.0;
  }

  /** The guards never bite: in exact arithmetic every argument of a root is non-negative. */
  lemma TracesNonNegative(f: Frame)
    requires IsRotation(f)
    ensures 0.0 <= TraceA(f) && 0.0 <= TraceB(f) && 0.0 <= TraceC(f) && 0.0 <= TraceD(f)
  {
    RotationTraces(f);
    hide IsRotation;
    SquareNonNegative(f.h.y + f.m.x);
    SquareNonNegative(f.h.y - f.m.x);
    SquareNonNegative(f.h.z + f.n.x);
    SquareNonNegative(f.h.z - f.n.x);
    SquareNonNegative(f.m.z + f.n.y);
    SquareNonNegative(f.m.z - f.n.y);
    assert forall x, y :: Times(x, y) == Times(y, x);
    hide Times;
    hide Square;
    var a, b, c, d := TraceA(f), TraceB(f), TraceC(f), TraceD(f);
    assert a + b + c + d == 4.0;
    NoneNegative(a, b, c, d);
    NoneNegative(b, a, c, d);
    NoneNegative(c, a, b, d);
    NoneNegative(d, a, b, c);
  }

  lemma NoneNegative(t: real, u: real, v: real, w: real)
    requires t + u + v + w == 4.0
    requires 0.0 <= Times(t, u) && 0.0 <= Times(t, v) && 0.0 <= Times(t, w)
    ensures 0.0 <= t
  {
    hide Times;
    if t < 0.0 {
      OthersNonPositive(t, u);
      OthersNonPositive(t, v);
      OthersNonPositive(t, w);
    }
  }

  lemma HalfRoot(m: MathLibrary, t: real, s: real)
    requires m.Valid() && 0.0 <= t
    ensures var w := CopySign(0.5 * m.sqrt(Abs(t)), s);
      4.0 * Square(w) == t && (s < 0.0 ==> w <= 0.0) && (0.0 <= s ==> 0.0 <= w)
  {
    var r := m.sqrt(t);
    assert 4.0 * Square(0.5 * r) == Square(r);
    assert 4.0 * Square(-(0.5 * r)) == Square(r);
    hide Square;
  }

  /** Two components with the right sign multiply to the off-diagonal sum or difference. */
  lemma SignedProduct(u: real, w: real, t: real, v: real, s: real)
    requires 4.0 * Square(u) == t && 4.0 * Square(w) == v && Times(t, v) == Square(s)
    ensures 0.0 <= s && 0.0 <= Times(u, w) ==> 4.0 * Times(u, w) == s
    ensures s <= 0.0 && Times(u, w) <= 0.0 ==> 4.0 * Times(u, w) == s
    ensures s == 0.0 ==> Times(u, w) == 0.0
  {
    var p := 4.0 * Times(u, w);
    assert Square(4.0 * Times(u, w)) == Times(4.0 * Square(u), 4.0 * Square(w));
    assert Square(-p) == Square(p) && Square(-s) == Square(s);
    hide Times;
    hide Square;
    if 0.0 <= s {
      if 0.0 <= p { SquareInjective(p, s); } else { SquareInjective(-p, s); }
    } else {
      if 0.0 <= p { SquareInjective(p, -s); } else { SquareInjective(-p, -s); }
    }
  }

  /** What the four roots are: signed halves of the roots of the traces. */
  lemma Components(m: MathLibrary, f: Frame)
    requires m.Valid() && IsRotation(f)
    ensures var q := FrameQuat(m, f);
      && 4.0 * Square(q.a) == TraceA(f) && 4.0 * Square(q.b) == TraceB(f)
      && 4.0 * Square(q.c) == TraceC(f) && 4.0 * Square(q.d) == TraceD(f)
      && (if f.n.y - f.m.z < 0.0 then q.a <= 0.0 else 0.0 <= q.a)
      && (if f.h.z - f.n.x < 0.0 then q.b <= 0.0 else 0.0 <= q.b)
      && (if f.m.x - f.h.y < 0.0 then q.c <= 0.0 else 0.0 <= q.c)
      && 0.0 <= q.d
  {
    TracesNonNegative(f);
    hide IsRotation;
    hide Square;
    HalfRoot(m, TraceA(f), f.n.y - f.m.z);
    HalfRoot(m, TraceB(f), f.h.z - f.n.x);
    HalfRoot(m, TraceC(f), f.m.x - f.h.y);
    HalfRoot(m, TraceD(f), 1.0);
  }

  /** The recovered quaternion has norm 1. */
  lemma FrameQuatUnit(m: MathLibrary, f: Frame)
    requires m.Valid() && IsRotation(f)
    ensures Norm2(FrameQuat(m, f)) == 1.0
  {
    Components(m, f);
    hide IsRotation;
    var q := FrameQuat(m, f);
    hide FrameQuat;
    assert Sum4(q.a, q.b, q.c, q.d) == Square(q.a) + Square(q.b) + Square(q.c) + Square(q.d);
    hide Square;
    hide Sum4;
  }

  lemma SignTimes(x: real, y: real)
    ensures 0.0 <= x && 0.0 <= y ==> 0.0 <= Times(x, y)
    ensures x <= 0.0 && y <= 0.0 ==> 0.0 <= Times(x, y)
    ensures 0.0 <= x && y <= 0.0 ==> Times(x, y) <= 0.0
    ensures x <= 0.0 && 0.0 <= y ==> Times(x, y) <= 0.0
  {}

  lemma SquareNegation(x: real, y: real)
    requires y == -x
    ensures Square(x) == Square(y)
  {}

  /** The products with the scalar part are the antisymmetric parts of the matrix, always. */
  lemma ScalarProducts(m: MathLibrary, f: Frame)
    requires m.Valid() && IsRotation(f)
    ensures var q := FrameQuat(m, f);
      && 4.0 * Times(q.d, q.a) == f.n.y - f.m.z
      && 4.0 * Times(q.d, q.b) == f.h.z - f.n.x
      && 4.0 * Times(q.d, q.c) == f.m.x - f.h.y
  {
    Components(m, f);
    RotationTraces(f);
    var q := FrameQuat(m, f);
    SquareNegation(f.m.z - f.n.y, f.n.y - f.m.z);
    SquareNegation(f.h.y - f.m.x, f.m.x - f.h.y);
    hide IsRotation;
    hide FrameQuat;
    hide Times;
    hide Square;
    SignTimes(q.d, q.a);
    SignTimes(q.d, q.b);
    SignTimes(q.d, q.c);
    SignedProduct(q.d, q.a, TraceD(f), TraceA(f), f.n.y - f.m.z);
    SignedProduct(q.d, q.b, TraceD(f), TraceB(f), f.h.z - f.n.x);
    SignedProduct(q.d, q.c, TraceD(f), TraceC(f), f.m.x - f.h.y);
  }

  /** A product of two vector components is right unless the trace vanishes and its sign is wrong. */
  lemma VectorProduct(u: real, w: real, d: real, t: real, v: real, s: real, sym: real, x: real, y: real)
    requires 4.0 * Square(u) == t && 4.0 * Square(w) == v && Times(t, v) == Square(sym)
    requires 0.0 <= d && 4.0 * Square(d) == s && Times(s, sym) == Times(x, y)
    requires 4.0 * Times(d, u) == x && 4.0 * Times(d, w) == y
    requires if x < 0.0 then u <= 0.0 else 0.0 <= u
    requires if y < 0.0 then w <= 0.0 else 0.0 <= w
    ensures 4.0 * Times(u, w) == sym <==> 0.0 < s || 0.0 <= sym
  {
    if s == 0.0 {
      assert Square(d) == 0.0 && d == 0.0 by {
        if d != 0.0 { SquarePositive(d); }
      }
      assert Times(0.0, u) == 0.0 && Times(0.0, w) == 0.0;
      hide Times;
      hide Square;
      SignTimes(u, w);
      SignedProduct(u, w, t, v, sym);
    } else {
      SquareNonNegative(d);
      assert Times(s, 4.0 * Times(u, w)) == Times(x, y) by {
        ProductsRegrouped(u, w, d);
      }
      hide Times;
      hide Square;
      CancelFactor(s, 4.0 * Times(u, w), sym);
    }
  }

  lemma ProductsRegrouped(u: real, w: real, d: real)
    ensures Times(4.0 * Square(d), 4.0 * Times(u, w)) == Times(4.0 * Times(d, u), 4.0 * Times(d, w))
  {}

  lemma CancelFactor(s: real, x: real, y: real)
    requires s != 0.0 && Times(s, x) == Times(s, y)
    ensures x == y
  {
    assert s * (x - y) == 0.0;
  }

  lemma TurnedX(q: Quat)
    ensures Turned(q, AXIS_X) == Quat(Square(q.a) - Square(q.b) - Square(q.c) + Square(q.d),
                                      2.0 * Times(q.a, q.b) - 2.0 * Times(q.d, q.c),
                                      2.0 * Times(q.a, q.c) + 2.0 * Times(q.d, q.b), 0.0)
  {
    assert Product(Pure(AXIS_X), q) == Quat(q.d, -q.c, q.b, -q.a);
  }

  lemma TurnedY(q: Quat)
    ensures Turned(q, AXIS_Y) == Quat(2.0 * Times(q.a, q.b) + 2.0 * Times(q.d, q.c),
                                      Square(q.b) - Square(q.a) - Square(q.c) + Square(q.d),
                                      2.0 * Times(q.b, q.c) - 2.0 * Times(q.d, q.a), 0.0)
  {
    assert Product(Pure(AXIS_Y), q) == Quat(q.c, q.d, -q.a, -q.b);
  }

  lemma TurnedZ(q: Quat)
    ensures Turned(q, AXIS_Z) == Quat(2.0 * Times(q.a, q.c) - 2.0 * Times(q.d, q.b),
                                      2.0 * Times(q.b, q.c) + 2.0 * Times(q.d, q.a),
                                      Square(q.c) - Square(q.a) - Square(q.b) + Square(q.d), 0.0)
  {
    assert Product(Pure(AXIS_Z), q) == Quat(-q.b, q.a, q.d, -q.c);
  }

  /** The quaternion reproduces the matrix exactly when its scalar part is positive, or else the
      matrix (a half turn) has no negative entry above the diagonal. */
  lemma FrameQuatReproduces(m: MathLibrary, f: Frame)
    requires m.Valid() && IsRotation(f)
    ensures Reproduces(FrameQuat(m, f), f)
       <==> 0.0 < TraceD(f) || (0.0 <= f.h.y && 0.0 <= f.h.z && 0.0 <= f.m.z)
  {
    var q := FrameQuat(m, f);
    Components(m, f);
    RotationTraces(f);
    RotationMixed(f);
    ScalarProducts(m, f);
    TurnedX(q);
    TurnedY(q);
    TurnedZ(q);
    hide IsRotation;
    hide FrameQuat;
    hide Times;
    hide Square;
    hide Turned;
    VectorProduct(q.a, q.b, q.d, TraceA(f), TraceB(f), TraceD(f), f.h.y + f.m.x, f.n.y - f.m.z, f.h.z - f.n.x);
    VectorProduct(q.a, q.c, q.d, TraceA(f), TraceC(f), TraceD(f), f.h.z + f.n.x, f.n.y - f.m.z, f.m.x - f.h.y);
    VectorProduct(q.b, q.c, q.d, TraceB(f), TraceC(f), TraceD(f), f.m.z + f.n.y, f.h.z - f.n.x, f.m.x - f.h.y);
    if TraceD(f) <= 0.0 {
      HalfTurnSymmetric(m, f);
    }
  }

  /** A rotation with vanishing scalar part is symmetric. */
  lemma HalfTurnSymmetric(m: MathLibrary, f: Frame)
    requires m.Valid() && IsRotation(f) && TraceD(f) <= 0.0
    ensures TraceD(f) == 0.0 && f.n.y == f.m.z && f.h.z == f.n.x && f.m.x == f.h.y
  {
    TracesNonNegative(f);
    ScalarProducts(m, f);
    Components(m, f);
    var q := FrameQuat(m, f);
    hide IsRotation;
    hide FrameQuat;
    if q.d != 0.0 { SquarePositive(q.d); }
    assert Times(0.0, q.a) == 0.0 && Times(0.0, q.b) == 0.0 && Times(0.0, q.c) == 0.0;
    hide Times;
    hide Square;
  }
}
