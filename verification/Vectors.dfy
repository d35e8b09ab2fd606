/** Vectors of three coordinates, as values and as the arrays the code keeps them in. */
module Vectors {
  import opened Numbers

  datatype Vec = Vec(x: real, y: real, z: real)

  function Dot3(u: Vec, v: Vec): real {
    u.x * v.x + u.y * v.y + u.z * v.z
  }

  function CrossX(u: Vec, v: Vec): real {
    u.y * v.z - u.z * v.y
  }

  function CrossY(u: Vec, v: Vec): real {
    u.z * v.x - u.x * v.z
  }

  function CrossZ(u: Vec, v: Vec): real {
    u.x * v.y - u.y * v.x
  }

  function Cross(u: Vec, v: Vec): Vec {
    Vec(CrossX(u, v), CrossY(u, v), CrossZ(u, v))
  }

  function Over(v: Vec, s: real): Vec
    requires s != 0.0
  {
    Vec(v.x / s, v.y / s, v.z / s)
  }

  /** `v - s * u` */
  function Less(v: Vec, s: real, u: Vec): Vec {
    Vec(v.x - s * u.x, v.y - s * u.y, v.z - s * u.z)
  }

  function Scaled(v: Vec, s: real): Vec {
    Vec(v.x * s, v.y * s, v.z * s)
  }

  function Length(m: MathLibrary, v: Vec): real {
    m.sqrt(Dot3(v, v))
  }

  function Load(a: array<real>): Vec
    requires a.Length == 3
    reads a
  {
    Vec(a[0], a[1], a[2])
  }

  method Store(a: array<real>, v: Vec)
    requires a.Length == 3
    modifies a
    ensures Load(a) == v
  {
    a[0] := v.x;
    a[1] := v.y;
    a[2] := v.z;
  }

  /** The cross product; `out` must not be `u` or `v`. */
  method Cross3(out: array<real>, u: array<real>, v: array<real>)
    requires out.Length == 3 && u.Length == 3 && v.Length == 3 && out != u && out != v
    modifies out
    ensures Load(out) == Cross(Load(u), Load(v))
  {
    hide CrossX;
    hide CrossY;
    hide CrossZ;
    out[0] := CrossX(Load(u), Load(v));
    out[1] := CrossY(Load(u), Load(v));
    out[2] := CrossZ(Load(u), Load(v));
  }

  lemma LengthNonNegative(m: MathLibrary, v: Vec)
    requires m.Valid()
    ensures 0.0 <= Dot3(v, v)
    ensures 0.0 <= Length(m, v) && Square(Length(m, v)) == Dot3(v, v)
  {
    assert Dot3(v, v) == Square(v.x) + Square(v.y) + Square(v.z);
    SquareNonNegative(v.x);
    SquareNonNegative(v.y);
    SquareNonNegative(v.z);
    hide Square;
    hide Dot3;
  }

  /** Dividing a vector by its length makes it a unit vector. */
  lemma OverLength(m: MathLibrary, v: Vec)
    requires m.Valid() && 0.0 < Length(m, v)
    ensures Dot3(Over(v, Length(m, v)), Over(v, Length(m, v))) == 1.0
  {
    var s := Length(m, v);
    LengthNonNegative(m, v);
    SquarePositive(s);
    OverDot(v, v, s);
    hide Dot3;
    hide Square;
    hide Times;
    UnitFactor(Dot3(Over(v, s), Over(v, s)), Square(s));
  }

  lemma OverDot(u: Vec, v: Vec, s: real)
    requires s != 0.0
    ensures Times(Dot3(Over(u, s), Over(v, s)), Square(s)) == Dot3(u, v)
  {
    hide Dot3;
    hide Times;
    hide Square;
    OverThenScaled(u, s);
    OverThenScaled(v, s);
    hide Over;
    hide Scaled;
    ScaledDot(Over(u, s), Over(v, s), s);
  }

  lemma OverThenScaled(v: Vec, s: real)
    requires s != 0.0
    ensures Scaled(Over(v, s), s) == v
  {}

  lemma ScaledDotExpanded(a: real, b: real, c: real, x: real, y: real, z: real, s: real)
    ensures (a * x + b * y + c * z) * (s * s) == (a * s) * (x * s) + (b * s) * (y * s) + (c * s) * (z * s)
  {}

  lemma ScaledDot(u: Vec, v: Vec, s: real)
    ensures Times(Dot3(u, v), Square(s)) == Dot3(Scaled(u, s), Scaled(v, s))
  {
    ScaledDotExpanded(u.x, u.y, u.z, v.x, v.y, v.z, s);
  }

  /** Dividing one of two vectors scales their dot product. */
  lemma OverDotLeft(u: Vec, s: real, v: Vec)
    requires s != 0.0
    ensures Times(Dot3(Over(u, s), v), s) == Dot3(u, v)
  {
    var p := Over(u, s);
    assert p.x * s == u.x && p.y * s == u.y && p.z * s == u.z;
    assert Times(Dot3(p, v), s) == (p.x * s) * v.x + (p.y * s) * v.y + (p.z * s) * v.z;
  }

  /** Removing the component along a unit vector leaves something orthogonal to it. */
  lemma LessOrthogonal(h: Vec, n: Vec)
    requires Dot3(n, n) == 1.0
    ensures Dot3(Less(h, Dot3(h, n), n), n) == 0.0
  {
    LessDot(h, Dot3(h, n), n);
    assert Times(Dot3(h, n), 1.0) == Dot3(h, n);
    hide Dot3;
    hide Times;
  }

  lemma LessDot(h: Vec, s: real, n: Vec)
    ensures Dot3(Less(h, s, n), n) == Dot3(h, n) - Times(s, Dot3(n, n))
  {}
}
