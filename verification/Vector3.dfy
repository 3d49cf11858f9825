/** Three-dimensional vectors: the operations of Vector3.hpp used by the identification code. */
module Vectors {
  import opened Libm

  datatype Vector3 = Vector3(X: real, Y: real, Z: real)

  const ZERO := Vector3(0.0, 0.0, 0.0)
  const RIGHT := Vector3(1.0, 0.0, 0.0)
  const UP := Vector3(0.0, 1.0, 0.0)
  const FORWARD := Vector3(0.0, 0.0, 1.0)

  function Add(a: Vector3, b: Vector3): Vector3 {
    Vector3(a.X + b.X, a.Y + b.Y, a.Z + b.Z)
  }

  function Sub(a: Vector3, b: Vector3): Vector3 {
    Vector3(a.X - b.X, a.Y - b.Y, a.Z - b.Z)
  }

  function Scale(a: Vector3, k: real): Vector3 {
    Vector3(a.X * k, a.Y * k, a.Z * k)
  }

  function Dot(a: Vector3, b: Vector3): real {
    a.X * b.X + a.Y * b.Y + a.Z * b.Z
  }

  function Cross(a: Vector3, b: Vector3): Vector3 {
    Vector3(a.Y * b.Z - a.Z * b.Y, a.Z * b.X - a.X * b.Z, a.X * b.Y - a.Y * b.X)
  }

  function SqrMagnitude(v: Vector3): real {
    v.X * v.X + v.Y * v.Y + v.Z * v.Z
  }

  function Magnitude(lib: Libm, v: Vector3): real {
    lib.Sqrt(SqrMagnitude(v))
  }

  /** The zero vector is its own normalization. */
  function Normalized(lib: Libm, v: Vector3): Vector3 {
    var mag := Magnitude(lib, v);
    if mag == 0.0 then ZERO else Vector3(v.X / mag, v.Y / mag, v.Z / mag)
  }

  function Orthogonal(v: Vector3): Vector3 {
    if v.Z < v.X then Vector3(v.Y, -v.X, 0.0) else Vector3(0.0, -v.Z, v.Y)
  }

  /** The angle in radians. */
  function Angle(lib: Libm, a: Vector3, b: Vector3): real {
    AngleFrom(lib, Dot(a, b), SqrMagnitude(a), SqrMagnitude(b))
  }

  function AngleFrom(lib: Libm, dot: real, sqrA: real, sqrB: real): real {
    lib.Acos(Cosine(dot, Times(lib.Sqrt(sqrA), lib.Sqrt(sqrB))))
  }

  /** When a vector is zero the quotient is not a number, and the `fmax` that clamps it from
      below returns its other argument, -1. */
  function Cosine(dot: real, m: real): real {
    var v := if m == 0.0 then -1.0 else dot / m;
    var v := if v < -1.0 then -1.0 else v;
    if v > 1.0 then 1.0 else v
  }

  // ---- Vector identities

  /** Vectors are equal coordinate by coordinate; stated so that each is compared on its own. */
  lemma EqualCoordinates(a: Vector3, b: Vector3)
    requires a.X == b.X
    requires a.Y == b.Y
    requires a.Z == b.Z
    ensures a == b
  {
  }

  lemma DotSymmetric(a: Vector3, b: Vector3)
    ensures Dot(a, b) == Dot(b, a)
  {
  }

  lemma DotIsSqrMagnitude(x: Vector3)
    ensures Dot(x, x) == SqrMagnitude(x)
  {
  }

  lemma DotLinear(a: Vector3, b: Vector3, c: Vector3, k: real)
    ensures Dot(Add(a, b), c) == Dot(a, c) + Dot(b, c)
    ensures Dot(Sub(a, b), c) == Dot(a, c) - Dot(b, c)
    ensures Dot(Scale(a, k), c) == k * Dot(a, c)
    ensures Dot(c, Scale(a, k)) == k * Dot(c, a)
  {
  }

  /** |a x b|^2 + (a.b)^2 = |a|^2 |b|^2. */
  lemma Lagrange(a: Vector3, b: Vector3)
    ensures SqrMagnitude(Cross(a, b)) == SqrMagnitude(a) * SqrMagnitude(b) - Dot(a, b) * Dot(a, b)
  {
  }

  lemma CrossIsOrthogonal(a: Vector3, b: Vector3)
    ensures Dot(a, Cross(a, b)) == 0.0
    ensures Dot(b, Cross(a, b)) == 0.0
  {
  }

  lemma SqrMagnitudeZero(v: Vector3)
    ensures SqrMagnitude(v) >= 0.0
    ensures SqrMagnitude(v) == 0.0 <==> v == ZERO
  {
    SquareNonNegative(v.X);
    SquareNonNegative(v.Y);
    SquareNonNegative(v.Z);
  }

  lemma SqrMagnitudeScale(v: Vector3, k: real)
    ensures SqrMagnitude(Scale(v, k)) == k * k * SqrMagnitude(v)
  {
  }

  /** (p.u)(q.v) - (p.v)(q.u) = (p x q).(u x v). */
  lemma BinetCauchy(p: Vector3, q: Vector3, u: Vector3, v: Vector3)
    ensures Dot(p, u) * Dot(q, v) - Dot(p, v) * Dot(q, u) == Dot(Cross(p, q), Cross(u, v))
  {
  }

  /** The coordinates of a cross product, stated for a named result: polynomial identities
      are proved about such equations and not about nested calls. */
  lemma CrossCoordinates(a: Vector3, b: Vector3, c: Vector3)
    requires c == Cross(a, b)
    ensures c.X == a.Y * b.Z - a.Z * b.Y
    ensures c.Y == a.Z * b.X - a.X * b.Z
    ensures c.Z == a.X * b.Y - a.Y * b.X
  {
  }

  lemma ScaleCoordinates(a: Vector3, k: real, c: Vector3)
    requires c == Scale(a, k)
    ensures c.X == a.X * k
    ensures c.Y == a.Y * k
    ensures c.Z == a.Z * k
  {
  }

  // The products in named form.

  lemma DotInTimes(a: Vector3, b: Vector3)
    ensures Dot(a, b) == Times(a.X, b.X) + Times(a.Y, b.Y) + Times(a.Z, b.Z)
    ensures SqrMagnitude(a) == Times(a.X, a.X) + Times(a.Y, a.Y) + Times(a.Z, a.Z)
  {
  }

  lemma CrossInTimes(a: Vector3, b: Vector3)
    ensures Cross(a, b) == Vector3(Times(a.Y, b.Z) - Times(a.Z, b.Y), Times(a.Z, b.X) - Times(a.X, b.Z),
                                   Times(a.X, b.Y) - Times(a.Y, b.X))
  {
  }

  lemma ScaleInTimes(v: Vector3, k: real)
    ensures Scale(v, k) == Vector3(Times(v.X, k), Times(v.Y, k), Times(v.Z, k))
  {
  }

  /** a.(b x c) = b.(c x a). */
  lemma ScalarTripleCycles(a: Vector3, b: Vector3, c: Vector3)
    ensures Dot(a, Cross(b, c)) == Dot(b, Cross(c, a))
  {
  }

  /** a x (b x c) = b (a.c) - c (a.b). */
  lemma TripleProduct(a: Vector3, b: Vector3, c: Vector3)
    ensures Cross(a, Cross(b, c)) == Sub(Scale(b, Dot(a, c)), Scale(c, Dot(a, b)))
  {
    hide Times, Dot, Cross, Scale;
    CrossInTimes(b, c);
    CrossInTimes(a, Cross(b, c));
    DotInTimes(a, b);
    DotInTimes(a, c);
    ScaleInTimes(b, Dot(a, c));
    ScaleInTimes(c, Dot(a, b));
    TripleCoordinate(a.X, a.Y, a.Z, b.X, b.Y, b.Z, c.X, c.Y, c.Z);
    TripleCoordinate(a.Y, a.Z, a.X, b.Y, b.Z, b.X, c.Y, c.Z, c.X);
    TripleCoordinate(a.Z, a.X, a.Y, b.Z, b.X, b.Y, c.Z, c.X, c.Y);
    EqualCoordinates(Cross(a, Cross(b, c)), Sub(Scale(b, Dot(a, c)), Scale(c, Dot(a, b))));
  }

  lemma TripleCoordinate(aX: real, aY: real, aZ: real, bX: real, bY: real, bZ: real, cX: real, cY: real, cZ: real)
    ensures Times(aY, Times(bX, cY) - Times(bY, cX)) - Times(aZ, Times(bZ, cX) - Times(bX, cZ))
         == Times(bX, Times(aX, cX) + Times(aY, cY) + Times(aZ, cZ))
             - Times(cX, Times(aX, bX) + Times(aY, bY) + Times(aZ, bZ))
  {
  }

  /** A vector orthogonal to and collinear with a nonzero one is zero. */
  lemma OrthogonalAndCollinear(a: Vector3, b: Vector3)
    requires Dot(a, b) == 0.0 && Cross(a, b) == ZERO
    ensures a == ZERO || b == ZERO
  {
    MagnitudesMultiply(a, b);
    MagnitudesMultiplyToZero(a, b);
  }

  lemma MagnitudesMultiply(a: Vector3, b: Vector3)
    requires Dot(a, b) == 0.0 && Cross(a, b) == ZERO
    ensures SqrMagnitude(a) * SqrMagnitude(b) == 0.0
  {
    Lagrange(a, b);
  }

  lemma MagnitudesMultiplyToZero(a: Vector3, b: Vector3)
    requires SqrMagnitude(a) * SqrMagnitude(b) == 0.0
    ensures a == ZERO || b == ZERO
  {
    ZeroProduct(SqrMagnitude(a), SqrMagnitude(b));
    SqrMagnitudeZero(a);
    SqrMagnitudeZero(b);
  }

  // ---- Right-handed orthonormal triads

  ghost predicate RightHanded(a: Vector3, b: Vector3, c: Vector3) {
    && SqrMagnitude(a) == 1.0
    && SqrMagnitude(b) == 1.0
    && Dot(a, b) == 0.0
    && c == Cross(a, b)
  }

  /** Rotating the names of a right-handed triad keeps it right-handed. */
  lemma TriadCycles(a: Vector3, b: Vector3, c: Vector3)
    requires RightHanded(a, b, c)
    ensures RightHanded(b, c, a)
  {
    TripleProduct(b, a, b);
    assert Cross(b, c) == Sub(Scale(a, 1.0), Scale(b, 0.0)) == a;
    CrossIsOrthogonal(a, b);
    TriadThirdIsUnit(a, b);
  }

  lemma TriadThirdIsUnit(a: Vector3, b: Vector3)
    requires SqrMagnitude(a) == 1.0 && SqrMagnitude(b) == 1.0 && Dot(a, b) == 0.0
    ensures SqrMagnitude(Cross(a, b)) == 1.0
  {
    Lagrange(a, b);
  }

  // ---- Normalization

  /** A nonzero vector is its magnitude times a unit vector. */
  lemma NormalizedIsUnit(lib: Libm, v: Vector3)
    requires lib.Sound() && v != ZERO
    ensures Magnitude(lib, v) > 0.0
    ensures SqrMagnitude(Normalized(lib, v)) == 1.0
    ensures Scale(Normalized(lib, v), Magnitude(lib, v)) == v
  {
    SqrMagnitudeZero(v);
    SqrtSign(lib, SqrMagnitude(v));
    var m, n := Magnitude(lib, v), Normalized(lib, v);
    assert n.X * m == v.X && n.Y * m == v.Y && n.Z * m == v.Z;
    SqrMagnitudeScale(n, m);
    CancelFactor(SqrMagnitude(n), 1.0, m * m);
  }

  lemma MagnitudeSquared(lib: Libm, v: Vector3)
    requires lib.Sound()
    ensures Magnitude(lib, v) >= 0.0 && Magnitude(lib, v) * Magnitude(lib, v) == SqrMagnitude(v)
  {
    SqrMagnitudeZero(v);
    SqrtSign(lib, SqrMagnitude(v));
  }

  lemma NormalizedZero(lib: Libm)
    requires lib.Sound()
    ensures Magnitude(lib, ZERO) == 0.0
    ensures Normalized(lib, ZERO) == ZERO
  {
    SqrtSign(lib, 0.0);
  }

  lemma NormalizedOfUnit(lib: Libm, v: Vector3)
    requires lib.Sound() && SqrMagnitude(v) == 1.0
    ensures Normalized(lib, v) == v
  {
    SqrtOfSquare(lib, 1.0);
  }

  lemma ScaleCancels(a: Vector3, b: Vector3, k: real)
    requires k != 0.0 && Scale(a, k) == Scale(b, k)
    ensures a == b
  {
  }

  /** The angle between nonzero vectors is the arc cosine of their normalized dot product, which lies
      between -1 and 1, so that neither clamp is ever needed; with a zero vector it is that of -1. */
  lemma AngleIsArcCosine(lib: Libm, a: Vector3, b: Vector3, m: real)
    requires lib.Sound() && m == Magnitude(lib, a) * Magnitude(lib, b)
    ensures a == ZERO || b == ZERO ==> Angle(lib, a, b) == lib.Acos(-1.0)
    ensures a != ZERO && b != ZERO ==>
              m != 0.0 && -1.0 <= Dot(a, b) / m <= 1.0 && Angle(lib, a, b) == lib.Acos(Dot(a, b) / m)
  {
    hide Dot, SqrMagnitude, Cross, Cosine, Times;
    ProductIsTimes(Magnitude(lib, a), Magnitude(lib, b), m);
    SqrMagnitudeZero(a);
    SqrMagnitudeZero(b);
    Lagrange(a, b);
    SqrMagnitudeZero(Cross(a, b));
    CosineFromSquares(lib, Dot(a, b), SqrMagnitude(a), SqrMagnitude(b), m);
  }

  lemma CosineFromSquares(lib: Libm, d: real, x: real, y: real, m: real)
    requires lib.Sound() && x >= 0.0 && y >= 0.0 && x * y - d * d >= 0.0 && m == Times(lib.Sqrt(x), lib.Sqrt(y))
    ensures x == 0.0 || y == 0.0 ==> Cosine(d, m) == -1.0
    ensures x != 0.0 && y != 0.0 ==> m != 0.0 && -1.0 <= d / m <= 1.0 && Cosine(d, m) == d / m
  {
    hide Cosine;
    var r, s := lib.Sqrt(x), lib.Sqrt(y);
    SqrtSign(lib, x);
    SqrtSign(lib, y);
    if x != 0.0 && y != 0.0 {
      CosineInRange(r, s, x, y, d, m);
    } else {
      VanishingProduct(r, s, m);
    }
    CosineCases(d, m);
  }

  lemma VanishingProduct(r: real, s: real, m: real)
    requires (r == 0.0 || s == 0.0) && m == r * s
    ensures m == 0.0
  {
  }

  lemma CosineCases(d: real, m: real)
    ensures m == 0.0 ==> Cosine(d, m) == -1.0
    ensures m != 0.0 && -1.0 <= d / m <= 1.0 ==> Cosine(d, m) == d / m
  {
  }

  lemma CosineInRange(r: real, s: real, x: real, y: real, d: real, m: real)
    requires r >= 0.0 && s >= 0.0 && r * r == x && s * s == y && m == r * s
    requires x != 0.0 && y != 0.0 && x * y - d * d >= 0.0
    ensures m > 0.0 && -1.0 <= d / m <= 1.0
  {
    assert r * s > 0.0;
    assert m * m == x * y by {
      assert (r * s) * (r * s) == (r * r) * (s * s);
    }
    if d > m {
      BeyondRoot(d, m);
    }
    if -d > m {
      BeyondRoot(-d, m);
    }
    QuotientAtMost(d, m);
    QuotientAtMost(-d, m);
    assert (-d) / m == -(d / m);
  }

  lemma BeyondRoot(d: real, m: real)
    requires m > 0.0 && d > m
    ensures m * m - d * d < 0.0
  {
    assert (d - m) * (d + m) > 0.0;
  }

  lemma QuotientAtMost(d: real, m: real)
    requires m > 0.0 && d <= m
    ensures d / m <= 1.0
  {
    assert (d / m) * m == d;
    assert (1.0 - d / m) * m == m - d;
  }

  /** The angle is symmetric and depends only on lengths and the dot product, so anything
      that keeps those keeps it. */
  lemma AngleDependsOnDotAndLengths(lib: Libm, a: Vector3, b: Vector3, c: Vector3, d: Vector3)
    requires Dot(a, b) == Dot(c, d)
    requires SqrMagnitude(a) == SqrMagnitude(c) && SqrMagnitude(b) == SqrMagnitude(d)
    ensures Angle(lib, a, b) == Angle(lib, c, d)
  {
  }

  lemma AngleSymmetric(lib: Libm, a: Vector3, b: Vector3)
    ensures Angle(lib, a, b) == Angle(lib, b, a)
  {
    DotSymmetric(a, b);
    AngleFromSymmetric(lib, Dot(a, b), SqrMagnitude(a), SqrMagnitude(b));
  }

  lemma AngleFromSymmetric(lib: Libm, dot: real, sqrA: real, sqrB: real)
    ensures AngleFrom(lib, dot, sqrA, sqrB) == AngleFrom(lib, dot, sqrB, sqrA)
  {
    Commutes(lib.Sqrt(sqrA), lib.Sqrt(sqrB));
  }
}
