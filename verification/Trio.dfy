/** Area and polar moment of three stars (trio.cpp). */
module Trios {
  import opened Libm
  import opened Vectors
  import opened Quaternions
  import opened Matrices
  import opened Rotations

  datatype Lengths = Lengths(A: real, B: real, C: real)

  function PlanarLengths(lib: Libm, b1: Vector3, b2: Vector3, b3: Vector3): Lengths {
    Lengths(Magnitude(lib, Sub(b1, b2)), Magnitude(lib, Sub(b2, b3)), Magnitude(lib, Sub(b3, b1)))
  }

  function SemiPerimeter(a: real, b: real, c: real): real {
    0.5 * (a + b + c)
  }

  function HeronRadicand(a: real, b: real, c: real): real {
    var s := SemiPerimeter(a, b, c);
    s * (s - a) * (s - b) * (s - c)
  }

  /** Heron's formula. */
  function PlanarArea(lib: Libm, b1: Vector3, b2: Vector3, b3: Vector3): real {
    var ell := PlanarLengths(lib, b1, b2, b3);
    lib.Sqrt(HeronRadicand(ell.A, ell.B, ell.C))
  }

  function MomentFrom(area: real, a: real, b: real, c: real): real {
    area * (a * a + b * b + c * c) / 36.0
  }

  function PlanarMoment(lib: Libm, b1: Vector3, b2: Vector3, b3: Vector3): real {
    var ell := PlanarLengths(lib, b1, b2, b3);
    MomentFrom(PlanarArea(lib, b1, b2, b3), ell.A, ell.B, ell.C)
  }

  /** Twice the area vector of the triangle. */
  function AreaVector(b1: Vector3, b2: Vector3, b3: Vector3): Vector3 {
    Cross(Sub(b1, b2), Sub(b1, b3))
  }

  // ---- Heron's formula is the cross product

  lemma HeronExpanded(a: real, b: real, c: real)
    ensures 16.0 * HeronRadicand(a, b, c) == 4.0 * (a * a) * (b * b) - (a * a + b * b - c * c) * (a * a + b * b - c * c)
  {
    assert HeronRadicand(a, b, c)
        == (0.5 * (a + b + c)) * (0.5 * (a + b + c) - a) * (0.5 * (a + b + c) - b) * (0.5 * (a + b + c) - c);
  }

  lemma SumMagnitude(p: Vector3, r: Vector3, t: Vector3)
    requires t.X == -(p.X + r.X) && t.Y == -(p.Y + r.Y) && t.Z == -(p.Z + r.Z)
    ensures SqrMagnitude(t) == SqrMagnitude(p) + SqrMagnitude(r) + 2.0 * Dot(p, r)
  {
  }

  lemma CrossWithSum(p: Vector3, r: Vector3, u: Vector3)
    requires u.X == p.X + r.X && u.Y == p.Y + r.Y && u.Z == p.Z + r.Z
    ensures Cross(p, u) == Cross(p, r)
  {
    EqualCoordinates(Cross(p, u), Cross(p, r));
  }

  lemma HeronFromSides(a: real, b: real, c: real, x: real, y: real, z: real, d: real, sqr: real)
    requires a * a == x && b * b == y && c * c == z
    requires z == x + y + 2.0 * d && sqr == x * y - d * d
    ensures 4.0 * HeronRadicand(a, b, c) == sqr
  {
    HeronExpanded(a, b, c);
    assert (a * a) * (b * b) == x * y;
    assert (a * a + b * b - c * c) == -2.0 * d;
  }

  /** Heron's radicand is a quarter of the squared length of the area vector. */
  lemma HeronIsCross(lib: Libm, b1: Vector3, b2: Vector3, b3: Vector3)
    requires lib.Sound()
    ensures var ell := PlanarLengths(lib, b1, b2, b3);
            4.0 * HeronRadicand(ell.A, ell.B, ell.C) == SqrMagnitude(AreaVector(b1, b2, b3))
  {
    var p, r, t := Sub(b1, b2), Sub(b2, b3), Sub(b3, b1);
    SidesClose(b1, b2, b3, p, r, t);
    HeronOfSides(lib, p, r, t);
  }

  lemma SidesClose(b1: Vector3, b2: Vector3, b3: Vector3, p: Vector3, r: Vector3, t: Vector3)
    requires p == Sub(b1, b2) && r == Sub(b2, b3) && t == Sub(b3, b1)
    ensures SqrMagnitude(t) == SqrMagnitude(p) + SqrMagnitude(r) + 2.0 * Dot(p, r)
    ensures AreaVector(b1, b2, b3) == Cross(p, r)
  {
    SumMagnitude(p, r, t);
    CrossWithSum(p, r, Sub(b1, b3));
  }

  lemma HeronOfSides(lib: Libm, p: Vector3, r: Vector3, t: Vector3)
    requires lib.Sound()
    requires SqrMagnitude(t) == SqrMagnitude(p) + SqrMagnitude(r) + 2.0 * Dot(p, r)
    ensures 4.0 * HeronRadicand(Magnitude(lib, p), Magnitude(lib, r), Magnitude(lib, t)) == SqrMagnitude(Cross(p, r))
  {
    var x, y, d, sqr := SqrMagnitude(p), SqrMagnitude(r), Dot(p, r), SqrMagnitude(Cross(p, r));
    var z, a, b, c := SqrMagnitude(t), Magnitude(lib, p), Magnitude(lib, r), Magnitude(lib, t);
    NamedMagnitude(lib, p, a, x);
    NamedMagnitude(lib, r, b, y);
    NamedMagnitude(lib, t, c, z);
    NamedLagrange(p, r, x, y, d, sqr);
    HeronFromSides(a, b, c, x, y, z, d, sqr);
  }

  lemma NamedMagnitude(lib: Libm, p: Vector3, a: real, x: real)
    requires lib.Sound() && a == Magnitude(lib, p) && x == SqrMagnitude(p)
    ensures a * a == x
  {
    MagnitudeSquared(lib, p);
  }

  lemma NamedLagrange(p: Vector3, r: Vector3, x: real, y: real, d: real, sqr: real)
    requires x == SqrMagnitude(p) && y == SqrMagnitude(r) && d == Dot(p, r) && sqr == SqrMagnitude(Cross(p, r))
    ensures sqr == x * y - d * d
  {
    Lagrange(p, r);
  }

  /** The radicand is never negative, the area squared is |(b1 - b2) x (b1 - b3)|^2 / 4, and the
      area vanishes exactly for collinear points. */
  lemma AreaIsHalfTheCrossProduct(lib: Libm, b1: Vector3, b2: Vector3, b3: Vector3, area: real)
    requires lib.Sound() && area == PlanarArea(lib, b1, b2, b3)
    ensures var ell := PlanarLengths(lib, b1, b2, b3); HeronRadicand(ell.A, ell.B, ell.C) >= 0.0
    ensures area >= 0.0
    ensures 4.0 * (area * area) == SqrMagnitude(AreaVector(b1, b2, b3))
    ensures area == 0.0 <==> AreaVector(b1, b2, b3) == ZERO
  {
    var ell := PlanarLengths(lib, b1, b2, b3);
    HeronIsCross(lib, b1, b2, b3);
    RootOfQuarter(lib, HeronRadicand(ell.A, ell.B, ell.C), AreaVector(b1, b2, b3), area);
  }

  lemma RootOfQuarter(lib: Libm, radicand: real, v: Vector3, area: real)
    requires lib.Sound() && 4.0 * radicand == SqrMagnitude(v) && area == lib.Sqrt(radicand)
    ensures radicand >= 0.0 && area >= 0.0
    ensures 4.0 * (area * area) == SqrMagnitude(v)
    ensures area == 0.0 <==> v == ZERO
  {
    SqrMagnitudeZero(v);
    SqrtSign(lib, radicand);
  }

  // ---- The moment is the polar moment

  /** The moment is the polar moment of the triangle about its centroid `g`: a twelfth of the area times the
      sum of the squared distances of the vertices from the centroid. */
  lemma MomentIsPolar(lib: Libm, b1: Vector3, b2: Vector3, b3: Vector3, g: Vector3)
    requires lib.Sound()
    requires g == Scale(Add(Add(b1, b2), b3), 1.0 / 3.0)
    ensures 12.0 * PlanarMoment(lib, b1, b2, b3)
         == PlanarArea(lib, b1, b2, b3) * (SqrMagnitude(Sub(b1, g)) + SqrMagnitude(Sub(b2, g))
                                           + SqrMagnitude(Sub(b3, g)))
  {
    hide PlanarArea, SqrMagnitude, Magnitude;
    var p, r, t := Sub(b1, b2), Sub(b2, b3), Sub(b3, b1);
    NamedMagnitude(lib, p, Magnitude(lib, p), SqrMagnitude(p));
    NamedMagnitude(lib, r, Magnitude(lib, r), SqrMagnitude(r));
    NamedMagnitude(lib, t, Magnitude(lib, t), SqrMagnitude(t));
    CentroidDistances(b1, b2, b3, g);
    var sides := SqrMagnitude(p) + SqrMagnitude(r) + SqrMagnitude(t);
    TwelfthOfThird(PlanarArea(lib, b1, b2, b3), sides,
                   SqrMagnitude(Sub(b1, g)) + SqrMagnitude(Sub(b2, g)) + SqrMagnitude(Sub(b3, g)));
  }

  lemma TwelfthOfThird(area: real, sides: real, spread: real)
    requires 3.0 * spread == sides
    ensures 12.0 * (area * sides / 36.0) == area * spread
  {
  }

  /** The squared distances from the centroid are a third of the squared sides. */
  lemma CentroidDistances(b1: Vector3, b2: Vector3, b3: Vector3, g: Vector3)
    requires g == Scale(Add(Add(b1, b2), b3), 1.0 / 3.0)
    ensures 3.0 * (SqrMagnitude(Sub(b1, g)) + SqrMagnitude(Sub(b2, g)) + SqrMagnitude(Sub(b3, g)))
         == SqrMagnitude(Sub(b1, b2)) + SqrMagnitude(Sub(b2, b3)) + SqrMagnitude(Sub(b3, b1))
  {
    CentroidCoordinate(b1.X, b2.X, b3.X, g.X);
    CentroidCoordinate(b1.Y, b2.Y, b3.Y, g.Y);
    CentroidCoordinate(b1.Z, b2.Z, b3.Z, g.Z);
  }

  lemma CentroidCoordinate(x: real, y: real, z: real, m: real)
    requires m == (x + y + z) * (1.0 / 3.0)
    ensures 3.0 * ((x - m) * (x - m) + (y - m) * (y - m) + (z - m) * (z - m))
         == (x - y) * (x - y) + (y - z) * (y - z) + (z - x) * (z - x)
  {
    assert z == 3.0 * m - x - y;
  }

  // ---- Order of the vertices

  lemma SidesSymmetric(lib: Libm, u: Vector3, v: Vector3)
    ensures Magnitude(lib, Sub(u, v)) == Magnitude(lib, Sub(v, u))
  {
    assert SqrMagnitude(Sub(u, v)) == SqrMagnitude(Sub(v, u));
  }

  lemma HeronSymmetric(a: real, b: real, c: real)
    ensures HeronRadicand(a, b, c) == HeronRadicand(b, a, c) == HeronRadicand(a, c, b)
    ensures HeronRadicand(a, b, c) == HeronRadicand(c, b, a)
  {
    HeronExpanded(a, b, c);
    HeronExpanded(b, a, c);
    HeronExpanded(a, c, b);
    HeronExpanded(c, b, a);
  }

  lemma MomentSymmetric(area: real, a: real, b: real, c: real)
    ensures MomentFrom(area, a, b, c) == MomentFrom(area, b, a, c) == MomentFrom(area, a, c, b)
    ensures MomentFrom(area, a, b, c) == MomentFrom(area, c, b, a)
  {
    assert a * a + b * b + c * c == b * b + a * a + c * c == a * a + c * c + b * b == c * c + b * b + a * a;
  }

  lemma SwapVertices(lib: Libm, b1: Vector3, b2: Vector3, b3: Vector3)
    ensures PlanarArea(lib, b2, b1, b3) == PlanarArea(lib, b1, b2, b3) == PlanarArea(lib, b1, b3, b2)
    ensures PlanarMoment(lib, b2, b1, b3) == PlanarMoment(lib, b1, b2, b3) == PlanarMoment(lib, b1, b3, b2)
  {
    var ell := PlanarLengths(lib, b1, b2, b3);
    SidesSymmetric(lib, b1, b2);
    SidesSymmetric(lib, b2, b3);
    SidesSymmetric(lib, b3, b1);
    assert PlanarLengths(lib, b2, b1, b3) == Lengths(ell.A, ell.C, ell.B);
    assert PlanarLengths(lib, b1, b3, b2) == Lengths(ell.C, ell.B, ell.A);
    HeronSymmetric(ell.A, ell.B, ell.C);
    MomentSymmetric(PlanarArea(lib, b1, b2, b3), ell.A, ell.B, ell.C);
  }

  /** One of the six orders of three values. */
  predicate IsReordering<T(==)>(a: T, b: T, c: T, x: T, y: T, z: T) {
    || (x == a && y == b && z == c)
    || (x == a && y == c && z == b)
    || (x == b && y == a && z == c)
    || (x == b && y == c && z == a)
    || (x == c && y == a && z == b)
    || (x == c && y == b && z == a)
  }

  /** Area and moment are the same for all six orders of the vertices. */
  lemma FeaturesIgnoreOrder(lib: Libm, b1: Vector3, b2: Vector3, b3: Vector3, c1: Vector3, c2: Vector3, c3: Vector3)
    requires IsReordering(b1, b2, b3, c1, c2, c3)
    ensures PlanarArea(lib, c1, c2, c3) == PlanarArea(lib, b1, b2, b3)
    ensures PlanarMoment(lib, c1, c2, c3) == PlanarMoment(lib, b1, b2, b3)
  {
    SwapVertices(lib, b1, b2, b3);
    SwapVertices(lib, b2, b1, b3);
    SwapVertices(lib, b1, b3, b2);
    SwapVertices(lib, b3, b1, b2);
  }

  // ---- Rotation of the vertices

  /** A unit quaternion keeps distances. */
  lemma DistanceKept(q: Quaternion, u: Vector3, v: Vector3)
    requires SqrNorm(q) == 1.0
    ensures SqrMagnitude(Sub(Rotate(q, u), Rotate(q, v))) == SqrMagnitude(Sub(u, v))
  {
    UnitRotationKeepsDot(q, u, v);
    UnitRotationKeepsLength(q, u);
    UnitRotationKeepsLength(q, v);
    SameDifference(u, v, Rotate(q, u), Rotate(q, v));
  }

  lemma SameDifference(u: Vector3, v: Vector3, x: Vector3, y: Vector3)
    requires SqrMagnitude(u) == SqrMagnitude(x) && SqrMagnitude(v) == SqrMagnitude(y) && Dot(u, v) == Dot(x, y)
    ensures SqrMagnitude(Sub(u, v)) == SqrMagnitude(Sub(x, y))
  {
    DifferenceMagnitude(u, v);
    DifferenceMagnitude(x, y);
  }

  /** Area and moment do not change when the three stars are rotated by a unit quaternion. */
  lemma FeaturesIgnoreRotation(lib: Libm, q: Quaternion, b1: Vector3, b2: Vector3, b3: Vector3)
    requires SqrNorm(q) == 1.0
    ensures PlanarArea(lib, Rotate(q, b1), Rotate(q, b2), Rotate(q, b3)) == PlanarArea(lib, b1, b2, b3)
    ensures PlanarMoment(lib, Rotate(q, b1), Rotate(q, b2), Rotate(q, b3)) == PlanarMoment(lib, b1, b2, b3)
  {
    DistanceKept(q, b1, b2);
    DistanceKept(q, b2, b3);
    DistanceKept(q, b3, b1);
  }

  // ---- Unit vectors are never collinear

  /** Three distinct points of the unit sphere do not lie on a line. */
  lemma DistinctUnitsHaveArea(lib: Libm, b1: Vector3, b2: Vector3, b3: Vector3)
    requires lib.Sound()
    requires SqrMagnitude(b1) == 1.0 && SqrMagnitude(b2) == 1.0 && SqrMagnitude(b3) == 1.0
    requires b1 != b2 && b2 != b3 && b1 != b3
    ensures PlanarArea(lib, b1, b2, b3) > 0.0
  {
    AreaIsHalfTheCrossProduct(lib, b1, b2, b3, PlanarArea(lib, b1, b2, b3));
    if AreaVector(b1, b2, b3) == ZERO {
      CollinearUnits(b1, b2, b3);
    }
  }

  lemma CollinearUnits(b1: Vector3, b2: Vector3, b3: Vector3)
    requires SqrMagnitude(b1) == 1.0 && SqrMagnitude(b2) == 1.0 && SqrMagnitude(b3) == 1.0
    requires AreaVector(b1, b2, b3) == ZERO
    ensures b1 == b2 || b2 == b3 || b1 == b3
  {
    var p, u := Sub(b1, b2), Sub(b1, b3);
    CollinearFacts(b1, b2, b3, p, u);
    ChordsOfUnits(b1, b2, b3, p, u);
  }

  lemma ChordsOfUnits(b1: Vector3, b2: Vector3, b3: Vector3, p: Vector3, u: Vector3)
    requires SqrMagnitude(b1) == 1.0 && SqrMagnitude(b2) == 1.0 && SqrMagnitude(b3) == 1.0
    requires p == Sub(b1, b2) && u == Sub(b1, b3)
    requires SqrMagnitude(Cross(p, u)) == 0.0
    requires Scale(u, SqrMagnitude(p)) == Scale(p, Dot(p, u))
    ensures b1 == b2 || b2 == b3 || b1 == b3
  {
    ChordOfUnits(b1, b2, p);
    ChordOfUnits(b1, b3, u);
    CollinearChords(b1, p, u);
    EqualChords(b1, b2, b3, p, u);
  }

  lemma EqualChords(b1: Vector3, b2: Vector3, b3: Vector3, p: Vector3, u: Vector3)
    requires p == Sub(b1, b2) && u == Sub(b1, b3)
    requires p == ZERO || u == ZERO || p == u
    ensures b1 == b2 || b2 == b3 || b1 == b3
  {
    if p == ZERO {
      NoDifference(b1, b2, p);
    } else if u == ZERO {
      NoDifference(b1, b3, u);
    } else {
      SameChord(b1, b2, b3);
    }
  }

  lemma SameChord(a: Vector3, b: Vector3, c: Vector3)
    requires Sub(a, b) == Sub(a, c)
    ensures b == c
  {
  }

  lemma CollinearChords(a: Vector3, p: Vector3, u: Vector3)
    requires SqrMagnitude(p) == 2.0 * Dot(a, p) && SqrMagnitude(u) == 2.0 * Dot(a, u)
    requires SqrMagnitude(Cross(p, u)) == 0.0
    requires Scale(u, SqrMagnitude(p)) == Scale(p, Dot(p, u))
    ensures p == ZERO || u == ZERO || p == u
  {
    var pp, uu, pu, ap, au := SqrMagnitude(p), SqrMagnitude(u), Dot(p, u), Dot(a, p), Dot(a, u);
    CollinearMagnitudes(p, u, pp, uu, pu);
    CollinearDots(p, u, a, pp, pu, ap, au);
    ChordCases(pp, uu, pu, ap, au);
    ZeroChord(p, u, pp, uu, pu);
  }

  lemma ZeroChord(p: Vector3, u: Vector3, pp: real, uu: real, pu: real)
    requires pp == SqrMagnitude(p) && uu == SqrMagnitude(u) && pu == Dot(p, u)
    requires pp == 0.0 || uu == 0.0 || pp + uu - 2.0 * pu == 0.0
    ensures p == ZERO || u == ZERO || p == u
  {
    SqrMagnitudeZero(p);
    SqrMagnitudeZero(u);
    if pp + uu - 2.0 * pu == 0.0 {
      DifferenceMagnitude(p, u);
      SqrMagnitudeZero(Sub(p, u));
      NoDifference(p, u, Sub(p, u));
    }
  }

  lemma CollinearFacts(b1: Vector3, b2: Vector3, b3: Vector3, p: Vector3, u: Vector3)
    requires p == Sub(b1, b2) && u == Sub(b1, b3)
    requires AreaVector(b1, b2, b3) == ZERO
    ensures SqrMagnitude(Cross(p, u)) == 0.0
    ensures Scale(u, SqrMagnitude(p)) == Scale(p, Dot(p, u))
  {
    SqrMagnitudeZero(Cross(p, u));
    CollinearScale(p, u);
  }

  lemma CollinearMagnitudes(p: Vector3, u: Vector3, pp: real, uu: real, pu: real)
    requires SqrMagnitude(Cross(p, u)) == 0.0
    requires pp == SqrMagnitude(p) && uu == SqrMagnitude(u) && pu == Dot(p, u)
    ensures pp * uu - pu * pu == 0.0
  {
    NamedLagrange(p, u, pp, uu, pu, SqrMagnitude(Cross(p, u)));
  }

  lemma ChordOfUnits(a: Vector3, b: Vector3, p: Vector3)
    requires SqrMagnitude(a) == 1.0 && SqrMagnitude(b) == 1.0 && p == Sub(a, b)
    ensures SqrMagnitude(p) == 2.0 * Dot(a, p)
  {
    DifferenceMagnitude(a, b);
    DotLinear(a, b, a, 1.0);
    DotSymmetric(a, p);
    DotSymmetric(a, b);
    DotIsSqrMagnitude(a);
  }

  /** Collinear p and u: u |p|^2 = p (p.u). */
  lemma CollinearScale(p: Vector3, u: Vector3)
    requires Cross(p, u) == ZERO
    ensures Scale(u, SqrMagnitude(p)) == Scale(p, Dot(p, u))
  {
    TripleProduct(p, p, u);
    CrossWithZero(p);
    DotIsSqrMagnitude(p);
  }

  lemma CollinearDots(p: Vector3, u: Vector3, a: Vector3, pp: real, pu: real, ap: real, au: real)
    requires Scale(u, pp) == Scale(p, pu) && ap == Dot(a, p) && au == Dot(a, u)
    ensures pp * au == pu * ap
  {
    DotLinear(u, u, a, pp);
    DotLinear(p, p, a, pu);
  }

  lemma ChordCases(pp: real, uu: real, pu: real, ap: real, au: real)
    requires pp == 2.0 * ap && uu == 2.0 * au
    requires pp * au == pu * ap && pp * uu - pu * pu == 0.0
    ensures pp == 0.0 || uu == 0.0 || pp + uu - 2.0 * pu == 0.0
  {
    assert (uu - pu) * pp == 0.0;
    ZeroProduct(uu - pu, pp);
    if pp != 0.0 {
      assert (pp - uu) * uu == 0.0;
      ZeroProduct(pp - uu, uu);
    }
  }

  lemma MomentPositive(area: real, a: real, b: real, c: real)
    requires area > 0.0 && a > 0.0
    ensures MomentFrom(area, a, b, c) > 0.0
  {
    SquareNonNegative(a);
    SquareNonNegative(b);
    SquareNonNegative(c);
    var sum := a * a + b * b + c * c;
    assert sum > 0.0;
    assert area * sum > 0.0;
  }

  lemma DistinctHaveDistance(lib: Libm, b1: Vector3, b2: Vector3)
    requires lib.Sound() && b1 != b2
    ensures Magnitude(lib, Sub(b1, b2)) > 0.0
  {
    var p := Sub(b1, b2);
    if p == ZERO {
      NoDifference(b1, b2, p);
    }
    SqrMagnitudeZero(p);
    MagnitudeSquared(lib, p);
  }

  /** Both features of three distinct points of the unit sphere are valid. */
  lemma DistinctUnitsHaveFeatures(lib: Libm, b1: Vector3, b2: Vector3, b3: Vector3)
    requires lib.Sound()
    requires SqrMagnitude(b1) == 1.0 && SqrMagnitude(b2) == 1.0 && SqrMagnitude(b3) == 1.0
    requires b1 != b2 && b2 != b3 && b1 != b3
    ensures PlanarArea(lib, b1, b2, b3) > 0.0
    ensures PlanarMoment(lib, b1, b2, b3) > 0.0
  {
    DistinctUnitsHaveArea(lib, b1, b2, b3);
    DistinctHaveDistance(lib, b1, b2);
    var ell := PlanarLengths(lib, b1, b2, b3);
    MomentPositive(PlanarArea(lib, b1, b2, b3), ell.A, ell.B, ell.C);
  }

  lemma Parallelogram(a: Vector3, b: Vector3, d: Vector3, t: Vector3)
    requires d == Sub(a, b) && t == Add(a, b)
    ensures SqrMagnitude(d) + SqrMagnitude(t) == 2.0 * SqrMagnitude(a) + 2.0 * SqrMagnitude(b)
  {
  }

  lemma ChordAtMostTwo(lib: Libm, a: Vector3, b: Vector3, m: real)
    requires lib.Sound() && SqrMagnitude(a) == 1.0 && SqrMagnitude(b) == 1.0
    requires m == Magnitude(lib, Sub(a, b))
    ensures 0.0 <= m * m <= 4.0
  {
    Parallelogram(a, b, Sub(a, b), Add(a, b));
    SqrMagnitudeZero(Add(a, b));
    SqrMagnitudeZero(Sub(a, b));
    MagnitudeSquared(lib, Sub(a, b));
  }

  lemma MomentAtMostThird(area: real, a: real, b: real, c: real)
    requires area >= 0.0 && a * a <= 4.0 && b * b <= 4.0 && c * c <= 4.0
    ensures 3.0 * MomentFrom(area, a, b, c) <= area
  {
    var slack := 12.0 - (a * a + b * b + c * c);
    assert slack >= 0.0;
    assert area * slack >= 0.0;
    assert MomentFrom(area, a, b, c) == (area * 12.0 - area * slack) / 36.0;
  }

  /** On the unit sphere the moment is at most a third of the area. */
  lemma UnitMomentBelowArea(lib: Libm, b1: Vector3, b2: Vector3, b3: Vector3)
    requires lib.Sound()
    requires SqrMagnitude(b1) == 1.0 && SqrMagnitude(b2) == 1.0 && SqrMagnitude(b3) == 1.0
    requires PlanarArea(lib, b1, b2, b3) >= 0.0
    ensures 3.0 * PlanarMoment(lib, b1, b2, b3) <= PlanarArea(lib, b1, b2, b3)
  {
    var area := PlanarArea(lib, b1, b2, b3);
    var a, b, c := Magnitude(lib, Sub(b1, b2)), Magnitude(lib, Sub(b2, b3)), Magnitude(lib, Sub(b3, b1));
    ChordAtMostTwo(lib, b1, b2, a);
    ChordAtMostTwo(lib, b2, b3, b);
    ChordAtMostTwo(lib, b3, b1, c);
    MomentAtMostThird(area, a, b, c);
  }
}
