/** Rotations of stars, and the TRIAD solution of Wahba's problem (rotation.cpp). */
module Rotations {
  import opened Libm
  import opened Vectors
  import opened Quaternions
  import opened Matrices
  import opened Conversions
  import opened Stars
  import opened FromTo

  function RotateStar(s: Star, q: Quaternion): Star {
    Wrap(Rotate(q, s.vector), s.labelId, s.magnitude)
  }

  /** The orthonormal frame TRIAD builds from two vectors, as the rows of a matrix. */
  function Frame(lib: Libm, v0: Vector3, v1: Vector3): Matrix3x3 {
    var first := Vectors.Normalized(lib, v0);
    var second := Vectors.Normalized(lib, Cross(v0, v1));
    var third := Vectors.Normalized(lib, Cross(first, second));
    FromRows(first, second, third)
  }

  /** The matrix TRIAD converts: it takes the frame of `w` to the frame of `v`. */
  function TriadMatrix(lib: Libm, v0: Vector3, v1: Vector3, w0: Vector3, w1: Vector3): Matrix3x3 {
    Product(Transpose(Frame(lib, v0, v1)), Frame(lib, w0, w1))
  }

  function Triad(lib: Libm, v0: Vector3, v1: Vector3, w0: Vector3, w1: Vector3): Quaternion
    requires lib.Sound()
  {
    ToQuaternion(lib, TriadMatrix(lib, v0, v1, w0, w1))
  }

  // ---- Unit quaternions

  /** A unit quaternion keeps lengths, dot products and angles. */
  lemma UnitRotationKeeps(lib: Libm, q: Quaternion, u: Vector3, v: Vector3)
    requires SqrNorm(q) == 1.0
    ensures Dot(Rotate(q, u), Rotate(q, v)) == Dot(u, v)
    ensures SqrMagnitude(Rotate(q, u)) == SqrMagnitude(u)
    ensures Separation(lib, Rotate(q, u), Rotate(q, v)) == Separation(lib, u, v)
  {
    UnitRotationKeepsDot(q, u, v);
    UnitRotationKeepsLength(q, u);
    UnitRotationKeepsLength(q, v);
    AngleDependsOnDotAndLengths(lib, Rotate(q, u), Rotate(q, v), u, v);
  }

  lemma UnitRotationKeepsDot(q: Quaternion, u: Vector3, v: Vector3)
    requires SqrNorm(q) == 1.0
    ensures Dot(Rotate(q, u), Rotate(q, v)) == Dot(u, v)
    ensures Cross(Rotate(q, u), Rotate(q, v)) == Rotate(q, Cross(u, v))
  {
    RotateDotCross(q, u, v, 1.0, Dot(u, v));
  }

  lemma UnitRotationKeepsLength(q: Quaternion, u: Vector3)
    requires SqrNorm(q) == 1.0
    ensures SqrMagnitude(Rotate(q, u)) == SqrMagnitude(u)
  {
    var w := Rotate(q, u);
    UnitRotationKeepsDot(q, u, u);
    DotIsSqrMagnitude(u);
    DotIsSqrMagnitude(w);
  }

  /** The two directions an attitude is drawn from do not make it degenerate: they are not nearly opposite
      with the first on the negative X or the negative Z axis. */
  ghost predicate DrawsAttitude(lib: Libm, from: Vector3, to: Vector3) {
    && from != ZERO && to != ZERO
    && !(&& Dot(from, to) < -0.99999 * (Magnitude(lib, from) * Magnitude(lib, to))
         && ((from.X == 0.0 && from.Y == 0.0 && from.Z < 0.0) || (from.Y == 0.0 && from.Z == 0.0 && from.X < 0.0)))
  }

  /** No more is excluded than has to be: of nonzero directions, exactly those that give a unit quaternion. */
  lemma DrawsAttitudeIff(lib: Libm, from: Vector3, to: Vector3)
    requires lib.Sound() && from != ZERO && to != ZERO
    ensures DrawsAttitude(lib, from, to) <==> SqrNorm(FromToRotation(lib, from, to)) == 1.0
  {
    hide Dot, Magnitude, FromToRotation, SqrNorm;
    FromToRotationIsUnitIff(lib, from, to);
  }

  lemma NormalizedOfUnitRotates(lib: Libm, q: Quaternion, v: Vector3)
    requires lib.Sound() && SqrNorm(q) == 1.0
    ensures SqrNorm(Quaternions.Normalized(lib, q)) == 1.0
    ensures Rotate(Quaternions.Normalized(lib, q), v) == Rotate(q, v)
  {
    hide Rotate, SqrNorm, Quaternions.Normalized;
    RotateNormalized(lib, q, v);
    assert Scale(Rotate(q, v), 1.0) == Rotate(q, v);
  }

  /** A random attitude: the rotation between two random directions, normalized once more. */
  function Chance(lib: Libm, from: Vector3, to: Vector3): (q: Quaternion)
    requires lib.Sound() && DrawsAttitude(lib, from, to)
    ensures SqrNorm(q) == 1.0
    ensures Dot(from, to) >= -0.99999 * (Magnitude(lib, from) * Magnitude(lib, to)) ==>
              Scale(Rotate(q, from), Magnitude(lib, to)) == Scale(to, Magnitude(lib, from))
  {
    hide Dot, Magnitude, SqrMagnitude, Scale, Rotate, FromToRotation;
    FromToRotationIsUnitIff(lib, from, to);
    FromToRotationIsCorrect(lib, from, to);
    NormalizedOfUnitRotates(lib, FromToRotation(lib, from, to), from);
    Quaternions.Normalized(lib, FromToRotation(lib, from, to))
  }

  // ---- The frame of two vectors

  ghost predicate Collinear(a: Vector3, b: Vector3) {
    Cross(a, b) == ZERO
  }

  lemma CrossWithZero(a: Vector3)
    ensures Cross(ZERO, a) == ZERO == Cross(a, ZERO)
  {
  }

  /** Vectors that are not collinear span a right-handed orthonormal frame. */
  lemma FrameIsRotation(lib: Libm, v0: Vector3, v1: Vector3)
    requires lib.Sound() && !Collinear(v0, v1)
    ensures IsRotation(Frame(lib, v0, v1))
  {
    var c := Cross(v0, v1);
    var a, b := Vectors.Normalized(lib, v0), Vectors.Normalized(lib, c);
    CrossWithZero(v1);
    NormalizedIsUnit(lib, v0);
    NormalizedIsUnit(lib, c);
    CrossIsOrthogonal(v0, v1);
    UnscaledOrthogonal(a, b, Magnitude(lib, v0), Magnitude(lib, c));
    TriadThirdIsUnit(a, b);
    NormalizedOfUnit(lib, Cross(a, b));
    FrameRows(lib, v0, v1, a, b, Cross(a, b));
  }

  lemma FrameRows(lib: Libm, v0: Vector3, v1: Vector3, a: Vector3, b: Vector3, c: Vector3)
    requires a == Vectors.Normalized(lib, v0) && b == Vectors.Normalized(lib, Cross(v0, v1))
    requires c == Vectors.Normalized(lib, Cross(a, b))
    ensures Row0(Frame(lib, v0, v1)) == a
    ensures Row1(Frame(lib, v0, v1)) == b
    ensures Row2(Frame(lib, v0, v1)) == c
  {
  }

  lemma UnscaledOrthogonal(a: Vector3, b: Vector3, k: real, l: real)
    requires k != 0.0 && l != 0.0
    requires Dot(Scale(a, k), Scale(b, l)) == 0.0
    ensures Dot(a, b) == 0.0
  {
    DotLinear(a, a, Scale(b, l), k);
    ZeroProduct(k, Dot(a, Scale(b, l)));
    DotLinear(b, b, a, l);
    ZeroProduct(l, Dot(a, b));
  }

  // ---- TRIAD is a rotation

  /** For two pairs of vectors that are not collinear, TRIAD is a unit quaternion, and it rotates
      every vector as the product of the frames does. */
  lemma TriadIsRotation(lib: Libm, v0: Vector3, v1: Vector3, w0: Vector3, w1: Vector3)
    requires lib.Sound() && !Collinear(v0, v1) && !Collinear(w0, w1)
    ensures IsRotation(TriadMatrix(lib, v0, v1, w0, w1))
    ensures SqrNorm(Triad(lib, v0, v1, w0, w1)) == 1.0
  {
    FrameIsRotation(lib, v0, v1);
    FrameIsRotation(lib, w0, w1);
    RotationColumns(Frame(lib, v0, v1));
    RotationProduct(Transpose(Frame(lib, v0, v1)), Frame(lib, w0, w1));
    MatrixRoundTrip(lib, TriadMatrix(lib, v0, v1, w0, w1));
  }

  lemma TriadRotates(lib: Libm, v0: Vector3, v1: Vector3, w0: Vector3, w1: Vector3, u: Vector3)
    requires lib.Sound() && !Collinear(v0, v1) && !Collinear(w0, w1)
    ensures Rotate(Triad(lib, v0, v1, w0, w1), u)
         == Apply(Transpose(Frame(lib, v0, v1)), Apply(Frame(lib, w0, w1), u))
  {
    TriadIsRotation(lib, v0, v1, w0, w1);
    ToQuaternionRotates(lib, TriadMatrix(lib, v0, v1, w0, w1), u);
    ApplyProduct(Transpose(Frame(lib, v0, v1)), Frame(lib, w0, w1), u);
  }

  // ---- TRIAD recovers the attitude

  lemma RotationOfZero(r: Matrix3x3)
    ensures Apply(r, ZERO) == ZERO
  {
  }

  lemma NormalizedCommutes(lib: Libm, r: Matrix3x3, w: Vector3)
    requires lib.Sound() && IsRotation(r)
    ensures Vectors.Normalized(lib, Apply(r, w)) == Apply(r, Vectors.Normalized(lib, w))
    ensures Apply(r, w) == ZERO <==> w == ZERO
  {
    RotationOfZero(r);
    NormalizedZero(lib);
    RotationKeepsLength(r, w);
    SqrMagnitudeZero(w);
    SqrMagnitudeZero(Apply(r, w));
    if w != ZERO {
      var n, m := Vectors.Normalized(lib, w), Magnitude(lib, w);
      NormalizedIsUnit(lib, w);
      NormalizedIsUnit(lib, Apply(r, w));
      ApplyLinear(r, n, m);
      ScaleCancels(Vectors.Normalized(lib, Apply(r, w)), Apply(r, n), m);
    }
  }

  lemma RotationKeepsLength(r: Matrix3x3, w: Vector3)
    requires IsRotation(r)
    ensures SqrMagnitude(Apply(r, w)) == SqrMagnitude(w)
  {
    RotationKeepsDot(r, w, w);
    DotIsSqrMagnitude(w);
    DotIsSqrMagnitude(Apply(r, w));
  }

  /** Rotating the vectors rotates their frame. */
  lemma FrameRotates(lib: Libm, r: Matrix3x3, w0: Vector3, w1: Vector3)
    requires lib.Sound() && IsRotation(r)
    ensures var f, g := Frame(lib, w0, w1), Frame(lib, Apply(r, w0), Apply(r, w1));
            Row0(g) == Apply(r, Row0(f)) && Row1(g) == Apply(r, Row1(f)) && Row2(g) == Apply(r, Row2(f))
  {
    var a, b := Vectors.Normalized(lib, w0), Vectors.Normalized(lib, Cross(w0, w1));
    var c := Vectors.Normalized(lib, Cross(a, b));
    RotationKeepsCross(r, w0, w1);
    NormalizedCommutes(lib, r, w0);
    NormalizedCommutes(lib, r, Cross(w0, w1));
    RotationKeepsCross(r, a, b);
    NormalizedCommutes(lib, r, Cross(a, b));
    FrameRows(lib, w0, w1, a, b, c);
    FrameRows(lib, Apply(r, w0), Apply(r, w1), Apply(r, a), Apply(r, b), Apply(r, c));
  }

  /** Coordinates in the rotated frame of a rotated vector are those before rotating. */
  lemma FrameCoordinatesKept(lib: Libm, r: Matrix3x3, w0: Vector3, w1: Vector3, u: Vector3)
    requires lib.Sound() && IsRotation(r)
    ensures Apply(Frame(lib, Apply(r, w0), Apply(r, w1)), Apply(r, u)) == Apply(Frame(lib, w0, w1), u)
  {
    var f, g := Frame(lib, w0, w1), Frame(lib, Apply(r, w0), Apply(r, w1));
    FrameRotates(lib, r, w0, w1);
    RotationKeepsDot(r, Row0(f), u);
    RotationKeepsDot(r, Row1(f), u);
    RotationKeepsDot(r, Row2(f), u);
    ApplyByRows(f, u);
    ApplyByRows(g, Apply(r, u));
  }

  /** From two vectors that are not collinear and their images under a rotation, TRIAD recovers
      the rotation: it rotates every vector as the rotation does. */
  lemma TriadRecoversRotation(lib: Libm, r: Matrix3x3, w0: Vector3, w1: Vector3, u: Vector3)
    requires lib.Sound() && IsRotation(r) && !Collinear(w0, w1)
    ensures !Collinear(Apply(r, w0), Apply(r, w1))
    ensures Rotate(Triad(lib, Apply(r, w0), Apply(r, w1), w0, w1), u) == Apply(r, u)
  {
    var v0, v1 := Apply(r, w0), Apply(r, w1);
    RotationKeepsCross(r, w0, w1);
    NormalizedCommutes(lib, r, Cross(w0, w1));
    TriadRotates(lib, v0, v1, w0, w1, u);
    FrameCoordinatesKept(lib, r, w0, w1, u);
    FrameIsRotation(lib, v0, v1);
    TransposeUndoes(Frame(lib, v0, v1), Apply(r, u));
  }

  /** The same for an attitude given, as in the program, by a unit quaternion. */
  lemma TriadRecoversAttitude(lib: Libm, q: Quaternion, w0: Vector3, w1: Vector3, u: Vector3)
    requires lib.Sound() && SqrNorm(q) == 1.0 && !Collinear(w0, w1)
    ensures Rotate(Triad(lib, Rotate(q, w0), Rotate(q, w1), w0, w1), u) == Rotate(q, u)
  {
    var r := FromQuaternion(q);
    FromQuaternionIsRotation(q);
    UnitMatrixRotates(q, w0);
    UnitMatrixRotates(q, w1);
    UnitMatrixRotates(q, u);
    TriadRecoversRotation(lib, r, w0, w1, u);
  }

  lemma UnitMatrixRotates(q: Quaternion, v: Vector3)
    requires SqrNorm(q) == 1.0
    ensures Apply(FromQuaternion(q), v) == Rotate(q, v)
  {
    FromQuaternionRotates(q, v, 1.0);
  }

  // ---- When TRIAD sends one pair of vectors to the other

  lemma FrameOnItsRows(f: Matrix3x3)
    requires IsRotation(f)
    ensures Apply(f, Row0(f)) == RIGHT && Apply(f, Row1(f)) == UP
  {
    var t := Transpose(f);
    RotationColumns(f);
    TransposeOnColumns(t);
    assert Transpose(t) == f && Column0(t) == Row0(f) && Column1(t) == Row1(f);
  }

  lemma TransposedFrameOnBasis(f: Matrix3x3)
    ensures Apply(Transpose(f), RIGHT) == Row0(f)
    ensures Apply(Transpose(f), UP) == Row1(f)
  {
    ApplyToBasis(Transpose(f));
  }

  /** One frame to another: multiples of the first row go to multiples of the first row, and
      multiples of the second row to multiples of the second. */
  lemma FrameToFrame(f: Matrix3x3, g: Matrix3x3, k: real)
    requires IsRotation(f)
    ensures Apply(Transpose(g), Apply(f, Scale(Row0(f), k))) == Scale(Row0(g), k)
    ensures Apply(Transpose(g), Apply(f, Scale(Row1(f), k))) == Scale(Row1(g), k)
  {
    FrameOnItsRows(f);
    TransposedFrameOnBasis(g);
    ApplyLinear(f, Row0(f), k);
    ApplyLinear(f, Row1(f), k);
    ApplyLinear(Transpose(g), RIGHT, k);
    ApplyLinear(Transpose(g), UP, k);
  }

  /** Lengths and dot product of two pairs of vectors agree. */
  ghost predicate Congruent(v0: Vector3, v1: Vector3, w0: Vector3, w1: Vector3) {
    && SqrMagnitude(v0) == SqrMagnitude(w0)
    && SqrMagnitude(v1) == SqrMagnitude(w1)
    && Dot(v0, v1) == Dot(w0, w1)
  }

  lemma CongruentCross(v0: Vector3, v1: Vector3, w0: Vector3, w1: Vector3)
    requires Congruent(v0, v1, w0, w1)
    ensures SqrMagnitude(Cross(v0, v1)) == SqrMagnitude(Cross(w0, w1))
  {
    Lagrange(v0, v1);
    Lagrange(w0, w1);
    LagrangeCongruent(SqrMagnitude(v0), SqrMagnitude(v1), Dot(v0, v1), SqrMagnitude(w0), SqrMagnitude(w1), Dot(w0, w1));
  }

  lemma LagrangeCongruent(a: real, b: real, c: real, d: real, e: real, f: real)
    requires a == d && b == e && c == f
    ensures a * b - c * c == d * e - f * f
  {
  }

  lemma FirstRowScaled(lib: Libm, v0: Vector3, v1: Vector3)
    requires lib.Sound() && !Collinear(v0, v1)
    ensures Scale(Row0(Frame(lib, v0, v1)), Magnitude(lib, v0)) == v0 != ZERO
    ensures Scale(Row1(Frame(lib, v0, v1)), Magnitude(lib, Cross(v0, v1))) == Cross(v0, v1)
  {
    CrossWithZero(v1);
    NormalizedIsUnit(lib, v0);
    NormalizedIsUnit(lib, Cross(v0, v1));
    var a, b := Vectors.Normalized(lib, v0), Vectors.Normalized(lib, Cross(v0, v1));
    FrameRows(lib, v0, v1, a, b, Vectors.Normalized(lib, Cross(a, b)));
  }

  /** The first vector, and the normal of the two, go to their counterparts. */
  lemma TriadSendsFirst(lib: Libm, v0: Vector3, v1: Vector3, w0: Vector3, w1: Vector3)
    requires lib.Sound() && !Collinear(v0, v1) && !Collinear(w0, w1) && Congruent(v0, v1, w0, w1)
    ensures Rotate(Triad(lib, v0, v1, w0, w1), w0) == v0
    ensures Rotate(Triad(lib, v0, v1, w0, w1), Cross(w0, w1)) == Cross(v0, v1)
  {
    var f, g := Frame(lib, w0, w1), Frame(lib, v0, v1);
    CongruentCross(v0, v1, w0, w1);
    FirstRowScaled(lib, v0, v1);
    FirstRowScaled(lib, w0, w1);
    FrameIsRotation(lib, w0, w1);
    FrameToFrame(f, g, Magnitude(lib, w0));
    FrameToFrame(f, g, Magnitude(lib, Cross(w0, w1)));
    TriadRotates(lib, v0, v1, w0, w1, w0);
    TriadRotates(lib, v0, v1, w0, w1, Cross(w0, w1));
  }

  lemma SameDotAndCross(a: Vector3, x: Vector3, y: Vector3)
    requires a != ZERO && Dot(a, x) == Dot(a, y) && Cross(a, x) == Cross(a, y)
    ensures x == y
  {
    var d := Sub(x, y);
    DifferenceIsOrthogonal(a, x, y, d);
    DifferenceIsCollinear(a, x, y, d);
    OrthogonalAndCollinear(a, d);
    NoDifference(x, y, d);
  }

  lemma DifferenceIsOrthogonal(a: Vector3, x: Vector3, y: Vector3, d: Vector3)
    requires Dot(a, x) == Dot(a, y) && d == Sub(x, y)
    ensures Dot(a, d) == 0.0
  {
  }

  lemma DifferenceIsCollinear(a: Vector3, x: Vector3, y: Vector3, d: Vector3)
    requires Cross(a, x) == Cross(a, y) && d == Sub(x, y)
    ensures Cross(a, d) == ZERO
  {
    CrossOfDifference(a, x, y);
  }

  lemma CrossOfDifference(a: Vector3, x: Vector3, y: Vector3)
    ensures Cross(a, Sub(x, y)) == Sub(Cross(a, x), Cross(a, y))
  {
  }

  /** TRIAD sends w0 to v0 and w1 to v1 exactly when the lengths and the dot products of the two
      pairs agree. */
  lemma TriadSendsPair(lib: Libm, v0: Vector3, v1: Vector3, w0: Vector3, w1: Vector3)
    requires lib.Sound() && !Collinear(v0, v1) && !Collinear(w0, w1)
    ensures var q := Triad(lib, v0, v1, w0, w1);
            Rotate(q, w0) == v0 && Rotate(q, w1) == v1 <==> Congruent(v0, v1, w0, w1)
  {
    var q := Triad(lib, v0, v1, w0, w1);
    TriadIsRotation(lib, v0, v1, w0, w1);
    UnitRotationKeeps(lib, q, w0, w1);
    UnitRotationKeepsLength(q, w1);
    if Congruent(v0, v1, w0, w1) {
      TriadSendsFirst(lib, v0, v1, w0, w1);
      FirstRowScaled(lib, v0, v1);
      UnitRotationKeepsDot(q, w0, w1);
      SameDotAndCross(v0, Rotate(q, w1), v1);
    }
  }
}
