/** The rotation between two directions (FromToRotation in Quaternion.hpp). */
module FromTo {
  import opened Libm
  import opened Vectors
  import opened Quaternions

  /** The magic threshold under which two vectors count as opposite. */
  const OPPOSITE_TOLERANCE := 0.00001

  function SqrtOfMagnitudes(lib: Libm, a: Vector3, b: Vector3): real {
    SqrtOfProduct(lib, SqrMagnitude(a), SqrMagnitude(b))
  }

  function SqrtOfProduct(lib: Libm, x: real, y: real): real {
    lib.Sqrt(x * y)
  }

  function Abs(x: real): real {
    if x < 0.0 then -x else x
  }

  predicate NearlyOpposite(lib: Libm, a: Vector3, b: Vector3)
    requires SqrtOfMagnitudes(lib, a, b) != 0.0
  {
    Abs(Dot(a, b) / SqrtOfMagnitudes(lib, a, b) + 1.0) < OPPOSITE_TOLERANCE
  }

  /** For zero vectors the source divides by zero, so both vectors are required to be nonzero. */
  function FromToRotation(lib: Libm, from: Vector3, to: Vector3): Quaternion
    requires lib.Sound() && from != ZERO && to != ZERO
  {
    var dot := Dot(from, to);
    var k := SqrtOfMagnitudes(lib, from, to);
    MagnitudesPositive(lib, from, to);
    if NearlyOpposite(lib, from, to) then
      Compose(Vectors.Normalized(lib, Orthogonal(from)), 0.0)
    else
      AwayFromOpposite(lib, from, to);
      Quaternions.Normalized(lib, Compose(Cross(from, to), dot + k))
  }

  /** `q` takes the direction of `a` onto the direction of `b` without changing its length. */
  predicate TakesOnto(lib: Libm, q: Quaternion, a: Vector3, b: Vector3) {
    Scale(Rotate(q, a), Magnitude(lib, b)) == Scale(b, Magnitude(lib, a))
  }

  /** The vectors for which `Orthogonal` returns the zero vector. */
  predicate OnNegativeAxis(a: Vector3) {
    || (a.X == 0.0 && a.Y == 0.0 && a.Z < 0.0)
    || (a.Y == 0.0 && a.Z == 0.0 && a.X < 0.0)
  }

  // ---- Magnitudes

  lemma MagnitudesPositive(lib: Libm, a: Vector3, b: Vector3)
    requires lib.Sound() && a != ZERO && b != ZERO
    ensures SqrtOfMagnitudes(lib, a, b) > 0.0
    ensures SqrtOfMagnitudes(lib, a, b) == Magnitude(lib, a) * Magnitude(lib, b)
    ensures SqrtOfMagnitudes(lib, a, b) * SqrtOfMagnitudes(lib, a, b) == SqrMagnitude(a) * SqrMagnitude(b)
    ensures Magnitude(lib, a) > 0.0 && Magnitude(lib, b) > 0.0
  {
    SqrMagnitudeZero(a);
    SqrMagnitudeZero(b);
    RootOfProduct(lib, SqrMagnitude(a), SqrMagnitude(b));
  }

  lemma RootOfProduct(lib: Libm, x: real, y: real)
    requires lib.Sound() && x > 0.0 && y > 0.0
    ensures SqrtOfProduct(lib, x, y) == lib.Sqrt(x) * lib.Sqrt(y)
    ensures SqrtOfProduct(lib, x, y) * SqrtOfProduct(lib, x, y) == x * y
    ensures SqrtOfProduct(lib, x, y) > 0.0
    ensures lib.Sqrt(x) > 0.0 && lib.Sqrt(y) > 0.0
  {
    SqrtSign(lib, x);
    SqrtSign(lib, y);
    assert x * y > 0.0;
    SqrtSign(lib, x * y);
    ProductOfRoots(lib.Sqrt(x), lib.Sqrt(y), lib.Sqrt(x * y), x, y);
  }

  lemma ProductOfRoots(r: real, s: real, t: real, x: real, y: real)
    requires r > 0.0 && s > 0.0 && t >= 0.0
    requires r * r == x && s * s == y && t * t == x * y
    ensures t == r * s
  {
    assert r * s > 0.0;
    assert (r * s) * (r * s) == (r * r) * (s * s);
    SquaresAreInjective(t, r * s);
  }

  lemma NormOfCompose(c: Vector3, s: real)
    ensures SqrNorm(Compose(c, s)) == SqrMagnitude(c) + s * s
  {
  }

  lemma CrossMagnitude(a: Vector3, b: Vector3, k: real, d: real)
    requires k * k == SqrMagnitude(a) * SqrMagnitude(b) && d == Dot(a, b)
    ensures SqrMagnitude(Cross(a, b)) == k * k - d * d
  {
    Lagrange(a, b);
  }

  /** The square of the norm before normalization is 2 k (dot + k). */
  lemma UnnormalizedNorm(c: Vector3, d: real, k: real, s: real)
    requires SqrMagnitude(c) == k * k - d * d && s == d + k
    ensures SqrNorm(Compose(c, s)) == 2.0 * k * s
  {
    NormOfCompose(c, s);
    SumOfSquares(d, k, s);
  }

  lemma SumOfSquares(d: real, k: real, s: real)
    requires s == d + k
    ensures k * k - d * d + s * s == 2.0 * k * s
  {
  }

  lemma AwayFromOpposite(lib: Libm, a: Vector3, b: Vector3)
    requires lib.Sound() && a != ZERO && b != ZERO
    requires SqrtOfMagnitudes(lib, a, b) != 0.0 && !NearlyOpposite(lib, a, b)
    ensures Dot(a, b) + SqrtOfMagnitudes(lib, a, b) > 0.0
    ensures SqrNorm(Compose(Cross(a, b), Dot(a, b) + SqrtOfMagnitudes(lib, a, b))) > 0.0
  {
    var c, d, k := Cross(a, b), Dot(a, b), SqrtOfMagnitudes(lib, a, b);
    var s := d + k;
    MagnitudesPositive(lib, a, b);
    CrossMagnitude(a, b, k, d);
    SqrMagnitudeZero(c);
    QuotientAwayFromOpposite(d, k);
    UnnormalizedNormPositive(c, d, k, s);
  }

  lemma UnnormalizedNormPositive(c: Vector3, d: real, k: real, s: real)
    requires SqrMagnitude(c) == k * k - d * d && s == d + k
    requires k > 0.0 && s > 0.0
    ensures SqrNorm(Compose(c, s)) > 0.0
  {
    UnnormalizedNorm(c, d, k, s);
    assert k * s > 0.0;
  }

  lemma QuotientAwayFromOpposite(d: real, k: real)
    requires k > 0.0 && k * k - d * d >= 0.0
    requires !(Abs(d / k + 1.0) < OPPOSITE_TOLERANCE)
    ensures d + k > 0.0
  {
    var r := d / k;
    assert r * k == d;
    assert (r + 1.0) * k == d + k;
    if d + k < 0.0 {
      SquareOfLarger(d, k);
    }
  }

  lemma SquareOfLarger(d: real, k: real)
    requires k > 0.0 && d + k < 0.0
    ensures k * k - d * d < 0.0
  {
    assert (d + k) * (k - d) < 0.0;
  }

  // ---- The regular branch

  lemma CrossCross(a: Vector3, b: Vector3)
    ensures Cross(Cross(a, b), a) == Sub(Scale(b, SqrMagnitude(a)), Scale(a, Dot(a, b)))
  {
    var c := Cross(a, b);
    TripleProduct(a, a, b);
    assert Cross(c, a) == Scale(Cross(a, c), -1.0);
  }

  /** Before normalization the quaternion takes `a` to a positive multiple of `b`. */
  lemma UnnormalizedTakes(a: Vector3, b: Vector3, d: real, k: real, s: real, m: real)
    requires k * k == SqrMagnitude(a) * SqrMagnitude(b) && d == Dot(a, b) && m == SqrMagnitude(a)
    requires s == d + k
    ensures Rotate(Compose(Cross(a, b), s), a) == Scale(b, 2.0 * s * m)
  {
    var c := Cross(a, b);
    var e := Cross(c, a);
    assert Dot(c, a) == 0.0 by {
      CrossIsOrthogonal(a, b);
      DotSymmetric(a, c);
    }
    CrossCross(a, b);
    CrossMagnitude(a, b, k, d);
    RotateOrthogonal(c, s, a, e, k, d);
    RegularVector(a, b, e, d, k, s, m, Rotate(Compose(c, s), a));
  }

  lemma RotateOrthogonal(c: Vector3, s: real, a: Vector3, e: Vector3, k: real, d: real)
    requires Dot(c, a) == 0.0 && e == Cross(c, a) && SqrMagnitude(c) == k * k - d * d
    ensures Rotate(Compose(c, s), a) == Add(Scale(a, s * s - (k * k - d * d)), Scale(e, 2.0 * s))
  {
    hide Dot, Cross, SqrMagnitude, Scale, Rotate;
    RotateByComponents(c, s, a, s * s);
  }

  /** Rotation of an orthogonal vector. */
  lemma RotateByComponents(c: Vector3, s: real, a: Vector3, ss: real)
    requires Dot(c, a) == 0.0 && ss == s * s
    ensures Rotate(Compose(c, s), a) == Add(Scale(a, ss - SqrMagnitude(c)), Scale(Cross(c, a), 2.0 * s))
  {
    hide Dot, Cross, SqrMagnitude, Scale;
    DotIsSqrMagnitude(c);
    assert Vector3(c.X, c.Y, c.Z) == c;
    assert Rotate(Compose(c, s), a)
        == Add(Add(Scale(c, Dot(c, a) * 2.0), Scale(a, Times(s, s) - Dot(c, c))), Scale(Cross(c, a), 2.0 * s));
    SameScale(c, Dot(c, a) * 2.0, 0.0);
    SameScale(a, Times(s, s) - Dot(c, c), ss - SqrMagnitude(c));
    ScaleByZero(c);
    SumWithZero(Scale(a, ss - SqrMagnitude(c)));
  }

  lemma SameScale(v: Vector3, x: real, y: real)
    requires x == y
    ensures Scale(v, x) == Scale(v, y)
  {
  }

  lemma ScaleByZero(v: Vector3)
    ensures Scale(v, 0.0) == ZERO
  {
  }

  lemma SumWithZero(v: Vector3)
    ensures Add(ZERO, v) == v && Add(v, ZERO) == v
  {
  }

  lemma RegularVector(a: Vector3, b: Vector3, e: Vector3, d: real, k: real, s: real, m: real, w: Vector3)
    requires s == d + k
    requires w == Add(Scale(a, s * s - (k * k - d * d)), Scale(e, 2.0 * s))
    requires e == Sub(Scale(b, m), Scale(a, d))
    ensures w == Scale(b, 2.0 * s * m)
  {
    RegularCoordinate(a.X, b.X, e.X, d, k, s, m);
    RegularCoordinate(a.Y, b.Y, e.Y, d, k, s, m);
    RegularCoordinate(a.Z, b.Z, e.Z, d, k, s, m);
  }

  lemma RegularCoordinate(x: real, y: real, z: real, d: real, k: real, s: real, m: real)
    requires s == d + k
    requires z == y * m - x * d
    ensures x * (s * s - (k * k - d * d)) + z * (2.0 * s) == y * (2.0 * s * m)
  {
  }

  lemma RegularBranch(lib: Libm, a: Vector3, b: Vector3)
    requires lib.Sound() && a != ZERO && b != ZERO
    requires SqrtOfMagnitudes(lib, a, b) != 0.0 && !NearlyOpposite(lib, a, b)
    ensures TakesOnto(lib, FromToRotation(lib, a, b), a, b)
  {
    hide Cross, Dot, SqrMagnitude, SqrNorm, Rotate, SqrtOfMagnitudes, NearlyOpposite, Magnitude, Scale;
    var c, d, k := Cross(a, b), Dot(a, b), SqrtOfMagnitudes(lib, a, b);
    var s, m := d + k, SqrMagnitude(a);
    var q := Compose(c, s);
    MagnitudesPositive(lib, a, b);
    AwayFromOpposite(lib, a, b);
    UnnormalizedTakes(a, b, d, k, s, m);
    CrossMagnitude(a, b, k, d);
    UnnormalizedNorm(c, d, k, s);
    RotateNormalized(lib, q, a);
    MagnitudeSquared(lib, a);
    CancelLengths(Rotate(FromToRotation(lib, a, b), a), b, k, s, m, Magnitude(lib, a), Magnitude(lib, b));
  }

  lemma CancelLengths(w: Vector3, b: Vector3, k: real, s: real, m: real, lengthA: real, lengthB: real)
    requires k > 0.0 && s > 0.0 && lengthA > 0.0
    requires k == lengthA * lengthB && lengthA * lengthA == m
    requires Scale(w, 2.0 * k * s) == Scale(b, 2.0 * s * m)
    ensures Scale(w, lengthB) == Scale(b, lengthA)
  {
    CancelLength(w.X, b.X, k, s, m, lengthA, lengthB);
    CancelLength(w.Y, b.Y, k, s, m, lengthA, lengthB);
    CancelLength(w.Z, b.Z, k, s, m, lengthA, lengthB);
  }

  lemma CancelLength(x: real, y: real, k: real, s: real, m: real, lengthA: real, lengthB: real)
    requires s > 0.0 && lengthA > 0.0
    requires k == lengthA * lengthB && lengthA * lengthA == m
    requires x * (2.0 * k * s) == y * (2.0 * s * m)
    ensures x * lengthB == y * lengthA
  {
    assert (x * k) * (2.0 * s) == (y * m) * (2.0 * s);
    CancelFactor(x * k, y * m, 2.0 * s);
    assert (x * lengthB) * lengthA == (y * lengthA) * lengthA;
    CancelFactor(x * lengthB, y * lengthA, lengthA);
  }

  // ---- The branch for nearly opposite vectors

  lemma OrthogonalIsOrthogonal(a: Vector3)
    requires a != ZERO
    ensures Dot(Orthogonal(a), a) == 0.0
    ensures Orthogonal(a) == ZERO <==> OnNegativeAxis(a)
  {
  }

  /** A half turn about a unit axis orthogonal to `a` reverses it; about the zero axis, it is lost. */
  lemma HalfTurn(n: Vector3, a: Vector3)
    requires Dot(n, a) == 0.0
    ensures Rotate(Compose(n, 0.0), a) == Scale(a, -SqrMagnitude(n))
  {
    hide Dot, Cross, SqrMagnitude, Scale, Rotate;
    RotateByComponents(n, 0.0, a, 0.0);
    ScaleByZero(Cross(n, a));
    SumWithZero(Scale(a, -SqrMagnitude(n)));
  }

  lemma NormalizedStaysOrthogonal(lib: Libm, v: Vector3, a: Vector3)
    requires lib.Sound() && v != ZERO && Dot(v, a) == 0.0
    ensures Dot(Vectors.Normalized(lib, v), a) == 0.0
  {
    var n, m := Vectors.Normalized(lib, v), Magnitude(lib, v);
    NormalizedIsUnit(lib, v);
    DotLinear(n, n, a, m);
    ZeroProduct(m, Dot(n, a));
  }

  lemma HalfTurnAxis(lib: Libm, a: Vector3, n: Vector3)
    requires lib.Sound() && a != ZERO && n == Vectors.Normalized(lib, Orthogonal(a))
    ensures Dot(n, a) == 0.0
    ensures if OnNegativeAxis(a) then n == ZERO else SqrMagnitude(n) == 1.0
  {
    OrthogonalIsOrthogonal(a);
    var v := Orthogonal(a);
    if v == ZERO {
      NormalizedZero(lib);
    } else {
      NormalizedIsUnit(lib, v);
      NormalizedStaysOrthogonal(lib, v, a);
    }
  }

  lemma HalfTurnAbout(n: Vector3, a: Vector3, lost: bool)
    requires Dot(n, a) == 0.0
    requires if lost then n == ZERO else SqrMagnitude(n) == 1.0
    ensures Rotate(Compose(n, 0.0), a) == if lost then ZERO else Scale(a, -1.0)
  {
    HalfTurn(n, a);
  }

  /** In this branch the quaternion is a half turn, or zero when `Orthogonal` fails. */
  lemma OppositeBranch(lib: Libm, a: Vector3, b: Vector3)
    requires lib.Sound() && a != ZERO && b != ZERO
    requires SqrtOfMagnitudes(lib, a, b) != 0.0 && NearlyOpposite(lib, a, b)
    ensures Rotate(FromToRotation(lib, a, b), a) == if OnNegativeAxis(a) then ZERO else Scale(a, -1.0)
  {
    var n := Vectors.Normalized(lib, Orthogonal(a));
    HalfTurnAxis(lib, a, n);
    HalfTurnAbout(n, a, OnNegativeAxis(a));
  }

  // ---- When the rotation is right

  /** The quotient the branch looks at, in numbers: the cosine of the angle is below -0.99999. */
  lemma NearlyOppositeIff(lib: Libm, a: Vector3, b: Vector3)
    requires lib.Sound() && a != ZERO && b != ZERO
    ensures SqrtOfMagnitudes(lib, a, b) != 0.0
    ensures NearlyOpposite(lib, a, b) <==> Dot(a, b) < -0.99999 * (Magnitude(lib, a) * Magnitude(lib, b))
  {
    hide Dot, Cross, SqrMagnitude, Magnitude, SqrtOfMagnitudes;
    MagnitudesPositive(lib, a, b);
    var d, k := Dot(a, b), SqrtOfMagnitudes(lib, a, b);
    CrossMagnitude(a, b, k, d);
    SqrMagnitudeZero(Cross(a, b));
    QuotientBelow(d, k);
  }

  lemma QuotientBelow(d: real, k: real)
    requires k > 0.0 && k * k - d * d >= 0.0
    ensures Abs(d / k + 1.0) < OPPOSITE_TOLERANCE <==> d < -0.99999 * k
  {
    if d + k < 0.0 {
      SquareOfLarger(d, k);
    }
    ScaledBelow(d / k, d, k, -1.0);
    ScaledBelow(d / k, d, k, -0.99999);
  }

  lemma ScaledBelow(r: real, d: real, k: real, bound: real)
    requires k > 0.0 && r == d / k
    ensures r < bound <==> d < bound * k
  {
    assert r * k == d;
    assert (r - bound) * k == d - bound * k;
  }

  /** `FromToRotation` rotates `a` onto the direction of `b` when the cosine of their angle is at least
      -0.99999. Below that it does so exactly when they point in opposite directions and `a` is off the
      negative X and the negative Z axis, on which `Orthogonal` returns zero. */
  lemma FromToRotationIsCorrect(lib: Libm, a: Vector3, b: Vector3)
    requires lib.Sound() && a != ZERO && b != ZERO
    ensures Dot(a, b) >= -0.99999 * (Magnitude(lib, a) * Magnitude(lib, b)) ==>
              TakesOnto(lib, FromToRotation(lib, a, b), a, b)
    ensures Dot(a, b) < -0.99999 * (Magnitude(lib, a) * Magnitude(lib, b)) ==>
              (TakesOnto(lib, FromToRotation(lib, a, b), a, b)
          <==> && Scale(a, -Magnitude(lib, b)) == Scale(b, Magnitude(lib, a))
               && !(a.X == 0.0 && a.Y == 0.0 && a.Z < 0.0) && !(a.Y == 0.0 && a.Z == 0.0 && a.X < 0.0))
  {
    hide Dot, FromToRotation, NearlyOpposite, Rotate, SqrtOfMagnitudes, Magnitude, SqrMagnitude, Scale;
    MagnitudesPositive(lib, a, b);
    NearlyOppositeIff(lib, a, b);
    if NearlyOpposite(lib, a, b) {
      OppositeBranch(lib, a, b);
      HalfTurnTakes(lib, a, b);
    } else {
      RegularBranch(lib, a, b);
    }
  }

  lemma HalfTurnTakes(lib: Libm, a: Vector3, b: Vector3)
    requires b != ZERO && Magnitude(lib, a) > 0.0
    ensures Scale(Scale(a, -1.0), Magnitude(lib, b)) == Scale(a, -Magnitude(lib, b))
    ensures Scale(ZERO, Magnitude(lib, b)) == ZERO != Scale(b, Magnitude(lib, a))
  {
    var m := Magnitude(lib, a);
    if Scale(b, m) == ZERO {
      ZeroProduct(b.X, m);
      ZeroProduct(b.Y, m);
      ZeroProduct(b.Z, m);
    }
  }

  lemma AxisNorm(lib: Libm, a: Vector3, n: Vector3)
    requires lib.Sound() && a != ZERO && n == Vectors.Normalized(lib, Orthogonal(a))
    ensures SqrNorm(Compose(n, 0.0)) == if OnNegativeAxis(a) then 0.0 else 1.0
  {
    hide Dot, SqrNorm, SqrMagnitude, Orthogonal, OnNegativeAxis, Vectors.Normalized;
    HalfTurnAxis(lib, a, n);
    NormOfCompose(n, 0.0);
    SqrMagnitudeZero(n);
  }

  /** `FromToRotation` is a unit quaternion unless the cosine of the angle is below -0.99999 and `a` lies on
      the negative X or the negative Z axis; then it is zero. */
  lemma FromToRotationIsUnitIff(lib: Libm, a: Vector3, b: Vector3)
    requires lib.Sound() && a != ZERO && b != ZERO
    ensures SqrNorm(FromToRotation(lib, a, b))
         == if && Dot(a, b) < -0.99999 * (Magnitude(lib, a) * Magnitude(lib, b))
               && ((a.X == 0.0 && a.Y == 0.0 && a.Z < 0.0) || (a.Y == 0.0 && a.Z == 0.0 && a.X < 0.0))
            then 0.0 else 1.0
  {
    hide Dot, NearlyOpposite, SqrtOfMagnitudes, Magnitude, SqrMagnitude, SqrNorm, Orthogonal, Vectors.Normalized,
        Rotate;
    MagnitudesPositive(lib, a, b);
    NearlyOppositeIff(lib, a, b);
    if NearlyOpposite(lib, a, b) {
      AxisNorm(lib, a, Vectors.Normalized(lib, Orthogonal(a)));
    } else {
      AwayFromOpposite(lib, a, b);
      RotateNormalized(lib, Compose(Cross(a, b), Dot(a, b) + SqrtOfMagnitudes(lib, a, b)), a);
    }
  }

  /** A concrete failure: the rotation from backward to forward loses the vector. */
  lemma BackwardToForwardFails(lib: Libm, a: Vector3)
    requires lib.Sound() && a == Vector3(0.0, 0.0, -1.0)
    ensures !TakesOnto(lib, FromToRotation(lib, a, FORWARD), a, FORWARD)
  {
    UnitRoots(lib);
    FromToRotationIsCorrect(lib, a, FORWARD);
  }

  lemma UnitRoots(lib: Libm)
    requires lib.Sound()
    ensures Magnitude(lib, Vector3(0.0, 0.0, -1.0)) == 1.0 == Magnitude(lib, FORWARD)
    ensures Dot(Vector3(0.0, 0.0, -1.0), FORWARD) == -1.0
  {
    SqrtOfSquare(lib, 1.0);
  }
}
