/** What the angle of separation is when the arc cosine behaves as one. */
module AngleLaws {
  import opened Libm
  import opened Vectors
  import opened Stars

  /** The laws of the arc cosine: it falls from `Acos(-1)` to 0, and it turns the formula for the
      cosine of a sum into a sum. */
  ghost predicate Laws(lib: Libm) {
    && lib.Sound()
    && lib.DegreesPerRadian > 0.0
    && lib.Acos(1.0) == 0.0
    && (forall x: real, y: real {:trigger lib.Acos(x), lib.Acos(y)} ::
          -1.0 <= x < y <= 1.0 ==> lib.Acos(y) < lib.Acos(x))
    && (forall x: real, y: real {:trigger OfSum(lib, x, y)} ::
          -1.0 <= x <= 1.0 && -1.0 <= y <= 1.0 && lib.Acos(x) + lib.Acos(y) <= lib.Acos(-1.0) ==>
            lib.Acos(OfSum(lib, x, y)) == lib.Acos(x) + lib.Acos(y))
  }

  function Sine(lib: Libm, cosine: real): real {
    lib.Sqrt(1.0 - cosine * cosine)
  }

  /** The cosine of the sum of two angles, from their cosines. */
  function OfSum(lib: Libm, x: real, y: real): real {
    x * y - Sine(lib, x) * Sine(lib, y)
  }

  // ---- Bounds

  lemma PositiveProduct(x: real, y: real)
    requires x > 0.0 && y > 0.0
    ensures x * y > 0.0
  {
  }

  lemma SquareBound(x: real, s: real)
    requires s >= 0.0 && x * x <= s * s
    ensures -s <= x <= s
  {
    if x > s {
      PositiveProduct(x - s, x + s);
    } else if x < -s {
      PositiveProduct(-s - x, s - x);
    }
  }

  /** |p.q| <= |p||q|. */
  lemma CauchySchwarz(p: Vector3, q: Vector3, m: real, n: real)
    requires m >= 0.0 && n >= 0.0 && m * m == SqrMagnitude(p) && n * n == SqrMagnitude(q)
    ensures -(m * n) <= Dot(p, q) <= m * n
  {
    hide Dot, Cross, SqrMagnitude;
    Lagrange(p, q);
    SqrMagnitudeZero(Cross(p, q));
    SquareOfProduct(m, n, SqrMagnitude(p), SqrMagnitude(q));
    SquareBound(Dot(p, q), m * n);
  }

  lemma SquareOfProduct(m: real, n: real, p: real, q: real)
    requires m >= 0.0 && n >= 0.0 && m * m == p && n * n == q
    ensures (m * n) * (m * n) == p * q && m * n >= 0.0
  {
  }

  lemma UnitDot(a: Vector3, b: Vector3)
    requires SqrMagnitude(a) == 1.0 && SqrMagnitude(b) == 1.0
    ensures -1.0 <= Dot(a, b) <= 1.0
  {
    CauchySchwarz(a, b, 1.0, 1.0);
  }

  lemma SineSquared(lib: Libm, x: real)
    requires lib.Sound() && -1.0 <= x <= 1.0
    ensures Sine(lib, x) >= 0.0 && Sine(lib, x) * Sine(lib, x) == 1.0 - x * x
  {
    SquareBelowOne(x);
    SqrtSign(lib, 1.0 - x * x);
  }

  lemma SquareBelowOne(x: real)
    requires -1.0 <= x <= 1.0
    ensures x * x <= 1.0
  {
    assert (1.0 - x) * (1.0 + x) == 1.0 - x * x;
    if 1.0 - x > 0.0 && 1.0 + x > 0.0 {
      PositiveProduct(1.0 - x, 1.0 + x);
    } else {
      assert x == 1.0 || x == -1.0;
    }
  }

  // ---- Angles between unit vectors

  /** The angle of unit vectors is the arc cosine of their dot product. */
  lemma UnitAngle(lib: Libm, a: Vector3, b: Vector3)
    requires lib.Sound() && SqrMagnitude(a) == 1.0 && SqrMagnitude(b) == 1.0
    ensures Separation(lib, a, b) == lib.DegreesPerRadian * lib.Acos(Dot(a, b))
  {
    UnitDot(a, b);
    SqrtOfSquare(lib, 1.0);
  }

  /** Different dot products make different angles, smaller ones larger angles. */
  lemma SeparationOrder(lib: Libm, a: Vector3, b: Vector3, c: Vector3, d: Vector3)
    requires Laws(lib)
    requires SqrMagnitude(a) == SqrMagnitude(b) == SqrMagnitude(c) == SqrMagnitude(d) == 1.0
    ensures Separation(lib, a, b) < Separation(lib, c, d) <==> Dot(a, b) > Dot(c, d)
  {
    hide Dot, SqrMagnitude, Separation;
    UnitAngle(lib, a, b);
    UnitAngle(lib, c, d);
    UnitDot(a, b);
    UnitDot(c, d);
    OrderScaled(lib.Acos(Dot(a, b)), lib.Acos(Dot(c, d)), lib.DegreesPerRadian);
  }

  lemma OrderScaled(x: real, y: real, k: real)
    requires k > 0.0
    ensures k * x < k * y <==> x < y
  {
    if x < y {
      assert k * (y - x) > 0.0;
    } else {
      assert k * (x - y) >= 0.0;
    }
  }

  lemma SeparationFromItself(lib: Libm, v: Vector3)
    requires Laws(lib) && v != ZERO
    ensures Separation(lib, v, v) == 0.0
  {
    MagnitudeSquared(lib, v);
    SqrMagnitudeZero(v);
    QuotientIsOne(lib, Dot(v, v), SqrMagnitude(v));
  }

  lemma QuotientIsOne(lib: Libm, dot: real, sqr: real)
    requires Laws(lib) && dot == sqr > 0.0
    ensures AngleFrom(lib, dot, sqr, sqr) == 0.0
  {
    SqrtSign(lib, sqr);
    CancelFactor(dot / sqr, 1.0, sqr);
  }

  // ---- The triangle inequality

  /** a.c = (a.b)(b.c) - (a x b).(b x c) for a unit vector b, and the last product is bounded. */
  lemma DotThroughMiddle(lib: Libm, a: Vector3, b: Vector3, c: Vector3)
    requires lib.Sound() && SqrMagnitude(a) == 1.0 && SqrMagnitude(b) == 1.0 && SqrMagnitude(c) == 1.0
    ensures OfSum(lib, Dot(a, b), Dot(b, c)) <= Dot(a, c)
  {
    hide Dot, Cross, SqrMagnitude, Sine;
    var x, y := Dot(a, b), Dot(b, c);
    UnitDot(a, b);
    UnitDot(b, c);
    SineSquared(lib, x);
    SineSquared(lib, y);
    Lagrange(a, b);
    Lagrange(b, c);
    CauchySchwarz(Cross(a, b), Cross(b, c), Sine(lib, x), Sine(lib, y));
    BinetCauchy(a, b, b, c);
    DotIsSqrMagnitude(b);
  }

  lemma OfSumIsCosine(lib: Libm, x: real, y: real)
    requires lib.Sound() && -1.0 <= x <= 1.0 && -1.0 <= y <= 1.0
    ensures -1.0 <= OfSum(lib, x, y) <= 1.0
  {
    SineSquared(lib, x);
    SineSquared(lib, y);
    var s, t := Sine(lib, x), Sine(lib, y);
    SumOfSquares(x, y, s, t, x * y - s * t, x * t + y * s);
    CosineBound(x * y - s * t, x * t + y * s);
  }

  lemma CosineBound(c: real, d: real)
    requires c * c + d * d == 1.0
    ensures -1.0 <= c <= 1.0
  {
    SquareNonNegative(d);
    SquareBound(c, 1.0);
  }

  lemma SumOfSquares(x: real, y: real, s: real, t: real, c: real, d: real)
    requires s * s == 1.0 - x * x && t * t == 1.0 - y * y
    requires c == x * y - s * t && d == x * t + y * s
    ensures c * c + d * d == 1.0
  {
    assert c * c + d * d == (x * x + s * s) * (y * y + t * t) by {
      FourSquares(x, y, s, t);
    }
  }

  lemma FourSquares(x: real, y: real, s: real, t: real)
    ensures (x * y - s * t) * (x * y - s * t) + (x * t + y * s) * (x * t + y * s) == (x * x + s * s) * (y * y + t * t)
  {
  }

  lemma AcosThroughMiddle(lib: Libm, a: Vector3, b: Vector3, c: Vector3)
    requires Laws(lib) && SqrMagnitude(a) == 1.0 && SqrMagnitude(b) == 1.0 && SqrMagnitude(c) == 1.0
    ensures lib.Acos(Dot(a, c)) <= lib.Acos(Dot(a, b)) + lib.Acos(Dot(b, c))
  {
    hide Dot, Cross, SqrMagnitude, OfSum;
    var x, y, z := Dot(a, b), Dot(b, c), Dot(a, c);
    UnitDot(a, b);
    UnitDot(b, c);
    UnitDot(a, c);
    if lib.Acos(x) + lib.Acos(y) <= lib.Acos(-1.0) {
      DotThroughMiddle(lib, a, b, c);
      OfSumIsCosine(lib, x, y);
      AcosFalls(lib, OfSum(lib, x, y), z);
    } else {
      AcosFalls(lib, -1.0, z);
    }
  }

  /** The angle of separation of unit vectors is a distance: going through a third one is no shorter. */
  lemma TriangleInequality(lib: Libm, a: Vector3, b: Vector3, c: Vector3)
    requires Laws(lib) && SqrMagnitude(a) == 1.0 && SqrMagnitude(b) == 1.0 && SqrMagnitude(c) == 1.0
    ensures Separation(lib, a, c) <= Separation(lib, a, b) + Separation(lib, b, c)
  {
    hide Dot, Cross, SqrMagnitude, Separation, OfSum;
    UnitAngle(lib, a, b);
    UnitAngle(lib, b, c);
    UnitAngle(lib, a, c);
    AcosThroughMiddle(lib, a, b, c);
    ScaledSum(lib.Acos(Dot(a, c)), lib.Acos(Dot(a, b)), lib.Acos(Dot(b, c)), lib.DegreesPerRadian);
  }

  lemma ScaledSum(z: real, x: real, y: real, k: real)
    requires k > 0.0 && z <= x + y
    ensures k * z <= k * x + k * y
  {
    assert k * (x + y - z) >= 0.0;
  }

  lemma AcosFalls(lib: Libm, x: real, y: real)
    requires Laws(lib) && -1.0 <= x <= y <= 1.0
    ensures lib.Acos(y) <= lib.Acos(x)
  {
  }

  /** Two unit vectors in the same field of view are closer together than its width. */
  lemma WithinFieldOfView(lib: Libm, center: Vector3, a: Vector3, b: Vector3, fov: real)
    requires Laws(lib) && SqrMagnitude(center) == 1.0 && SqrMagnitude(a) == 1.0 && SqrMagnitude(b) == 1.0
    requires WithinAngle(lib, center, a, fov / 2.0) && WithinAngle(lib, center, b, fov / 2.0)
    ensures WithinAngle(lib, a, b, fov)
  {
    hide SqrMagnitude, Separation;
    WithinAngleSymmetric(lib, center, a, fov / 2.0);
    TriangleInequality(lib, a, center, b);
  }
}
