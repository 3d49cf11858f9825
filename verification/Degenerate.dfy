/**
 What TRIAD returns for collinear vectors (rotation.cpp). One of the frames then has a single
 nonzero row, the matrix handed to `ToQuaternion` has rank one at most, and the quaternion that
 comes back is not a unit quaternion.
 */
module DegenerateTriads {
  import opened Libm
  import opened Vectors
  import opened Quaternions
  import opened Matrices
  import opened Conversions
  import opened Rotations

  function SumOfSquares(a: real, b: real, c: real, d: real): real {
    a * a + b * b + c * c + d * d
  }

  lemma NormInAnyOrder(q: Quaternion)
    ensures SqrNorm(q) == SumOfSquares(q.W, q.X, q.Y, q.Z)
    ensures SqrNorm(q) == SumOfSquares(q.X, q.Y, q.Z, q.W)
    ensures SqrNorm(q) == SumOfSquares(q.Y, q.X, q.Z, q.W)
    ensures SqrNorm(q) == SumOfSquares(q.Z, q.X, q.Y, q.W)
  {
  }

  // ---- The norm of what ToQuaternion returns for any matrix

  lemma RowNorm(s: real, p: real, a: real, b: real, c: real, w: real, x: real, y: real, z: real)
    requires Times(s, s) == 4.0 * p && w == 0.25 * s
    requires Times(x, s) == a && Times(y, s) == b && Times(z, s) == c
    ensures Times(SumOfSquares(w, x, y, z), 4.0 * p) == SumOfSquares(p, a, b, c)
  {
    SquareTimes(x, s, a, p);
    SquareTimes(y, s, b, p);
    SquareTimes(z, s, c, p);
    assert w * w == 0.25 * p by {
      assert w * w == 0.0625 * (s * s);
    }
    DistributeFour(w * w, x * x, y * y, z * z, p);
  }

  lemma SquareTimes(x: real, s: real, a: real, p: real)
    requires Times(s, s) == 4.0 * p && Times(x, s) == a
    ensures (x * x) * (4.0 * p) == a * a
  {
    assert (x * x) * (s * s) == (x * s) * (x * s);
  }

  lemma DistributeFour(w: real, x: real, y: real, z: real, p: real)
    requires w == 0.25 * p
    ensures (w + x + y + z) * (4.0 * p) == p * p + x * (4.0 * p) + y * (4.0 * p) + z * (4.0 * p)
  {
  }

  // ---- Matrices of rank one

  function Outer(a: Vector3, b: Vector3): Matrix3x3 {
    FromRows(Scale(b, a.X), Scale(b, a.Y), Scale(b, a.Z))
  }

  /** Vanishing principal minors, and entries whose squares sum to `n`. */
  ghost predicate RankOne(m: Matrix3x3, n: real) {
    && m.D00 * m.D11 == m.D01 * m.D10
    && m.D00 * m.D22 == m.D02 * m.D20
    && m.D11 * m.D22 == m.D12 * m.D21
    && SqrMagnitude(Row0(m)) + SqrMagnitude(Row1(m)) + SqrMagnitude(Row2(m)) == n
  }

  lemma OuterIsRankOne(a: Vector3, b: Vector3, m: Matrix3x3)
    requires m == Outer(a, b) && (SqrMagnitude(b) == 1.0 || SqrMagnitude(b) == 0.0)
    ensures RankOne(m, if SqrMagnitude(b) == 1.0 then SqrMagnitude(a) else 0.0)
  {
    OuterMinors(a, b, m);
    SqrMagnitudeScale(b, a.X);
    SqrMagnitudeScale(b, a.Y);
    SqrMagnitudeScale(b, a.Z);
    assert Row0(m) == Scale(b, a.X) && Row1(m) == Scale(b, a.Y) && Row2(m) == Scale(b, a.Z);
  }

  lemma OuterInTimes(a: Vector3, b: Vector3)
    ensures Outer(a, b)
         == Matrix3x3(Times(b.X, a.X), Times(b.Y, a.X), Times(b.Z, a.X), Times(b.X, a.Y), Times(b.Y, a.Y),
                      Times(b.Z, a.Y), Times(b.X, a.Z), Times(b.Y, a.Z), Times(b.Z, a.Z))
  {
  }

  lemma OuterMinors(a: Vector3, b: Vector3, m: Matrix3x3)
    requires m == Outer(a, b)
    ensures m.D00 * m.D11 == m.D01 * m.D10
    ensures m.D00 * m.D22 == m.D02 * m.D20
    ensures m.D11 * m.D22 == m.D12 * m.D21
  {
    hide Times, Outer;
    OuterInTimes(a, b);
    OuterMinor(a.X, a.Y, b.X, b.Y, m.D00, m.D11, m.D01, m.D10);
    OuterMinor(a.X, a.Z, b.X, b.Z, m.D00, m.D22, m.D02, m.D20);
    OuterMinor(a.Y, a.Z, b.Y, b.Z, m.D11, m.D22, m.D12, m.D21);
  }

  lemma OuterMinor(a: real, b: real, c: real, d: real, p: real, q: real, r: real, s: real)
    requires p == Times(c, a) && q == Times(d, b) && r == Times(d, a) && s == Times(c, b)
    ensures p * q == r * s
  {
  }

  lemma RowSumW(m: Matrix3x3, k: Products, n: real)
    requires RankOne(m, n) && k == FourProducts(m)
    ensures SumOfSquares(k.WW, k.XW, k.YW, k.ZW) == n - 1.0 + 2.0 * k.WW
  {
  }

  lemma RowSumX(m: Matrix3x3, k: Products, n: real)
    requires RankOne(m, n) && k == FourProducts(m)
    ensures SumOfSquares(k.XX, k.XY, k.XZ, k.XW) == n - 1.0 + 2.0 * k.XX
  {
  }

  lemma RowSumY(m: Matrix3x3, k: Products, n: real)
    requires RankOne(m, n) && k == FourProducts(m)
    ensures SumOfSquares(k.YY, k.XY, k.YZ, k.YW) == n - 1.0 + 2.0 * k.YY
  {
  }

  lemma RowSumZ(m: Matrix3x3, k: Products, n: real)
    requires RankOne(m, n) && k == FourProducts(m)
    ensures SumOfSquares(k.ZZ, k.XZ, k.YZ, k.ZW) == n - 1.0 + 2.0 * k.ZZ
  {
  }

  lemma NotUnit(norm: real, p: real, sum: real, n: real)
    requires Times(norm, 4.0 * p) == sum && sum == n - 1.0 + 2.0 * p && p > 0.0 && n <= 1.0
    ensures norm != 1.0
  {
  }

  lemma RankOneBranchW(lib: Libm, m: Matrix3x3, q: Quaternion, k: Products, s: real, n: real)
    requires lib.Sound() && RankOne(m, n) && n <= 1.0 && Trace(m) > 0.0
    requires q == ToQuaternion(lib, m) && k == FourProducts(m) && s == 2.0 * lib.Sqrt(k.WW)
    ensures SqrNorm(q) != 1.0
  {
    BranchW(lib, m, q, k, s);
    RowSumW(m, k, n);
    RowNorm(s, k.WW, k.XW, k.YW, k.ZW, q.W, q.X, q.Y, q.Z);
    NotUnit(SumOfSquares(q.W, q.X, q.Y, q.Z), k.WW, SumOfSquares(k.WW, k.XW, k.YW, k.ZW), n);
    NormInAnyOrder(q);
  }

  lemma RankOneBranchX(lib: Libm, m: Matrix3x3, q: Quaternion, k: Products, s: real, n: real)
    requires lib.Sound() && RankOne(m, n) && n <= 1.0 && Trace(m) <= 0.0 && m.D00 > m.D11 && m.D00 > m.D22
    requires q == ToQuaternion(lib, m) && k == FourProducts(m) && s == 2.0 * lib.Sqrt(k.XX)
    ensures SqrNorm(q) != 1.0
  {
    BranchX(lib, m, q, k, s);
    RowSumX(m, k, n);
    RowNorm(s, k.XX, k.XY, k.XZ, k.XW, q.X, q.Y, q.Z, q.W);
    NotUnit(SumOfSquares(q.X, q.Y, q.Z, q.W), k.XX, SumOfSquares(k.XX, k.XY, k.XZ, k.XW), n);
    NormInAnyOrder(q);
  }

  lemma RankOneBranchY(lib: Libm, m: Matrix3x3, q: Quaternion, k: Products, s: real, n: real)
    requires lib.Sound() && RankOne(m, n) && n <= 1.0 && Trace(m) <= 0.0 && !(m.D00 > m.D11 && m.D00 > m.D22)
              && m.D11 > m.D22
    requires q == ToQuaternion(lib, m) && k == FourProducts(m) && s == 2.0 * lib.Sqrt(k.YY)
    ensures SqrNorm(q) != 1.0
  {
    BranchY(lib, m, q, k, s);
    RowSumY(m, k, n);
    RowNorm(s, k.YY, k.XY, k.YZ, k.YW, q.Y, q.X, q.Z, q.W);
    NotUnit(SumOfSquares(q.Y, q.X, q.Z, q.W), k.YY, SumOfSquares(k.YY, k.XY, k.YZ, k.YW), n);
    NormInAnyOrder(q);
  }

  lemma RankOneBranchZ(lib: Libm, m: Matrix3x3, q: Quaternion, k: Products, s: real, n: real)
    requires lib.Sound() && RankOne(m, n) && n <= 1.0 && Trace(m) <= 0.0 && !(m.D00 > m.D11 && m.D00 > m.D22)
              && m.D11 <= m.D22
    requires q == ToQuaternion(lib, m) && k == FourProducts(m) && s == 2.0 * lib.Sqrt(k.ZZ)
    ensures SqrNorm(q) != 1.0
  {
    BranchZ(lib, m, q, k, s);
    RowSumZ(m, k, n);
    RowNorm(s, k.ZZ, k.XZ, k.YZ, k.ZW, q.Z, q.X, q.Y, q.W);
    NotUnit(SumOfSquares(q.Z, q.X, q.Y, q.W), k.ZZ, SumOfSquares(k.ZZ, k.XZ, k.YZ, k.ZW), n);
    NormInAnyOrder(q);
  }

  /** The quaternion `ToQuaternion` makes of such a matrix is not a unit quaternion. */
  lemma RankOneNorm(lib: Libm, m: Matrix3x3, n: real)
    requires lib.Sound() && RankOne(m, n) && n <= 1.0
    ensures SqrNorm(ToQuaternion(lib, m)) != 1.0
  {
    var q, k := ToQuaternion(lib, m), FourProducts(m);
    if Trace(m) > 0.0 {
      RankOneBranchW(lib, m, q, k, 2.0 * lib.Sqrt(k.WW), n);
    } else if m.D00 > m.D11 && m.D00 > m.D22 {
      RankOneBranchX(lib, m, q, k, 2.0 * lib.Sqrt(k.XX), n);
    } else if m.D11 > m.D22 {
      RankOneBranchY(lib, m, q, k, 2.0 * lib.Sqrt(k.YY), n);
    } else {
      RankOneBranchZ(lib, m, q, k, 2.0 * lib.Sqrt(k.ZZ), n);
    }
  }

  // ---- Collinear vectors

  lemma CollinearFrame(lib: Libm, v0: Vector3, v1: Vector3)
    requires lib.Sound() && Collinear(v0, v1)
    ensures Frame(lib, v0, v1) == FromRows(Vectors.Normalized(lib, v0), ZERO, ZERO)
  {
    NormalizedZero(lib);
    CrossWithZero(Vectors.Normalized(lib, v0));
  }

  lemma ApplyToFirstAxis(m: Matrix3x3, x: real)
    ensures Apply(m, Vector3(x, 0.0, 0.0)) == Scale(Column0(m), x)
  {
  }

  lemma ApplyOneColumn(r: Vector3, v: Vector3)
    ensures Apply(Transpose(FromRows(r, ZERO, ZERO)), v) == Scale(r, v.X)
  {
  }

  lemma FirstRowIsOuter(a: Vector3, f: Matrix3x3)
    ensures Product(Transpose(FromRows(a, ZERO, ZERO)), f) == Outer(a, Row0(f))
  {
    hide Product, Apply, Scale;
    var t := Transpose(FromRows(a, ZERO, ZERO));
    RowsOfProduct(t, f);
    ApplyToFirstAxis(Transpose(f), a.X);
    ApplyToFirstAxis(Transpose(f), a.Y);
    ApplyToFirstAxis(Transpose(f), a.Z);
    EqualByRows(Product(t, f), Outer(a, Row0(f)));
  }

  lemma OneRowIsOuter(a: Vector3, b: Vector3, c: Vector3, r: Vector3)
    ensures Product(Transpose(FromRows(a, b, c)), FromRows(r, ZERO, ZERO)) == Outer(a, r)
  {
    hide Product, Apply, Scale;
    var t, f := Transpose(FromRows(a, b, c)), FromRows(r, ZERO, ZERO);
    RowsOfProduct(t, f);
    ApplyOneColumn(r, Row0(t));
    ApplyOneColumn(r, Row1(t));
    ApplyOneColumn(r, Row2(t));
    EqualByRows(Product(t, f), Outer(a, r));
  }

  lemma CollinearTriadMatrix(lib: Libm, v0: Vector3, v1: Vector3, w0: Vector3, w1: Vector3)
    requires lib.Sound() && (Collinear(v0, v1) || Collinear(w0, w1))
    ensures TriadMatrix(lib, v0, v1, w0, w1) == Outer(Vectors.Normalized(lib, v0), Vectors.Normalized(lib, w0))
  {
    var f, g := Frame(lib, v0, v1), Frame(lib, w0, w1);
    if Collinear(v0, v1) {
      CollinearFrame(lib, v0, v1);
      FirstRowIsOuter(Row0(f), g);
    } else {
      CollinearFrame(lib, w0, w1);
      OneRowIsOuter(Row0(f), Row1(f), Row2(f), Row0(g));
    }
  }

  lemma NormalizedLength(lib: Libm, v: Vector3)
    requires lib.Sound()
    ensures var l := SqrMagnitude(Vectors.Normalized(lib, v)); l == 1.0 || l == 0.0
  {
    if v == ZERO {
      NormalizedZero(lib);
      SqrMagnitudeZero(ZERO);
    } else {
      NormalizedIsUnit(lib, v);
    }
  }

  lemma OuterOfNormalized(lib: Libm, v: Vector3, w: Vector3, m: Matrix3x3)
    requires lib.Sound() && m == Outer(Vectors.Normalized(lib, v), Vectors.Normalized(lib, w))
    ensures SqrNorm(ToQuaternion(lib, m)) != 1.0
  {
    var a, b := Vectors.Normalized(lib, v), Vectors.Normalized(lib, w);
    NormalizedLength(lib, v);
    NormalizedLength(lib, w);
    OuterIsRankOne(a, b, m);
    RankOneNorm(lib, m, if SqrMagnitude(b) == 1.0 then SqrMagnitude(a) else 0.0);
  }

  lemma CollinearTriadIsNotUnit(lib: Libm, v0: Vector3, v1: Vector3, w0: Vector3, w1: Vector3)
    requires lib.Sound() && (Collinear(v0, v1) || Collinear(w0, w1))
    ensures SqrNorm(Triad(lib, v0, v1, w0, w1)) != 1.0
  {
    CollinearTriadMatrix(lib, v0, v1, w0, w1);
    OuterOfNormalized(lib, v0, w0, TriadMatrix(lib, v0, v1, w0, w1));
  }

  ghost predicate TriadIsUnit(lib: Libm, v0: Vector3, v1: Vector3, w0: Vector3, w1: Vector3)
    requires lib.Sound()
  {
    SqrNorm(Triad(lib, v0, v1, w0, w1)) == 1.0
  }

  /** TRIAD returns a rotation exactly when neither pair of vectors is collinear. */
  lemma TriadIsUnitIffNotCollinear(lib: Libm, v0: Vector3, v1: Vector3, w0: Vector3, w1: Vector3)
    requires lib.Sound()
    ensures TriadIsUnit(lib, v0, v1, w0, w1) <==> !Collinear(v0, v1) && !Collinear(w0, w1)
  {
    if !Collinear(v0, v1) && !Collinear(w0, w1) {
      TriadIsRotation(lib, v0, v1, w0, w1);
    } else {
      CollinearTriadIsNotUnit(lib, v0, v1, w0, w1);
    }
  }
}
