/**
 Conversion between quaternions and rotation matrices (FromQuaternion and ToQuaternion in
 Matrix3x3.hpp). The proofs go through the products q_i q_j of the components of a unit
 quaternion: four times each of them is a sum of entries of its rotation matrix.
 */
module Conversions {
  import opened Libm
  import opened Vectors
  import opened Quaternions
  import opened Matrices

  /** The matrix `FromQuaternion` computes before it divides by the square of the norm. */
  function Unscaled(q: Quaternion): Matrix3x3 {
    Matrix3x3(
      Times(q.X, q.X) - Times(q.Y, q.Y) - Times(q.Z, q.Z) + Times(q.W, q.W),
      2.0 * (Times(q.X, q.Y) - Times(q.Z, q.W)),
      2.0 * (Times(q.X, q.Z) + Times(q.Y, q.W)),
      2.0 * (Times(q.X, q.Y) + Times(q.Z, q.W)),
      -Times(q.X, q.X) + Times(q.Y, q.Y) - Times(q.Z, q.Z) + Times(q.W, q.W),
      2.0 * (Times(q.Y, q.Z) - Times(q.X, q.W)),
      2.0 * (Times(q.X, q.Z) - Times(q.Y, q.W)),
      2.0 * (Times(q.Y, q.Z) + Times(q.X, q.W)),
      -Times(q.X, q.X) - Times(q.Y, q.Y) + Times(q.Z, q.Z) + Times(q.W, q.W))
  }

  function FromQuaternion(q: Quaternion): Matrix3x3
    requires SqrNorm(q) != 0.0
  {
    var invSqr := 1.0 / SqrNorm(q);
    ScaleMatrix(Unscaled(q), invSqr)
  }

  function Trace(m: Matrix3x3): real {
    m.D00 + m.D11 + m.D22
  }

  /** The number whose square root the branch taken by `ToQuaternion` needs. */
  function Radicand(m: Matrix3x3): real {
    if Trace(m) > 0.0 then Trace(m) + 1.0
    else if m.D00 > m.D11 && m.D00 > m.D22 then 1.0 + m.D00 - m.D11 - m.D22
    else if m.D11 > m.D22 then 1.0 + m.D11 - m.D00 - m.D22
    else 1.0 + m.D22 - m.D00 - m.D11
  }

  /** No branch takes the root of a number below 1, whatever the matrix. */
  lemma RadicandAtLeastOne(m: Matrix3x3)
    ensures Radicand(m) >= 1.0
  {
  }

  lemma RadicandRoot(lib: Libm, m: Matrix3x3)
    requires lib.Sound()
    ensures lib.Sqrt(Radicand(m)) > 0.0
    ensures lib.Sqrt(Radicand(m)) * lib.Sqrt(Radicand(m)) == Radicand(m)
  {
    RadicandAtLeastOne(m);
    SqrtSign(lib, Radicand(m));
  }

  /** The components in the branch for a positive trace. */
  function PositiveTrace(a: real, b: real, c: real, root: real): Quaternion
    requires root > 0.0
  {
    var s := 0.5 / root;
    assert s * root == 0.5;
    Quaternion(a * s, b * s, c * s, 0.25 / s)
  }

  function ToQuaternion(lib: Libm, m: Matrix3x3): Quaternion
    requires lib.Sound()
  {
    RadicandRoot(lib, m);
    if Trace(m) > 0.0 then
      PositiveTrace(m.D21 - m.D12, m.D02 - m.D20, m.D10 - m.D01, lib.Sqrt(Trace(m) + 1.0))
    else if m.D00 > m.D11 && m.D00 > m.D22 then
      var s := 2.0 * lib.Sqrt(1.0 + m.D00 - m.D11 - m.D22);
      Quaternion(0.25 * s, (m.D01 + m.D10) / s, (m.D02 + m.D20) / s, (m.D21 - m.D12) / s)
    else if m.D11 > m.D22 then
      var s := 2.0 * lib.Sqrt(1.0 + m.D11 - m.D00 - m.D22);
      Quaternion((m.D01 + m.D10) / s, 0.25 * s, (m.D12 + m.D21) / s, (m.D02 - m.D20) / s)
    else
      var s := 2.0 * lib.Sqrt(1.0 + m.D22 - m.D00 - m.D11);
      Quaternion((m.D02 + m.D20) / s, (m.D12 + m.D21) / s, 0.25 * s, (m.D10 - m.D01) / s)
  }

  // ---- FromQuaternion rotates

  lemma UnscaledX(q: Quaternion, v: Vector3)
    ensures Apply(Unscaled(q), v).X == Rotate(q, v).X
  {
    hide Apply, Rotate, Times;
    var m := Unscaled(q);
    RotateX(q, v, m.D00, m.D01, m.D02);
    ApplyInTimes(m, v);
  }

  lemma UnscaledY(q: Quaternion, v: Vector3)
    ensures Apply(Unscaled(q), v).Y == Rotate(q, v).Y
  {
    hide Apply, Rotate, Times;
    var m := Unscaled(q);
    RotateY(q, v, m.D10, m.D11, m.D12);
    ApplyInTimes(m, v);
  }

  lemma UnscaledZ(q: Quaternion, v: Vector3)
    ensures Apply(Unscaled(q), v).Z == Rotate(q, v).Z
  {
    hide Apply, Rotate, Times;
    var m := Unscaled(q);
    RotateZ(q, v, m.D20, m.D21, m.D22);
    ApplyInTimes(m, v);
  }

  lemma UnscaledRotates(q: Quaternion, v: Vector3)
    ensures Apply(Unscaled(q), v) == Rotate(q, v)
  {
    hide Apply, Unscaled, Rotate;
    UnscaledX(q, v);
    UnscaledY(q, v);
    UnscaledZ(q, v);
    EqualCoordinates(Apply(Unscaled(q), v), Rotate(q, v));
  }

  /** `FromQuaternion` agrees with the quaternion up to the square of its norm. */
  lemma FromQuaternionRotates(q: Quaternion, v: Vector3, n: real)
    requires n == SqrNorm(q) && n != 0.0
    ensures Scale(Apply(FromQuaternion(q), v), n) == Rotate(q, v)
  {
    UnscaledRotates(q, v);
    ApplyUnscaled(Unscaled(q), FromQuaternion(q), n, v);
  }

  lemma ApplyUnscaled(u: Matrix3x3, m: Matrix3x3, n: real, v: Vector3)
    requires n != 0.0 && m == ScaleMatrix(u, 1.0 / n)
    ensures Scale(Apply(m, v), n) == Apply(u, v)
  {
    hide Apply, ScaleMatrix;
    var k := 1.0 / n;
    assert k * n == 1.0;
    ApplyScaled(u, k, v);
    ScaleBack(Apply(u, v), k, n);
  }

  lemma ApplyScaled(u: Matrix3x3, k: real, v: Vector3)
    ensures Apply(ScaleMatrix(u, k), v) == Scale(Apply(u, v), k)
  {
    hide Apply, Scale, Times, ScaleMatrix;
    var m, w := ScaleMatrix(u, k), Apply(u, v);
    var x, y := Apply(m, v), Scale(w, k);
    ApplyInTimes(m, v);
    ApplyInTimes(u, v);
    ScaleInTimes(w, k);
    ScaleMatrixInTimes(u, k);
    RowScaled(u.D00, u.D01, u.D02, k, v.X, v.Y, v.Z);
    RowScaled(u.D10, u.D11, u.D12, k, v.X, v.Y, v.Z);
    RowScaled(u.D20, u.D21, u.D22, k, v.X, v.Y, v.Z);
    EqualCoordinates(x, y);
  }

  lemma ApplyInTimes(m: Matrix3x3, v: Vector3)
    ensures Apply(m, v).X == Times(m.D00, v.X) + Times(m.D01, v.Y) + Times(m.D02, v.Z)
    ensures Apply(m, v).Y == Times(m.D10, v.X) + Times(m.D11, v.Y) + Times(m.D12, v.Z)
    ensures Apply(m, v).Z == Times(m.D20, v.X) + Times(m.D21, v.Y) + Times(m.D22, v.Z)
  {
  }

  lemma RowScaled(a: real, b: real, c: real, k: real, x: real, y: real, z: real)
    ensures Times(Times(a, k), x) + Times(Times(b, k), y) + Times(Times(c, k), z)
         == Times(Times(a, x) + Times(b, y) + Times(c, z), k)
  {
  }

  lemma ScaleBack(v: Vector3, k: real, n: real)
    requires k * n == 1.0
    ensures Scale(Scale(v, k), n) == v
  {
    Rescale(v.X, k, n);
    Rescale(v.Y, k, n);
    Rescale(v.Z, k, n);
  }

  lemma Rescale(x: real, k: real, n: real)
    requires k * n == 1.0
    ensures (x * k) * n == x
  {
    assert x * (k * n) == x;
  }

  /** The matrix of every nonzero quaternion is a rotation matrix. */
  lemma FromQuaternionIsRotation(q: Quaternion)
    requires SqrNorm(q) != 0.0
    ensures IsRotation(FromQuaternion(q))
  {
    FromQuaternionKeepsTriads(q, FromQuaternion(q));
    KeepingTriadsMakesRotation(FromQuaternion(q));
  }

  ghost predicate KeepsTriads(m: Matrix3x3) {
    forall a, b, c {:trigger Apply(m, a), Apply(m, b), Apply(m, c)} ::
      RightHanded(a, b, c) ==> RightHanded(Apply(m, a), Apply(m, b), Apply(m, c))
  }

  lemma FromQuaternionKeepsTriads(q: Quaternion, m: Matrix3x3)
    requires SqrNorm(q) != 0.0 && m == FromQuaternion(q)
    ensures KeepsTriads(m)
  {
    forall a, b, c | RightHanded(a, b, c)
      ensures RightHanded(Apply(m, a), Apply(m, b), Apply(m, c))
    {
      FromQuaternionKeepsTriad(q, m, a, b, c, SqrNorm(q));
    }
  }

  lemma KeepingTriadsMakesRotation(m: Matrix3x3)
    requires KeepsTriads(m)
    ensures IsRotation(m)
  {
    BasisIsTriad();
    KeepsTriad(m, RIGHT, UP, FORWARD);
    ImagesMakeRotation(m);
  }

  lemma KeepsTriad(m: Matrix3x3, a: Vector3, b: Vector3, c: Vector3)
    requires KeepsTriads(m) && RightHanded(a, b, c)
    ensures RightHanded(Apply(m, a), Apply(m, b), Apply(m, c))
  {
  }

  lemma ImagesMakeRotation(m: Matrix3x3)
    requires RightHanded(Apply(m, RIGHT), Apply(m, UP), Apply(m, FORWARD))
    ensures IsRotation(m)
  {
    ColumnsMakeRotation(m, Apply(m, RIGHT), Apply(m, UP), Apply(m, FORWARD));
  }

  lemma ColumnsMakeRotation(m: Matrix3x3, x: Vector3, y: Vector3, z: Vector3)
    requires x == Apply(m, RIGHT) && y == Apply(m, UP) && z == Apply(m, FORWARD)
    requires RightHanded(x, y, z)
    ensures IsRotation(m)
  {
    var t := Transpose(m);
    ApplyToBasis(m);
    assert Row0(t) == x && Row1(t) == y && Row2(t) == z;
    RotationColumns(t);
    assert Transpose(t) == m;
  }

  lemma BasisIsTriad()
    ensures RightHanded(RIGHT, UP, FORWARD)
  {
    DotWithBasis(RIGHT);
    DotWithBasis(UP);
    DotIsSqrMagnitude(RIGHT);
    DotIsSqrMagnitude(UP);
    CrossWithRight(UP);
  }

  lemma CrossWithRight(v: Vector3)
    ensures Cross(RIGHT, v) == Vector3(0.0, -v.Z, v.Y)
  {
  }

  lemma FromQuaternionKeepsTriad(q: Quaternion, m: Matrix3x3, a: Vector3, b: Vector3, c: Vector3, n: real)
    requires n == SqrNorm(q) && n != 0.0 && m == FromQuaternion(q)
    requires RightHanded(a, b, c)
    ensures RightHanded(Apply(m, a), Apply(m, b), Apply(m, c))
  {
    var x, y, z := Rotate(q, a), Rotate(q, b), Rotate(q, c);
    FromQuaternionRotates(q, a, n);
    FromQuaternionRotates(q, b, n);
    FromQuaternionRotates(q, c, n);
    RotatedTriad(q, a, b, c, n);
    ScaledTriad(Apply(m, a), Apply(m, b), Apply(m, c), x, y, z, n);
  }

  lemma RotatedTriad(q: Quaternion, a: Vector3, b: Vector3, c: Vector3, n: real)
    requires n == SqrNorm(q)
    requires RightHanded(a, b, c)
    ensures SqrMagnitude(Rotate(q, a)) == n * n
    ensures SqrMagnitude(Rotate(q, b)) == n * n
    ensures Dot(Rotate(q, a), Rotate(q, b)) == 0.0
    ensures Cross(Rotate(q, a), Rotate(q, b)) == Scale(Rotate(q, c), n)
  {
    RotatedUnit(q, a, n);
    RotatedUnit(q, b, n);
    RotateDotCross(q, a, b, n, 0.0);
  }

  lemma RotatedUnit(q: Quaternion, a: Vector3, n: real)
    requires n == SqrNorm(q) && SqrMagnitude(a) == 1.0
    ensures SqrMagnitude(Rotate(q, a)) == n * n
  {
    var x := Rotate(q, a);
    DotIsSqrMagnitude(a);
    RotateDotCross(q, a, a, n, 1.0);
    DotIsSqrMagnitude(x);
  }

  lemma ScaledTriad(a: Vector3, b: Vector3, c: Vector3, x: Vector3, y: Vector3, z: Vector3, n: real)
    requires n != 0.0 && x == Scale(a, n) && y == Scale(b, n) && z == Scale(c, n)
    requires SqrMagnitude(x) == n * n && SqrMagnitude(y) == n * n && Dot(x, y) == 0.0
    requires Cross(x, y) == Scale(z, n)
    ensures RightHanded(a, b, c)
  {
    UnitFromScaled(a, n, x);
    UnitFromScaled(b, n, y);
    DotOfScaled(a, b, n);
    SquareNonNegative(n);
    ZeroProduct(n * n, Dot(a, b));
    CrossOfScaled(a, b, n);
    ScaleCancels(Scale(Cross(a, b), n), z, n);
    ScaleCancels(Cross(a, b), c, n);
  }

  lemma UnitFromScaled(a: Vector3, n: real, x: Vector3)
    requires n != 0.0 && x == Scale(a, n) && SqrMagnitude(x) == n * n
    ensures SqrMagnitude(a) == 1.0
  {
    var s := SqrMagnitude(a);
    SqrMagnitudeScale(a, n);
    assert (s - 1.0) * (n * n) == 0.0;
    ZeroProduct(s - 1.0, n * n);
    SquareNonNegative(n);
  }

  lemma DotOfScaled(a: Vector3, b: Vector3, n: real)
    ensures Dot(Scale(a, n), Scale(b, n)) == n * n * Dot(a, b)
  {
  }

  lemma CrossOfScaled(a: Vector3, b: Vector3, n: real)
    ensures Cross(Scale(a, n), Scale(b, n)) == Scale(Scale(Cross(a, b), n), n)
  {
    CrossScaleLeft(a, Scale(b, n), n);
    CrossScaleRight(a, b, n);
  }

  lemma CrossScaleLeft(a: Vector3, b: Vector3, n: real)
    ensures Cross(Scale(a, n), b) == Scale(Cross(a, b), n)
  {
    var x, c := Scale(a, n), Cross(a, b);
    var t, d := Scale(c, n), Cross(x, b);
    ScaleCoordinates(a, n, x);
    CrossCoordinates(a, b, c);
    ScaleCoordinates(c, n, t);
    CrossCoordinates(x, b, d);
    CrossScaleCoordinates(a, b, x, c, n);
    EqualCoordinates(d, t);
  }

  lemma CrossScaleRight(a: Vector3, b: Vector3, n: real)
    ensures Cross(a, Scale(b, n)) == Scale(Cross(a, b), n)
  {
    CrossAnticommutes(a, b);
    CrossAnticommutes(a, Scale(b, n));
    CrossScaleLeft(b, a, n);
  }

  lemma CrossAnticommutes(a: Vector3, b: Vector3)
    ensures Cross(a, b) == Vector3(-Cross(b, a).X, -Cross(b, a).Y, -Cross(b, a).Z)
  {
  }

  lemma CrossScaleCoordinates(a: Vector3, b: Vector3, x: Vector3, c: Vector3, n: real)
    requires x.X == a.X * n && x.Y == a.Y * n && x.Z == a.Z * n
    requires c.X == a.Y * b.Z - a.Z * b.Y
    requires c.Y == a.Z * b.X - a.X * b.Z
    requires c.Z == a.X * b.Y - a.Y * b.X
    ensures x.Y * b.Z - x.Z * b.Y == c.X * n
    ensures x.Z * b.X - x.X * b.Z == c.Y * n
    ensures x.X * b.Y - x.Y * b.X == c.Z * n
  {
  }

  // ---- Products of components

  /** Four times the products of components of a quaternion, by component names. */
  datatype Products = Products(XX: real, YY: real, ZZ: real, WW: real,
                               XY: real, XZ: real, YZ: real, XW: real, YW: real, ZW: real)

  /** The sums of entries `ToQuaternion` reads these products from. */
  function FourProducts(m: Matrix3x3): Products {
    Products(
      1.0 + m.D00 - m.D11 - m.D22, 1.0 + m.D11 - m.D00 - m.D22,
      1.0 + m.D22 - m.D00 - m.D11, 1.0 + m.D00 + m.D11 + m.D22,
      m.D01 + m.D10, m.D02 + m.D20, m.D12 + m.D21,
      m.D21 - m.D12, m.D02 - m.D20, m.D10 - m.D01)
  }

  ghost predicate HasProducts(q: Quaternion, k: Products) {
    && 4.0 * Times(q.X, q.X) == k.XX
    && 4.0 * Times(q.Y, q.Y) == k.YY
    && 4.0 * Times(q.Z, q.Z) == k.ZZ
    && 4.0 * Times(q.W, q.W) == k.WW
    && 4.0 * Times(q.X, q.Y) == k.XY
    && 4.0 * Times(q.X, q.Z) == k.XZ
    && 4.0 * Times(q.Y, q.Z) == k.YZ
    && 4.0 * Times(q.X, q.W) == k.XW
    && 4.0 * Times(q.Y, q.W) == k.YW
    && 4.0 * Times(q.Z, q.W) == k.ZW
  }

  ghost predicate Represents(q: Quaternion, m: Matrix3x3) {
    HasProducts(q, FourProducts(m))
  }

  /** The squared norm in named products. */
  lemma NormInTimes(q: Quaternion)
    ensures SqrNorm(q) == Times(q.X, q.X) + Times(q.Y, q.Y) + Times(q.Z, q.Z) + Times(q.W, q.W)
  {
  }

  lemma FromUnitQuaternion(q: Quaternion)
    requires SqrNorm(q) == 1.0
    ensures FromQuaternion(q) == Unscaled(q)
  {
    hide SqrNorm, Unscaled;
    assert 1.0 / SqrNorm(q) == 1.0;
    ScaleByOne(Unscaled(q));
  }

  lemma ScaleByOne(m: Matrix3x3)
    ensures ScaleMatrix(m, 1.0) == m
  {
  }

  /** A quaternion that represents a matrix is a unit quaternion of that matrix. */
  lemma RepresentsIsUnit(q: Quaternion, m: Matrix3x3)
    requires Represents(q, m)
    ensures SqrNorm(q) == 1.0
    ensures FromQuaternion(q) == m
  {
    hide Times, SqrNorm;
    NormInTimes(q);
    FromUnitQuaternion(q);
  }

  lemma UnitRepresents(q: Quaternion, m: Matrix3x3)
    requires SqrNorm(q) == 1.0 && m == FromQuaternion(q)
    ensures Represents(q, m)
  {
    hide Times, SqrNorm;
    NormInTimes(q);
    FromUnitQuaternion(q);
  }

  /** Two quaternions with the same products of components differ by a sign at most. */
  lemma RepresentsUpToSign(p: Quaternion, q: Quaternion, m: Matrix3x3)
    requires Represents(p, m) && Represents(q, m)
    ensures p == q || p == Quaternion(-q.X, -q.Y, -q.Z, -q.W)
  {
    hide Times, SqrNorm;
    RepresentsIsUnit(q, m);
    SqrNormZero(q);
    if q.W != 0.0 {
      SignsAgree(p.W, q.W, p.X, p.Y, p.Z, q.X, q.Y, q.Z);
    } else if q.X != 0.0 {
      SignsAgree(p.X, q.X, p.Y, p.Z, p.W, q.Y, q.Z, q.W);
    } else if q.Y != 0.0 {
      SignsAgree(p.Y, q.Y, p.X, p.Z, p.W, q.X, q.Z, q.W);
    } else {
      SignsAgree(p.Z, q.Z, p.X, p.Y, p.W, q.X, q.Y, q.W);
    }
  }

  predicate SameTimes(a: real, c: real, b: real, f: real) {
    Times(a, c) == Times(b, f) || Times(c, a) == Times(f, b)
  }

  lemma SignsAgree(a: real, b: real, c: real, d: real, e: real, f: real, g: real, h: real)
    requires b != 0.0 && Times(a, a) == Times(b, b)
    requires SameTimes(a, c, b, f) && SameTimes(a, d, b, g) && SameTimes(a, e, b, h)
    ensures (a == b && c == f && d == g && e == h) || (a == -b && c == -f && d == -g && e == -h)
  {
    ZeroProduct(a - b, a + b);
    SignAgrees(a, b, c, f);
    SignAgrees(a, b, d, g);
    SignAgrees(a, b, e, h);
  }

  lemma SignAgrees(a: real, b: real, c: real, f: real)
    requires b != 0.0 && SameTimes(a, c, b, f)
    ensures (a == b ==> c == f) && (a == -b ==> c == -f)
  {
    if a == b {
      CancelFactor(c, f, b);
    } else if a == -b {
      CancelFactor(c, -f, b);
    }
  }

  // ---- ToQuaternion

  /** Norms and inner products of the rows of a rotation matrix. */
  lemma RowsInTimes(m: Matrix3x3)
    requires IsRotation(m)
    ensures Times(m.D00, m.D00) + Times(m.D01, m.D01) + Times(m.D02, m.D02) == 1.0
    ensures Times(m.D10, m.D10) + Times(m.D11, m.D11) + Times(m.D12, m.D12) == 1.0
    ensures Times(m.D20, m.D20) + Times(m.D21, m.D21) + Times(m.D22, m.D22) == 1.0
    ensures Times(m.D00, m.D10) + Times(m.D01, m.D11) + Times(m.D02, m.D12) == 0.0
    ensures Times(m.D10, m.D20) + Times(m.D11, m.D21) + Times(m.D12, m.D22) == 0.0
    ensures Times(m.D20, m.D00) + Times(m.D21, m.D01) + Times(m.D22, m.D02) == 0.0
  {
    hide Times, Dot, Cross, SqrMagnitude;
    var a, b, c := Row0(m), Row1(m), Row2(m);
    TriadCycles(a, b, c);
    TriadCycles(b, c, a);
    DotInTimes(a, b);
    DotInTimes(b, c);
    DotInTimes(c, a);
  }

  lemma ColumnsInTimes(m: Matrix3x3)
    requires IsRotation(m)
    ensures Times(m.D00, m.D00) + Times(m.D10, m.D10) + Times(m.D20, m.D20) == 1.0
    ensures Times(m.D01, m.D01) + Times(m.D11, m.D11) + Times(m.D21, m.D21) == 1.0
    ensures Times(m.D02, m.D02) + Times(m.D12, m.D12) + Times(m.D22, m.D22) == 1.0
    ensures Times(m.D00, m.D01) + Times(m.D10, m.D11) + Times(m.D20, m.D21) == 0.0
    ensures Times(m.D01, m.D02) + Times(m.D11, m.D12) + Times(m.D21, m.D22) == 0.0
    ensures Times(m.D02, m.D00) + Times(m.D12, m.D10) + Times(m.D22, m.D20) == 0.0
  {
    hide Times, IsRotation;
    RotationColumns(m);
    RowsInTimes(Transpose(m));
  }

  lemma CofactorsInTimes(m: Matrix3x3)
    requires IsRotation(m)
    ensures m.D00 == Times(m.D11, m.D22) - Times(m.D12, m.D21)
    ensures m.D11 == Times(m.D22, m.D00) - Times(m.D20, m.D02)
    ensures m.D22 == Times(m.D00, m.D11) - Times(m.D01, m.D10)
    ensures m.D01 == Times(m.D12, m.D20) - Times(m.D10, m.D22)
    ensures m.D12 == Times(m.D20, m.D01) - Times(m.D21, m.D00)
    ensures m.D20 == Times(m.D01, m.D12) - Times(m.D02, m.D11)
    ensures m.D10 == Times(m.D02, m.D21) - Times(m.D01, m.D22)
    ensures m.D21 == Times(m.D10, m.D02) - Times(m.D12, m.D00)
    ensures m.D02 == Times(m.D21, m.D10) - Times(m.D20, m.D11)
  {
    hide Times, IsRotation;
    RotationCofactors(m);
    Commutes(m.D22, m.D01);
    Commutes(m.D21, m.D02);
    Commutes(m.D02, m.D10);
    Commutes(m.D00, m.D12);
    Commutes(m.D10, m.D21);
    Commutes(m.D11, m.D20);
  }

  // The products of components, read off a rotation matrix, form a matrix of rank one: its minors
  // vanish. The letters are the entries of the matrix, row by row.

  lemma PrincipalMinors(a: real, d: real, e: real, f: real, g: real, h: real, i: real)
    requires Times(d, d) + Times(e, e) + Times(f, f) == 1.0 && Times(g, g) + Times(h, h) + Times(i, i) == 1.0
    requires Times(a, a) + Times(d, d) + Times(g, g) == 1.0 && a == Times(e, i) - Times(f, h)
    ensures Times(h - f, h - f) == Times(1.0 + a + e + i, 1.0 + a - e - i)
    ensures Times(f + h, f + h) == Times(1.0 + e - a - i, 1.0 + i - a - e)
  {
    assert (h - f) * (h - f) == (1.0 + a + e + i) * (1.0 + a - e - i);
    assert (f + h) * (f + h) == (1.0 + e - a - i) * (1.0 + i - a - e);
  }

  lemma OtherMinors(a: real, b: real, c: real, d: real, e: real, f: real, g: real, h: real, i: real)
    requires Times(a, b) + Times(d, e) + Times(g, h) == 0.0 && Times(a, d) + Times(b, e) + Times(c, f) == 0.0
    requires b == Times(f, g) - Times(d, i) && d == Times(c, h) - Times(b, i)
    ensures Times(h - f, c - g) == Times(1.0 + a + e + i, b + d)
    ensures Times(c + g, f + h) == Times(1.0 + i - a - e, b + d)
    ensures Times(c + g, h - f) == Times(1.0 + a - e - i, d - b)
    ensures Times(f + h, c - g) == Times(1.0 + e - a - i, d - b)
  {
    assert (h - f) * (c - g) == (1.0 + a + e + i) * (b + d);
    assert (c + g) * (f + h) == (1.0 + i - a - e) * (b + d);
    assert (c + g) * (h - f) == (1.0 + a - e - i) * (d - b);
    assert (f + h) * (c - g) == (1.0 + e - a - i) * (d - b);
  }

  ghost predicate HasRankOne(k: Products) {
    && Times(k.XW, k.XW) == Times(k.WW, k.XX) && Times(k.YZ, k.YZ) == Times(k.YY, k.ZZ)
    && Times(k.YW, k.YW) == Times(k.WW, k.YY) && Times(k.XZ, k.XZ) == Times(k.XX, k.ZZ)
    && Times(k.ZW, k.ZW) == Times(k.WW, k.ZZ) && Times(k.XY, k.XY) == Times(k.XX, k.YY)
    && Times(k.XW, k.YW) == Times(k.WW, k.XY) && Times(k.XZ, k.YZ) == Times(k.ZZ, k.XY)
    && Times(k.XZ, k.XW) == Times(k.XX, k.ZW) && Times(k.YZ, k.YW) == Times(k.YY, k.ZW)
    && Times(k.YW, k.ZW) == Times(k.WW, k.YZ) && Times(k.XY, k.XZ) == Times(k.XX, k.YZ)
    && Times(k.XY, k.YW) == Times(k.YY, k.XW) && Times(k.XZ, k.ZW) == Times(k.ZZ, k.XW)
    && Times(k.XW, k.ZW) == Times(k.WW, k.XZ) && Times(k.XY, k.YZ) == Times(k.YY, k.XZ)
    && Times(k.YZ, k.ZW) == Times(k.ZZ, k.YW) && Times(k.XY, k.XW) == Times(k.XX, k.YW)
  }

  lemma RotationPrincipalMinors(m: Matrix3x3)
    requires IsRotation(m)
    ensures var k := FourProducts(m);
            && Times(k.XW, k.XW) == Times(k.WW, k.XX) && Times(k.YZ, k.YZ) == Times(k.YY, k.ZZ)
            && Times(k.YW, k.YW) == Times(k.WW, k.YY) && Times(k.XZ, k.XZ) == Times(k.ZZ, k.XX)
            && Times(k.ZW, k.ZW) == Times(k.WW, k.ZZ) && Times(k.XY, k.XY) == Times(k.XX, k.YY)
  {
    hide Times, IsRotation;
    RowsInTimes(m);
    ColumnsInTimes(m);
    CofactorsInTimes(m);
    PrincipalMinors(m.D00, m.D10, m.D11, m.D12, m.D20, m.D21, m.D22);
    PrincipalMinors(m.D11, m.D21, m.D22, m.D20, m.D01, m.D02, m.D00);
    PrincipalMinors(m.D22, m.D02, m.D00, m.D01, m.D12, m.D10, m.D11);
  }

  lemma RotationOtherMinors(m: Matrix3x3)
    requires IsRotation(m)
    ensures var k := FourProducts(m);
            && Times(k.XW, k.YW) == Times(k.WW, k.XY) && Times(k.XZ, k.YZ) == Times(k.ZZ, k.XY)
            && Times(k.XZ, k.XW) == Times(k.XX, k.ZW) && Times(k.YZ, k.YW) == Times(k.YY, k.ZW)
            && Times(k.YW, k.ZW) == Times(k.WW, k.YZ) && Times(k.XY, k.XZ) == Times(k.XX, k.YZ)
            && Times(k.XY, k.YW) == Times(k.YY, k.XW) && Times(k.XZ, k.ZW) == Times(k.ZZ, k.XW)
            && Times(k.ZW, k.XW) == Times(k.WW, k.XZ) && Times(k.YZ, k.XY) == Times(k.YY, k.XZ)
            && Times(k.YZ, k.ZW) == Times(k.ZZ, k.YW) && Times(k.XY, k.XW) == Times(k.XX, k.YW)
  {
    hide Times, IsRotation;
    RowsInTimes(m);
    ColumnsInTimes(m);
    CofactorsInTimes(m);
    OtherMinors(m.D00, m.D01, m.D02, m.D10, m.D11, m.D12, m.D20, m.D21, m.D22);
    OtherMinors(m.D11, m.D12, m.D10, m.D21, m.D22, m.D20, m.D01, m.D02, m.D00);
    OtherMinors(m.D22, m.D20, m.D21, m.D02, m.D00, m.D01, m.D12, m.D10, m.D11);
  }

  lemma RotationHasRankOne(m: Matrix3x3, k: Products)
    requires IsRotation(m) && k == FourProducts(m)
    ensures HasRankOne(k)
  {
    hide Times, IsRotation, FourProducts;
    RotationPrincipalMinors(m);
    RotationOtherMinors(m);
    Commutes(k.XW, k.ZW);
    Commutes(k.XY, k.YZ);
    Commutes(k.XX, k.ZZ);
  }

  /** Components of which one is a quarter of `s` and the others are entries divided by `s`. */
  lemma ComponentProducts(s: real, p: real, a: real, b: real, c: real, x: real, y: real)
    requires p > 0.0 && Times(s, s) == 4.0 * p
    requires Times(x, s) == a && Times(y, s) == b && Times(a, b) == Times(p, c)
    ensures 4.0 * Times(x, y) == c && 4.0 * Times(y, x) == c
  {
    FourFactors(x, y, s);
    var t := x * y;
    assert t * (4.0 * p) == a * b == p * c;
    CancelFactor(4.0 * t, c, p);
  }

  lemma FourFactors(x: real, y: real, s: real)
    ensures (x * y) * (s * s) == (x * s) * (y * s)
  {
  }

  lemma PivotProducts(s: real, p: real, a: real, w: real, x: real)
    requires Times(s, s) == 4.0 * p && w == 0.25 * s && Times(x, s) == a
    ensures 4.0 * Times(w, w) == p
    ensures 4.0 * Times(w, x) == a && 4.0 * Times(x, w) == a
  {
    assert w * w == 0.0625 * (s * s);
    assert w * x == 0.25 * (s * x);
  }

  /** One component `w` found as a root gives the products of all: `ww`, `wx`, .. are those with `w`. */
  lemma ComponentsByPivot(s: real, w: real, x: real, y: real, z: real, ww: real, wx: real, wy: real, wz: real,
                          xx: real, yy: real, zz: real, xy: real, xz: real, yz: real)
    requires ww > 0.0 && Times(s, s) == 4.0 * ww && w == 0.25 * s
    requires Times(x, s) == wx && Times(y, s) == wy && Times(z, s) == wz
    requires Times(wx, wx) == Times(ww, xx) && Times(wy, wy) == Times(ww, yy) && Times(wz, wz) == Times(ww, zz)
    requires Times(wx, wy) == Times(ww, xy) && Times(wx, wz) == Times(ww, xz) && Times(wy, wz) == Times(ww, yz)
    ensures 4.0 * Times(w, w) == ww && 4.0 * Times(x, x) == xx && 4.0 * Times(y, y) == yy && 4.0 * Times(z, z) == zz
    ensures 4.0 * Times(w, x) == 4.0 * Times(x, w) == wx
    ensures 4.0 * Times(w, y) == 4.0 * Times(y, w) == wy
    ensures 4.0 * Times(w, z) == 4.0 * Times(z, w) == wz
    ensures 4.0 * Times(x, y) == xy && 4.0 * Times(x, z) == xz && 4.0 * Times(y, z) == yz
  {
    hide Times;
    PivotProducts(s, ww, wx, w, x);
    PivotProducts(s, ww, wy, w, y);
    PivotProducts(s, ww, wz, w, z);
    ComponentProducts(s, ww, wx, wx, xx, x, x);
    ComponentProducts(s, ww, wy, wy, yy, y, y);
    ComponentProducts(s, ww, wz, wz, zz, z, z);
    ComponentProducts(s, ww, wx, wy, xy, x, y);
    ComponentProducts(s, ww, wx, wz, xz, x, z);
    ComponentProducts(s, ww, wy, wz, yz, y, z);
  }

  // ---- Each branch of ToQuaternion

  lemma TwiceTheRoot(lib: Libm, p: real, s: real)
    requires lib.Sound() && p > 0.0 && s == 2.0 * lib.Sqrt(p)
    ensures s > 0.0 && Times(s, s) == 4.0 * p
  {
    SqrtSign(lib, p);
  }

  lemma Quotient(x: real, s: real, y: real)
    requires s > 0.0 && y == x / s
    ensures Times(y, s) == x
  {
  }

  /** The first branch multiplies by 0.5 / r where the others divide by 2 r. */
  lemma PositiveTraceProducts(a: real, b: real, c: real, r: real, s: real, q: Quaternion)
    requires r > 0.0 && s == 2.0 * r && q == PositiveTrace(a, b, c, r)
    ensures q.W == 0.25 * s
    ensures Times(q.X, s) == a && Times(q.Y, s) == b && Times(q.Z, s) == c
  {
    var h := 0.5 / r;
    assert h * r == 0.5;
    TimesReciprocal(a, h, s, q.X);
    TimesReciprocal(b, h, s, q.Y);
    TimesReciprocal(c, h, s, q.Z);
    QuarterOverReciprocal(h, s, q.W);
  }

  lemma TimesReciprocal(a: real, h: real, s: real, y: real)
    requires h * s == 1.0 && y == a * h
    ensures Times(y, s) == a
  {
    assert y * s == a * (h * s);
  }

  lemma QuarterOverReciprocal(h: real, s: real, w: real)
    requires h != 0.0 && h * s == 1.0 && w == 0.25 / h
    ensures w == 0.25 * s
  {
    assert w * h == 0.25;
    assert (w - 0.25 * s) * h == 0.0;
    ZeroProduct(w - 0.25 * s, h);
  }

  lemma BranchW(lib: Libm, m: Matrix3x3, q: Quaternion, k: Products, s: real)
    requires lib.Sound() && Trace(m) > 0.0
    requires q == ToQuaternion(lib, m) && k == FourProducts(m) && s == 2.0 * lib.Sqrt(k.WW)
    ensures k.WW > 0.0 && Times(s, s) == 4.0 * k.WW && q.W == 0.25 * s
    ensures Times(q.X, s) == k.XW && Times(q.Y, s) == k.YW && Times(q.Z, s) == k.ZW
  {
    assert Trace(m) + 1.0 == k.WW;
    TwiceTheRoot(lib, k.WW, s);
    PositiveTraceProducts(k.XW, k.YW, k.ZW, lib.Sqrt(k.WW), s, q);
  }

  lemma BranchX(lib: Libm, m: Matrix3x3, q: Quaternion, k: Products, s: real)
    requires lib.Sound() && Trace(m) <= 0.0 && m.D00 > m.D11 && m.D00 > m.D22
    requires q == ToQuaternion(lib, m) && k == FourProducts(m) && s == 2.0 * lib.Sqrt(k.XX)
    ensures k.XX > 0.0 && Times(s, s) == 4.0 * k.XX && q.X == 0.25 * s
    ensures Times(q.Y, s) == k.XY && Times(q.Z, s) == k.XZ && Times(q.W, s) == k.XW
  {
    RadicandAtLeastOne(m);
    TwiceTheRoot(lib, k.XX, s);
    Quotient(k.XY, s, q.Y);
    Quotient(k.XZ, s, q.Z);
    Quotient(k.XW, s, q.W);
  }

  lemma BranchY(lib: Libm, m: Matrix3x3, q: Quaternion, k: Products, s: real)
    requires lib.Sound() && Trace(m) <= 0.0 && !(m.D00 > m.D11 && m.D00 > m.D22) && m.D11 > m.D22
    requires q == ToQuaternion(lib, m) && k == FourProducts(m) && s == 2.0 * lib.Sqrt(k.YY)
    ensures k.YY > 0.0 && Times(s, s) == 4.0 * k.YY && q.Y == 0.25 * s
    ensures Times(q.X, s) == k.XY && Times(q.Z, s) == k.YZ && Times(q.W, s) == k.YW
  {
    RadicandAtLeastOne(m);
    TwiceTheRoot(lib, k.YY, s);
    Quotient(k.XY, s, q.X);
    Quotient(k.YZ, s, q.Z);
    Quotient(k.YW, s, q.W);
  }

  lemma BranchZ(lib: Libm, m: Matrix3x3, q: Quaternion, k: Products, s: real)
    requires lib.Sound() && Trace(m) <= 0.0 && !(m.D00 > m.D11 && m.D00 > m.D22) && m.D11 <= m.D22
    requires q == ToQuaternion(lib, m) && k == FourProducts(m) && s == 2.0 * lib.Sqrt(k.ZZ)
    ensures k.ZZ > 0.0 && Times(s, s) == 4.0 * k.ZZ && q.Z == 0.25 * s
    ensures Times(q.X, s) == k.XZ && Times(q.Y, s) == k.YZ && Times(q.W, s) == k.ZW
  {
    RadicandAtLeastOne(m);
    TwiceTheRoot(lib, k.ZZ, s);
    Quotient(k.XZ, s, q.X);
    Quotient(k.YZ, s, q.Y);
    Quotient(k.ZW, s, q.W);
  }

  /** `ToQuaternion` recovers a quaternion of every rotation matrix, whichever branch it takes. */
  lemma ToQuaternionRepresents(lib: Libm, m: Matrix3x3)
    requires lib.Sound() && IsRotation(m)
    ensures Represents(ToQuaternion(lib, m), m)
  {
    hide Times, IsRotation, ToQuaternion, FourProducts;
    var q, k := ToQuaternion(lib, m), FourProducts(m);
    RotationHasRankOne(m, k);
    if Trace(m) > 0.0 {
      var s := 2.0 * lib.Sqrt(k.WW);
      BranchW(lib, m, q, k, s);
      ComponentsByPivot(s, q.W, q.X, q.Y, q.Z, k.WW, k.XW, k.YW, k.ZW, k.XX, k.YY, k.ZZ, k.XY, k.XZ, k.YZ);
    } else if m.D00 > m.D11 && m.D00 > m.D22 {
      var s := 2.0 * lib.Sqrt(k.XX);
      BranchX(lib, m, q, k, s);
      Commutes(k.WW, k.XX);
      Commutes(k.XZ, k.XW);
      ComponentsByPivot(s, q.X, q.Y, q.Z, q.W, k.XX, k.XY, k.XZ, k.XW, k.YY, k.ZZ, k.WW, k.YZ, k.YW, k.ZW);
    } else if m.D11 > m.D22 {
      var s := 2.0 * lib.Sqrt(k.YY);
      BranchY(lib, m, q, k, s);
      Commutes(k.XX, k.YY);
      Commutes(k.WW, k.YY);
      ComponentsByPivot(s, q.Y, q.X, q.Z, q.W, k.YY, k.XY, k.YZ, k.YW, k.XX, k.ZZ, k.WW, k.XZ, k.XW, k.ZW);
    } else {
      var s := 2.0 * lib.Sqrt(k.ZZ);
      BranchZ(lib, m, q, k, s);
      Commutes(k.XX, k.ZZ);
      Commutes(k.YY, k.ZZ);
      Commutes(k.WW, k.ZZ);
      ComponentsByPivot(s, q.Z, q.X, q.Y, q.W, k.ZZ, k.XZ, k.YZ, k.ZW, k.XX, k.YY, k.WW, k.XY, k.XW, k.YW);
    }
  }

  /** Matrix to quaternion and back: every rotation matrix gives a unit quaternion, and that
      quaternion's matrix is the one started from. */
  lemma MatrixRoundTrip(lib: Libm, m: Matrix3x3)
    requires lib.Sound() && IsRotation(m)
    ensures SqrNorm(ToQuaternion(lib, m)) == 1.0
    ensures FromQuaternion(ToQuaternion(lib, m)) == m
  {
    ToQuaternionRepresents(lib, m);
    RepresentsIsUnit(ToQuaternion(lib, m), m);
  }

  /** Quaternion to matrix and back: a unit quaternion is recovered up to its sign. */
  lemma QuaternionRoundTrip(lib: Libm, q: Quaternion)
    requires lib.Sound() && SqrNorm(q) == 1.0
    ensures var p := ToQuaternion(lib, FromQuaternion(q)); p == q || p == Quaternion(-q.X, -q.Y, -q.Z, -q.W)
  {
    var m := FromQuaternion(q);
    FromQuaternionIsRotation(q);
    ToQuaternionRepresents(lib, m);
    UnitRepresents(q, m);
    RepresentsUpToSign(ToQuaternion(lib, m), q, m);
  }

  /** The quaternion of a rotation matrix rotates every vector as the matrix does. */
  lemma ToQuaternionRotates(lib: Libm, m: Matrix3x3, v: Vector3)
    requires lib.Sound() && IsRotation(m)
    ensures Rotate(ToQuaternion(lib, m), v) == Apply(m, v)
  {
    var q := ToQuaternion(lib, m);
    MatrixRoundTrip(lib, m);
    FromQuaternionRotates(q, v, 1.0);
  }
}
