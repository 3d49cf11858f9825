/** 3x3 matrices and their conversion to and from quaternions (Matrix3x3.hpp). */
module Matrices {
  import opened Libm
  import opened Vectors

  datatype Matrix3x3 = Matrix3x3(
    D00: real, D01: real, D02: real,
    D10: real, D11: real, D12: real,
    D20: real, D21: real, D22: real)

  const IDENTITY := Matrix3x3(1.0, 0.0, 0.0, 0.0, 1.0, 0.0, 0.0, 0.0, 1.0)

  function FromRows(row0: Vector3, row1: Vector3, row2: Vector3): Matrix3x3 {
    Matrix3x3(row0.X, row0.Y, row0.Z, row1.X, row1.Y, row1.Z, row2.X, row2.Y, row2.Z)
  }

  function Row0(m: Matrix3x3): Vector3 { Vector3(m.D00, m.D01, m.D02) }
  function Row1(m: Matrix3x3): Vector3 { Vector3(m.D10, m.D11, m.D12) }
  function Row2(m: Matrix3x3): Vector3 { Vector3(m.D20, m.D21, m.D22) }
  function Column0(m: Matrix3x3): Vector3 { Vector3(m.D00, m.D10, m.D20) }
  function Column1(m: Matrix3x3): Vector3 { Vector3(m.D01, m.D11, m.D21) }
  function Column2(m: Matrix3x3): Vector3 { Vector3(m.D02, m.D12, m.D22) }

  function Determinate(m: Matrix3x3): real {
    var v1 := m.D00 * (m.D22 * m.D11 - m.D21 * m.D12);
    var v2 := m.D10 * (m.D22 * m.D01 - m.D21 * m.D02);
    var v3 := m.D20 * (m.D12 * m.D01 - m.D11 * m.D02);
    v1 - v2 + v3
  }

  function ScaleMatrix(m: Matrix3x3, k: real): Matrix3x3 {
    Matrix3x3(m.D00 * k, m.D01 * k, m.D02 * k,
              m.D10 * k, m.D11 * k, m.D12 * k,
              m.D20 * k, m.D21 * k, m.D22 * k)
  }

  function Transpose(m: Matrix3x3): Matrix3x3 {
    Matrix3x3(m.D00, m.D10, m.D20, m.D01, m.D11, m.D21, m.D02, m.D12, m.D22)
  }

  function Product(a: Matrix3x3, b: Matrix3x3): Matrix3x3 {
    Matrix3x3(
      a.D00 * b.D00 + a.D01 * b.D10 + a.D02 * b.D20,
      a.D00 * b.D01 + a.D01 * b.D11 + a.D02 * b.D21,
      a.D00 * b.D02 + a.D01 * b.D12 + a.D02 * b.D22,
      a.D10 * b.D00 + a.D11 * b.D10 + a.D12 * b.D20,
      a.D10 * b.D01 + a.D11 * b.D11 + a.D12 * b.D21,
      a.D10 * b.D02 + a.D11 * b.D12 + a.D12 * b.D22,
      a.D20 * b.D00 + a.D21 * b.D10 + a.D22 * b.D20,
      a.D20 * b.D01 + a.D21 * b.D11 + a.D22 * b.D21,
      a.D20 * b.D02 + a.D21 * b.D12 + a.D22 * b.D22)
  }

  function Apply(m: Matrix3x3, v: Vector3): Vector3 {
    Vector3(
      m.D00 * v.X + m.D01 * v.Y + m.D02 * v.Z,
      m.D10 * v.X + m.D11 * v.Y + m.D12 * v.Z,
      m.D20 * v.X + m.D21 * v.Y + m.D22 * v.Z)
  }

  // ---- Rows and columns

  lemma ApplyByRows(m: Matrix3x3, v: Vector3)
    ensures Apply(m, v) == Vector3(Dot(Row0(m), v), Dot(Row1(m), v), Dot(Row2(m), v))
  {
  }

  lemma ApplyToBasis(m: Matrix3x3)
    ensures Apply(m, RIGHT) == Column0(m)
    ensures Apply(m, UP) == Column1(m)
    ensures Apply(m, FORWARD) == Column2(m)
  {
  }

  /** The transpose is the adjoint for the dot product. */
  lemma ApplyAdjoint(m: Matrix3x3, u: Vector3, v: Vector3)
    ensures Dot(Apply(m, u), v) == Dot(u, Apply(Transpose(m), v))
  {
  }

  lemma Row0OfProduct(a: Matrix3x3, b: Matrix3x3)
    ensures Row0(Product(a, b)) == Apply(Transpose(b), Row0(a))
  {
  }

  lemma Row1OfProduct(a: Matrix3x3, b: Matrix3x3)
    ensures Row1(Product(a, b)) == Apply(Transpose(b), Row1(a))
  {
  }

  lemma Row2OfProduct(a: Matrix3x3, b: Matrix3x3)
    ensures Row2(Product(a, b)) == Apply(Transpose(b), Row2(a))
  {
  }

  lemma ScaleMatrixInTimes(u: Matrix3x3, k: real)
    ensures ScaleMatrix(u, k)
         == Matrix3x3(Times(u.D00, k), Times(u.D01, k), Times(u.D02, k), Times(u.D10, k), Times(u.D11, k),
                      Times(u.D12, k), Times(u.D20, k), Times(u.D21, k), Times(u.D22, k))
  {
  }

  lemma RowsOfProduct(a: Matrix3x3, b: Matrix3x3)
    ensures Row0(Product(a, b)) == Apply(Transpose(b), Row0(a))
    ensures Row1(Product(a, b)) == Apply(Transpose(b), Row1(a))
    ensures Row2(Product(a, b)) == Apply(Transpose(b), Row2(a))
  {
    Row0OfProduct(a, b);
    Row1OfProduct(a, b);
    Row2OfProduct(a, b);
  }

  lemma ApplyProduct(a: Matrix3x3, b: Matrix3x3, v: Vector3)
    ensures Apply(Product(a, b), v) == Apply(a, Apply(b, v))
  {
    RowsOfProduct(a, b);
    ApplyByRows(Product(a, b), v);
    ApplyByRows(a, Apply(b, v));
    ApplyAdjoint(Transpose(b), Row0(a), v);
    ApplyAdjoint(Transpose(b), Row1(a), v);
    ApplyAdjoint(Transpose(b), Row2(a), v);
  }

  lemma ApplyCoordinates(m: Matrix3x3, v: Vector3, w: Vector3)
    requires w == Apply(m, v)
    ensures w.X == m.D00 * v.X + m.D01 * v.Y + m.D02 * v.Z
    ensures w.Y == m.D10 * v.X + m.D11 * v.Y + m.D12 * v.Z
    ensures w.Z == m.D20 * v.X + m.D21 * v.Y + m.D22 * v.Z
  {
  }

  lemma ApplyLinear(m: Matrix3x3, u: Vector3, k: real)
    ensures Apply(m, Scale(u, k)) == Scale(Apply(m, u), k)
  {
    var s, w := Scale(u, k), Apply(m, u);
    var x, y := Apply(m, s), Scale(w, k);
    ScaleCoordinates(u, k, s);
    ApplyCoordinates(m, u, w);
    ApplyCoordinates(m, s, x);
    ScaleCoordinates(w, k, y);
    LinearCoordinates(m, u, k, s, w);
  }

  lemma LinearCoordinates(m: Matrix3x3, u: Vector3, k: real, s: Vector3, w: Vector3)
    requires s.X == u.X * k
    requires s.Y == u.Y * k
    requires s.Z == u.Z * k
    requires w.X == m.D00 * u.X + m.D01 * u.Y + m.D02 * u.Z
    requires w.Y == m.D10 * u.X + m.D11 * u.Y + m.D12 * u.Z
    requires w.Z == m.D20 * u.X + m.D21 * u.Y + m.D22 * u.Z
    ensures w.X * k == m.D00 * s.X + m.D01 * s.Y + m.D02 * s.Z
    ensures w.Y * k == m.D10 * s.X + m.D11 * s.Y + m.D12 * s.Z
    ensures w.Z * k == m.D20 * s.X + m.D21 * s.Y + m.D22 * s.Z
  {
  }

  /** A matrix is determined by what it does to vectors. */
  lemma EqualByApply(a: Matrix3x3, b: Matrix3x3)
    requires forall v :: Apply(a, v) == Apply(b, v)
    ensures a == b
  {
    ApplyToBasis(a);
    ApplyToBasis(b);
  }

  // ---- Rotation matrices

  /** A rotation matrix: orthonormal rows that form a right-handed triad. */
  ghost predicate IsRotation(m: Matrix3x3) {
    RightHanded(Row0(m), Row1(m), Row2(m))
  }

  lemma DeterminateByRows(m: Matrix3x3)
    ensures Determinate(m) == Dot(Row2(m), Cross(Row0(m), Row1(m)))
  {
  }

  lemma DeterminateByColumns(m: Matrix3x3)
    ensures Determinate(m) == Dot(Column2(m), Cross(Column0(m), Column1(m)))
  {
  }

  lemma EqualByRows(a: Matrix3x3, b: Matrix3x3)
    requires Row0(a) == Row0(b) && Row1(a) == Row1(b) && Row2(a) == Row2(b)
    ensures a == b
  {
  }

  lemma ProductWithTranspose(m: Matrix3x3)
    ensures var p := Product(m, Transpose(m)); var a, b, c := Row0(m), Row1(m), Row2(m);
            && Row0(p) == Vector3(Dot(a, a), Dot(b, a), Dot(c, a))
            && Row1(p) == Vector3(Dot(a, b), Dot(b, b), Dot(c, b))
            && Row2(p) == Vector3(Dot(a, c), Dot(b, c), Dot(c, c))
  {
    RowsOfProduct(m, Transpose(m));
    assert Transpose(Transpose(m)) == m;
    ApplyByRows(m, Row0(m));
    ApplyByRows(m, Row1(m));
    ApplyByRows(m, Row2(m));
  }

  /** Two unit vectors with dot product 1 are equal. */
  lemma UnitVectorsAligned(a: Vector3, b: Vector3)
    requires SqrMagnitude(a) == 1.0 && SqrMagnitude(b) == 1.0 && Dot(a, b) == 1.0
    ensures a == b
  {
    var d := Sub(a, b);
    DifferenceMagnitude(a, b);
    SqrMagnitudeZero(d);
    NoDifference(a, b, d);
  }

  lemma NoDifference(a: Vector3, b: Vector3, d: Vector3)
    requires d == Sub(a, b) && d == ZERO
    ensures a == b
  {
  }

  lemma DifferenceMagnitude(a: Vector3, b: Vector3)
    ensures SqrMagnitude(Sub(a, b)) == SqrMagnitude(a) + SqrMagnitude(b) - 2.0 * Dot(a, b)
  {
  }

  /** The usual definition: orthonormal with determinant 1. */
  lemma RotationMeansOrthonormal(m: Matrix3x3)
    ensures IsRotation(m) <==> Product(m, Transpose(m)) == IDENTITY && Determinate(m) == 1.0
  {
    var a, b, c := Row0(m), Row1(m), Row2(m);
    ProductWithTranspose(m);
    DeterminateByRows(m);
    DotIsSqrMagnitude(a);
    DotIsSqrMagnitude(b);
    DotIsSqrMagnitude(c);
    if IsRotation(m) {
      TriadCycles(a, b, c);
      TriadCycles(b, c, a);
      DotSymmetric(a, b);
      DotSymmetric(b, c);
      DotSymmetric(a, c);
      EqualByRows(Product(m, Transpose(m)), IDENTITY);
    } else if Product(m, Transpose(m)) == IDENTITY && Determinate(m) == 1.0 {
      DotSymmetric(a, b);
      TriadThirdIsUnit(a, b);
      UnitVectorsAligned(c, Cross(a, b));
    }
  }

  /** Every entry of a rotation matrix is its own cofactor. */
  lemma RotationCofactors(m: Matrix3x3)
    requires IsRotation(m)
    ensures m.D00 == Times(m.D11, m.D22) - Times(m.D12, m.D21)
    ensures m.D01 == Times(m.D12, m.D20) - Times(m.D10, m.D22)
    ensures m.D02 == Times(m.D10, m.D21) - Times(m.D11, m.D20)
    ensures m.D10 == Times(m.D21, m.D02) - Times(m.D22, m.D01)
    ensures m.D11 == Times(m.D22, m.D00) - Times(m.D20, m.D02)
    ensures m.D12 == Times(m.D20, m.D01) - Times(m.D21, m.D00)
    ensures m.D20 == Times(m.D01, m.D12) - Times(m.D02, m.D11)
    ensures m.D21 == Times(m.D02, m.D10) - Times(m.D00, m.D12)
    ensures m.D22 == Times(m.D00, m.D11) - Times(m.D01, m.D10)
  {
    hide Times, Cross, Dot, SqrMagnitude;
    TriadCycles(Row0(m), Row1(m), Row2(m));
    TriadCycles(Row1(m), Row2(m), Row0(m));
    CrossInTimes(Row1(m), Row2(m));
    CrossInTimes(Row2(m), Row0(m));
    CrossInTimes(Row0(m), Row1(m));
  }

  /** So its columns are the cross products of the other two. */
  lemma ColumnsByCofactors(m: Matrix3x3)
    requires IsRotation(m)
    ensures Column0(m) == Cross(Column1(m), Column2(m))
    ensures Column1(m) == Cross(Column2(m), Column0(m))
    ensures Column2(m) == Cross(Column0(m), Column1(m))
  {
    hide Times, Cross, IsRotation;
    RotationCofactors(m);
    CrossInTimes(Column1(m), Column2(m));
    CrossInTimes(Column2(m), Column0(m));
    CrossInTimes(Column0(m), Column1(m));
    Commutes(m.D12, m.D21);
    Commutes(m.D10, m.D22);
    Commutes(m.D11, m.D20);
    Commutes(m.D22, m.D01);
    Commutes(m.D20, m.D02);
    Commutes(m.D21, m.D00);
    Commutes(m.D02, m.D11);
    Commutes(m.D00, m.D12);
    Commutes(m.D01, m.D10);
  }

  /** Columns of a rotation matrix form a right-handed triad too. */
  lemma RotationColumns(m: Matrix3x3)
    requires IsRotation(m)
    ensures RightHanded(Column0(m), Column1(m), Column2(m))
    ensures IsRotation(Transpose(m))
  {
    var x, y, z := Column0(m), Column1(m), Column2(m);
    assert Determinate(m) == 1.0 by {
      RotationMeansOrthonormal(m);
    }
    ColumnsByCofactors(m);
    DeterminateByColumns(m);
    TriadFromTripleProduct(x, y, z);
  }

  lemma TriadFromTripleProduct(x: Vector3, y: Vector3, z: Vector3)
    requires x == Cross(y, z) && y == Cross(z, x) && z == Cross(x, y)
    requires Dot(z, Cross(x, y)) == 1.0
    ensures RightHanded(x, y, z)
  {
    ScalarTripleCycles(z, x, y);
    ScalarTripleCycles(x, y, z);
    CrossIsOrthogonal(z, x);
    DotSymmetric(x, y);
    DotIsSqrMagnitude(x);
    DotIsSqrMagnitude(y);
  }

  lemma TransposeOnColumns(m: Matrix3x3)
    requires IsRotation(m)
    ensures Apply(Transpose(m), Column0(m)) == RIGHT
    ensures Apply(Transpose(m), Column1(m)) == UP
    ensures Apply(Transpose(m), Column2(m)) == FORWARD
  {
    var x, y, z := Column0(m), Column1(m), Column2(m);
    RotationColumns(m);
    TriadCycles(x, y, z);
    TriadCycles(y, z, x);
    DotSymmetric(x, y);
    DotSymmetric(y, z);
    DotSymmetric(z, x);
    DotIsSqrMagnitude(x);
    DotIsSqrMagnitude(y);
    DotIsSqrMagnitude(z);
    ApplyByRows(Transpose(m), x);
    ApplyByRows(Transpose(m), y);
    ApplyByRows(Transpose(m), z);
  }

  lemma DotWithBasis(v: Vector3)
    ensures v == Vector3(Dot(RIGHT, v), Dot(UP, v), Dot(FORWARD, v))
  {
  }

  lemma TransposeUndoes(m: Matrix3x3, v: Vector3)
    requires IsRotation(m)
    ensures Apply(Transpose(m), Apply(m, v)) == v
  {
    var t := Transpose(m);
    assert Transpose(t) == m;
    TransposeOnColumns(m);
    ApplyByRows(t, Apply(m, v));
    ApplyAdjoint(t, Column0(m), v);
    ApplyAdjoint(t, Column1(m), v);
    ApplyAdjoint(t, Column2(m), v);
    DotWithBasis(v);
  }

  /** Rotation matrices keep dot products and lengths. */
  lemma RotationKeepsDot(m: Matrix3x3, u: Vector3, v: Vector3)
    requires IsRotation(m)
    ensures Dot(Apply(m, u), Apply(m, v)) == Dot(u, v)
  {
    ApplyAdjoint(m, u, Apply(m, v));
    TransposeUndoes(m, v);
  }

  /** Rotation matrices commute with the cross product. */
  lemma RotationKeepsCross(m: Matrix3x3, u: Vector3, v: Vector3)
    requires IsRotation(m)
    ensures Cross(Apply(m, u), Apply(m, v)) == Apply(m, Cross(u, v))
  {
    var a, b, c := Row0(m), Row1(m), Row2(m);
    TriadCycles(a, b, c);
    TriadCycles(b, c, a);
    ApplyByRows(m, u);
    ApplyByRows(m, v);
    ApplyByRows(m, Cross(u, v));
    BinetCauchy(b, c, u, v);
    BinetCauchy(c, a, u, v);
    BinetCauchy(a, b, u, v);
  }

  lemma RotationKeepsTriads(m: Matrix3x3, a: Vector3, b: Vector3, c: Vector3)
    requires IsRotation(m) && RightHanded(a, b, c)
    ensures RightHanded(Apply(m, a), Apply(m, b), Apply(m, c))
  {
    RotationKeepsDot(m, a, a);
    RotationKeepsDot(m, b, b);
    RotationKeepsDot(m, a, b);
    RotationKeepsCross(m, a, b);
  }

  /** A product of rotation matrices is a rotation matrix. */
  lemma RotationProduct(a: Matrix3x3, b: Matrix3x3)
    requires IsRotation(a) && IsRotation(b)
    ensures IsRotation(Product(a, b))
  {
    RowsOfProduct(a, b);
    RotationColumns(b);
    RotationKeepsTriads(Transpose(b), Row0(a), Row1(a), Row2(a));
  }
}
