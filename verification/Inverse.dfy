/** The inverse of a 3x3 matrix (Inverse in Matrix3x3.hpp). */
module MatrixInverses {
  import opened Libm
  import opened Vectors
  import opened Matrices

  /** The matrix of cofactors that `Inverse` divides by the determinant. */
  function Cofactors(m: Matrix3x3): Matrix3x3 {
    Matrix3x3(
      Times(m.D11, m.D22) - Times(m.D12, m.D21),
      Times(m.D21, m.D02) - Times(m.D22, m.D01),
      Times(m.D01, m.D12) - Times(m.D02, m.D11),
      Times(m.D12, m.D20) - Times(m.D10, m.D22),
      Times(m.D22, m.D00) - Times(m.D20, m.D02),
      Times(m.D02, m.D10) - Times(m.D00, m.D12),
      Times(m.D10, m.D21) - Times(m.D11, m.D20),
      Times(m.D20, m.D01) - Times(m.D21, m.D00),
      Times(m.D00, m.D11) - Times(m.D01, m.D10))
  }

  function Inverse(m: Matrix3x3): Matrix3x3
    requires Determinate(m) != 0.0
  {
    ScaleMatrix(Cofactors(m), 1.0 / Determinate(m))
  }

  // ---- Cofactors are cross products

  lemma CofactorColumns(m: Matrix3x3)
    ensures Column0(Cofactors(m)) == Cross(Row1(m), Row2(m))
    ensures Column1(Cofactors(m)) == Cross(Row2(m), Row0(m))
    ensures Column2(Cofactors(m)) == Cross(Row0(m), Row1(m))
  {
    hide Times, Cross;
    CrossInTimes(Row1(m), Row2(m));
    CrossInTimes(Row2(m), Row0(m));
    CrossInTimes(Row0(m), Row1(m));
  }

  lemma CofactorRows(m: Matrix3x3)
    ensures Row0(Cofactors(m)) == Cross(Column1(m), Column2(m))
    ensures Row1(Cofactors(m)) == Cross(Column2(m), Column0(m))
    ensures Row2(Cofactors(m)) == Cross(Column0(m), Column1(m))
  {
    hide Times, Cross;
    Commutes(m.D12, m.D21);
    Commutes(m.D22, m.D01);
    Commutes(m.D02, m.D11);
    Commutes(m.D10, m.D22);
    Commutes(m.D20, m.D02);
    Commutes(m.D00, m.D12);
    Commutes(m.D11, m.D20);
    Commutes(m.D21, m.D00);
    Commutes(m.D01, m.D10);
    CrossInTimes(Column1(m), Column2(m));
    CrossInTimes(Column2(m), Column0(m));
    CrossInTimes(Column0(m), Column1(m));
  }

  lemma ScaledColumns(c: Matrix3x3, k: real)
    ensures Column0(ScaleMatrix(c, k)) == Scale(Column0(c), k)
    ensures Column1(ScaleMatrix(c, k)) == Scale(Column1(c), k)
    ensures Column2(ScaleMatrix(c, k)) == Scale(Column2(c), k)
  {
    hide Times, Scale, ScaleMatrix;
    ScaleMatrixInTimes(c, k);
    ScaleInTimes(Column0(c), k);
    ScaleInTimes(Column1(c), k);
    ScaleInTimes(Column2(c), k);
  }

  lemma ScaledRows(c: Matrix3x3, k: real)
    ensures Row0(ScaleMatrix(c, k)) == Scale(Row0(c), k)
    ensures Row1(ScaleMatrix(c, k)) == Scale(Row1(c), k)
    ensures Row2(ScaleMatrix(c, k)) == Scale(Row2(c), k)
  {
    hide Times, Scale, ScaleMatrix;
    ScaleMatrixInTimes(c, k);
    ScaleInTimes(Row0(c), k);
    ScaleInTimes(Row1(c), k);
    ScaleInTimes(Row2(c), k);
  }

  // ---- Products by rows and columns

  lemma TransposedRows(b: Matrix3x3)
    ensures Row0(Transpose(b)) == Column0(b) && Row1(Transpose(b)) == Column1(b) && Row2(Transpose(b)) == Column2(b)
  {
  }

  lemma ProductByDots(a: Matrix3x3, b: Matrix3x3)
    ensures Row0(Product(a, b)) == Vector3(Dot(Column0(b), Row0(a)), Dot(Column1(b), Row0(a)), Dot(Column2(b), Row0(a)))
    ensures Row1(Product(a, b)) == Vector3(Dot(Column0(b), Row1(a)), Dot(Column1(b), Row1(a)), Dot(Column2(b), Row1(a)))
    ensures Row2(Product(a, b)) == Vector3(Dot(Column0(b), Row2(a)), Dot(Column1(b), Row2(a)), Dot(Column2(b), Row2(a)))
  {
    hide Product, Dot, Apply, Row0, Row1, Row2, Column0, Column1, Column2, Transpose;
    RowsOfProduct(a, b);
    TransposedRows(b);
    ApplyByRows(Transpose(b), Row0(a));
    ApplyByRows(Transpose(b), Row1(a));
    ApplyByRows(Transpose(b), Row2(a));
  }

  lemma IdentityRows(p: Matrix3x3)
    requires Row0(p) == RIGHT && Row1(p) == UP && Row2(p) == FORWARD
    ensures p == IDENTITY
  {
  }

  lemma DotWithScaled(u: Vector3, x: Vector3, k: real, t: real)
    requires Dot(u, x) == t
    ensures Dot(u, Scale(x, k)) == k * t && Dot(Scale(x, k), u) == k * t
  {
    DotLinear(x, x, u, k);
    DotSymmetric(x, u);
  }

  /** One vector against three cross products, divided by the triple product. */
  lemma AgainstCrosses(a: Vector3, b: Vector3, c: Vector3, k: real, d: real)
    requires d == Dot(a, Cross(b, c)) && k * d == 1.0
    ensures Dot(Scale(Cross(b, c), k), a) == 1.0 && Dot(a, Scale(Cross(b, c), k)) == 1.0
    ensures Dot(Scale(Cross(c, a), k), a) == 0.0 && Dot(a, Scale(Cross(c, a), k)) == 0.0
    ensures Dot(Scale(Cross(a, b), k), a) == 0.0 && Dot(a, Scale(Cross(a, b), k)) == 0.0
  {
    hide Dot, Cross, Scale;
    var x, y, z := Cross(b, c), Cross(c, a), Cross(a, b);
    CrossIsOrthogonal(a, b);
    CrossIsOrthogonal(c, a);
    DotWithScaled(a, x, k, d);
    DotWithScaled(a, y, k, 0.0);
    DotWithScaled(a, z, k, 0.0);
  }

  // ---- The inverse

  /** Inverting from the right. */
  lemma InverseOnTheRight(m: Matrix3x3)
    requires Determinate(m) != 0.0
    ensures Product(m, Inverse(m)) == IDENTITY
  {
    hide Dot, Cross, Scale, Product, Cofactors, ScaleMatrix, Determinate, Row0, Row1, Row2, Column0, Column1, Column2;
    var d, c := Determinate(m), Cofactors(m);
    var k := 1.0 / d;
    assert k * d == 1.0;
    var r0, r1, r2 := Row0(m), Row1(m), Row2(m);
    CofactorColumns(m);
    ScaledColumns(c, k);
    ProductByDots(m, Inverse(m));
    DeterminateByRows(m);
    ScalarTripleCycles(r0, r1, r2);
    ScalarTripleCycles(r1, r2, r0);
    AgainstCrosses(r0, r1, r2, k, d);
    AgainstCrosses(r1, r2, r0, k, d);
    AgainstCrosses(r2, r0, r1, k, d);
    IdentityRows(Product(m, Inverse(m)));
  }

  /** And from the left. */
  lemma InverseOnTheLeft(m: Matrix3x3)
    requires Determinate(m) != 0.0
    ensures Product(Inverse(m), m) == IDENTITY
  {
    hide Dot, Cross, Scale, Product, Cofactors, ScaleMatrix, Determinate, Row0, Row1, Row2, Column0, Column1, Column2;
    var d, c := Determinate(m), Cofactors(m);
    var k := 1.0 / d;
    assert k * d == 1.0;
    var c0, c1, c2 := Column0(m), Column1(m), Column2(m);
    CofactorRows(m);
    ScaledRows(c, k);
    ProductByDots(Inverse(m), m);
    DeterminateByColumns(m);
    ScalarTripleCycles(c0, c1, c2);
    ScalarTripleCycles(c1, c2, c0);
    AgainstCrosses(c0, c1, c2, k, d);
    AgainstCrosses(c1, c2, c0, k, d);
    AgainstCrosses(c2, c0, c1, k, d);
    IdentityRows(Product(Inverse(m), m));
  }

  /** The inverse takes back what the matrix did to a vector, and the other way round. */
  lemma InverseUndoes(m: Matrix3x3, v: Vector3)
    requires Determinate(m) != 0.0
    ensures Apply(Inverse(m), Apply(m, v)) == v
    ensures Apply(m, Apply(Inverse(m), v)) == v
  {
    hide Product, Inverse, Determinate;
    InverseOnTheLeft(m);
    InverseOnTheRight(m);
    ApplyProduct(Inverse(m), m, v);
    ApplyProduct(m, Inverse(m), v);
    assert Apply(IDENTITY, v) == v;
  }

  /** For a rotation the inverse is the transpose. */
  lemma RotationInverseIsTranspose(m: Matrix3x3)
    requires IsRotation(m)
    ensures Determinate(m) != 0.0
    ensures Inverse(m) == Transpose(m)
  {
    RotationMeansOrthonormal(m);
    var i, t := Inverse(m), Transpose(m);
    forall v ensures Apply(i, v) == Apply(t, v) {
      ApplyProduct(m, t, v);
      assert Apply(IDENTITY, v) == v;
      InverseUndoes(m, Apply(t, v));
    }
    EqualByApply(i, t);
  }
}
