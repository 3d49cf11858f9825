/** Quaternions: the operations of Quaternion.hpp used by the rotation code. */
module Quaternions {
  import opened Libm
  import opened Vectors

  datatype Quaternion = Quaternion(X: real, Y: real, Z: real, W: real)

  function Conjugate(q: Quaternion): Quaternion {
    Quaternion(-q.X, -q.Y, -q.Z, q.W)
  }

  /** The square of the norm. */
  function SqrNorm(q: Quaternion): real {
    q.X * q.X + q.Y * q.Y + q.Z * q.Z + q.W * q.W
  }

  function Norm(lib: Libm, q: Quaternion): real {
    lib.Sqrt(SqrNorm(q))
  }

  function ScaleBy(q: Quaternion, k: real): Quaternion {
    Quaternion(q.X * k, q.Y * k, q.Z * k, q.W * k)
  }

  function DivideBy(q: Quaternion, k: real): Quaternion
    requires k != 0.0
  {
    Quaternion(q.X / k, q.Y / k, q.Z / k, q.W / k)
  }

  /** The product written `lhs * rhs` in the source. */
  function Multiply(p: Quaternion, q: Quaternion): Quaternion {
    Quaternion(
      p.X * q.W + p.W * q.X + p.Y * q.Z - p.Z * q.Y,
      p.W * q.Y - p.X * q.Z + p.Y * q.W + p.Z * q.X,
      p.W * q.Z + p.X * q.Y - p.Y * q.X + p.Z * q.W,
      p.W * q.W - p.X * q.X - p.Y * q.Y - p.Z * q.Z)
  }

  /** The product of a quaternion and a vector: the vector rotated, and scaled by the
      square of the norm. */
  function Rotate(q: Quaternion, v: Vector3): Vector3 {
    var u := Vector3(q.X, q.Y, q.Z);
    var s := q.W;
    Add(Add(Scale(u, Dot(u, v) * 2.0), Scale(v, Times(s, s) - Dot(u, u))), Scale(Cross(u, v), 2.0 * s))
  }

  lemma SqrNormZero(q: Quaternion)
    ensures SqrNorm(q) >= 0.0
    ensures SqrNorm(q) == 0.0 <==> q == Quaternion(0.0, 0.0, 0.0, 0.0)
  {
    SquareNonNegative(q.X);
    SquareNonNegative(q.Y);
    SquareNonNegative(q.Z);
    SquareNonNegative(q.W);
  }

  lemma NormSquared(lib: Libm, q: Quaternion)
    requires lib.Sound()
    ensures Norm(lib, q) >= 0.0 && Norm(lib, q) * Norm(lib, q) == SqrNorm(q)
    ensures SqrNorm(q) != 0.0 ==> Norm(lib, q) > 0.0
  {
    hide SqrNorm;
    SqrNormZero(q);
    SqrtSign(lib, SqrNorm(q));
  }

  /** The inverse of a nonzero quaternion (a zero one is divided by zero). */
  function Inverse(lib: Libm, q: Quaternion): Quaternion
    requires lib.Sound() && SqrNorm(q) != 0.0
  {
    var n := Norm(lib, q);
    NormSquared(lib, q);
    DivideBy(Conjugate(q), n * n)
  }

  function Normalized(lib: Libm, q: Quaternion): Quaternion
    requires lib.Sound() && SqrNorm(q) != 0.0
  {
    NormSquared(lib, q);
    DivideBy(q, Norm(lib, q))
  }

  // ---- The algebra of products

  lemma EqualQuaternions(p: Quaternion, q: Quaternion)
    requires p.X == q.X
    requires p.Y == q.Y
    requires p.Z == q.Z
    requires p.W == q.W
    ensures p == q
  {
  }

  /** The coordinates of a product in named products. */
  lemma MultiplyInTimes(p: Quaternion, q: Quaternion)
    ensures Multiply(p, q).X == Times(p.X, q.W) + Times(p.W, q.X) + Times(p.Y, q.Z) - Times(p.Z, q.Y)
    ensures Multiply(p, q).Y == Times(p.W, q.Y) - Times(p.X, q.Z) + Times(p.Y, q.W) + Times(p.Z, q.X)
    ensures Multiply(p, q).Z == Times(p.W, q.Z) + Times(p.X, q.Y) - Times(p.Y, q.X) + Times(p.Z, q.W)
    ensures Multiply(p, q).W == Times(p.W, q.W) - Times(p.X, q.X) - Times(p.Y, q.Y) - Times(p.Z, q.Z)
  {
  }

  /** Associativity, coordinate by coordinate, of products `s` of `p` and `q` and `t` of `q` and `r`.
      By symmetry this is one equation for all three coordinates of the vector part. */
  lemma AssociativeVector(pX: real, pY: real, pZ: real, pW: real, qX: real, qY: real, qZ: real, qW: real,
      rX: real, rY: real, rZ: real, rW: real, sX: real, sY: real, sZ: real, sW: real,
      tX: real, tY: real, tZ: real, tW: real)
    requires sX == Times(pX, qW) + Times(pW, qX) + Times(pY, qZ) - Times(pZ, qY)
    requires sY == Times(pW, qY) - Times(pX, qZ) + Times(pY, qW) + Times(pZ, qX)
    requires sZ == Times(pW, qZ) + Times(pX, qY) - Times(pY, qX) + Times(pZ, qW)
    requires sW == Times(pW, qW) - Times(pX, qX) - Times(pY, qY) - Times(pZ, qZ)
    requires tX == Times(qX, rW) + Times(qW, rX) + Times(qY, rZ) - Times(qZ, rY)
    requires tY == Times(qW, rY) - Times(qX, rZ) + Times(qY, rW) + Times(qZ, rX)
    requires tZ == Times(qW, rZ) + Times(qX, rY) - Times(qY, rX) + Times(qZ, rW)
    requires tW == Times(qW, rW) - Times(qX, rX) - Times(qY, rY) - Times(qZ, rZ)
    ensures Times(sX, rW) + Times(sW, rX) + Times(sY, rZ) - Times(sZ, rY)
         == Times(pX, tW) + Times(pW, tX) + Times(pY, tZ) - Times(pZ, tY)
  {
  }

  lemma AssociativeScalar(pX: real, pY: real, pZ: real, pW: real, qX: real, qY: real, qZ: real, qW: real,
      rX: real, rY: real, rZ: real, rW: real, sX: real, sY: real, sZ: real, sW: real,
      tX: real, tY: real, tZ: real, tW: real)
    requires sX == Times(pX, qW) + Times(pW, qX) + Times(pY, qZ) - Times(pZ, qY)
    requires sY == Times(pW, qY) - Times(pX, qZ) + Times(pY, qW) + Times(pZ, qX)
    requires sZ == Times(pW, qZ) + Times(pX, qY) - Times(pY, qX) + Times(pZ, qW)
    requires sW == Times(pW, qW) - Times(pX, qX) - Times(pY, qY) - Times(pZ, qZ)
    requires tX == Times(qX, rW) + Times(qW, rX) + Times(qY, rZ) - Times(qZ, rY)
    requires tY == Times(qW, rY) - Times(qX, rZ) + Times(qY, rW) + Times(qZ, rX)
    requires tZ == Times(qW, rZ) + Times(qX, rY) - Times(qY, rX) + Times(qZ, rW)
    requires tW == Times(qW, rW) - Times(qX, rX) - Times(qY, rY) - Times(qZ, rZ)
    ensures Times(sW, rW) - Times(sX, rX) - Times(sY, rY) - Times(sZ, rZ)
         == Times(pW, tW) - Times(pX, tX) - Times(pY, tY) - Times(pZ, tZ)
  {
  }

  lemma MultiplyAssociative(p: Quaternion, q: Quaternion, r: Quaternion)
    ensures Multiply(Multiply(p, q), r) == Multiply(p, Multiply(q, r))
  {
    hide Multiply, Times;
    var s, t := Multiply(p, q), Multiply(q, r);
    var u, v := Multiply(s, r), Multiply(p, t);
    MultiplyInTimes(p, q);
    MultiplyInTimes(q, r);
    MultiplyInTimes(s, r);
    MultiplyInTimes(p, t);
    AssociativeVector(p.X, p.Y, p.Z, p.W, q.X, q.Y, q.Z, q.W,
                      r.X, r.Y, r.Z, r.W, s.X, s.Y, s.Z, s.W, t.X, t.Y, t.Z, t.W);
    AssociativeVector(p.Y, p.Z, p.X, p.W, q.Y, q.Z, q.X, q.W,
                      r.Y, r.Z, r.X, r.W, s.Y, s.Z, s.X, s.W, t.Y, t.Z, t.X, t.W);
    AssociativeVector(p.Z, p.X, p.Y, p.W, q.Z, q.X, q.Y, q.W,
                      r.Z, r.X, r.Y, r.W, s.Z, s.X, s.Y, s.W, t.Z, t.X, t.Y, t.W);
    AssociativeScalar(p.X, p.Y, p.Z, p.W, q.X, q.Y, q.Z, q.W,
                      r.X, r.Y, r.Z, r.W, s.X, s.Y, s.Z, s.W, t.X, t.Y, t.Z, t.W);
    EqualQuaternions(u, v);
  }

  lemma ConjugateMultiply(p: Quaternion, q: Quaternion)
    ensures Conjugate(Multiply(p, q)) == Multiply(Conjugate(q), Conjugate(p))
  {
    hide Multiply, Times;
    MultiplyInTimes(p, q);
    MultiplyInTimes(Conjugate(q), Conjugate(p));
    ConjugateCoordinates(p.X, p.Y, p.Z, p.W, q.X, q.Y, q.Z, q.W);
    EqualQuaternions(Conjugate(Multiply(p, q)), Multiply(Conjugate(q), Conjugate(p)));
  }

  lemma ConjugateCoordinates(pX: real, pY: real, pZ: real, pW: real, qX: real, qY: real, qZ: real, qW: real)
    ensures -(Times(pX, qW) + Times(pW, qX) + Times(pY, qZ) - Times(pZ, qY))
         == Times(-qX, pW) + Times(qW, -pX) + Times(-qY, -pZ) - Times(-qZ, -pY)
    ensures -(Times(pW, qY) - Times(pX, qZ) + Times(pY, qW) + Times(pZ, qX))
         == Times(qW, -pY) - Times(-qX, -pZ) + Times(-qY, pW) + Times(-qZ, -pX)
    ensures -(Times(pW, qZ) + Times(pX, qY) - Times(pY, qX) + Times(pZ, qW))
         == Times(qW, -pZ) + Times(-qX, -pY) - Times(-qY, -pX) + Times(-qZ, pW)
    ensures Times(pW, qW) - Times(pX, qX) - Times(pY, qY) - Times(pZ, qZ)
         == Times(qW, pW) - Times(-qX, -pX) - Times(-qY, -pY) - Times(-qZ, -pZ)
  {
  }

  /** The quaternion with vector part `v` and scalar part `s`. */
  function Compose(v: Vector3, s: real): Quaternion {
    Quaternion(v.X, v.Y, v.Z, s)
  }

  /** Scaling is multiplication by a real quaternion, on either side. */
  lemma ScaleIsProduct(q: Quaternion, k: real)
    ensures Multiply(Compose(ZERO, k), q) == ScaleBy(q, k)
    ensures Multiply(q, Compose(ZERO, k)) == ScaleBy(q, k)
  {
  }

  lemma MultiplyScale(p: Quaternion, q: Quaternion, k: real)
    ensures Multiply(ScaleBy(p, k), q) == ScaleBy(Multiply(p, q), k)
    ensures Multiply(p, ScaleBy(q, k)) == ScaleBy(Multiply(p, q), k)
  {
    var c := Compose(ZERO, k);
    ScaleIsProduct(p, k);
    ScaleIsProduct(q, k);
    ScaleIsProduct(Multiply(p, q), k);
    MultiplyAssociative(c, p, q);
    MultiplyAssociative(p, q, c);
  }

  lemma ConjugateUndoes(q: Quaternion)
    ensures Multiply(Conjugate(q), q) == Compose(ZERO, SqrNorm(q))
  {
  }

  lemma MultiplyOfVectors(u: Vector3, v: Vector3)
    ensures Multiply(Compose(u, 0.0), Compose(v, 0.0)) == Compose(Cross(u, v), -Dot(u, v))
  {
  }

  /** Rotation is conjugation: q (v, s) q* = (Rotate(q, v), |q|^2 s). */
  lemma Sandwich(q: Quaternion, v: Vector3, s: real)
    ensures Multiply(Multiply(q, Compose(v, s)), Conjugate(q)) == Compose(Rotate(q, v), SqrNorm(q) * s)
  {
    var w, a := Rotate(q, v), Multiply(q, Compose(v, s));
    var b := Multiply(a, Conjugate(q));
    SandwichLeft(q, v, s, a);
    SandwichRight(q, a, b);
    RotateCoordinates(q, v, w);
    SandwichCoordinates(q, v, s, a);
    SqrNormTimes(q, s);
    EqualQuaternions(b, Compose(w, SqrNorm(q) * s));
  }

  lemma SandwichNamed(q: Quaternion, v: Vector3, s: real, n: real)
    requires n == SqrNorm(q)
    ensures Multiply(Multiply(q, Compose(v, s)), Conjugate(q)) == Compose(Rotate(q, v), n * s)
  {
    Sandwich(q, v, s);
  }

  lemma SandwichLeft(q: Quaternion, v: Vector3, s: real, a: Quaternion)
    requires a == Multiply(q, Compose(v, s))
    ensures a.X == q.X * s + q.W * v.X + q.Y * v.Z - q.Z * v.Y
    ensures a.Y == q.W * v.Y - q.X * v.Z + q.Y * s + q.Z * v.X
    ensures a.Z == q.W * v.Z + q.X * v.Y - q.Y * v.X + q.Z * s
    ensures a.W == q.W * s - q.X * v.X - q.Y * v.Y - q.Z * v.Z
  {
  }

  lemma SandwichRight(q: Quaternion, a: Quaternion, b: Quaternion)
    requires b == Multiply(a, Conjugate(q))
    ensures b.X == a.X * q.W - a.W * q.X - a.Y * q.Z + a.Z * q.Y
    ensures b.Y == a.X * q.Z - a.W * q.Y + a.Y * q.W - a.Z * q.X
    ensures b.Z == a.Y * q.X - a.W * q.Z - a.X * q.Y + a.Z * q.W
    ensures b.W == a.W * q.W + a.X * q.X + a.Y * q.Y + a.Z * q.Z
  {
  }

  lemma RotateCoordinates(q: Quaternion, v: Vector3, w: Vector3)
    requires w == Rotate(q, v)
    ensures w.X == (q.X * q.X - q.Y * q.Y - q.Z * q.Z + q.W * q.W) * v.X
                   + 2.0 * (q.X * q.Y - q.Z * q.W) * v.Y + 2.0 * (q.X * q.Z + q.Y * q.W) * v.Z
    ensures w.Y == 2.0 * (q.X * q.Y + q.Z * q.W) * v.X
                   + (-q.X * q.X + q.Y * q.Y - q.Z * q.Z + q.W * q.W) * v.Y + 2.0 * (q.Y * q.Z - q.X * q.W) * v.Z
    ensures w.Z == 2.0 * (q.X * q.Z - q.Y * q.W) * v.X
                   + 2.0 * (q.Y * q.Z + q.X * q.W) * v.Y + (-q.X * q.X - q.Y * q.Y + q.Z * q.Z + q.W * q.W) * v.Z
  {
  }

  // Each coordinate in named products, for named entries of the matrix.

  lemma RotateX(q: Quaternion, v: Vector3, a: real, b: real, c: real)
    requires a == Times(q.X, q.X) - Times(q.Y, q.Y) - Times(q.Z, q.Z) + Times(q.W, q.W)
    requires b == 2.0 * (Times(q.X, q.Y) - Times(q.Z, q.W)) && c == 2.0 * (Times(q.X, q.Z) + Times(q.Y, q.W))
    ensures Rotate(q, v).X == Times(a, v.X) + Times(b, v.Y) + Times(c, v.Z)
  {
    hide Rotate;
    RotateCoordinates(q, v, Rotate(q, v));
  }

  lemma RotateY(q: Quaternion, v: Vector3, a: real, b: real, c: real)
    requires a == 2.0 * (Times(q.X, q.Y) + Times(q.Z, q.W))
    requires b == -Times(q.X, q.X) + Times(q.Y, q.Y) - Times(q.Z, q.Z) + Times(q.W, q.W)
              && c == 2.0 * (Times(q.Y, q.Z) - Times(q.X, q.W))
    ensures Rotate(q, v).Y == Times(a, v.X) + Times(b, v.Y) + Times(c, v.Z)
  {
    hide Rotate;
    RotateCoordinates(q, v, Rotate(q, v));
  }

  lemma RotateZ(q: Quaternion, v: Vector3, a: real, b: real, c: real)
    requires a == 2.0 * (Times(q.X, q.Z) - Times(q.Y, q.W)) && b == 2.0 * (Times(q.Y, q.Z) + Times(q.X, q.W))
    requires c == -Times(q.X, q.X) - Times(q.Y, q.Y) + Times(q.Z, q.Z) + Times(q.W, q.W)
    ensures Rotate(q, v).Z == Times(a, v.X) + Times(b, v.Y) + Times(c, v.Z)
  {
    hide Rotate;
    RotateCoordinates(q, v, Rotate(q, v));
  }

  lemma SandwichCoordinates(q: Quaternion, v: Vector3, s: real, a: Quaternion)
    requires a.X == q.X * s + q.W * v.X + q.Y * v.Z - q.Z * v.Y
    requires a.Y == q.W * v.Y - q.X * v.Z + q.Y * s + q.Z * v.X
    requires a.Z == q.W * v.Z + q.X * v.Y - q.Y * v.X + q.Z * s
    requires a.W == q.W * s - q.X * v.X - q.Y * v.Y - q.Z * v.Z
    ensures a.X * q.W - a.W * q.X - a.Y * q.Z + a.Z * q.Y
         == (q.X * q.X - q.Y * q.Y - q.Z * q.Z + q.W * q.W) * v.X
            + 2.0 * (q.X * q.Y - q.Z * q.W) * v.Y + 2.0 * (q.X * q.Z + q.Y * q.W) * v.Z
    ensures a.X * q.Z - a.W * q.Y + a.Y * q.W - a.Z * q.X
         == 2.0 * (q.X * q.Y + q.Z * q.W) * v.X
            + (-q.X * q.X + q.Y * q.Y - q.Z * q.Z + q.W * q.W) * v.Y + 2.0 * (q.Y * q.Z - q.X * q.W) * v.Z
    ensures a.Y * q.X - a.W * q.Z - a.X * q.Y + a.Z * q.W
         == 2.0 * (q.X * q.Z - q.Y * q.W) * v.X
            + 2.0 * (q.Y * q.Z + q.X * q.W) * v.Y + (-q.X * q.X - q.Y * q.Y + q.Z * q.Z + q.W * q.W) * v.Z
    ensures a.W * q.W + a.X * q.X + a.Y * q.Y + a.Z * q.Z
         == (q.X * q.X + q.Y * q.Y + q.Z * q.Z + q.W * q.W) * s
  {
  }

  lemma SqrNormTimes(q: Quaternion, s: real)
    ensures SqrNorm(q) * s == (q.X * q.X + q.Y * q.Y + q.Z * q.Z + q.W * q.W) * s
  {
  }

  // ---- What rotation by a quaternion keeps

  /** Rotating by a product is rotating twice. */
  lemma RotateByProduct(p: Quaternion, q: Quaternion, v: Vector3)
    ensures Rotate(Multiply(p, q), v) == Rotate(p, Rotate(q, v))
  {
    var x := Compose(v, 0.0);
    var p', q' := Conjugate(p), Conjugate(q);
    calc {
      Compose(Rotate(Multiply(p, q), v), 0.0);
      { Sandwich(Multiply(p, q), v, 0.0); ConjugateMultiply(p, q); }
      Multiply(Multiply(Multiply(p, q), x), Multiply(q', p'));
      { MultiplyAssociative(p, q, x); MultiplyAssociative(p, Multiply(q, x), Multiply(q', p')); }
      Multiply(p, Multiply(Multiply(q, x), Multiply(q', p')));
      { MultiplyAssociative(Multiply(q, x), q', p'); Sandwich(q, v, 0.0); }
      Multiply(p, Multiply(Compose(Rotate(q, v), 0.0), p'));
      { MultiplyAssociative(p, Compose(Rotate(q, v), 0.0), p'); Sandwich(p, Rotate(q, v), 0.0); }
      Compose(Rotate(p, Rotate(q, v)), 0.0);
    }
  }

  /** Rotation keeps the dot product up to |q|^4 and the cross product up to |q|^2: both are
      read off one product of quaternions. */
  lemma RotateDotCross(q: Quaternion, u: Vector3, v: Vector3, n: real, d: real)
    requires n == SqrNorm(q) && d == Dot(u, v)
    ensures Dot(Rotate(q, u), Rotate(q, v)) == n * n * d
    ensures Cross(Rotate(q, u), Rotate(q, v)) == Scale(Rotate(q, Cross(u, v)), n)
  {
    var a, b := Rotate(q, u), Rotate(q, v);
    var s := -d;
    RotateProduct(q, u, v, n, s);
    ReadDotCross(Cross(a, b), Dot(a, b), Rotate(q, Cross(u, v)), d, n, s);
  }

  lemma RotateProduct(q: Quaternion, u: Vector3, v: Vector3, n: real, s: real)
    requires n == SqrNorm(q) && s == -Dot(u, v)
    ensures Compose(Cross(Rotate(q, u), Rotate(q, v)), -Dot(Rotate(q, u), Rotate(q, v)))
         == ScaleBy(Compose(Rotate(q, Cross(u, v)), n * s), n)
  {
    var q' := Conjugate(q);
    var x, y, z := Compose(u, 0.0), Compose(v, 0.0), Compose(Cross(u, v), s);
    var a, b := Multiply(q, x), Multiply(q, y);
    calc {
      Compose(Cross(Rotate(q, u), Rotate(q, v)), -Dot(Rotate(q, u), Rotate(q, v)));
      { MultiplyOfVectors(Rotate(q, u), Rotate(q, v)); Sandwich(q, u, 0.0); Sandwich(q, v, 0.0); }
      Multiply(Multiply(a, q'), Multiply(b, q'));
      { MultiplyAssociative(a, q', Multiply(b, q')); MultiplyAssociative(q', b, q'); MultiplyAssociative(q', q, y); }
      Multiply(a, Multiply(Multiply(Multiply(q', q), y), q'));
      { ConjugateUndoes(q); ScaleIsProduct(y, n); MultiplyScale(y, q', n); MultiplyScale(a, Multiply(y, q'), n); }
      ScaleBy(Multiply(a, Multiply(y, q')), n);
      { MultiplyAssociative(a, y, q'); MultiplyAssociative(q, x, y); MultiplyOfVectors(u, v); }
      ScaleBy(Multiply(Multiply(q, z), q'), n);
    }
    SandwichNamed(q, Cross(u, v), s, n);
  }

  lemma ReadDotCross(c: Vector3, e: real, w: Vector3, d: real, n: real, s: real)
    requires s == -d
    requires Compose(c, -e) == ScaleBy(Compose(w, n * s), n)
    ensures e == n * n * d
    ensures c == Scale(w, n)
  {
    var l, r := Compose(c, -e), ScaleBy(Compose(w, n * s), n);
    assert l.X == r.X && l.Y == r.Y && l.Z == r.Z && l.W == r.W;
  }

  // ---- Norms, inverses and scaling

  lemma MultiplyConjugate(q: Quaternion)
    ensures Multiply(q, Conjugate(q)) == Compose(ZERO, SqrNorm(q))
  {
  }

  /** |p q|^2 = |p|^2 |q|^2. */
  lemma NormMultiplies(p: Quaternion, q: Quaternion)
    ensures SqrNorm(Multiply(p, q)) == SqrNorm(p) * SqrNorm(q)
  {
    var p', q', n := Conjugate(p), Conjugate(q), SqrNorm(q);
    calc {
      Compose(ZERO, SqrNorm(Multiply(p, q)));
      { MultiplyConjugate(Multiply(p, q)); ConjugateMultiply(p, q); }
      Multiply(Multiply(p, q), Multiply(q', p'));
      { MultiplyAssociative(p, q, Multiply(q', p')); MultiplyAssociative(q, q', p'); MultiplyConjugate(q); }
      Multiply(p, Multiply(Compose(ZERO, n), p'));
      { ScaleIsProduct(p', n); MultiplyScale(p, p', n); MultiplyConjugate(p); }
      ScaleBy(Compose(ZERO, SqrNorm(p)), n);
    }
  }

  lemma RotateByReal(k: real, v: Vector3)
    ensures Rotate(Compose(ZERO, k), v) == Scale(v, k * k)
  {
  }

  lemma RotateScaled(q: Quaternion, k: real, v: Vector3)
    ensures Rotate(ScaleBy(q, k), v) == Scale(Rotate(q, v), k * k)
  {
    ScaleIsProduct(q, k);
    RotateByProduct(Compose(ZERO, k), q, v);
    RotateByReal(k, Rotate(q, v));
  }

  lemma DivideIsScale(q: Quaternion, k: real)
    requires k != 0.0
    ensures DivideBy(q, k) == ScaleBy(q, 1.0 / k)
  {
  }

  lemma SqrNormScale(q: Quaternion, k: real)
    ensures SqrNorm(ScaleBy(q, k)) == k * k * SqrNorm(q)
  {
  }

  /** Normalizing keeps the direction of the rotation and drops the stretching. */
  lemma RotateNormalized(lib: Libm, q: Quaternion, v: Vector3)
    requires lib.Sound() && SqrNorm(q) != 0.0
    ensures SqrNorm(Normalized(lib, q)) == 1.0
    ensures Scale(Rotate(Normalized(lib, q), v), SqrNorm(q)) == Rotate(q, v)
  {
    hide SqrNorm, Norm, Normalized, Rotate, Scale, ScaleBy;
    var n, u, m := Norm(lib, q), Normalized(lib, q), SqrNorm(q);
    NormSquared(lib, q);
    NormalizedTimesNorm(lib, q);
    SqrNormScaled(u, n, m);
    CancelFactor(SqrNorm(u), 1.0, m);
    RotateScaledBy(u, n, m, v);
  }

  lemma SqrNormScaled(q: Quaternion, k: real, m: real)
    requires k * k == m
    ensures SqrNorm(ScaleBy(q, k)) == SqrNorm(q) * m
  {
    hide SqrNorm;
    SqrNormScale(q, k);
  }

  lemma RotateScaledBy(q: Quaternion, k: real, m: real, v: Vector3)
    requires k * k == m
    ensures Rotate(ScaleBy(q, k), v) == Scale(Rotate(q, v), m)
  {
    hide Rotate, ScaleBy;
    RotateScaled(q, k, v);
  }

  lemma NormalizedTimesNorm(lib: Libm, q: Quaternion)
    requires lib.Sound() && SqrNorm(q) != 0.0
    ensures ScaleBy(Normalized(lib, q), Norm(lib, q)) == q
  {
    NormSquared(lib, q);
  }

  /** `Inverse` undoes the rotation and the stretching of any nonzero quaternion. */
  lemma InverseUndoesRotation(lib: Libm, q: Quaternion, v: Vector3)
    requires lib.Sound() && SqrNorm(q) != 0.0
    ensures Multiply(Inverse(lib, q), q) == Compose(ZERO, 1.0)
    ensures Rotate(Inverse(lib, q), Rotate(q, v)) == v
  {
    hide Multiply, Rotate, SqrNorm, Scale, Inverse;
    InverseIsLeftInverse(lib, q);
    RotateByProduct(Inverse(lib, q), q, v);
    RotateByReal(1.0, v);
    ScaleByUnit(v);
  }

  lemma ScaleByUnit(v: Vector3)
    ensures Scale(v, 1.0 * 1.0) == v
  {
  }

  lemma InverseIsLeftInverse(lib: Libm, q: Quaternion)
    requires lib.Sound() && SqrNorm(q) != 0.0
    ensures Multiply(Inverse(lib, q), q) == Compose(ZERO, 1.0)
  {
    hide Multiply, SqrNorm, Conjugate, ScaleBy;
    var n := SqrNorm(q);
    NormSquared(lib, q);
    DivideBySame(Conjugate(q), Norm(lib, q) * Norm(lib, q), n);
    DivideIsScale(Conjugate(q), n);
    assert Inverse(lib, q) == DivideBy(Conjugate(q), Norm(lib, q) * Norm(lib, q));
    assert Inverse(lib, q) == DivideBy(Conjugate(q), n);
    MultiplyScale(Conjugate(q), q, 1.0 / n);
    ConjugateUndoes(q);
    ScaleToOne(n);
    assert Multiply(Inverse(lib, q), q) == ScaleBy(Multiply(Conjugate(q), q), 1.0 / n);
  }

  lemma DivideBySame(q: Quaternion, x: real, y: real)
    requires x == y != 0.0
    ensures DivideBy(q, x) == DivideBy(q, y)
  {
  }

  lemma ScaleToOne(n: real)
    requires n != 0.0
    ensures ScaleBy(Compose(ZERO, n), 1.0 / n) == Compose(ZERO, 1.0)
  {
    assert n * (1.0 / n) == 1.0;
  }
}
