/**
 The polar moment of a spherical triangle (trio.cpp): a recursion that cuts a triangle into four
 until the requested depth. The spherical midpoint, the spherical area and the angle between
 vectors are parameters.
 */
module SphericalMoments {
  import opened Libm
  import opened Vectors
  import opened Trios

  const INVALID_TRIO_M_EITHER := -1

  datatype Triangle = Triangle(B1: Vector3, B2: Vector3, B3: Vector3)

  datatype Either = Either(result: real, error: int)

  /** What the recursion calls: the midpoint of two stars, the area of a leaf and the angle between vectors. */
  datatype Sphere = Sphere(Midpoint: (Vector3, Vector3) -> Vector3, Area: (Vector3, Vector3, Vector3) -> real,
                           Angle: (Vector3, Vector3) -> real) {

    /** Neither midpoint nor area depends on the order of its arguments. */
    ghost predicate Symmetric() {
      && (forall a, b :: Midpoint(a, b) == Midpoint(b, a))
      && (forall a, b, c :: Area(a, b, c) == Area(b, a, c))
      && (forall a, b, c :: Area(a, b, c) == Area(a, c, b))
    }
  }

  function PlanarCentroid(t: Triangle): Vector3 {
    Vector3((1.0 / 3.0) * (t.B1.X + t.B2.X + t.B3.X),
            (1.0 / 3.0) * (t.B1.Y + t.B2.Y + t.B3.Y),
            (1.0 / 3.0) * (t.B1.Z + t.B2.Z + t.B3.Z))
  }

  /** The part of the triangle that keeps corner `k`, or the middle part for k = 3. */
  function CutTriangle(sphere: Sphere, t: Triangle, k: int): Triangle {
    match k
    case 0 => Triangle(t.B1, sphere.Midpoint(t.B1, t.B2), sphere.Midpoint(t.B1, t.B3))
    case 1 => Triangle(sphere.Midpoint(t.B1, t.B2), t.B2, sphere.Midpoint(t.B2, t.B3))
    case 2 => Triangle(sphere.Midpoint(t.B1, t.B3), sphere.Midpoint(t.B2, t.B3), t.B3)
    case 3 => Triangle(sphere.Midpoint(t.B1, t.B2), sphere.Midpoint(t.B1, t.B3), sphere.Midpoint(t.B2, t.B3))
    case _ => t
  }

  function LeafMoment(sphere: Sphere, t: Triangle, c: Vector3): real {
    var theta := sphere.Angle(c, PlanarCentroid(t));
    sphere.Area(t.B1, t.B2, t.B3) * (theta * theta)
  }

  function LeafMomentAbout(sphere: Sphere, c: Vector3): Triangle -> real {
    t => LeafMoment(sphere, t, c)
  }

  /** `n` is the maximum depth, `i` the current one. The centroid of the root enters only through
      the moment of a leaf, so the recursion takes that moment as a function. */
  function RecurseSphericalMoment(sphere: Sphere, t: Triangle, leafMoment: Triangle -> real, n: int, i: int): real
    requires i <= n
    decreases n - i
  {
    if n == i then
      leafMoment(t)
    else
      RecurseSphericalMoment(sphere, CutTriangle(sphere, t, 0), leafMoment, n, i + 1)
      + RecurseSphericalMoment(sphere, CutTriangle(sphere, t, 1), leafMoment, n, i + 1)
      + RecurseSphericalMoment(sphere, CutTriangle(sphere, t, 2), leafMoment, n, i + 1)
      + RecurseSphericalMoment(sphere, CutTriangle(sphere, t, 3), leafMoment, n, i + 1)
  }

  function SphericalMoment(sphere: Sphere, b1: Vector3, b2: Vector3, b3: Vector3, depth: nat): Either {
    var t := Triangle(b1, b2, b3);
    var moment := RecurseSphericalMoment(sphere, t, LeafMomentAbout(sphere, PlanarCentroid(t)), depth, 0);
    if moment < 0.0 then Either(0.0, INVALID_TRIO_M_EITHER) else Either(moment, 0)
  }

  // ---- The leaves

  /** The triangles at the bottom of the recursion, in the order they are evaluated. */
  ghost function Leaves(sphere: Sphere, t: Triangle, depth: nat): seq<Triangle>
    decreases depth
  {
    if depth == 0 then [t]
    else
      Leaves(sphere, CutTriangle(sphere, t, 0), depth - 1) + Leaves(sphere, CutTriangle(sphere, t, 1), depth - 1)
      + Leaves(sphere, CutTriangle(sphere, t, 2), depth - 1) + Leaves(sphere, CutTriangle(sphere, t, 3), depth - 1)
  }

  /** The sum of a weight over a list of triangles. */
  ghost function SumOver(weight: Triangle -> real, leaves: seq<Triangle>): real {
    if leaves == [] then 0.0 else weight(leaves[0]) + SumOver(weight, leaves[1..])
  }

  ghost function PowerOf4(k: nat): nat {
    if k == 0 then 1 else 4 * PowerOf4(k - 1)
  }

  lemma {:induction false} SumAppends(weight: Triangle -> real, a: seq<Triangle>, b: seq<Triangle>)
    ensures SumOver(weight, a + b) == SumOver(weight, a) + SumOver(weight, b)
  {
    if a == [] {
      assert a + b == b;
    } else {
      assert (a + b)[1..] == a[1..] + b;
      SumAppends(weight, a[1..], b);
    }
  }

  /** The recursion evaluates 4^depth leaves. */
  lemma {:induction false} LeafCount(sphere: Sphere, t: Triangle, depth: nat)
    ensures |Leaves(sphere, t, depth)| == PowerOf4(depth)
    decreases depth
  {
    if depth > 0 {
      LeafCount(sphere, CutTriangle(sphere, t, 0), depth - 1);
      LeafCount(sphere, CutTriangle(sphere, t, 1), depth - 1);
      LeafCount(sphere, CutTriangle(sphere, t, 2), depth - 1);
      LeafCount(sphere, CutTriangle(sphere, t, 3), depth - 1);
    }
  }

  ghost predicate AddsUp(total: seq<Triangle> -> real, leafMoment: Triangle -> real) {
    && (forall t: Triangle :: total([t]) == leafMoment(t))
    && (forall a: seq<Triangle>, b: seq<Triangle> :: total(a + b) == total(a) + total(b))
  }

  lemma TotalOfLeaf(total: seq<Triangle> -> real, leafMoment: Triangle -> real, t: Triangle)
    requires AddsUp(total, leafMoment)
    ensures total([t]) == leafMoment(t)
  {
  }

  lemma TotalByPart(total: seq<Triangle> -> real, leafMoment: Triangle -> real,
                    l0: seq<Triangle>, l1: seq<Triangle>, l2: seq<Triangle>, l3: seq<Triangle>)
    requires AddsUp(total, leafMoment)
    ensures total(l0 + l1 + l2 + l3) == total(l0) + total(l1) + total(l2) + total(l3)
  {
  }

  /** Whatever adds up the moments of leaves adds up to what the recursion returns. */
  lemma {:induction false} MomentAddsUpLeaves(sphere: Sphere, t: Triangle, leafMoment: Triangle -> real, n: int, i: int,
                                              total: seq<Triangle> -> real)
    requires i <= n && AddsUp(total, leafMoment)
    ensures RecurseSphericalMoment(sphere, t, leafMoment, n, i) == total(Leaves(sphere, t, n - i))
    decreases n - i
  {
    hide CutTriangle, AddsUp;
    if n == i {
      TotalOfLeaf(total, leafMoment, t);
    } else {
      var t0, t1 := CutTriangle(sphere, t, 0), CutTriangle(sphere, t, 1);
      var t2, t3 := CutTriangle(sphere, t, 2), CutTriangle(sphere, t, 3);
      MomentAddsUpLeaves(sphere, t0, leafMoment, n, i + 1, total);
      MomentAddsUpLeaves(sphere, t1, leafMoment, n, i + 1, total);
      MomentAddsUpLeaves(sphere, t2, leafMoment, n, i + 1, total);
      MomentAddsUpLeaves(sphere, t3, leafMoment, n, i + 1, total);
      TotalByPart(total, leafMoment, Leaves(sphere, t0, n - i - 1), Leaves(sphere, t1, n - i - 1),
                  Leaves(sphere, t2, n - i - 1), Leaves(sphere, t3, n - i - 1));
    }
  }

  /** What the recursion returns from depth `i` on is the sum of the moments of its leaves. */
  lemma MomentSumsLeaves(sphere: Sphere, t: Triangle, leafMoment: Triangle -> real, n: int, i: int)
    requires i <= n
    ensures RecurseSphericalMoment(sphere, t, leafMoment, n, i) == SumOver(leafMoment, Leaves(sphere, t, n - i))
  {
    var total := SumOf(leafMoment);
    forall leaf: Triangle ensures total([leaf]) == leafMoment(leaf) {
      assert SumOver(leafMoment, [leaf]) == leafMoment(leaf);
    }
    forall a: seq<Triangle>, b: seq<Triangle> ensures total(a + b) == total(a) + total(b) {
      SumAppends(leafMoment, a, b);
    }
    MomentAddsUpLeaves(sphere, t, leafMoment, n, i, total);
  }

  ghost function SumOf(weight: Triangle -> real): seq<Triangle> -> real {
    leaves => SumOver(weight, leaves)
  }

  // ---- The value

  lemma {:induction false} SameSum(f: Triangle -> real, g: Triangle -> real, leaves: seq<Triangle>)
    requires forall leaf: Triangle {:trigger f(leaf)} {:trigger g(leaf)} :: f(leaf) == g(leaf)
    ensures SumOver(f, leaves) == SumOver(g, leaves)
  {
    if leaves != [] {
      assert f(leaves[0]) == g(leaves[0]);
      SameSum(f, g, leaves[1..]);
    }
  }

  /** The moment is the sum over the leaves of their area times the square of the angle between the centroid
      of the root and that of the leaf, and an error when that is negative. */
  lemma SphericalMomentIsSum(sphere: Sphere, b1: Vector3, b2: Vector3, b3: Vector3, depth: nat,
                             theta: Triangle -> real, weight: Triangle -> real)
    requires forall leaf: Triangle {:trigger theta(leaf)} ::
               theta(leaf) == sphere.Angle(Scale(Add(Add(b1, b2), b3), 1.0 / 3.0),
                                           Scale(Add(Add(leaf.B1, leaf.B2), leaf.B3), 1.0 / 3.0))
    requires forall leaf: Triangle {:trigger weight(leaf)} ::
               weight(leaf) == sphere.Area(leaf.B1, leaf.B2, leaf.B3) * (theta(leaf) * theta(leaf))
    ensures SphericalMoment(sphere, b1, b2, b3, depth)
         == (var moment := SumOver(weight, Leaves(sphere, Triangle(b1, b2, b3), depth));
             if moment < 0.0 then Either(0.0, -1) else Either(moment, 0))
  {
    hide SumOver, Leaves;
    var t := Triangle(b1, b2, b3);
    var leafMoment := LeafMomentAbout(sphere, PlanarCentroid(t));
    forall leaf: Triangle ensures leafMoment(leaf) == weight(leaf) {
      assert theta(leaf) == sphere.Angle(PlanarCentroid(t), PlanarCentroid(leaf));
    }
    SameSum(leafMoment, weight, Leaves(sphere, t, depth));
    MomentSumsLeaves(sphere, t, leafMoment, depth, 0);
  }

  /** The four parts: each corner up to the middle of its two sides, and the triangle of the three middles. */
  lemma FourParts(sphere: Sphere, b1: Vector3, b2: Vector3, b3: Vector3, m12: Vector3, m13: Vector3, m23: Vector3)
    requires m12 == sphere.Midpoint(b1, b2) && m13 == sphere.Midpoint(b1, b3) && m23 == sphere.Midpoint(b2, b3)
    ensures Leaves(sphere, Triangle(b1, b2, b3), 1)
         == [Triangle(b1, m12, m13), Triangle(m12, b2, m23), Triangle(m13, m23, b3), Triangle(m12, m13, m23)]
  {
    var t := Triangle(b1, b2, b3);
    forall k | 0 <= k < 4 ensures Leaves(sphere, CutTriangle(sphere, t, k), 0) == [CutTriangle(sphere, t, k)] {
    }
  }

  // ---- The leaves cover the root

  /** The middle of the chord and the area of the plane triangle. */
  ghost predicate Planar(lib: Libm, sphere: Sphere) {
    && (forall a, b :: sphere.Midpoint(a, b) == Scale(Add(a, b), 0.5))
    && (forall a, b, c :: sphere.Area(a, b, c) == PlanarArea(lib, a, b, c))
  }

  /** The area vector of a part is plus or minus a quarter of that of the whole. */
  lemma QuarterVector(b1: Vector3, b2: Vector3, b3: Vector3, m12: Vector3, m13: Vector3, m23: Vector3)
    requires m12 == Scale(Add(b1, b2), 0.5) && m13 == Scale(Add(b1, b3), 0.5) && m23 == Scale(Add(b2, b3), 0.5)
    ensures AreaVector(b1, m12, m13) == Scale(AreaVector(b1, b2, b3), 0.25)
    ensures AreaVector(m12, b2, m23) == Scale(AreaVector(b1, b2, b3), 0.25)
    ensures AreaVector(m13, m23, b3) == Scale(AreaVector(b1, b2, b3), 0.25)
    ensures AreaVector(m12, m13, m23) == Scale(AreaVector(b1, b2, b3), -0.25)
  {
    hide Cross;
    var p, r := Sub(b1, b2), Sub(b1, b3);
    assert Sub(b1, m12) == Scale(p, 0.5) && Sub(b1, m13) == Scale(r, 0.5);
    assert Sub(m12, b2) == Scale(p, 0.5) && Sub(m12, m23) == Scale(r, 0.5);
    assert Sub(m13, m23) == Scale(p, 0.5) && Sub(m13, b3) == Scale(r, 0.5);
    assert Sub(m12, m13) == Scale(Sub(r, p), 0.5);
    HalfSides(p, r);
    HalfSidesOfMiddle(p, r, Sub(m12, m13), Sub(m12, m23));
  }

  lemma HalfSides(p: Vector3, r: Vector3)
    ensures Cross(Scale(p, 0.5), Scale(r, 0.5)) == Scale(Cross(p, r), 0.25)
  {
  }

  lemma HalfSidesOfMiddle(p: Vector3, r: Vector3, u: Vector3, v: Vector3)
    requires u == Scale(Sub(r, p), 0.5) && v == Scale(r, 0.5)
    ensures Cross(u, v) == Scale(Cross(p, r), -0.25)
  {
  }

  lemma QuarterArea(lib: Libm, b1: Vector3, b2: Vector3, b3: Vector3, c1: Vector3, c2: Vector3, c3: Vector3, k: real)
    requires lib.Sound() && (k == 0.25 || k == -0.25)
    requires AreaVector(c1, c2, c3) == Scale(AreaVector(b1, b2, b3), k)
    ensures 4.0 * PlanarArea(lib, c1, c2, c3) == PlanarArea(lib, b1, b2, b3)
  {
    hide PlanarArea, AreaVector, SqrMagnitude, Scale;
    var whole, part := PlanarArea(lib, b1, b2, b3), PlanarArea(lib, c1, c2, c3);
    AreaIsHalfTheCrossProduct(lib, b1, b2, b3, whole);
    AreaIsHalfTheCrossProduct(lib, c1, c2, c3, part);
    SqrMagnitudeScale(AreaVector(b1, b2, b3), k);
    SquaresAreInjective(4.0 * part, whole);
  }

  lemma PartsAreQuarters(lib: Libm, sphere: Sphere, t: Triangle, k: int)
    requires lib.Sound() && Planar(lib, sphere) && 0 <= k < 4
    ensures var part := CutTriangle(sphere, t, k);
            4.0 * sphere.Area(part.B1, part.B2, part.B3) == sphere.Area(t.B1, t.B2, t.B3)
  {
    hide PlanarArea, AreaVector, Scale, Add;
    var m12, m13, m23 := sphere.Midpoint(t.B1, t.B2), sphere.Midpoint(t.B1, t.B3), sphere.Midpoint(t.B2, t.B3);
    QuarterVector(t.B1, t.B2, t.B3, m12, m13, m23);
    var part := CutTriangle(sphere, t, k);
    QuarterArea(lib, t.B1, t.B2, t.B3, part.B1, part.B2, part.B3, if k == 3 then -0.25 else 0.25);
  }

  /** With the middle of the chord as midpoint and the area of the plane triangle, the areas of the leaves
      add up to that of the root, at every depth. */
  lemma {:induction false} LeafAreasSumToRoot(lib: Libm, sphere: Sphere, t: Triangle, depth: nat,
                                              area: Triangle -> real)
    requires lib.Sound() && Planar(lib, sphere)
    requires forall leaf: Triangle {:trigger area(leaf)} :: area(leaf) == sphere.Area(leaf.B1, leaf.B2, leaf.B3)
    ensures SumOver(area, Leaves(sphere, t, depth)) == sphere.Area(t.B1, t.B2, t.B3)
    decreases depth
  {
    hide PlanarArea, CutTriangle, Planar;
    if depth == 0 {
      assert SumOver(area, [t]) == area(t);
    } else {
      forall k | 0 <= k < 4
        ensures 4.0 * SumOver(area, Leaves(sphere, CutTriangle(sphere, t, k), depth - 1))
                  == sphere.Area(t.B1, t.B2, t.B3) {
        LeafAreasSumToRoot(lib, sphere, CutTriangle(sphere, t, k), depth - 1, area);
        PartsAreQuarters(lib, sphere, t, k);
      }
      var l0, l1 := Leaves(sphere, CutTriangle(sphere, t, 0), depth - 1),
          Leaves(sphere, CutTriangle(sphere, t, 1), depth - 1);
      var l2, l3 := Leaves(sphere, CutTriangle(sphere, t, 2), depth - 1),
          Leaves(sphere, CutTriangle(sphere, t, 3), depth - 1);
      SumAppends(area, l0, l1);
      SumAppends(area, l0 + l1, l2);
      SumAppends(area, l0 + l1 + l2, l3);
    }
  }

  // ---- Order of the vertices

  function Swap12(t: Triangle): Triangle { Triangle(t.B2, t.B1, t.B3) }

  function Swap23(t: Triangle): Triangle { Triangle(t.B1, t.B3, t.B2) }

  lemma LeafSwap(sphere: Sphere, t: Triangle, c: Vector3)
    requires sphere.Symmetric()
    ensures LeafMoment(sphere, Swap12(t), c) == LeafMoment(sphere, t, c) == LeafMoment(sphere, Swap23(t), c)
  {
    assert PlanarCentroid(Swap12(t)) == PlanarCentroid(t) == PlanarCentroid(Swap23(t));
  }

  /** Cutting a triangle with two vertices swapped gives the same four parts, each with its own
      vertices rearranged. */
  lemma CutSwap(sphere: Sphere, t: Triangle)
    requires sphere.Symmetric()
    ensures CutTriangle(sphere, Swap12(t), 0) == Swap12(CutTriangle(sphere, t, 1))
    ensures CutTriangle(sphere, Swap12(t), 1) == Swap12(CutTriangle(sphere, t, 0))
    ensures CutTriangle(sphere, Swap12(t), 2) == Swap12(CutTriangle(sphere, t, 2))
    ensures CutTriangle(sphere, Swap12(t), 3) == Swap23(CutTriangle(sphere, t, 3))
    ensures CutTriangle(sphere, Swap23(t), 0) == Swap23(CutTriangle(sphere, t, 0))
    ensures CutTriangle(sphere, Swap23(t), 1) == Swap23(CutTriangle(sphere, t, 2))
    ensures CutTriangle(sphere, Swap23(t), 2) == Swap23(CutTriangle(sphere, t, 1))
    ensures CutTriangle(sphere, Swap23(t), 3) == Swap12(CutTriangle(sphere, t, 3))
  {
  }

  lemma {:induction false} MomentSwap(sphere: Sphere, t: Triangle, leafMoment: Triangle -> real, n: int, i: int)
    requires sphere.Symmetric() && i <= n
    requires forall leaf: Triangle {:trigger leafMoment(leaf)} :: leafMoment(Swap12(leaf)) == leafMoment(leaf)
              == leafMoment(Swap23(leaf))
    ensures RecurseSphericalMoment(sphere, Swap12(t), leafMoment, n, i)
              == RecurseSphericalMoment(sphere, t, leafMoment, n, i)
    ensures RecurseSphericalMoment(sphere, Swap23(t), leafMoment, n, i)
              == RecurseSphericalMoment(sphere, t, leafMoment, n, i)
    decreases n - i
  {
    if n == i {
      assert leafMoment(t) == leafMoment(Swap12(t)) == leafMoment(Swap23(t));
    } else {
      CutSwap(sphere, t);
      MomentSwap(sphere, CutTriangle(sphere, t, 0), leafMoment, n, i + 1);
      MomentSwap(sphere, CutTriangle(sphere, t, 1), leafMoment, n, i + 1);
      MomentSwap(sphere, CutTriangle(sphere, t, 2), leafMoment, n, i + 1);
      MomentSwap(sphere, CutTriangle(sphere, t, 3), leafMoment, n, i + 1);
    }
  }

  lemma SphericalMomentSwap(sphere: Sphere, b1: Vector3, b2: Vector3, b3: Vector3, depth: nat)
    requires sphere.Symmetric()
    ensures SphericalMoment(sphere, b2, b1, b3, depth) == SphericalMoment(sphere, b1, b2, b3, depth)
    ensures SphericalMoment(sphere, b1, b3, b2, depth) == SphericalMoment(sphere, b1, b2, b3, depth)
  {
    var t := Triangle(b1, b2, b3);
    assert PlanarCentroid(Swap12(t)) == PlanarCentroid(t) == PlanarCentroid(Swap23(t));
    var leafMoment := LeafMomentAbout(sphere, PlanarCentroid(t));
    forall leaf: Triangle ensures leafMoment(Swap12(leaf)) == leafMoment(leaf) == leafMoment(Swap23(leaf)) {
      LeafSwap(sphere, leaf, PlanarCentroid(t));
    }
    MomentSwap(sphere, t, leafMoment, depth, 0);
  }

  /** The spherical moment is the same for all six orders of the vertices, at every depth. */
  lemma SphericalMomentIgnoresOrder(sphere: Sphere, b1: Vector3, b2: Vector3, b3: Vector3,
                                    c1: Vector3, c2: Vector3, c3: Vector3, depth: nat)
    requires sphere.Symmetric() && IsReordering(b1, b2, b3, c1, c2, c3)
    ensures SphericalMoment(sphere, c1, c2, c3, depth) == SphericalMoment(sphere, b1, b2, b3, depth)
  {
    SphericalMomentSwap(sphere, b1, b2, b3, depth);
    SphericalMomentSwap(sphere, b2, b1, b3, depth);
    SphericalMomentSwap(sphere, b1, b3, b2, depth);
    SphericalMomentSwap(sphere, b3, b1, b2, depth);
  }
}
