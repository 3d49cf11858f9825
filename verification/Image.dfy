/** What it means for an image to show stars of the catalogue (benchmark.cpp draws such images). */
module Images {
  import opened Libm
  import opened Vectors
  import opened Quaternions
  import opened Stars
  import opened Rotations
  import opened Enumeration
  import opened Chomps
  import opened Conversions
  import opened Identifications
  import opened PairTables

  /** The image shows the bright stars `truth[0], truth[1], ..` under one attitude. */
  ghost predicate Shows(image: seq<Star>, bright: seq<Star>, truth: seq<int>, q: Quaternion) {
    && SqrNorm(q) == 1.0
    && |truth| == |image|
    && (forall i :: 0 <= i < |truth| ==> 0 <= truth[i] < |bright|)
    && (forall i, j :: 0 <= i < j < |truth| ==> truth[i] != truth[j])
    && (forall i :: 0 <= i < |image| ==> image[i].vector == Rotate(q, bright[truth[i]].vector))
  }

  /** All the stars shown are closer to each other than the field of view. */
  ghost predicate ShownWithin(lib: Libm, bright: seq<Star>, truth: seq<int>, fov: real) {
    forall i, j :: 0 <= i < j < |truth| ==>
      IsPairOf(bright, (truth[i], truth[j])) && PairAngle(lib, bright, (truth[i], truth[j])) < fov
  }

  lemma ShownAngle(s: Setting, bright: seq<Star>, truth: seq<int>, q: Quaternion, i: nat, j: nat)
    requires Shows(s.image, bright, truth, q) && i < |truth| && j < |truth|
    ensures Separation(s.lib, s.image[i].vector, s.image[j].vector) == PairAngle(s.lib, bright, (truth[i], truth[j]))
  {
    UnitRotationKeeps(s.lib, q, bright[truth[i]].vector, bright[truth[j]].vector);
  }

  /** Different bright stars are different points of the unit sphere. */
  ghost predicate OnTheSphere(bright: seq<Star>) {
    && (forall i :: 0 <= i < |bright| ==> SqrMagnitude(bright[i].vector) == 1.0)
    && (forall i, j :: 0 <= i < j < |bright| ==> bright[i].vector != bright[j].vector)
  }

  lemma DistinctAxes()
    ensures RIGHT != UP && RIGHT != FORWARD && UP != FORWARD
  {
    assert RIGHT.X == 1.0 && UP.X == 0.0 && FORWARD.X == 0.0;
    assert UP.Y == 1.0 && FORWARD.Y == 0.0;
  }

  lemma UnitAxes()
    ensures SqrMagnitude(RIGHT) == 1.0 && SqrMagnitude(UP) == 1.0 && SqrMagnitude(FORWARD) == 1.0
  {
    hide SqrMagnitude;
    BasisIsTriad();
    TriadCycles(RIGHT, UP, FORWARD);
  }

  lemma IdentityIsUnit(q: Quaternion)
    requires q.X == 0.0 && q.Y == 0.0 && q.Z == 0.0 && q.W == 1.0
    ensures SqrNorm(q) == 1.0
  {
  }

  /** Such images exist: three stars on the axes, looked at from the middle. */
  lemma ThreeStars(lib: Libm) returns (image: seq<Star>, bright: seq<Star>, truth: seq<int>, q: Quaternion, fov: real)
    ensures |image| == 3 && DistinctLabels(bright) && OnTheSphere(bright)
    ensures Shows(image, bright, truth, q) && ShownWithin(lib, bright, truth, fov)
  {
    hide Rotate, Separation, SqrMagnitude, SqrNorm;
    UnitAxes();
    DistinctAxes();
    bright := [Wrap(RIGHT, 1), Wrap(UP, 2), Wrap(FORWARD, 3)];
    q := Quaternion(0.0, 0.0, 0.0, 1.0);
    IdentityIsUnit(q);
    truth := [0, 1, 2];
    image := [Wrap(Rotate(q, RIGHT)), Wrap(Rotate(q, UP)), Wrap(Rotate(q, FORWARD))];
    var a, b, c := PairAngle(lib, bright, (0, 1)), PairAngle(lib, bright, (0, 2)), PairAngle(lib, bright, (1, 2));
    fov := 1.0 + (if a >= b && a >= c then a else if b >= c then b else c);
    assert a < fov && b < fov && c < fov;
  }

  // ---- Four stars with six different angles

  predicate At(s: Star, x: real, y: real, z: real) {
    s.vector == Vector3(x, y, z)
  }

  ghost predicate AreFourStars(bright: seq<Star>) {
    && |bright| == 4
    && At(bright[0], 1.0, 0.0, 0.0) && At(bright[1], 0.0, 1.0, 0.0)
    && At(bright[2], 0.6, 0.8, 0.0) && At(bright[3], 0.64, 0.48, 0.6)
  }

  lemma DotAt(a: Star, x: real, y: real, z: real, b: Star, u: real, v: real, w: real)
    requires At(a, x, y, z) && At(b, u, v, w)
    ensures Dot(a.vector, b.vector) == x * u + y * v + z * w
    ensures SqrMagnitude(a.vector) == x * x + y * y + z * z
  {
  }

  lemma FourDots(bright: seq<Star>)
    requires AreFourStars(bright)
    ensures forall k :: 0 <= k < 4 ==> SqrMagnitude(bright[k].vector) == 1.0
    ensures Dot(bright[0].vector, bright[1].vector) == 0.0 && Dot(bright[0].vector, bright[2].vector) == 0.6
    ensures Dot(bright[0].vector, bright[3].vector) == 0.64 && Dot(bright[1].vector, bright[2].vector) == 0.8
    ensures Dot(bright[1].vector, bright[3].vector) == 0.48 && Dot(bright[2].vector, bright[3].vector) == 0.768
  {
    hide Dot, SqrMagnitude, At;
    DotAt(bright[0], 1.0, 0.0, 0.0, bright[1], 0.0, 1.0, 0.0);
    DotAt(bright[0], 1.0, 0.0, 0.0, bright[2], 0.6, 0.8, 0.0);
    DotAt(bright[0], 1.0, 0.0, 0.0, bright[3], 0.64, 0.48, 0.6);
    DotAt(bright[1], 0.0, 1.0, 0.0, bright[2], 0.6, 0.8, 0.0);
    DotAt(bright[1], 0.0, 1.0, 0.0, bright[3], 0.64, 0.48, 0.6);
    DotAt(bright[2], 0.6, 0.8, 0.0, bright[3], 0.64, 0.48, 0.6);
    DotAt(bright[3], 0.64, 0.48, 0.6, bright[3], 0.64, 0.48, 0.6);
  }

  /** Different pairs of them have different dot products. */
  lemma DotsDiffer(bright: seq<Star>, p: Pair, q: Pair)
    requires AreFourStars(bright)
    requires 0 <= p.0 < p.1 < 4 && 0 <= q.0 < q.1 < 4
    requires Dot(bright[p.0].vector, bright[p.1].vector) == Dot(bright[q.0].vector, bright[q.1].vector)
    ensures p == q
  {
    hide Dot, SqrMagnitude, At;
    FourDots(bright);
  }

  function Largest(x: seq<real>): (m: real)
    ensures forall k :: 0 <= k < |x| ==> x[k] <= m
  {
    if x == [] then 0.0
    else
      var front := Largest(x[..|x| - 1]);
      if x[|x| - 1] >= front then x[|x| - 1] else front
  }

  /** Four stars, and their image as seen from the middle. */
  lemma FourStars(lib: Libm) returns (image: seq<Star>, bright: seq<Star>, truth: seq<int>, q: Quaternion, fov: real)
    ensures |image| == |bright| == 4 && truth == [0, 1, 2, 3] && AreFourStars(bright)
    ensures bright[0].labelId == 1 && bright[1].labelId == 2 && bright[2].labelId == 3 && bright[3].labelId == 4
    ensures DistinctLabels(bright) && OnTheSphere(bright)
    ensures Shows(image, bright, truth, q) && ShownWithin(lib, bright, truth, fov)
  {
    hide Rotate, SqrMagnitude, SqrNorm, PairAngle, Largest, ShownWithin;
    bright := [Wrap(Vector3(1.0, 0.0, 0.0), 1), Wrap(Vector3(0.0, 1.0, 0.0), 2), Wrap(Vector3(0.6, 0.8, 0.0), 3),
               Wrap(Vector3(0.64, 0.48, 0.6), 4)];
    FourDots(bright);
    q := Quaternion(0.0, 0.0, 0.0, 1.0);
    IdentityIsUnit(q);
    truth := [0, 1, 2, 3];
    image := seq(4, k requires 0 <= k < 4 => Wrap(Rotate(q, bright[k].vector)));
    fov := WideField(lib, bright, truth);
  }

  lemma WideField(lib: Libm, bright: seq<Star>, truth: seq<int>) returns (fov: real)
    requires |bright| == 4 && truth == [0, 1, 2, 3]
    ensures ShownWithin(lib, bright, truth, fov)
  {
    hide PairAngle, Largest;
    var angles := [PairAngle(lib, bright, (0, 1)), PairAngle(lib, bright, (0, 2)), PairAngle(lib, bright, (0, 3)),
                   PairAngle(lib, bright, (1, 2)), PairAngle(lib, bright, (1, 3)), PairAngle(lib, bright, (2, 3))];
    fov := Largest(angles) + 1.0;
    assert angles[0] < fov && angles[1] < fov && angles[2] < fov && angles[3] < fov && angles[4] < fov
        && angles[5] < fov;
  }
}
