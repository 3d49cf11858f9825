/** End-to-end soundness of the planar triangle method: table, query and pivot together. */
module TriangleTruth {
  import opened Libm
  import opened Quaternions
  import opened Stars
  import opened Rotations
  import opened Sequences
  import opened Shuffling
  import opened Enumeration
  import opened Chomps
  import opened Identifications
  import opened PairTables
  import opened Images
  import opened TrioTables
  import opened Pivots
  import opened BaseTriangles
  import PlanarFeatures = Trios

  /** Area and moment as the planar method computes them (planar-triangle.cpp). */
  function Planar(lib: Libm): Features {
    Features((a, b, c) => PlanarFeatures.PlanarArea(lib, a, b, c),
             (a, b, c) => PlanarFeatures.PlanarMoment(lib, a, b, c))
  }

  predicate Distinct(t: IndexTrio) {
    t.0 != t.1 && t.0 != t.2 && t.1 != t.2
  }

  ghost predicate IsReorderingOf(t: Trio<Star>, r: Trio<Star>) {
    PlanarFeatures.IsReordering(r.first, r.second, r.third, t.first, t.second, t.third)
  }

  function StarsOf(bright: seq<Star>, t: IndexTrio): Trio<Star>
    requires IsTrioOf(bright, t)
  {
    Trio(bright[t.0], bright[t.1], bright[t.2])
  }

  // ---- The row of a trio

  /** The three indices in ascending order. */
  function Sorted(t: IndexTrio): IndexTrio {
    var a, b, c := t.0, t.1, t.2;
    if a <= b <= c then (a, b, c)
    else if a <= c <= b then (a, c, b)
    else if b <= a <= c then (b, a, c)
    else if b <= c <= a then (b, c, a)
    else if c <= a <= b then (c, a, b)
    else (c, b, a)
  }

  lemma SortedReorders(bright: seq<Star>, t: IndexTrio)
    requires IsTrioOf(bright, t) && Distinct(t)
    ensures IsTrioOf(bright, Sorted(t)) && Sorted(t).0 < Sorted(t).1 < Sorted(t).2
    ensures IsReorderingOf(StarsOf(bright, Sorted(t)), StarsOf(bright, t))
    ensures PlanarFeatures.IsReordering(bright[t.0].vector, bright[t.1].vector, bright[t.2].vector,
                                        bright[Sorted(t).0].vector, bright[Sorted(t).1].vector,
                                        bright[Sorted(t).2].vector)
  {
  }

  lemma WithinIgnoresOrder(lib: Libm, bright: seq<Star>, t: IndexTrio, fov: real)
    requires IsTrioOf(bright, t) && TrioWithin(lib, bright[t.0], bright[t.1], bright[t.2], fov)
    ensures var u := Sorted(t); IsTrioOf(bright, u) && TrioWithin(lib, bright[u.0], bright[u.1], bright[u.2], fov)
  {
    WithinAngleSymmetric(lib, bright[t.0].vector, bright[t.1].vector, fov);
    WithinAngleSymmetric(lib, bright[t.0].vector, bright[t.2].vector, fov);
    WithinAngleSymmetric(lib, bright[t.1].vector, bright[t.2].vector, fov);
  }

  lemma TrioHasRow(lib: Libm, bright: seq<Star>, fov: real, table: seq<Row>, t: IndexTrio)
    requires lib.Sound() && OnTheSphere(bright) && IsTrioTable(lib, Planar(lib), bright, fov, table)
    requires IsTrioOf(bright, t) && Distinct(t) && TrioWithin(lib, bright[t.0], bright[t.1], bright[t.2], fov)
    ensures TrioRow(Planar(lib), bright, Sorted(t)) in table
  {
    var u := Sorted(t);
    SortedReorders(bright, t);
    WithinIgnoresOrder(lib, bright, t, fov);
    PlanarFeatures.DistinctUnitsHaveFeatures(lib, bright[u.0].vector, bright[u.1].vector, bright[u.2].vector);
    assert TrioFits(lib, Planar(lib), bright, fov, u);
    TrioTableMembers(lib, Planar(lib), bright, fov, table, TrioRow(Planar(lib), bright, u));
  }

  /** Looking the row up gives the stars back. */
  lemma RowGivesStars(f: Features, hip: seq<Star>, bright: seq<Star>, u: IndexTrio)
    requires IsCatalogue(hip, bright) && IsTrioOf(bright, u)
    ensures StarsOfRow(hip)(TrioRow(f, bright, u)) == StarsOf(bright, u)
  {
    LookUpUnique(hip, bright[u.0]);
    LookUpUnique(hip, bright[u.1]);
    LookUpUnique(hip, bright[u.2]);
  }

  // ---- The query of three image stars

  function TruthOf(truth: seq<int>, c: IndexTrio): IndexTrio
    requires 0 <= c.0 < |truth| && 0 <= c.1 < |truth| && 0 <= c.2 < |truth|
  {
    (truth[c.0], truth[c.1], truth[c.2])
  }

  /** Three image stars are in one field of view, as are the true stars, and measuring them gives area
      and moment of the true stars to within epsilon. */
  ghost predicate MeasuresTrio(s: Setting, bright: seq<Star>, fov: real, truth: seq<int>, c: IndexTrio)
    requires IsTrioOf(s.image, c) && |truth| == |s.image|
  {
    var t := TruthOf(truth, c);
    && IsTrioOf(bright, t) && Distinct(t)
    && TrioWithin(s.lib, bright[t.0], bright[t.1], bright[t.2], fov)
    && TrioWithin(s.lib, s.image[c.0], s.image[c.1], s.image[c.2], s.fov)
    && -s.epsilon1 <= TrioArea(Planar(s.lib), s.image, c) - TrioArea(Planar(s.lib), bright, t) <= s.epsilon1
    && -s.epsilon2 <= TrioMoment(Planar(s.lib), s.image, c) - TrioMoment(Planar(s.lib), bright, t) <= s.epsilon2
  }

  /** Everything assumed of a run: a catalogue, its table, and an image that shows part of the
      catalogue so well that all its trios are measured to within epsilon. */
  ghost predicate IsMeasuredRun(s: Setting, hip: seq<Star>, bright: seq<Star>, fov: real, table: seq<Row>,
                                truth: seq<int>) {
    && s.lib.Sound()
    && IsCatalogue(hip, bright) && OnTheSphere(bright)
    && IsTrioTable(s.lib, Planar(s.lib), bright, fov, table)
    && |truth| == |s.image|
    && forall c :: IsTrioOf(s.image, c) && Distinct(c) ==> MeasuresTrio(s, bright, fov, truth, c)
  }

  /** A run over a rotated image without any noise. */
  ghost predicate IsTrueRun(s: Setting, hip: seq<Star>, bright: seq<Star>, fov: real, table: seq<Row>, truth: seq<int>,
                            q: Quaternion) {
    && s.lib.Sound() && s.epsilon1 >= 0.0 && s.epsilon2 >= 0.0
    && IsCatalogue(hip, bright) && OnTheSphere(bright)
    && IsTrioTable(s.lib, Planar(s.lib), bright, fov, table)
    && Shows(s.image, bright, truth, q)
    && ShownWithin(s.lib, bright, truth, fov) && ShownWithin(s.lib, bright, truth, s.fov)
  }

  lemma ShownPairWithin(s: Setting, bright: seq<Star>, truth: seq<int>, q: Quaternion, i: nat, j: nat, theta: real)
    requires Shows(s.image, bright, truth, q) && ShownWithin(s.lib, bright, truth, theta)
    requires i < |truth| && j < |truth| && i != j
    ensures truth[i] != truth[j]
    ensures WithinAngle(s.lib, bright[truth[i]].vector, bright[truth[j]].vector, theta)
    ensures WithinAngle(s.lib, s.image[i].vector, s.image[j].vector, theta)
  {
    ShownAngle(s, bright, truth, q, i, j);
    WithinAngleSymmetric(s.lib, bright[truth[i]].vector, bright[truth[j]].vector, theta);
    if i < j {
      assert PairAngle(s.lib, bright, (truth[i], truth[j])) < theta;
    } else {
      assert PairAngle(s.lib, bright, (truth[j], truth[i])) < theta;
    }
  }

  lemma ShownTrioWithin(s: Setting, bright: seq<Star>, truth: seq<int>, q: Quaternion, c: IndexTrio, theta: real)
    requires Shows(s.image, bright, truth, q) && ShownWithin(s.lib, bright, truth, theta)
    requires IsTrioOf(s.image, c) && Distinct(c)
    ensures IsTrioOf(bright, TruthOf(truth, c)) && Distinct(TruthOf(truth, c))
    ensures TrioWithin(s.lib, bright[truth[c.0]], bright[truth[c.1]], bright[truth[c.2]], theta)
    ensures TrioWithin(s.lib, s.image[c.0], s.image[c.1], s.image[c.2], theta)
  {
    ShownPairWithin(s, bright, truth, q, c.0, c.1, theta);
    ShownPairWithin(s, bright, truth, q, c.0, c.2, theta);
    ShownPairWithin(s, bright, truth, q, c.1, c.2, theta);
  }

  /** The features of three stars are those of their row. */
  lemma RowFeatures(lib: Libm, bright: seq<Star>, t: IndexTrio)
    requires IsTrioOf(bright, t) && Distinct(t)
    ensures IsTrioOf(bright, Sorted(t))
    ensures TrioArea(Planar(lib), bright, Sorted(t)) == TrioArea(Planar(lib), bright, t)
    ensures TrioMoment(Planar(lib), bright, Sorted(t)) == TrioMoment(Planar(lib), bright, t)
  {
    var u := Sorted(t);
    SortedReorders(bright, t);
    PlanarFeatures.FeaturesIgnoreOrder(lib, bright[t.0].vector, bright[t.1].vector, bright[t.2].vector,
                                       bright[u.0].vector, bright[u.1].vector, bright[u.2].vector);
  }

  /** The features of three stars of a rotated image are those of the true stars. */
  lemma TrueFeatures(s: Setting, bright: seq<Star>, truth: seq<int>, q: Quaternion, c: IndexTrio)
    requires Shows(s.image, bright, truth, q)
    requires IsTrioOf(s.image, c) && IsTrioOf(bright, TruthOf(truth, c))
    ensures TrioArea(Planar(s.lib), s.image, c) == TrioArea(Planar(s.lib), bright, TruthOf(truth, c))
    ensures TrioMoment(Planar(s.lib), s.image, c) == TrioMoment(Planar(s.lib), bright, TruthOf(truth, c))
  {
    var t := TruthOf(truth, c);
    PlanarFeatures.FeaturesIgnoreRotation(s.lib, q, bright[t.0].vector, bright[t.1].vector, bright[t.2].vector);
  }

  /** So a run over a rotated image is a measured run, whatever the attitude and however small the
      epsilons are. */
  lemma RotatedRunIsMeasured(s: Setting, hip: seq<Star>, bright: seq<Star>, fov: real, table: seq<Row>, truth: seq<int>,
                             q: Quaternion)
    requires IsTrueRun(s, hip, bright, fov, table, truth, q)
    ensures IsMeasuredRun(s, hip, bright, fov, table, truth)
  {
    hide Planar, TrioArea, TrioMoment, IsTrioTable, OnTheSphere, IsCatalogue;
    forall c | IsTrioOf(s.image, c) && Distinct(c) ensures MeasuresTrio(s, bright, fov, truth, c) {
      ShownTrioWithin(s, bright, truth, q, c, fov);
      ShownTrioWithin(s, bright, truth, q, c, s.fov);
      TrueFeatures(s, bright, truth, q, c);
    }
  }

  /** Querying any three image stars returns the true trio, in some order. */
  lemma TrueTrioIsCandidate(s: Setting, hip: seq<Star>, bright: seq<Star>, fov: real, table: seq<Row>, truth: seq<int>,
                            c: IndexTrio)
    requires IsMeasuredRun(s, hip, bright, fov, table, truth)
    requires IsTrioOf(s.image, c) && Distinct(c)
    ensures IsTrioOf(bright, TruthOf(truth, c)) && Distinct(TruthOf(truth, c))
    ensures IsTrioOf(bright, Sorted(TruthOf(truth, c)))
    ensures StarsOf(bright, Sorted(TruthOf(truth, c))) in MatchingTrios(s, Planar(s.lib), hip, table, ImageStars(s, c))
  {
    hide IsTrioTable, OnTheSphere, TrioWithin;
    var f := Planar(s.lib);
    var t := TruthOf(truth, c);
    assert MeasuresTrio(s, bright, fov, truth, c);
    TrioHasRow(s.lib, bright, fov, table, t);
    SortedReorders(bright, t);
    RowFeatures(s.lib, bright, t);
    RowGivesStars(f, hip, bright, Sorted(t));
    RowIsCandidate(s, table, TrioRow(f, bright, Sorted(t)), TrioArea(f, s.image, c), TrioMoment(f, s.image, c));
    var rows := TrioCandidates(s, table, TrioArea(f, s.image, c), TrioMoment(f, s.image, c));
    MapMembers(StarsOfRow(hip), rows, StarsOf(bright, Sorted(t)));
  }

  lemma RowIsCandidate(s: Setting, table: seq<Row>, row: Row, area: real, moment: real)
    requires row in table && |row.features| == 2
    requires -s.epsilon1 <= area - row.features[0] <= s.epsilon1
    requires -s.epsilon2 <= moment - row.features[1] <= s.epsilon2
    ensures row in TrioCandidates(s, table, area, moment)
  {
    BoundQueryIsExact(table, [area - s.epsilon1, moment - s.epsilon2], [area + s.epsilon1, moment + s.epsilon2], row);
  }

  // ---- The pivot

  /** Two trios with two stars in common share two. */
  lemma ReorderingsShareTwo(a: Star, b: Star, c: Star, d: Star, t: Trio<Star>, r: Trio<Star>)
    requires IsReorderingOf(t, Trio(a, b, c)) && IsReorderingOf(r, Trio(a, b, d))
    ensures Agreement(r, t) >= 2
  {
    assert IsOneOf(a, t) && IsOneOf(b, t);
  }

  /** The whole search: a pivot over an image measured to within epsilon either finds the true trio or leaves more
      than one after its last query. It never finds another, and never loses the true one. */
  lemma PivotFindsTheTruth(s: Setting, hip: seq<Star>, bright: seq<Star>, fov: real, table: seq<Row>, truth: seq<int>,
                           c: IndexTrio)
    requires IsMeasuredRun(s, hip, bright, fov, table, truth)
    requires 0 <= c.0 < c.1 < c.2 < |s.image|
    ensures IsTrioOf(bright, TruthOf(truth, c))
    ensures var found := TrioOutcome(s, Planar(s.lib), hip, table, c);
            && (found.Some? ==> IsReorderingOf(found.value, StarsOf(bright, TruthOf(truth, c))))
            && (found.None? ==> |Survived(Queries(s, Planar(s.lib), hip, table, c), PivotOrder(|s.image|, c))| >= 2)
  {
    hide MeasuresTrio, IsTrioTable, OnTheSphere, MatchingTrios, Queries, SharesTwo, Survived, Planar, Sorted,
        IsReorderingOf, StarsOf;
    var n := |s.image|;
    var query := Queries(s, Planar(s.lib), hip, table, c);
    QueriesAt(s, Planar(s.lib), hip, table, c, c);
    TrueTrioIsCandidate(s, hip, bright, fov, table, truth, c);
    var t := TruthOf(truth, c);
    SortedReorders(bright, t);
    var found := StarsOf(bright, Sorted(t));
    assert (c.0, c.1, c.2) == c;
    forall e | 0 <= e < n && e != c.0 && e != c.1 ensures SharesTwo(found, query(e)) {
      LaterQueryShares(s, hip, bright, fov, table, truth, c, e);
    }
    TruthSurvives(query, n, c, found);
  }

  lemma LaterQueryShares(s: Setting, hip: seq<Star>, bright: seq<Star>, fov: real, table: seq<Row>, truth: seq<int>,
                         c: IndexTrio, e: nat)
    requires IsMeasuredRun(s, hip, bright, fov, table, truth)
    requires 0 <= c.0 < c.1 < c.2 < |s.image| && e < |s.image| && e != c.0 && e != c.1
    requires IsTrioOf(bright, TruthOf(truth, c)) && IsTrioOf(bright, Sorted(TruthOf(truth, c)))
    requires IsReorderingOf(StarsOf(bright, Sorted(TruthOf(truth, c))), StarsOf(bright, TruthOf(truth, c)))
    ensures SharesTwo(StarsOf(bright, Sorted(TruthOf(truth, c))), Queries(s, Planar(s.lib), hip, table, c)(e))
  {
    var ce := (c.0, c.1, e);
    TrueTrioIsCandidate(s, hip, bright, fov, table, truth, ce);
    var t, te := TruthOf(truth, c), TruthOf(truth, ce);
    SortedReorders(bright, te);
    var trios := Queries(s, Planar(s.lib), hip, table, c)(e);
    var found := StarsOf(bright, Sorted(te));
    assert trios == MatchingTrios(s, Planar(s.lib), hip, table, ImageStars(s, ce));
    var k :| 0 <= k < |trios| && trios[k] == found;
    ReorderingsShareTwo(bright[t.0], bright[t.1], bright[t.2], bright[te.2], StarsOf(bright, Sorted(t)), trios[k]);
  }

  // ---- The answer

  /** What identification returns for such an image are three image stars that carry the labels of
      the three true stars between them. */
  lemma IdentificationHasTrueLabels(s: Setting, hip: seq<Star>, bright: seq<Star>, fov: real, table: seq<Row>,
                                    truth: seq<int>, found: IndexTrio, a: seq<Star>)
    requires IsMeasuredRun(s, hip, bright, fov, table, truth)
    requires 0 <= found.0 < found.1 < found.2 < |s.image|
    requires TrioOutcome(s, Planar(s.lib), hip, table, found).Some?
    requires IsBestLabelling(s, hip, TrioOutcome(s, Planar(s.lib), hip, table, found).value, ImageStars(s, found), a)
    ensures |a| == 3
    ensures a[0].vector == s.image[found.0].vector && a[1].vector == s.image[found.1].vector
              && a[2].vector == s.image[found.2].vector
    ensures IsTrioOf(bright, TruthOf(truth, found))
    ensures multiset{a[0].labelId, a[1].labelId, a[2].labelId}
         == multiset{bright[truth[found.0]].labelId, bright[truth[found.1]].labelId, bright[truth[found.2]].labelId}
  {
    PivotFindsTheTruth(s, hip, bright, fov, table, truth, found);
    var r := TrioOutcome(s, Planar(s.lib), hip, table, found).value;
    var k :| IsFirstBest(s, Nearby(s.lib, hip, r.first.vector, s.fov), r, ImageStars(s, found), k)
        && a == LabelledBy(ImageStars(s, found), r, k);
    LabelsRearrange(ImageStars(s, found), r, k);
    ReorderedLabels(r, StarsOf(bright, TruthOf(truth, found)));
  }

  lemma OrderIsReordering(r: Trio<Star>, k: nat)
    requires k < 6
    ensures IsReorderingOf(InOrder(r, k), r)
  {
  }

  lemma LabelsRearrange(b: Trio<Star>, r: Trio<Star>, k: nat)
    requires k < 6
    ensures var a := LabelledBy(b, r, k);
            && a[0].vector == b.first.vector && a[1].vector == b.second.vector && a[2].vector == b.third.vector
            && multiset{a[0].labelId, a[1].labelId, a[2].labelId}
               == multiset{r.first.labelId, r.second.labelId, r.third.labelId}
  {
    hide InOrder, IsReorderingOf;
    OrderIsReordering(r, k);
    ReorderedLabels(InOrder(r, k), r);
  }

  lemma ReorderedLabels(t: Trio<Star>, r: Trio<Star>)
    requires IsReorderingOf(t, r)
    ensures multiset{t.first.labelId, t.second.labelId, t.third.labelId}
              == multiset{r.first.labelId, r.second.labelId, r.third.labelId}
  {
  }

  lemma OrderOf(t: Trio<Star>, r: Trio<Star>) returns (k: nat)
    requires IsReorderingOf(t, r)
    ensures k < 6 && InOrder(t, k) == r
  {
    k := if t == r then 0
         else if InOrder(t, 1) == r then 1
         else if InOrder(t, 2) == r then 2
         else if InOrder(t, 3) == r then 3
         else if InOrder(t, 4) == r then 4 else 5;
  }

  /** And the order they are labelled in explains at least as many catalogue stars as the true
      attitude does. */
  lemma AnswerScoresAtLeastTheTruth(s: Setting, hip: seq<Star>, bright: seq<Star>, fov: real, table: seq<Row>,
                                    truth: seq<int>,
                                    q: Quaternion, found: IndexTrio, bigP: seq<Star>, r: Trio<Star>, best: nat)
    requires IsTrueRun(s, hip, bright, fov, table, truth, q)
    requires 0 <= found.0 < found.1 < found.2 < |s.image|
    requires TrioOutcome(s, Planar(s.lib), hip, table, found) == Some(r)
    requires IsFirstBest(s, bigP, r, ImageStars(s, found), best)
    requires !Collinear(bright[truth[found.0]].vector, bright[truth[found.1]].vector)
    ensures Score(s, bigP, r, ImageStars(s, found), best) >= |Overlay(s.lib, s.image, bigP, q, s.epsilon4)|
  {
    hide Score, Overlay, TrioOutcome, IsTrioTable, Survived, InOrder, IsMeasuredRun;
    RotatedRunIsMeasured(s, hip, bright, fov, table, truth, q);
    PivotFindsTheTruth(s, hip, bright, fov, table, truth, found);
    var k := OrderOf(r, StarsOf(bright, TruthOf(truth, found)));
    TrueOrderScoresTheAttitude(s, bigP, r, ImageStars(s, found), q, k);
  }

  /** Which of its six orders a trio was taken in can be told from the labels. */
  lemma OrderFromLabels(b: Trio<Star>, r: Trio<Star>, k: nat, l: nat)
    requires k < 6 && l < 6 && LabelledBy(b, r, k) == LabelledBy(b, r, l)
    requires r.first.labelId != r.second.labelId && r.first.labelId != r.third.labelId
              && r.second.labelId != r.third.labelId
    ensures k == l
  {
    var a, c := LabelledBy(b, r, k), LabelledBy(b, r, l);
    assert a[0].labelId == c[0].labelId && a[1].labelId == c[1].labelId && a[2].labelId == c[2].labelId;
  }

  lemma LabelsOfTruth(bright: seq<Star>, t: IndexTrio, r: Trio<Star>)
    requires DistinctLabels(bright) && IsTrioOf(bright, t) && Distinct(t) && IsReorderingOf(r, StarsOf(bright, t))
    ensures r.first.labelId != r.second.labelId && r.first.labelId != r.third.labelId
              && r.second.labelId != r.third.labelId
  {
  }

  /** Three image stars with their own labels. */
  function TrueLabelling(s: Setting, bright: seq<Star>, truth: seq<int>, c: IndexTrio): seq<Star>
    requires IsTrioOf(s.image, c) && |truth| == |s.image| && IsTrioOf(bright, TruthOf(truth, c))
  {
    [DefineLabel(s.image[c.0], bright[truth[c.0]].labelId), DefineLabel(s.image[c.1], bright[truth[c.1]].labelId),
     DefineLabel(s.image[c.2], bright[truth[c.2]].labelId)]
  }

  /** The best of the six orders of the true trio is the right one if and only if, of those tried
      before it, none brings all of the given catalogue stars near an image star, provided that the
      attitude does. */
  lemma BestOrderIsTrueIff(s: Setting, bright: seq<Star>, truth: seq<int>, q: Quaternion, c: IndexTrio, bigP: seq<Star>,
                           r: Trio<Star>, best: nat) returns (k: nat)
    requires s.lib.Sound() && DistinctLabels(bright) && Shows(s.image, bright, truth, q)
    requires IsTrioOf(s.image, c) && Distinct(c)
    requires IsReorderingOf(r, StarsOf(bright, TruthOf(truth, c))) && IsFirstBest(s, bigP, r, ImageStars(s, c), best)
    requires !Collinear(bright[truth[c.0]].vector, bright[truth[c.1]].vector)
    requires forall p :: p in bigP ==> HasMatch(s.lib, s.image, q, s.epsilon4, p)
    ensures k < 6 && InOrder(r, k) == StarsOf(bright, TruthOf(truth, c))
    ensures best == k <==> forall i: nat :: i < k ==> Score(s, bigP, r, ImageStars(s, c), i) < |bigP|
    ensures best == k <==> InOrder(r, best) == StarsOf(bright, TruthOf(truth, c))
    ensures best == k <==> LabelledBy(ImageStars(s, c), r, best) == TrueLabelling(s, bright, truth, c)
  {
    hide Score, Overlay, InOrder, LabelledBy, HasMatch, IsReorderingOf, Rotate;
    var b := ImageStars(s, c);
    TrueIndicesDiffer(s, bright, truth, q, c);
    LabelsOfTruth(bright, TruthOf(truth, c), r);
    k := OrderOf(r, StarsOf(bright, TruthOf(truth, c)));
    TrueOrderScoresTheAttitude(s, bigP, r, b, q, k);
    OverlayOfAll(s.lib, s.image, bigP, q, s.epsilon4);
    ScoreAtMostAll(s, bigP, r, b, best);
    LabelledInTrueOrder(s, bright, truth, c, r, k);
    if InOrder(r, best) == StarsOf(bright, TruthOf(truth, c)) {
      LabelledInTrueOrder(s, bright, truth, c, r, best);
    }
    if LabelledBy(b, r, best) == LabelledBy(b, r, k) {
      OrderFromLabels(b, r, best, k);
    }
  }

  /** When the answer is right. If the attitude brings every catalogue star within the field of view of
      the first star found near an image star, each of the three image stars gets its own label if and
      only if no order tried before the true one brings them all near an image star as well. */
  lemma AnswerIsTrueIff(s: Setting, hip: seq<Star>, bright: seq<Star>, fov: real, table: seq<Row>, truth: seq<int>,
                        q: Quaternion, found: IndexTrio, bigP: seq<Star>, r: Trio<Star>, a: seq<Star>) returns (k: nat)
    requires IsTrueRun(s, hip, bright, fov, table, truth, q)
    requires 0 <= found.0 < found.1 < found.2 < |s.image|
    requires TrioOutcome(s, Planar(s.lib), hip, table, found) == Some(r)
    requires IsBestLabelling(s, hip, r, ImageStars(s, found), a)
    requires bigP == Nearby(s.lib, hip, r.first.vector, s.fov)
    requires !Collinear(bright[truth[found.0]].vector, bright[truth[found.1]].vector)
    requires forall p :: p in bigP ==> HasMatch(s.lib, s.image, q, s.epsilon4, p)
    ensures k < 6 && InOrder(r, k) == StarsOf(bright, TruthOf(truth, found))
    ensures a == TrueLabelling(s, bright, truth, found) <==>
            forall i: nat :: i < k ==> Score(s, bigP, r, ImageStars(s, found), i) < |bigP|
  {
    hide Score, TrioOutcome, IsTrioTable, Survived, InOrder, IsMeasuredRun, LabelledBy, HasMatch, IsReorderingOf,
        Nearby,
        Shows, OnTheSphere, ShownWithin;
    RotatedRunIsMeasured(s, hip, bright, fov, table, truth, q);
    PivotFindsTheTruth(s, hip, bright, fov, table, truth, found);
    var best :| IsFirstBest(s, bigP, r, ImageStars(s, found), best) && a == LabelledBy(ImageStars(s, found), r, best);
    k := BestOrderIsTrueIff(s, bright, truth, q, found, bigP, r, best);
  }

  lemma LabelledInTrueOrder(s: Setting, bright: seq<Star>, truth: seq<int>, c: IndexTrio, r: Trio<Star>, k: nat)
    requires IsTrioOf(s.image, c) && |truth| == |s.image| && IsTrioOf(bright, TruthOf(truth, c))
    requires k < 6 && InOrder(r, k) == StarsOf(bright, TruthOf(truth, c))
    ensures LabelledBy(ImageStars(s, c), r, k) == TrueLabelling(s, bright, truth, c)
  {
    hide InOrder;
  }

  lemma ScoreAtMostAll(s: Setting, bigP: seq<Star>, r: Trio<Star>, b: Trio<Star>, k: nat)
    requires s.lib.Sound() && k < 6
    ensures Score(s, bigP, r, b, k) <= |bigP|
  {
    OverlayOfAll(s.lib, s.image, bigP, TrioAttitude(s.lib, b, InOrder(r, k)), s.epsilon4);
  }

  lemma TrueIndicesDiffer(s: Setting, bright: seq<Star>, truth: seq<int>, q: Quaternion, c: IndexTrio)
    requires Shows(s.image, bright, truth, q) && IsTrioOf(s.image, c) && Distinct(c)
    ensures Distinct(TruthOf(truth, c))
  {
    assert forall i, j :: 0 <= i < |truth| && 0 <= j < |truth| && i != j ==> truth[i] != truth[j];
  }

  // ---- The assumptions can be met

  /** There are runs of this kind: three stars, their table and their image. */
  lemma TrueRunsExist(lib: Libm)
      returns (s: Setting, bright: seq<Star>, fov: real, table: seq<Row>, truth: seq<int>, q: Quaternion)
    requires lib.Sound()
    ensures IsTrueRun(s, bright, bright, fov, table, truth, q)
    ensures s.lib == lib && |s.image| == 3 && s.epsilon1 == s.epsilon2 == 0.0
  {
    var image;
    image, bright, truth, q, fov := ThreeStars(lib);
    table := TrioRowsOf(lib, Planar(lib), bright, fov, Trios(|bright|));
    s := Setting(lib, image, fov, 0.0, 0.0, 0.0, 10, "table", SwapAt(2));
  }
}
