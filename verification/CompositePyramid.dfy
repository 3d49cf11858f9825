/** Identification by a single triangle (composite-pyramid.cpp). */
module Composites {
  import opened Libm
  import opened Quaternions
  import opened Stars
  import opened Sequences
  import opened Enumeration
  import opened Chomps
  import opened Identifications
  import opened TrioTables
  import opened Pivots
  import opened Images
  import opened Rotations
  import opened TriangleTruth

  const NO_CONFIDENT_R_FOUND_EITHER := -2

  datatype TriosEither = TriosEither(result: Option<Trio<Star>>, error: int)

  function BodyArea(s: Setting, b: Trio<Star>): real {
    PlanarFeatures.PlanarArea(s.lib, b.first.vector, b.second.vector, b.third.vector)
  }

  function BodyMoment(s: Setting, b: Trio<Star>): real {
    PlanarFeatures.PlanarMoment(s.lib, b.first.vector, b.second.vector, b.third.vector)
  }

  function CompositeRows(s: Setting, table: seq<Row>, b: Trio<Star>): seq<Row> {
    TrioCandidates(s, table, BodyArea(s, b), BodyMoment(s, b))
  }

  /** `r` is the trio `t` in the first of its six orders with the largest overlay on the image. */
  ghost predicate IsBestOrder(s: Setting, bright: seq<Star>, t: Trio<Star>, b: Trio<Star>, r: Trio<Star>)
    requires s.lib.Sound()
  {
    exists k: nat :: IsFirstBest(s, Nearby(s.lib, bright, t.first.vector, s.fov), t, b, k) && r == InOrder(t, k)
  }

  class Composite {
    const ch: Chomp
    const own: Setting
    var nu: nat

    constructor (ch: Chomp, own: Setting)
      modifies ch`currentTable
      ensures this.ch == ch && this.own == own && nu == 0
      ensures ch.currentTable == own.table
    {
      this.ch, this.own, nu := ch, own, 0;
      new;
      ch.SelectTable(own.table);
    }

    ghost predicate Valid()
      reads ch
    {
      && own.Sound()
      && own.table in ch.tables && ch.currentTable == own.table
      && KnownRows(ch.tables[own.table], ch.hip, 3, 2)
    }

    ghost function Table(): seq<Row>
      requires Valid()
      reads ch
    {
      ch.tables[own.table]
    }

    method QueryForTrios(a: real, i: real) returns (rows: seq<Row>)
      requires Valid()
      modifies `nu
      ensures rows == TrioCandidates(own, Table(), a, i) && nu == old(nu) + 1
      ensures forall k :: 0 <= k < |rows| ==> KnownRow(rows[k], ch.hip, 3, 2)
    {
      var low, high := [a - own.epsilon1, i - own.epsilon2], [a + own.epsilon1, i + own.epsilon2];
      var queried := ch.SimpleBoundQuery(low, high);
      nu := nu + 1;
      rows := queried.value;
      FilterAll(row => InBand(row, low, high), Table());
      forall k | 0 <= k < |rows| ensures KnownRow(rows[k], ch.hip, 3, 2) {
        assert rows[k] in Table();
      }
    }

    method QueryStar(labelId: int) returns (s: Star)
      requires Known(ch.hip, labelId)
      ensures s == StarAt(ch.hip, labelId)
    {
      var found := ch.QueryHip(labelId);
      assert found.Success?;
      s := found.value;
    }

    /** The stars of a row's labels in the i-th order. */
    method StarsInOrder(ghost row: Row, labels: seq<int>, i: nat) returns (o: Trio<Star>)
      requires KnownRow(row, ch.hip, 3, 2) && labels == row.labels && i < 6
      ensures o == InOrder(StarsOfRow(ch.hip)(row), i)
    {
      var j := InOrder(Trio(labels[0], labels[1], labels[2]), i);
      var first := QueryStar(j.first);
      var second := QueryStar(j.second);
      var third := QueryStar(j.third);
      return Trio(first, second, third);
    }

    method ScoredOverlay(bigP: seq<Star>, o: Trio<Star>, b: Trio<Star>, ghost t: Trio<Star>, ghost i: nat)
        returns (m: seq<Star>)
      requires own.Sound() && i < 6 && o == InOrder(t, i)
      ensures |m| == Score(own, bigP, t, b, i)
    {
      m := FindPositiveOverlay(own.lib, own.shuffler, own.image, bigP, TrioAttitude(own.lib, b, o), own.epsilon4);
    }

    /** The stars of a row in their best order. The guard in front of the answer never holds. */
    method BestStars(bigP: seq<Star>, ghost row: Row, labels: seq<int>, b: Trio<Star>)
        returns (r: TriosEither, ghost best: nat)
      requires own.Sound() && KnownRow(row, ch.hip, 3, 2) && labels == row.labels
      ensures var t := StarsOfRow(ch.hip)(row);
              IsFirstBest(own, bigP, t, b, best) && r == TriosEither(Some(InOrder(t, best)), 0)
    {
      hide Score, KnownRow, InOrder, StarsOfRow, IsFirstBest;
      ghost var t := StarsOfRow(ch.hip)(row);
      var bigM := new seq<Star>[6];
      var bigA := new seq<Star>[6];
      for i := 0 to 6
        invariant forall k :: 0 <= k < i ==> |bigM[k]| == Score(own, bigP, t, b, k)
        invariant forall k :: 0 <= k < i ==> bigA[k] == [InOrder(t, k).first, InOrder(t, k).second, InOrder(t, k).third]
      {
        var o := StarsInOrder(row, labels, i);
        bigM[i] := ScoredOverlay(bigP, o, b, t, i);
        bigA[i] := [o.first, o.second, o.third];
      }
      var sizes := [|bigA[0]|, |bigA[1]|, |bigA[2]|, |bigA[3]|, |bigA[4]|, |bigA[5]|];
      GuardNeverFires(sizes);
      best := 0;
      if EqualsChain(sizes) != 0 {
        r := TriosEither(None, NO_CONFIDENT_R_FOUND_EITHER);
        return;
      }
      var largest := MaxElement(bigM);
      best := largest;
      BestIsFirst(bigP, t, b, best, bigM[..]);
      var maxA := bigA[largest];
      assert Trio(maxA[0], maxA[1], maxA[2]) == InOrder(t, best);
      r := TriosEither(Some(Trio(maxA[0], maxA[1], maxA[2])), 0);
    }

    /** Exactly one row answers, with its stars in their best order. */
    method FindCatalogStars(b: Trio<Star>) returns (r: TriosEither)
      requires Valid()
      modifies `nu
      ensures var rows := CompositeRows(own, Table(), b);
              && nu == old(nu) + (if |rows| == 1 then 2 else 1)
              && (|rows| != 1 ==> r == TriosEither(None, -2))
              && (|rows| == 1 ==> r.error == 0 && r.result.Some?
                                  && IsBestOrder(own, ch.bright, StarsOfRow(ch.hip)(rows[0]), b, r.result.value))
    {
      hide TrioCandidates, Score, KnownRows, KnownRow, InOrder, StarsOfRow, BodyArea, BodyMoment, IsFirstBest, Nearby;
      var rows := QueryForTrios(BodyArea(own, b), BodyMoment(own, b));
      if |rows| != 1 {
        return TriosEither(None, NO_CONFIDENT_R_FOUND_EITHER);
      }
      var corner := QueryCorner(rows[0], rows[0].labels);
      var bigP := ch.NearbyBrightStars(own.lib, corner.vector, own.fov);
      nu := nu + 1;
      ghost var best;
      r, best := BestStars(bigP, rows[0], rows[0].labels, b);
      assert IsBestOrder(own, ch.bright, StarsOfRow(ch.hip)(rows[0]), b, r.result.value);
    }

    method QueryCorner(ghost row: Row, labels: seq<int>) returns (s: Star)
      requires KnownRow(row, ch.hip, 3, 2) && labels == row.labels
      ensures s == StarsOfRow(ch.hip)(row).first
    {
      s := QueryStar(labels[0]);
    }

    lemma BestIsFirst(bigP: seq<Star>, t: Trio<Star>, b: Trio<Star>, best: nat, m: seq<seq<Star>>)
      requires own.Sound() && |m| == 6 && best < 6
      requires forall k: nat :: k < 6 ==> |m[k]| == Score(own, bigP, t, b, k)
      requires forall k: nat :: k < 6 ==> |m[k]| <= |m[best]|
      requires forall k: nat :: k < best ==> |m[k]| < |m[best]|
      ensures IsFirstBest(own, bigP, t, b, best)
    {
      hide Score;
      forall k: nat | k < 6 ensures Score(own, bigP, t, b, k) <= Score(own, bigP, t, b, best) {
        assert |m[k]| <= |m[best]|;
      }
      forall k: nat | k < best ensures Score(own, bigP, t, b, k) < Score(own, bigP, t, b, best) {
        assert |m[k]| < |m[best]|;
      }
    }
  }

  // ---- Soundness

  /** When one row answers for three measured image stars, it is the row of the true stars. */
  lemma CompositeIsSound(s: Setting, hip: seq<Star>, bright: seq<Star>, fov: real, table: seq<Row>, truth: seq<int>,
                         c: IndexTrio)
    requires IsMeasuredRun(s, hip, bright, fov, table, truth)
    requires 0 <= c.0 < c.1 < c.2 < |s.image|
    ensures IsTrioOf(bright, TruthOf(truth, c))
    ensures var rows := CompositeRows(s, table, ImageStars(s, c));
            |rows| == 1 ==> IsReorderingOf(StarsOfRow(hip)(rows[0]), StarsOf(bright, TruthOf(truth, c)))
  {
    hide IsTrioTable;
    TrueTrioIsCandidate(s, hip, bright, fov, table, truth, c);
    SortedReorders(bright, TruthOf(truth, c));
    assert MeasuresTrio(s, bright, fov, truth, c);
    var rows := CompositeRows(s, table, ImageStars(s, c));
    assert MatchingTrios(s, Planar(s.lib), hip, table, ImageStars(s, c)) == Map(StarsOfRow(hip), rows);
  }

  /** When the stars of that row come out in the right order: if the attitude brings every bright star
      within the field of view of the first star of the row near an image star, exactly when no order
      tried before the true one brings them all near one as well. */
  lemma OrderIsTrueIff(s: Setting, hip: seq<Star>, bright: seq<Star>, fov: real, table: seq<Row>, truth: seq<int>,
                       q: Quaternion, c: IndexTrio, bigP: seq<Star>, t: Trio<Star>, r: Trio<Star>) returns (k: nat)
    requires IsTrueRun(s, hip, bright, fov, table, truth, q)
    requires 0 <= c.0 < c.1 < c.2 < |s.image|
    requires |CompositeRows(s, table, ImageStars(s, c))| == 1
    requires t == StarsOfRow(hip)(CompositeRows(s, table, ImageStars(s, c))[0])
    requires IsBestOrder(s, bright, t, ImageStars(s, c), r)
    requires bigP == Nearby(s.lib, bright, t.first.vector, s.fov)
    requires !Collinear(bright[truth[c.0]].vector, bright[truth[c.1]].vector)
    requires forall p :: p in bigP ==> HasMatch(s.lib, s.image, q, s.epsilon4, p)
    ensures IsTrioOf(bright, TruthOf(truth, c))
    ensures k < 6 && InOrder(t, k) == StarsOf(bright, TruthOf(truth, c))
    ensures r == StarsOf(bright, TruthOf(truth, c)) <==>
            forall i: nat :: i < k ==> Score(s, bigP, t, ImageStars(s, c), i) < |bigP|
  {
    hide Score, IsTrioTable, InOrder, IsMeasuredRun, HasMatch, IsReorderingOf, Nearby, Shows, OnTheSphere,
        ShownWithin, CompositeRows, StarsOfRow;
    RotatedRunIsMeasured(s, hip, bright, fov, table, truth, q);
    CompositeIsSound(s, hip, bright, fov, table, truth, c);
    var best: nat :| IsFirstBest(s, bigP, t, ImageStars(s, c), best) && r == InOrder(t, best);
    k := BestOrderIsTrueIff(s, bright, truth, q, c, bigP, t, best);
  }

  // ---- The reduction of the source

  /** The reduction passes the area for the moment as well (composite-pyramid.cpp). It then finds a
      row with the right area exactly when area and moment of the row differ by at most epsilon 2. */
  lemma ReductionFindsRowIff(s: Setting, table: seq<Row>, row: Row, area: real, moment: real)
    requires s.epsilon1 >= 0.0
    requires row in table && row.features == [area, moment]
    ensures row in TrioCandidates(s, table, area, area) <==> -s.epsilon2 <= moment - area <= s.epsilon2
  {
    var low, high := [area - s.epsilon1, area - s.epsilon2], [area + s.epsilon1, area + s.epsilon2];
    BoundQueryIsExact(table, low, high, row);
    assert InBand(row, low, high) <==> low[0] <= row.features[0] <= high[0] && low[1] <= row.features[1] <= high[1];
  }

  /** So for three stars of a rotated image it misses the true row unless epsilon 2 is at least two
      thirds of their area, although a query for their moment finds that row. */
  lemma ReductionMissesTheTruth(s: Setting, hip: seq<Star>, bright: seq<Star>, fov: real, table: seq<Row>,
                                truth: seq<int>, q: Quaternion, c: IndexTrio)
    requires IsTrueRun(s, hip, bright, fov, table, truth, q)
    requires 0 <= c.0 < c.1 < c.2 < |s.image|
    requires 3.0 * s.epsilon2 < 2.0 * BodyArea(s, ImageStars(s, c))
    ensures IsTrioOf(bright, TruthOf(truth, c))
    ensures var b := ImageStars(s, c);
            var row := TrioRow(Planar(s.lib), bright, Sorted(TruthOf(truth, c)));
            row in TrioCandidates(s, table, BodyArea(s, b), BodyMoment(s, b))
                && row !in TrioCandidates(s, table, BodyArea(s, b), BodyArea(s, b))
  {
    var t := TruthOf(truth, c);
    ShownTrioWithin(s, bright, truth, q, c, fov);
    TrioHasRow(s.lib, bright, fov, table, t);
    SortedReorders(bright, t);
    RowFeatures(s.lib, bright, t);
    TrueFeatures(s, bright, truth, q, c);
    var u := Sorted(t);
    var row := TrioRow(Planar(s.lib), bright, u);
    var area, moment := TrioArea(Planar(s.lib), s.image, c), TrioMoment(Planar(s.lib), s.image, c);
    RowIsCandidate(s, table, row, area, moment);
    ReductionFindsRowIff(s, table, row, area, moment);
    PlanarFeatures.DistinctUnitsHaveFeatures(s.lib, bright[u.0].vector, bright[u.1].vector, bright[u.2].vector);
    PlanarFeatures.UnitMomentBelowArea(s.lib, bright[u.0].vector, bright[u.1].vector, bright[u.2].vector);
  }

  /** It does happen: a run in which the query for area and moment finds the row of the three stars
      shown, and the reduction does not. */
  lemma ReductionCanMiss(lib: Libm)
      returns (s: Setting, bright: seq<Star>, fov: real, table: seq<Row>, truth: seq<int>, q: Quaternion)
    requires lib.Sound()
    ensures IsTrueRun(s, bright, bright, fov, table, truth, q) && |s.image| == 3
    ensures IsTrioOf(bright, TruthOf(truth, (0, 1, 2)))
    ensures var b := ImageStars(s, (0, 1, 2));
            var row := TrioRow(Planar(s.lib), bright, Sorted(TruthOf(truth, (0, 1, 2))));
            && row in TrioCandidates(s, table, BodyArea(s, b), BodyMoment(s, b))
            && row !in TrioCandidates(s, table, BodyArea(s, b), BodyArea(s, b))
  {
    s, bright, fov, table, truth, q := TrueRunsExist(lib);
    ImageAreaIsPositive(s, bright, fov, table, truth, q, (0, 1, 2));
    ReductionMissesTheTruth(s, bright, bright, fov, table, truth, q, (0, 1, 2));
  }

  lemma ImageAreaIsPositive(s: Setting, bright: seq<Star>, fov: real, table: seq<Row>, truth: seq<int>, q: Quaternion,
                            c: IndexTrio)
    requires IsTrueRun(s, bright, bright, fov, table, truth, q)
    requires 0 <= c.0 < c.1 < c.2 < |s.image|
    ensures BodyArea(s, ImageStars(s, c)) > 0.0
  {
    var t := TruthOf(truth, c);
    ShownTrioWithin(s, bright, truth, q, c, fov);
    TrueFeatures(s, bright, truth, q, c);
    PlanarFeatures.DistinctUnitsHaveFeatures(s.lib, bright[t.0].vector, bright[t.1].vector, bright[t.2].vector);
  }
}
