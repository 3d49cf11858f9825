/** Identification by three pairs of stars (pyramid.cpp). */
module Pyramids {
  import opened Stars
  import opened Sequences
  import opened Enumeration
  import opened Chomps
  import opened Identifications
  import opened Angles
  import opened CommonStars

  const NO_CONFIDENT_R_FOUND_EITHER := -2

  datatype TriosEither = TriosEither(result: Option<Trio<Star>>, error: int)

  // ---- What the methods compute

  ghost predicate PairRowsOnly(table: seq<Row>) {
    forall row :: row in table ==> |row.labels| == 2 && |row.features| == 1
  }

  function LabelsOfRow(): Row -> seq<int> { (row: Row) => row.labels }

  /** The label pairs whose angle agrees with `theta`. */
  function PairLabels(s: Setting, table: seq<Row>, theta: real): seq<seq<int>> {
    Map(LabelsOfRow(), PairCandidates(s, table, theta))
  }

  lemma PairLabelsFrom(s: Setting, table: seq<Row>, theta: real)
    requires PairRowsOnly(table)
    ensures AtLeastPairs(PairLabels(s, table, theta))
    ensures forall x :: x in Flattened(PairLabels(s, table, theta)) ==> exists row :: row in table && x in row.labels
  {
    var rows := PairCandidates(s, table, theta);
    FilterAll(row => InBand(row, [theta - s.epsilon1], [theta + s.epsilon1]), table);
    forall k | 0 <= k < |rows| ensures |rows[k].labels| == 2 {
      assert rows[k] in table;
    }
    forall x | x in Flattened(PairLabels(s, table, theta)) ensures exists row :: row in table && x in row.labels {
      FlattenedFrom(PairLabels(s, table, theta), x);
      var k :| 0 <= k < |rows| && x in PairLabels(s, table, theta)[k];
      assert rows[k] in table && x in rows[k].labels;
    }
  }

  function TrioAngle(s: Setting, b: Trio<Star>, m: nat, n: nat): real
    requires m < 3 && n < 3
  {
    Separation(s.lib, b.At(m).vector, b.At(n).vector)
  }

  /** The labels for the three stars of `b`, when each of the three intersections holds exactly one. */
  ghost function CatalogueLabels(s: Setting, table: seq<Row>, b: Trio<Star>): Option<Trio<int>>
    requires PairRowsOnly(table)
  {
    PairLabelsFrom(s, table, TrioAngle(s, b, 0, 1));
    PairLabelsFrom(s, table, TrioAngle(s, b, 0, 2));
    PairLabelsFrom(s, table, TrioAngle(s, b, 1, 2));
    var ij := PairLabels(s, table, TrioAngle(s, b, 0, 1));
    var ik := PairLabels(s, table, TrioAngle(s, b, 0, 2));
    var jk := PairLabels(s, table, TrioAngle(s, b, 1, 2));
    var i := CommonOfTwo(ij, ik, []);
    var j := CommonOfTwo(ij, jk, i);
    var k := CommonOfTwo(ik, jk, i + j);
    if |i| == |j| == |k| == 1 then Some(Trio(i[0], j[0], k[0])) else None
  }

  function ImageTrio(s: Setting, t: IndexTrio): Trio<Star>
    requires 0 <= t.0 < t.1 < t.2 < |s.image|
  {
    Trio(s.image[t.0], s.image[t.1], s.image[t.2])
  }

  function LabelledTrio(b: Trio<Star>, labels: Trio<int>): seq<Star> {
    [DefineLabel(b.first, labels.first), DefineLabel(b.second, labels.second), DefineLabel(b.third, labels.third)]
  }

  /** None of these trios of image stars has catalogue labels. */
  ghost predicate NoLabels(s: Setting, table: seq<Row>, trios: seq<IndexTrio>)
    requires PairRowsOnly(table)
  {
    forall t :: t in trios ==> 0 <= t.0 < t.1 < t.2 < |s.image| && CatalogueLabels(s, table, ImageTrio(s, t)) == None
  }

  /** The stars of an image trio with its catalogue labels. */
  ghost predicate IsAnswerFor(s: Setting, table: seq<Row>, found: IndexTrio, result: seq<Star>)
    requires PairRowsOnly(table)
  {
    && 0 <= found.0 < found.1 < found.2 < |s.image|
    && var labels := CatalogueLabels(s, table, ImageTrio(s, found));
       && labels.Some?
       && result == LabelledTrio(ImageTrio(s, found), labels.value)
  }

  // ---- The identification object

  /** Every label that occurs is that of a star. */
  ghost predicate AllKnown(hip: seq<Star>, ell: seq<seq<int>>)
    requires AtLeastPairs(ell)
  {
    forall x :: x in Flattened(ell) ==> Known(hip, x)
  }

  function LabelsOf(stars: seq<Star>): seq<int> {
    Map((s: Star) => s.labelId, stars)
  }

  /** `stars` are what looking the labels up one by one returns. */
  ghost predicate LooksUp(hip: seq<Star>, labels: seq<int>, stars: seq<Star>) {
    |stars| == |labels| && forall k :: 0 <= k < |labels| ==> LookUp(hip, labels[k]) == Success(stars[k])
  }

  lemma LooksUpLabels(hip: seq<Star>, labels: seq<int>, stars: seq<Star>)
    requires LooksUp(hip, labels, stars)
    ensures LabelsOf(stars) == labels
  {
    forall k | 0 <= k < |labels| ensures stars[k].labelId == labels[k] {
      LookUpFinds(hip, labels[k]);
    }
  }

  class Pyramid {
    const ch: Chomp
    const own: Setting
    var nu: nat

    constructor (ch: Chomp, own: Setting)
      modifies ch`currentTable
      ensures this.ch == ch && this.own == own && nu == 0
    {
      this.ch, this.own, nu := ch, own, 0;
      new;
      ch.SelectTable(own.table);
    }

    ghost predicate Valid()
      reads ch
    {
      own.table in ch.tables && KnownRows(ch.tables[own.table], ch.hip, 2, 1)
    }

    ghost function Table(): (table: seq<Row>)
      requires Valid()
      reads ch
      ensures PairRowsOnly(table)
    {
      assert forall row :: row in ch.tables[own.table] ==> KnownRow(row, ch.hip, 2, 1);
      ch.tables[own.table]
    }

    lemma PairLabelsKnown(theta: real)
      requires Valid()
      ensures AtLeastPairs(PairLabels(own, Table(), theta))
      ensures AllKnown(ch.hip, PairLabels(own, Table(), theta))
    {
      PairLabelsFrom(own, Table(), theta);
      forall x | x in Flattened(PairLabels(own, Table(), theta)) ensures Known(ch.hip, x) {
        var row :| row in Table() && x in row.labels;
        assert KnownRow(row, ch.hip, 2, 1);
      }
    }

    method QueryForPairs(theta: real) returns (ell: seq<seq<int>>)
      requires Valid()
      modifies `nu, ch`currentTable
      ensures Valid() && Table() == old(Table())
      ensures nu == old(nu) + 1
      ensures ell == PairLabels(own, Table(), theta) && AtLeastPairs(ell) && AllKnown(ch.hip, ell)
    {
      ch.SelectTable(own.table);
      var queried := ch.SimpleBoundQuery([theta - own.epsilon1], [theta + own.epsilon1]);
      assert queried.Success?;
      var rows := queried.value;
      nu := nu + 1;
      PairLabelsKnown(theta);
      assert PairLabels(own, Table(), theta) == Map(LabelsOfRow(), rows);
      ell := [];
      for k := 0 to |rows|
        invariant ell == Map(LabelsOfRow(), rows)[..k]
      {
        assert |PairLabels(own, Table(), theta)[k]| == 2 by {
          FilterAll(row => InBand(row, [theta - own.epsilon1], [theta + own.epsilon1]), Table());
          assert rows[k] in Table();
        }
        assert [rows[k].labels[0], rows[k].labels[1]] == Map(LabelsOfRow(), rows)[k];
        ell := ell + [[rows[k].labels[0], rows[k].labels[1]]];
      }
    }

    /** Looks the labels up one by one. None of them is missing from the catalogue. */
    method QueryLabels(labels: seq<int>) returns (stars: seq<Star>)
      requires forall x :: x in labels ==> Known(ch.hip, x)
      ensures LooksUp(ch.hip, labels, stars)
    {
      stars := [];
      for k := 0 to |labels|
        invariant |stars| == k && forall l :: 0 <= l < k ==> LookUp(ch.hip, labels[l]) == Success(stars[l])
      {
        var star := ch.QueryHip(labels[k]);
        assert labels[k] in labels;
        assert star.Success?;
        stars := stars + [star.value];
      }
    }

    method Common(ab: seq<seq<int>>, ac: seq<seq<int>>, removed: seq<Star>) returns (stars: seq<Star>)
      requires AtLeastPairs(ab) && AtLeastPairs(ac) && AllKnown(ch.hip, ab)
      ensures LooksUp(ch.hip, CommonOfTwo(ab, ac, LabelsOf(removed)), stars)
    {
      var abList := FlattenPairs(ab);
      var acList := FlattenPairs(ac);
      var aList := Without(SetIntersection(abList, acList), LabelsOf(removed));
      forall x | x in aList ensures Known(ch.hip, x) {
        CommonFrom(ab, ac, LabelsOf(removed), x);
      }
      stars := QueryLabels(aList);
    }

    method CommonToThree(ae: seq<seq<int>>, be: seq<seq<int>>, ce: seq<seq<int>>, removed: seq<Star>)
        returns (stars: seq<Star>)
      requires AtLeastPairs(ae) && AtLeastPairs(be) && AtLeastPairs(ce) && AllKnown(ch.hip, ae)
      ensures LooksUp(ch.hip, CommonOfThree(ae, be, ce, LabelsOf(removed)), stars)
    {
      var aeList := FlattenPairs(ae);
      var beList := FlattenPairs(be);
      var ceList := FlattenPairs(ce);
      var abeList := SetIntersection(aeList, beList);
      var eList := Without(SetIntersection(abeList, ceList), LabelsOf(removed));
      forall x | x in eList ensures Known(ch.hip, x) {
        CommonFromThree(ae, be, ce, LabelsOf(removed), x);
      }
      stars := QueryLabels(eList);
    }

    /** Three accesses, and the three catalogue stars when each intersection holds one. */
    method FindCatalogStars(b: Trio<Star>) returns (r: TriosEither)
      requires Valid()
      modifies `nu, ch`currentTable
      ensures Valid() && Table() == old(Table())
      ensures nu == old(nu) + 3
      ensures r.error == 0 <==> r.result.Some?
      ensures r.error in {0, -2}
      ensures r.error == 0 <==> CatalogueLabels(own, Table(), b).Some?
      ensures r.error == 0 ==>
                var labels := CatalogueLabels(own, Table(), b).value;
                LooksUp(ch.hip, [labels.first, labels.second, labels.third],
                        [r.result.value.first, r.result.value.second, r.result.value.third])
    {
      hide CommonOfTwo, PairLabels, LookUp, KnownRows, Known;
      var ij := QueryForPairs(TrioAngle(own, b, 0, 1));
      var ik := QueryForPairs(TrioAngle(own, b, 0, 2));
      var jk := QueryForPairs(TrioAngle(own, b, 1, 2));
      var bigTi := Common(ij, ik, []);
      assert LabelsOf([]) == [];
      LooksUpLabels(ch.hip, CommonOfTwo(ij, ik, []), bigTi);
      var bigTj := Common(ij, jk, bigTi);
      var removed := bigTi + bigTj;
      LooksUpLabels(ch.hip, CommonOfTwo(ij, jk, LabelsOf(bigTi)), bigTj);
      assert LabelsOf(removed) == LabelsOf(bigTi) + LabelsOf(bigTj);
      var bigTk := Common(ik, jk, removed);
      if |bigTi| != 1 || |bigTj| != 1 || |bigTk| != 1 {
        return TriosEither(None, NO_CONFIDENT_R_FOUND_EITHER);
      }
      return TriosEither(Some(Trio(bigTi[0], bigTj[0], bigTk[0])), 0);
    }

    /** The stars of `b` with their catalogue labels. */
    method IdentifyAsList(b: Trio<Star>) returns (a: StarsEither)
      requires Valid()
      modifies `nu, ch`currentTable
      ensures Valid() && Table() == old(Table())
      ensures nu == old(nu) + 3
      ensures a == match CatalogueLabels(own, Table(), b)
                   case None => StarsEither([], -2)
                   case Some(labels) => StarsEither(LabelledTrio(b, labels), 0)
    {
      var r := FindCatalogStars(b);
      if r.error == NO_CONFIDENT_R_FOUND_EITHER {
        return StarsEither([], NO_CONFIDENT_A_EITHER);
      }
      var stars := r.result.value;
      ghost var labels := CatalogueLabels(own, Table(), b).value;
      LooksUpLabels(ch.hip, [labels.first, labels.second, labels.third], [stars.first, stars.second, stars.third]);
      assert LabelsOf([stars.first, stars.second, stars.third])
          == [stars.first.labelId, stars.second.labelId, stars.third.labelId];
      return StarsEither(LabelledTrio(b, Trio(stars.first.labelId, stars.second.labelId, stars.third.labelId)), 0);
    }

    /** The first trio with catalogue labels. Three accesses per trio, checked before each: at most
        `nuMax + 3`. Fewer than four stars are not tried at all. */
    method Identify() returns (a: StarsEither, ghost visited: seq<IndexTrio>, ghost found: IndexTrio)
      requires Valid()
      modifies `nu, ch`currentTable
      ensures Valid() && Table() == old(Table())
      ensures nu <= own.nuMax + 3
      ensures |own.image| >= 4 ==> visited <= PyramidTrios(|own.image|)
      ensures NoLabels(own, Table(), visited)
      ensures nu == 3 * |visited| + if a.error == 0 then 3 else 0
      ensures a.error == 0 ==> |own.image| >= 4 && visited + [found] <= PyramidTrios(|own.image|)
                               && IsAnswerFor(own, Table(), found, a.result)
      ensures a.error == -2 ==> |own.image| < 4 || visited == PyramidTrios(|own.image|)
      ensures a.error == -1 ==> nu > own.nuMax
      ensures a.error in {0, -2, -1} && (a.error != 0 ==> a.result == [])
    {
      hide GapTriosVisited, GapTriosBelow, GapTriosFrom, PyramidTrios, CatalogueLabels, KnownRows;
      nu := 0;
      visited, found := [], (0, 0, 0);
      PyramidLoopEnds(|own.image|);
      if |own.image| < 4 {
        return StarsEither([], NO_CONFIDENT_A_EITHER), visited, found;
      }
      ghost var table := Table();
      var n := |own.image|;
      var dj := 1;
      while dj < n - 1
        invariant 1 <= dj <= n - 1
        invariant Valid() && Table() == table
        invariant nu == 3 * |visited| && nu <= own.nuMax + 3
        invariant visited == GapTriosBelow(0, n - 1, dj) && NoLabels(own, table, visited)
      {
        GapTriosOuterStep(0, n - 1, dj);
        var dk := 1;
        assert n - dj - 1 >= 1;  // the unsigned bound does not wrap around
        while dk < n - dj - 1
          invariant 1 <= dk <= n - dj - 1
          invariant Valid() && Table() == table
          invariant nu == 3 * |visited| && nu <= own.nuMax + 3
          invariant visited == GapTriosBelow(0, n - 1, dj) + GapTriosFrom(0, n - 1, dj, dk)
                    && NoLabels(own, table, visited)
        {
          GapTriosStep(0, n - 1, dj, dk, 0);
          var di := 0;
          assert n - dj - dk - 1 >= 1;  // nor does this one
          while di < n - dj - dk - 1
            invariant 0 <= di <= n - dj - dk - 1
            invariant Valid() && Table() == table
            invariant nu == 3 * |visited| && nu <= own.nuMax + 3
            invariant visited == GapTriosVisited(0, n - 1, dj, dk, di) && NoLabels(own, table, visited)
          {
            var i, j, k := di, di + dj, di + dj + dk;
            PyramidTurn(n, dj, dk, di, visited);
            found := (i, j, k);
            if nu > own.nuMax {
              return StarsEither([], EXCEEDED_NU_MAX_EITHER), visited, found;
            }
            var a' := IdentifyAsList(ImageTrio(own, (i, j, k)));
            if a'.error == 0 {
              return a', visited, found;
            }
            visited := visited + [(i, j, k)];
            di := di + 1;
          }
          GapTriosStep(0, n - 1, dj, dk, di);
          dk := dk + 1;
        }
        dj := dj + 1;
      }
      return StarsEither([], NO_CONFIDENT_A_EITHER), visited, found;
    }

    /** The catalogue stars for the first trio with catalogue labels. The accesses are checked after
        each trio, so a match that took too many is dropped. An empty image makes the loop bounds
        wrap around and the first `at` throw. */
    method Reduce() returns (outcome: Result<StarsEither>, ghost visited: seq<IndexTrio>, ghost found: IndexTrio)
      requires Valid()
      modifies `nu, ch`currentTable
      ensures Valid() && Table() == old(Table())
      ensures nu <= own.nuMax + 3
      ensures outcome.Failure? <==> own.image == []
      ensures outcome.Success? ==> visited <= PyramidTrios(|own.image|) && NoLabels(own, Table(), visited)
      ensures outcome.Success? && outcome.value.error == 0 ==>
                && nu == 3 * |visited| + 3 <= own.nuMax
                && visited + [found] <= PyramidTrios(|own.image|) && 0 <= found.0 < found.1 < found.2 < |own.image|
                && var labels := CatalogueLabels(own, Table(), ImageTrio(own, found));
                   labels.Some? && LooksUp(ch.hip, [labels.value.first, labels.value.second, labels.value.third],
                                           outcome.value.result)
      ensures outcome.Success? && outcome.value.error != 0 ==>
                && outcome.value == StarsEither([], -3)
                && (|| (visited == PyramidTrios(|own.image|) && nu == 3 * |visited| <= own.nuMax)
                    || (&& visited + [found] <= PyramidTrios(|own.image|)
                        && 3 * |visited| <= own.nuMax < nu == 3 * |visited| + 3))
    {
      hide GapTriosVisited, GapTriosBelow, GapTriosFrom, PyramidTrios, CatalogueLabels, KnownRows, LooksUp,
          LabelledTrio;
      ch.SelectTable(own.table);
      nu := 0;
      visited, found := [], (0, 0, 0);
      PyramidLoopEnds(|own.image|);
      if own.image == [] {
        return Failure("vector::_M_range_check"), visited, found;
      }
      ghost var table := Table();
      var n := |own.image|;
      var dj := 1;
      while dj < n - 1
        invariant 1 <= dj && (dj <= n - 1 || dj == 1)
        invariant Valid() && Table() == table && nu == 3 * |visited| <= own.nuMax
        invariant visited == GapTriosBelow(0, n - 1, dj) && NoLabels(own, table, visited)
      {
        GapTriosOuterStep(0, n - 1, dj);
        var dk := 1;
        assert n - dj - 1 >= 1;  // the unsigned bound does not wrap around
        while dk < n - dj - 1
          invariant 1 <= dk <= n - dj - 1
          invariant Valid() && Table() == table && nu == 3 * |visited| <= own.nuMax
          invariant visited == GapTriosBelow(0, n - 1, dj) + GapTriosFrom(0, n - 1, dj, dk)
                    && NoLabels(own, table, visited)
        {
          GapTriosStep(0, n - 1, dj, dk, 0);
          var di := 0;
          assert n - dj - dk - 1 >= 1;  // nor does this one
          while di < n - dj - dk - 1
            invariant 0 <= di <= n - dj - dk - 1
            invariant Valid() && Table() == table && nu == 3 * |visited| <= own.nuMax
            invariant visited == GapTriosVisited(0, n - 1, dj, dk, di) && NoLabels(own, table, visited)
          {
            var i, j, k := di, di + dj, di + dj + dk;
            PyramidTurn(n, dj, dk, di, visited);
            found := (i, j, k);
            var b := IdentifyAsList(ImageTrio(own, (i, j, k)));
            if nu > own.nuMax {
              return Success(StarsEither([], NO_CONFIDENT_R_EITHER)), visited, found;
            }
            if b.error != NO_CONFIDENT_A_EITHER {
              var stars := ReducedStars(ImageTrio(own, (i, j, k)), b.result);
              return Success(StarsEither(stars, 0)), visited, found;
            }
            visited := visited + [(i, j, k)];
            di := di + 1;
          }
          GapTriosStep(0, n - 1, dj, dk, di);
          dk := dk + 1;
        }
        dj := dj + 1;
      }
      return Success(StarsEither([], NO_CONFIDENT_R_EITHER)), visited, found;
    }

    /** Looks up the three labels a trio was given. */
    method ReducedStars(b: Trio<Star>, labelled: seq<Star>) returns (stars: seq<Star>)
      requires Valid() && CatalogueLabels(own, Table(), b).Some?
      requires labelled == LabelledTrio(b, CatalogueLabels(own, Table(), b).value)
      ensures var labels := CatalogueLabels(own, Table(), b).value;
              LooksUp(ch.hip, [labels.first, labels.second, labels.third], stars)
    {
      ghost var labels := CatalogueLabels(own, Table(), b).value;
      CatalogueLabelsKnown(b);
      assert LabelsOf(labelled) == [labels.first, labels.second, labels.third];
      stars := QueryLabels([labelled[0].labelId, labelled[1].labelId, labelled[2].labelId]);
    }

    lemma CatalogueLabelsKnown(b: Trio<Star>)
      requires Valid() && CatalogueLabels(own, Table(), b).Some?
      ensures var labels := CatalogueLabels(own, Table(), b).value;
              Known(ch.hip, labels.first) && Known(ch.hip, labels.second) && Known(ch.hip, labels.third)
    {
      PairLabelsKnown(TrioAngle(own, b, 0, 1));
      PairLabelsKnown(TrioAngle(own, b, 0, 2));
      PairLabelsKnown(TrioAngle(own, b, 1, 2));
      var ij := PairLabels(own, Table(), TrioAngle(own, b, 0, 1));
      var ik := PairLabels(own, Table(), TrioAngle(own, b, 0, 2));
      var jk := PairLabels(own, Table(), TrioAngle(own, b, 1, 2));
      var i := CommonOfTwo(ij, ik, []);
      var j := CommonOfTwo(ij, jk, i);
      var k := CommonOfTwo(ik, jk, i + j);
      CommonFrom(ij, ik, [], i[0]);
      CommonFrom(ij, jk, i, j[0]);
      CommonFrom(ik, jk, i + j, k[0]);
    }
  }
}
