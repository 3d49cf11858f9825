/** Identification by triangles of three stars (base-triangle.cpp, base-triangle.h). */
module BaseTriangles {
  import opened Stars
  import opened Sequences
  import opened Enumeration
  import opened Chomps
  import opened Identifications
  import opened TrioTables
  import opened Pivots

  const NO_CANDIDATE_STARS_FOUND_EITHER := -1
  const NO_CANDIDATE_STAR_SET_FOUND_EITHER := -2

  datatype TrioVectorEither = TrioVectorEither(result: seq<Trio<Star>>, error: int)
  datatype TriosEither = TriosEither(result: Option<Trio<Star>>, error: int)

  ghost predicate NoOutcome(s: Setting, f: Features, hip: seq<Star>, table: seq<Row>, trios: seq<IndexTrio>) {
    forall t :: t in trios ==> 0 <= t.0 < t.1 < t.2 < |s.image| && TrioOutcome(s, f, hip, table, t) == None
  }

  /** `a` labels the body trio in the first of the six orders with the largest score. */
  ghost predicate IsBestLabelling(s: Setting, hip: seq<Star>, r: Trio<Star>, b: Trio<Star>, a: seq<Star>)
    requires s.lib.Sound()
  {
    exists k :: IsFirstBest(s, Nearby(s.lib, hip, r.first.vector, s.fov), r, b, k) && a == LabelledBy(b, r, k)
  }

  class BaseTriangle {
    const ch: Chomp
    const own: Setting
    const features: Features
    var nu: nat
    var pivotC: seq<int>
    var bigR1: Option<seq<Trio<Star>>>

    constructor (ch: Chomp, own: Setting, features: Features)
      modifies ch`currentTable
      ensures this.ch == ch && this.own == own && this.features == features
      ensures nu == 0 && pivotC == [] && bigR1 == None && ch.currentTable == own.table
    {
      this.ch, this.own, this.features, nu, pivotC, bigR1 := ch, own, features, 0, [], None;
      new;
      ch.SelectTable(own.table);
    }

    /** The object's table is the current one, and its rows are trios of catalogue stars. */
    ghost predicate Valid()
      reads ch
    {
      && own.Sound()
      && own.table in ch.tables && ch.currentTable == own.table
      && KnownRows(ch.tables[own.table], ch.hip, 3, 2)
    }

    ghost function Table(): seq<Row>
      requires Valid()
      reads ch
    {
      ch.tables[own.table]
    }

    ghost function Query(c: IndexTrio): int -> seq<Trio<Star>>
      requires Valid()
      reads ch
    {
      Queries(own, features, ch.hip, Table(), c)
    }

    /** Takes the front of the queue. */
    method PTop() returns (t: int)
      requires pivotC != []
      modifies `pivotC
      ensures [t] + pivotC == old(pivotC)
    {
      t := pivotC[0];
      pivotC := pivotC[1..];
    }

    method QueryForTrio(a: real, i: real) returns (labels: seq<seq<int>>)
      requires Valid()
      ensures labels == Map((row: Row) => row.labels, TrioCandidates(own, Table(), a, i))
    {
      var low, high := [a - own.epsilon1, i - own.epsilon2], [a + own.epsilon1, i + own.epsilon2];
      var queried := ch.SimpleBoundQuery(low, high);
      assert queried.Success?;
      var matches := queried.value;
      if matches == [] {
        return [];
      }
      FilterAll(row => InBand(row, low, high), Table());
      labels := [];
      for k := 0 to |matches|
        invariant labels == Map((row: Row) => row.labels, matches)[..k]
      {
        assert KnownRow(matches[k], ch.hip, 3, 2);
        assert [matches[k].labels[0], matches[k].labels[1], matches[k].labels[2]] == matches[k].labels;
        labels := labels + [[matches[k].labels[0], matches[k].labels[1], matches[k].labels[2]]];
      }
    }

    /** Looks up the three stars of each list of labels. None of them is missing from the catalogue. */
    method QueryStars(ghost rows: seq<Row>, labels: seq<seq<int>>) returns (trios: seq<Trio<Star>>)
      requires forall k :: 0 <= k < |rows| ==> KnownRow(rows[k], ch.hip, 3, 2)
      requires labels == Map((row: Row) => row.labels, rows)
      ensures trios == Map(StarsOfRow(ch.hip), rows)
    {
      trios := [];
      for k := 0 to |labels|
        invariant trios == Map(StarsOfRow(ch.hip), rows)[..k]
      {
        assert labels[k] == rows[k].labels;
        var first := ch.QueryHip(labels[k][0]);
        var second := ch.QueryHip(labels[k][1]);
        var third := ch.QueryHip(labels[k][2]);
        assert first.Success? && second.Success? && third.Success?;
        trios := trios + [Trio(first.value, second.value, third.value)];
      }
    }

    /** The matches for three image stars, and the error exactly when there are none. Stars that
        are not within the field of view of each other are not looked up and cost no access. */
    method BaseQueryForTrios(c: IndexTrio) returns (r: TrioVectorEither)
      requires Valid() && IsTrioOf(own.image, c)
      modifies `nu
      ensures r.result == MatchingTrios(own, features, ch.hip, Table(), ImageStars(own, c))
      ensures r.error == if r.result == [] then -1 else 0
      ensures nu == old(nu) + if InView(own, ImageStars(own, c)) then 1 else 0
    {
      var b := ImageStars(own, c);
      TrioWithinIsPairwise(own.lib, b.first, b.second, b.third, own.fov);
      var within := WithinAngleOfEachOther(own.lib, [b.first, b.second, b.third], own.fov);
      if !within {
        return TrioVectorEither([], NO_CANDIDATE_STARS_FOUND_EITHER);
      }
      var area := features.Area(b.first.vector, b.second.vector, b.third.vector);
      var moment := features.Moment(b.first.vector, b.second.vector, b.third.vector);
      ghost var rows := TrioCandidates(own, Table(), area, moment);
      var labels := QueryForTrio(area, moment);
      nu := nu + 1;
      if labels == [] {
        assert rows == [];
        return TrioVectorEither([], NO_CANDIDATE_STARS_FOUND_EITHER);
      }
      CandidatesKnown(area, moment);
      var trios := QueryStars(rows, labels);
      return TrioVectorEither(trios, 0);
    }

    lemma CandidatesKnown(area: real, moment: real)
      requires Valid()
      ensures var rows := TrioCandidates(own, Table(), area, moment);
              forall k :: 0 <= k < |rows| ==> KnownRow(rows[k], ch.hip, 3, 2)
    {
      var low, high := [area - own.epsilon1, moment - own.epsilon2], [area + own.epsilon1, moment + own.epsilon2];
      FilterAll(row => InBand(row, low, high), Table());
      var rows := TrioCandidates(own, Table(), area, moment);
      forall k | 0 <= k < |rows| ensures KnownRow(rows[k], ch.hip, 3, 2) {
        assert rows[k] in Table();
      }
    }

    /** Forgets the past matches and queues every image star that is not in the trio. */
    method InitializePivot(c: IndexTrio)
      modifies `pivotC, `bigR1
      ensures pivotC == Others(c, |own.image|) && bigR1 == None
    {
      bigR1 := None;
      pivotC := [];
      for j := 0 to |own.image|
        invariant pivotC == Others(c, j) && bigR1 == None
      {
        if j != c.0 && j != c.1 && j != c.2 {
          pivotC := pivotC + [j];
        }
      }
    }

    /** The state in which a pivot starts whose third star is the m-th in line for `first`: past
        matches exist exactly if it is not the first, and the queue holds the stars still in line.
        The last in line is the last star of the image, so a pivot whose third star is another
        one never takes from an empty queue. */
    ghost predicate IsPivotState(first: IndexTrio, c: IndexTrio, m: nat)
      requires Valid() && 0 <= first.0 < first.1 < first.2 < |own.image|
      reads this, ch
    {
      var order := PivotOrder(|own.image|, first);
      && c.0 == first.0 && c.1 == first.1
      && m < |order| && c.2 == order[m]
      && bigR1 == (if m == 0 then None else Some(Survived(Query(first), order[..m])))
      && (first.2 != |own.image| - 1 ==> pivotC == order[m + 1..])
    }

    /** Removes the past matches that share fewer than two stars with every new match. */
    method FilterMatches(matches: seq<Trio<Star>>)
      requires bigR1.Some?
      modifies `bigR1
      ensures bigR1 == Some(Survivors(old(bigR1).value, matches))
    {
      if matches != [] {
        bigR1 := Some(Filter((t: Trio<Star>) => SharesTwo(t, matches), bigR1.value));
      }
    }

    /** The first half of a run: query for the trio and filter the past matches, which the first
        query of all provides. */
    method QueryAndFilter(c: IndexTrio, ghost first: IndexTrio, ghost m: nat)
      requires Valid() && 0 <= first.0 < first.1 < first.2 < |own.image|
      requires IsPivotState(first, c, m)
      modifies `nu, `bigR1
      ensures nu == old(nu) + Costs(own, first)(c.2) <= old(nu) + 1
      ensures m < |PivotOrder(|own.image|, first)|
      ensures bigR1 == Some(Survived(Query(first), PivotOrder(|own.image|, first)[..m + 1]))
    {
      hide MatchingTrios, KnownRows, PivotOrder, TrioWithin, Survived, Queries, Filter;
      ghost var query := Query(first);
      ghost var order := PivotOrder(|own.image|, first);
      PivotOrderExact(|own.image|, first);
      assert order[m] in order;
      QueriesAt(own, features, ch.hip, Table(), first, c);
      SurvivedNext(query, order, m);
      var bigR := BaseQueryForTrios(c);
      if bigR1 == None {
        bigR1 := Some(bigR.result);
      }
      if bigR.error != NO_CANDIDATE_STARS_FOUND_EITHER {
        FirstQuerySurvives(bigR.result);
        FilterMatches(bigR.result);
      }
    }

    /** One recursive run of the search. With too many accesses it gives up before the query and
        `nu > nuMax` tells the caller so; otherwise the result is the outcome of the pivot. */
    method Pivot(c: IndexTrio, ghost first: IndexTrio, ghost m: nat) returns (r: TriosEither)
      requires Valid() && 0 <= first.0 < first.1 < first.2 < |own.image|
      requires IsPivotState(first, c, m)
      modifies `nu, `pivotC, `bigR1
      ensures old(nu) <= nu && nu <= (if old(nu) <= own.nuMax then own.nuMax + 1 else old(nu))
      ensures r.error in {0, -2, -1}
      ensures r.error == -1 ==> nu > own.nuMax
      ensures var order := PivotOrder(|own.image|, first);
              && nu == AccessesFrom(Query(first), Costs(own, first), order, m, old(nu), own.nuMax)
              && (r.error == -1 <==>
                  GivesUp(Query(first), Costs(own, first), order, m, old(nu), own.nuMax))
      ensures r.error != -1 ==>
                var outcome := PivotFrom(Query(first), PivotOrder(|own.image|, first), m);
                r == if outcome.Some? then TriosEither(outcome, 0)
                    else TriosEither(None, -2)
      decreases |PivotOrder(|own.image|, first)| - m
    {
      hide Queries, KnownRows, PivotOrder, Survived, Costs;
      if nu > own.nuMax {
        return TriosEither(None, EXCEEDED_NU_MAX_EITHER);
      }
      ghost var order := PivotOrder(|own.image|, first);
      QueryAndFilter(c, first, m);
      if |bigR1.value| == 1 {
        return TriosEither(Some(bigR1.value[0]), 0);
      } else if |bigR1.value| == 0 {
        return TriosEither(None, NO_CANDIDATE_STAR_SET_FOUND_EITHER);
      }
      NextInLine(|own.image|, first, m);
      if c.2 != |own.image| - 1 {
        var third := PTop();
        r := Pivot((c.0, c.1, third), first, m + 1);
      } else {
        return TriosEither(None, NO_CANDIDATE_STAR_SET_FOUND_EITHER);
      }
    }

    /** The four-step comparison of sizes in front of the answer never holds, so there is always an
        answer: the labels of the first order with the largest overlay. */
    method DirectMatchTest(bigP: seq<Star>, r: Trio<Star>, b: Trio<Star>) returns (a: StarsEither, ghost best: nat)
      requires own.Sound()
      ensures a.error == 0
      ensures IsFirstBest(own, bigP, r, b, best) && a.result == LabelledBy(b, r, best)
    {
      hide Score, Overlay, TrioAttitude;
      var bigM := new seq<Star>[6];
      var bigA := new seq<Star>[6];
      for i := 0 to 6
        invariant forall k :: 0 <= k < i ==> |bigM[k]| == Score(own, bigP, r, b, k)
        invariant forall k :: 0 <= k < i ==> bigA[k] == LabelledBy(b, r, k)
      {
        bigM[i] := ScoredOverlay(bigP, r, b, i);
        var o := InOrder(r, i);
        bigA[i] := [DefineLabel(b.first, o.first.labelId), DefineLabel(b.second, o.second.labelId),
                    DefineLabel(b.third, o.third.labelId)];
      }
      var sizes := [|bigA[0]|, |bigA[1]|, |bigA[2]|, |bigA[3]|, |bigA[4]|, |bigA[5]|];
      GuardNeverFires(sizes);
      best := 0;
      if EqualsChain(sizes) != 0 {
        a := StarsEither([], NO_CONFIDENT_A_EITHER);
        return;
      }
      var largest := MaxElement(bigM);
      best := largest;
      assert forall i: nat :: i < 6 ==> |bigM[i]| == Score(own, bigP, r, b, i);
      assert IsFirstBest(own, bigP, r, b, best) by {
        forall i: nat | i < 6 ensures Score(own, bigP, r, b, i) <= Score(own, bigP, r, b, best) {
          assert |bigM[i]| <= |bigM[best]|;
        }
        forall i: nat | i < best ensures Score(own, bigP, r, b, i) < Score(own, bigP, r, b, best) {
          assert |bigM[i]| < |bigM[best]|;
        }
      }
      return StarsEither(bigA[largest], 0), best;
    }

    method ScoredOverlay(bigP: seq<Star>, r: Trio<Star>, b: Trio<Star>, i: nat) returns (m: seq<Star>)
      requires own.Sound() && i < 6
      ensures |m| == Score(own, bigP, r, b, i)
    {
      m := FindPositiveOverlay(own.lib, own.shuffler, own.image, bigP, TrioAttitude(own.lib, b, InOrder(r, i)),
                               own.epsilon4);
    }

    /** The catalogue trio for the first image trio whose pivot finds one. The accesses are checked
        after each pivot, so at most `nuMax + 1` are made, and a pivot that gave up is never used. */
    method EReduction() returns (r: StarsEither, ghost visited: seq<IndexTrio>, ghost found: IndexTrio)
      requires Valid()
      modifies `nu, `pivotC, `bigR1
      ensures nu <= own.nuMax + 1
      ensures visited <= Trios(|own.image|) && NoOutcome(own, features, ch.hip, Table(), visited)
      ensures InImage(visited) && SpentOn(visited) <= own.nuMax
      ensures r.error != -3 ==>
                visited + [found] <= Trios(|own.image|) && InImage(visited + [found])
                    && nu == SpentOn(visited + [found])
      ensures r.error == 0 ==>
                && nu <= own.nuMax
                && 0 <= found.0 < found.1 < found.2 < |own.image|
                && var outcome := TrioOutcome(own, features, ch.hip, Table(), found);
                   outcome.Some? && r.result == [outcome.value.first, outcome.value.second, outcome.value.third]
      ensures r.error == -3 ==> visited == Trios(|own.image|) && nu == SpentOn(visited)
      ensures r.error == -1 <==> nu > own.nuMax
      ensures r.error in {0, -3, -1} && (r.error != 0 ==> r.result == [])
    {
      hide TriosVisited, TriosBelow, TriosFrom, TriosAt, Trios, TrioOutcome, KnownRows, Spent;
      pivotC := [];
      nu := 0;
      ghost var table := Table();
      var n := |own.image|;
      visited, found := [], (0, 0, 0);
      NothingSpent();
      TriosLoopEnds(n);
      var i := 0;
      while i < n - 2
        invariant 0 <= i && (i <= n - 2 || i == 0)
        invariant InImage(visited) && nu == SpentOn(visited) <= own.nuMax
        invariant visited == TriosBelow(n, i) && NoOutcome(own, features, ch.hip, table, visited)
      {
        TriosLoops(n, i, i + 1);
        var j := i + 1;
        while j < n - 1
          invariant i < j <= n - 1
          invariant InImage(visited) && nu == SpentOn(visited) <= own.nuMax
          invariant visited == TriosBelow(n, i) + TriosFrom(n, i, j) && NoOutcome(own, features, ch.hip, table, visited)
        {
          TriosLoops(n, i, j);
          var k := j + 1;
          while k < n
            invariant j < k <= n
            invariant InImage(visited) && nu == SpentOn(visited) <= own.nuMax
            invariant visited == TriosVisited(n, i, j, k) && NoOutcome(own, features, ch.hip, table, visited)
          {
            TriosTurn(n, i, j, k, visited);
            found := (i, j, k);
            var p := PivotAt(i, j, k, visited);
            bigR1 := None;
            if nu > own.nuMax {
              return StarsEither([], EXCEEDED_NU_MAX_EITHER), visited, found;
            }
            if p.error != NO_CANDIDATE_STAR_SET_FOUND_EITHER {
              return StarsEither([p.result.value.first, p.result.value.second, p.result.value.third], 0), visited,
                  found;
            }
            visited := visited + [(i, j, k)];
            k := k + 1;
          }
          j := j + 1;
        }
        i := i + 1;
      }
      return StarsEither([], NO_CONFIDENT_R_EITHER), visited, found;
    }

    ghost predicate InImage(trios: seq<IndexTrio>) {
      forall t :: t in trios ==> 0 <= t.0 < t.1 < t.2 < |own.image|
    }

    /** The accesses counted after the pivots of these trios. */
    ghost function SpentOn(trios: seq<IndexTrio>): nat
      requires Valid() && InImage(trios)
      reads ch
    {
      Spent(own, features, ch.hip, Table(), trios)
    }

    lemma NothingSpent()
      requires Valid()
      ensures InImage([]) && SpentOn([]) == 0
    {
    }

    /** The whole pivot for three image stars. */
    method PivotAt(i: nat, j: nat, k: nat, ghost visited: seq<IndexTrio>) returns (p: TriosEither)
      requires Valid() && i < j < k < |own.image|
      requires NoOutcome(own, features, ch.hip, Table(), visited) && nu == SpentOn(visited)
      modifies `nu, `pivotC, `bigR1
      ensures NoOutcome(own, features, ch.hip, Table(), visited)
      ensures InImage(visited + [(i, j, k)]) && nu == SpentOn(visited + [(i, j, k)])
      ensures old(nu) <= nu && nu <= (if old(nu) <= own.nuMax then own.nuMax + 1 else old(nu))
      ensures p.error in {0, -2, -1}
      ensures p.error == -1 ==> nu > own.nuMax
      ensures p.error != -1 ==>
                var outcome := TrioOutcome(own, features, ch.hip, Table(), (i, j, k));
                p == if outcome.Some? then TriosEither(outcome, 0)
                    else TriosEither(None, -2)
    {
      hide AccessesFrom, GivesUp, PivotFrom, Survived, Queries, Costs, KnownRows;
      InitializePivot((i, j, k));
      PivotOrderExact(|own.image|, (i, j, k));
      SpentOneMore(own, features, ch.hip, Table(), visited, (i, j, k));
      p := Pivot((i, j, k), (i, j, k), 0);
    }

    /** The labels for the first image trio whose pivot finds a catalogue trio, in the best of the
        six orders. One more access than `nuMax` is the most that is made. */
    method EIdentify() returns (a: StarsEither, ghost visited: seq<IndexTrio>, ghost found: IndexTrio)
      requires Valid()
      modifies `nu, `pivotC, `bigR1
      ensures nu <= own.nuMax + 1
      ensures visited <= Trios(|own.image|) && NoOutcome(own, features, ch.hip, Table(), visited)
      ensures InImage(visited) && SpentOn(visited) <= own.nuMax
      ensures a.error != -2 ==>
                && visited + [found] <= Trios(|own.image|) && InImage(visited + [found])
                && nu == SpentOn(visited + [found]) + if a.error == 0 then 1 else 0
      ensures a.error == 0 ==>
                && SpentOn(visited + [found]) <= own.nuMax
                && 0 <= found.0 < found.1 < found.2 < |own.image|
                && var outcome := TrioOutcome(own, features, ch.hip, Table(), found);
                   outcome.Some? && IsBestLabelling(own, ch.hip, outcome.value, ImageStars(own, found), a.result)
      ensures a.error == -2 ==> visited == Trios(|own.image|) && nu == SpentOn(visited)
      ensures a.error == -1 ==> nu > own.nuMax
      ensures a.error in {0, -2, -1} && (a.error != 0 ==> a.result == [])
    {
      hide TriosVisited, TriosBelow, TriosFrom, TriosAt, Trios, TrioOutcome, KnownRows, IsFirstBest, LabelledBy, Spent;
      pivotC := [];
      nu := 0;
      ghost var table := Table();
      var n := |own.image|;
      visited, found := [], (0, 0, 0);
      NothingSpent();
      TriosLoopEnds(n);
      var i := 0;
      while i < n - 2
        invariant 0 <= i && (i <= n - 2 || i == 0)
        invariant InImage(visited) && nu == SpentOn(visited) <= own.nuMax
        invariant visited == TriosBelow(n, i) && NoOutcome(own, features, ch.hip, table, visited)
      {
        TriosLoops(n, i, i + 1);
        var j := i + 1;
        while j < n - 1
          invariant i < j <= n - 1
          invariant InImage(visited) && nu == SpentOn(visited) <= own.nuMax
          invariant visited == TriosBelow(n, i) + TriosFrom(n, i, j) && NoOutcome(own, features, ch.hip, table, visited)
        {
          TriosLoops(n, i, j);
          var k := j + 1;
          while k < n
            invariant j < k <= n
            invariant InImage(visited) && nu == SpentOn(visited) <= own.nuMax
            invariant visited == TriosVisited(n, i, j, k) && NoOutcome(own, features, ch.hip, table, visited)
          {
            TriosTurn(n, i, j, k, visited);
            found := (i, j, k);
            var r := PivotAt(i, j, k, visited);
            bigR1 := None;
            if nu > own.nuMax {
              return StarsEither([], EXCEEDED_NU_MAX_EITHER), visited, found;
            }
            if r.error == NO_CANDIDATE_STAR_SET_FOUND_EITHER {
              visited := visited + [(i, j, k)];
              k := k + 1;
              continue;
            }
            var bigP := ch.NearbyHipStars(own.lib, r.result.value.first.vector, own.fov);
            nu := nu + 1;
            var tested, _ := DirectMatchTest(bigP, r.result.value, ImageStars(own, (i, j, k)));
            if tested.error != NO_CONFIDENT_A_EITHER {
              return tested, visited, found;
            }
            assert false;
          }
          j := j + 1;
        }
        i := i + 1;
      }
      return StarsEither([], NO_CONFIDENT_A_EITHER), visited, found;
    }
  }

  /** The last star of the image is the last in line: when another star's turn has come, the
      queue is not empty. */
  lemma NextInLine(n: nat, c: IndexTrio, m: nat)
    requires 0 <= c.0 < c.1 < c.2 < n && m < |PivotOrder(n, c)|
    ensures var order := PivotOrder(n, c);
            if order[m] == n - 1 then m + 1 == |order|
            else c.2 != n - 1 && m + 1 < |order| && order[m + 1..] == [order[m + 1]] + order[m + 2..]
  {
    PivotOrderExact(n, c);
  }
}
