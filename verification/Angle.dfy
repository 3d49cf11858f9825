/** Identification by the angle between two stars (angle.cpp). */
module Angles {
  import opened Quaternions
  import opened Stars
  import opened Rotations
  import opened Sequences
  import opened Enumeration
  import opened Chomps
  import opened Identifications

  const NO_CANDIDATES_FOUND_EITHER := -1
  const NO_CANDIDATE_PAIR_FOUND_EITHER := -2

  datatype LabelsEither = LabelsEither(result: seq<int>, error: int)
  datatype PairsEither = PairsEither(result: seq<Star>, error: int)

  // ---- What the methods compute

  function PairCandidates(s: Setting, table: seq<Row>, theta: real): seq<Row> {
    RowsInBand(table, [theta - s.epsilon1], [theta + s.epsilon1])
  }

  function ImageAngle(s: Setting, p: Pair): real
    requires 0 <= p.0 < |s.image| && 0 <= p.1 < |s.image|
  {
    Separation(s.lib, s.image[p.0].vector, s.image[p.1].vector)
  }

  /** The two stars of the first row whose angle agrees with that of an image pair. */
  ghost function CandidatePair(s: Setting, hip: seq<Star>, table: seq<Row>, theta: real): Option<seq<Star>>
    requires KnownRows(table, hip, 2, 1)
  {
    var rows := PairCandidates(s, table, theta);
    if theta > s.fov || rows == [] then None
    else
      FilterCounts(row => InBand(row, [theta - s.epsilon1], [theta + s.epsilon1]), table, rows[0]);
      assert KnownRow(rows[0], hip, 2, 1);
      Some([StarOf(hip, rows[0].labels[0]), StarOf(hip, rows[0].labels[1])])
  }

  /** How many nearby catalogue stars agree with the image when the pair `r` is matched to `b` in order. */
  function PairScore(s: Setting, bigP: seq<Star>, r0: Star, r1: Star, b0: Star, b1: Star): nat
    requires s.lib.Sound()
  {
    |Overlay(s.lib, s.image, bigP, Triad(s.lib, b0.vector, b1.vector, r0.vector, r1.vector), s.epsilon4)|
  }

  /** The labelled pair when one order of `r` is strictly better than the other. */
  function BetterOrder(s: Setting, bigP: seq<Star>, r: seq<Star>, b: seq<Star>): Option<seq<Star>>
    requires s.lib.Sound() && |r| == 2 && |b| == 2
  {
    var straight := PairScore(s, bigP, r[0], r[1], b[0], b[1]);
    var swapped := PairScore(s, bigP, r[1], r[0], b[0], b[1]);
    if straight > swapped then Some([DefineLabel(b[0], r[0].labelId), DefineLabel(b[1], r[1].labelId)])
    else if straight < swapped then Some([DefineLabel(b[0], r[1].labelId), DefineLabel(b[1], r[0].labelId)])
    else None
  }

  /** The answer for one pair of image stars, if it has one. */
  ghost function PairAnswer(s: Setting, hip: seq<Star>, table: seq<Row>, p: Pair): Option<seq<Star>>
    requires s.lib.Sound() && KnownRows(table, hip, 2, 1)
    requires 0 <= p.0 < |s.image| && 0 <= p.1 < |s.image|
  {
    var r := CandidatePair(s, hip, table, ImageAngle(s, p));
    if r == None then None
    else BetterOrder(s, Nearby(s.lib, hip, r.value[0].vector, s.fov), r.value, [s.image[p.0], s.image[p.1]])
  }

  /** The accesses of a candidate: none for a pair wider than the field of view, one for any other. */
  function QueryAccesses(s: Setting): Pair -> nat {
    (p: Pair) => if InImage(s, p) && ImageAngle(s, p) <= s.fov then 1 else 0
  }

  /** The accesses of a pair: none if it is wider than the field of view, one for its query, and one more
      for the stars near the candidate if there is one. */
  ghost function PairAccesses(s: Setting, hip: seq<Star>, table: seq<Row>): Pair -> nat
    requires KnownRows(table, hip, 2, 1)
  {
    (p: Pair) =>
      if !InImage(s, p) || ImageAngle(s, p) > s.fov then 0
      else if CandidatePair(s, hip, table, ImageAngle(s, p)).None? then 1 else 2
  }

  predicate InImage(s: Setting, p: Pair) {
    0 <= p.0 < |s.image| && 0 <= p.1 < |s.image|
  }

  /** The costs of the pairs before the last one are within the budget. */
  ghost predicate Affordable(cost: Pair -> nat, pairs: seq<Pair>, budget: nat) {
    forall k :: 0 <= k < |pairs| ==> Total(cost, pairs[..k]) <= budget
  }

  lemma NothingSpent(cost: Pair -> nat, budget: nat)
    ensures Total(cost, []) == 0 && Affordable(cost, [], budget)
  {
  }

  lemma AffordableOneMore(cost: Pair -> nat, pairs: seq<Pair>, p: Pair, budget: nat)
    requires Affordable(cost, pairs, budget) && Total(cost, pairs) <= budget
    ensures Affordable(cost, pairs + [p], budget)
    ensures Total(cost, pairs + [p]) == Total(cost, pairs) + cost(p)
  {
    TotalOneMore(cost, pairs, p);
    forall k | 0 <= k < |pairs + [p]| ensures Total(cost, (pairs + [p])[..k]) <= budget {
      assert (pairs + [p])[..k] == pairs[..k];
      assert pairs[..|pairs|] == pairs;
    }
  }

  /** The pairs of a list are pairs of image stars that have no answer. */
  ghost predicate NoAnswer(s: Setting, hip: seq<Star>, table: seq<Row>, pairs: seq<Pair>)
    requires s.lib.Sound() && KnownRows(table, hip, 2, 1)
  {
    forall p :: p in pairs ==> 0 <= p.0 < p.1 < |s.image| && PairAnswer(s, hip, table, p) == None
  }

  ghost predicate NoCandidate(s: Setting, hip: seq<Star>, table: seq<Row>, pairs: seq<Pair>)
    requires KnownRows(table, hip, 2, 1)
  {
    forall p :: p in pairs ==> 0 <= p.0 < p.1 < |s.image| && CandidatePair(s, hip, table, ImageAngle(s, p)) == None
  }

  // ---- Soundness

  /** Matched to its image in the right order, a pair scores what the true attitude scores. */
  lemma TruePairScoresTheAttitude(s: Setting, bigP: seq<Star>, r0: Star, r1: Star, b0: Star, b1: Star, q: Quaternion)
    requires s.lib.Sound() && SqrNorm(q) == 1.0 && !Collinear(r0.vector, r1.vector)
    requires b0.vector == Rotate(q, r0.vector) && b1.vector == Rotate(q, r1.vector)
    ensures PairScore(s, bigP, r0, r1, b0, b1) == |Overlay(s.lib, s.image, bigP, q, s.epsilon4)|
  {
    var t := Triad(s.lib, b0.vector, b1.vector, r0.vector, r1.vector);
    forall p: Star ensures RotateStar(p, t) == RotateStar(p, q) {
      TriadRecoversAttitude(s.lib, q, r0.vector, r1.vector, p.vector);
    }
    SameRotationSameOverlay(s.lib, s.image, bigP, t, q, s.epsilon4);
  }

  /** There is an answer exactly when the overlays of the two attitudes differ in size, and it has the
      labels of the order with the larger one. */
  lemma LargerOverlayWins(s: Setting, bigP: seq<Star>, r: seq<Star>, b: seq<Star>, straight: seq<Star>,
                          swapped: seq<Star>)
    requires s.lib.Sound() && |r| == 2 && |b| == 2
    requires straight == Overlay(s.lib, s.image, bigP,
                                 Triad(s.lib, b[0].vector, b[1].vector, r[0].vector, r[1].vector), s.epsilon4)
    requires swapped == Overlay(s.lib, s.image, bigP,
                                Triad(s.lib, b[0].vector, b[1].vector, r[1].vector, r[0].vector), s.epsilon4)
    ensures BetterOrder(s, bigP, r, b).Some? <==> |straight| != |swapped|
    ensures BetterOrder(s, bigP, r, b).Some? ==>
              BetterOrder(s, bigP, r, b).value == if |straight| > |swapped| then Labelled(b, r[0], r[1])
                  else Labelled(b, r[1], r[0])
  {
  }

  /** Two body stars with the labels of two catalogue stars. */
  function Labelled(b: seq<Star>, r0: Star, r1: Star): seq<Star>
    requires |b| == 2
  {
    [Star(b[0].vector, r0.labelId, b[0].magnitude), Star(b[1].vector, r1.labelId, b[1].magnitude)]
  }

  /** When the attitude brings every nearby catalogue star near a star of the image, the image of a
      catalogue pair is given its true labels, in whichever order the table lists the pair, if and only
      if matching the stars the other way round leaves some nearby star unmatched. Otherwise it is not
      given any. */
  lemma PairAnswerIsTrue(s: Setting, bigP: seq<Star>, r0: Star, r1: Star, b0: Star, b1: Star, q: Quaternion,
                         wrong: Quaternion)
    requires s.lib.Sound() && SqrNorm(q) == 1.0 && !Collinear(r0.vector, r1.vector)
    requires b0.vector == Rotate(q, r0.vector) && b1.vector == Rotate(q, r1.vector)
    requires wrong == Triad(s.lib, b0.vector, b1.vector, r1.vector, r0.vector)
    requires forall p :: p in bigP ==> HasMatch(s.lib, s.image, q, s.epsilon4, p)
    ensures var answer := if |Overlay(s.lib, s.image, bigP, wrong, s.epsilon4)| < |bigP|
                          then Some([DefineLabel(b0, r0.labelId), DefineLabel(b1, r1.labelId)]) else None;
            && BetterOrder(s, bigP, [r0, r1], [b0, b1]) == answer
            && BetterOrder(s, bigP, [r1, r0], [b0, b1]) == answer
  {
    hide Overlay, Triad, Rotate, Collinear, HasMatch, SqrNorm;
    TruePairScoresTheAttitude(s, bigP, r0, r1, b0, b1, q);
    OverlayOfAll(s.lib, s.image, bigP, q, s.epsilon4);
    OverlayOfAll(s.lib, s.image, bigP, wrong, s.epsilon4);
  }

  // ---- The identification object

  class Angle {
    const ch: Chomp
    const own: Setting
    var nu: nat

    constructor (ch: Chomp, own: Setting)
      modifies ch`currentTable
      ensures this.ch == ch && this.own == own && nu == 0
      ensures ch.currentTable == own.table
    {
      this.ch, this.own, nu := ch, own, 0;
      new;
      ch.SelectTable(own.table);
    }

    /** The table exists and its rows are pairs of catalogue stars. */
    ghost predicate Valid()
      reads ch
    {
      && own.Sound()
      && own.table in ch.tables
      && KnownRows(ch.tables[own.table], ch.hip, 2, 1)
    }

    ghost function Table(): seq<Row>
      requires Valid()
      reads ch
    {
      ch.tables[own.table]
    }

    /** Costs one access, whatever it finds. */
    method QueryForPair(theta: real) returns (labels: LabelsEither)
      requires Valid() && ch.currentTable == own.table
      modifies `nu
      ensures nu == old(nu) + 1
      ensures var rows := PairCandidates(own, Table(), theta);
              labels == if rows == [] then LabelsEither([], -1)
                  else LabelsEither(rows[0].labels, 0)
    {
      var queried := ch.SimpleBoundQuery([theta - own.epsilon1], [theta + own.epsilon1]);
      assert queried.Success?;
      var rows := queried.value;
      nu := nu + 1;
      if rows == [] {
        return LabelsEither([], NO_CANDIDATES_FOUND_EITHER);
      }
      var candidates: seq<seq<int>> := [];
      FilterAll(row => InBand(row, [theta - own.epsilon1], [theta + own.epsilon1]), ch.tables[ch.currentTable]);
      for k := 0 to |rows|
        invariant |candidates| == k
        invariant forall l :: 0 <= l < k ==> candidates[l] == rows[l].labels
      {
        assert KnownRow(rows[k], ch.hip, 2, 1);
        candidates := candidates + [[rows[k].labels[0], rows[k].labels[1]]];
      }
      return LabelsEither(candidates[0], 0);
    }

    /** A pair wider than the field of view is not looked up at all. Looking up the labels never throws. */
    method FindCandidatePair(bi: Star, bj: Star) returns (pair: PairsEither)
      requires Valid() && ch.currentTable == own.table
      modifies `nu
      ensures var theta := Separation(own.lib, bi.vector, bj.vector);
              && nu == old(nu) + (if theta > own.fov then 0 else 1)
              && var candidate := CandidatePair(own, ch.hip, Table(), theta);
                 pair == if candidate == None then PairsEither([], -2)
                         else PairsEither(candidate.value, 0)
      ensures pair.error == 0 ==> |pair.result| == 2 && nu == old(nu) + 1
    {
      var theta := Separation(own.lib, bi.vector, bj.vector);
      if theta > own.fov {
        return PairsEither([], NO_CANDIDATE_PAIR_FOUND_EITHER);
      }
      ghost var candidate := CandidatePair(own, ch.hip, Table(), theta);
      var labels := QueryForPair(theta);
      if labels.error == NO_CANDIDATES_FOUND_EITHER {
        return PairsEither([], NO_CANDIDATE_PAIR_FOUND_EITHER);
      }
      FilterAll(row => InBand(row, [theta - own.epsilon1], [theta + own.epsilon1]), Table());
      assert KnownRow(PairCandidates(own, Table(), theta)[0], ch.hip, 2, 1);
      var first := ch.QueryHip(labels.result[0]);
      var second := ch.QueryHip(labels.result[1]);
      assert first.Success? && second.Success?;
      return PairsEither([first.value, second.value], 0);
    }

    /** Throws unless both lists have two stars; answers exactly when one order is strictly better. */
    method DirectMatchTest(bigP: seq<Star>, r: seq<Star>, b: seq<Star>) returns (answer: Result<StarsEither>)
      requires own.Sound()
      ensures answer.Success? <==> |r| == 2 && |b| == 2
      ensures answer.Success? ==>
                (var straight := Triad(own.lib, b[0].vector, b[1].vector, r[0].vector, r[1].vector);
                 var swapped := Triad(own.lib, b[0].vector, b[1].vector, r[1].vector, r[0].vector);
                 var m, n := |Overlay(own.lib, own.image, bigP, straight, own.epsilon4)|,
                             |Overlay(own.lib, own.image, bigP, swapped, own.epsilon4)|;
                 answer.value == if m > n then StarsEither(Labelled(b, r[0], r[1]), 0)
                                 else if m < n then StarsEither(Labelled(b, r[1], r[0]), 0)
                                 else StarsEither([], -2))
      ensures answer.Success? ==>
                var better := BetterOrder(own, bigP, r, b);
                answer.value == if better == None then StarsEither([], -2)
                    else StarsEither(better.value, 0)
    {
      if |r| != 2 || |b| != 2 {
        return Failure("Input lists does not have exactly two b.");
      }
      ghost var straight := PairScore(own, bigP, r[0], r[1], b[0], b[1]);
      ghost var swapped := PairScore(own, bigP, r[1], r[0], b[0], b[1]);
      var bigM := new seq<Star>[2];
      var bigA := new seq<Star>[2];
      for i := 0 to 2
        invariant i > 0 ==> |bigM[0]| == straight
        invariant i > 0 ==> bigA[0] == [DefineLabel(b[0], r[0].labelId), DefineLabel(b[1], r[1].labelId)]
        invariant i > 1 ==> |bigM[1]| == swapped
        invariant i > 1 ==> bigA[1] == [DefineLabel(b[0], r[1].labelId), DefineLabel(b[1], r[0].labelId)]
      {
        var a0, a1 := if i == 0 then 0 else 1, if i == 0 then 1 else 0;
        bigM[i] := FindPositiveOverlay(own.lib, own.shuffler, own.image, bigP,
                                       Triad(own.lib, b[0].vector, b[1].vector, r[a0].vector, r[a1].vector),
                                       own.epsilon4);
        bigA[i] := [DefineLabel(b[0], r[a0].labelId), DefineLabel(b[1], r[a1].labelId)];
      }
      if |bigM[0]| != |bigM[1]| {
        return Success(StarsEither(if |bigM[0]| > |bigM[1]| then bigA[0] else bigA[1], 0));
      }
      return Success(StarsEither([], NO_CONFIDENT_A_EITHER));
    }

    /** The pair of catalogue stars for the first image pair with a candidate. The accesses are
        checked after each pair, so at most `nuMax + 1` are made. With an empty image the bound of
        the outer loop wraps around. */
    method Reduce() returns (r: StarsEither, ghost visited: seq<Pair>, ghost found: Pair)
      requires Valid() && |own.image| > 0
      modifies `nu, ch`currentTable
      ensures Valid() && Table() == old(Table())
      ensures nu <= own.nuMax + 1
      ensures visited <= Pairs(|own.image|) && NoCandidate(own, ch.hip, Table(), visited)
      ensures Total(QueryAccesses(own), visited) <= own.nuMax
      ensures r.error == 0 ==>
                && nu == Total(QueryAccesses(own), visited) + 1 <= own.nuMax
                && visited + [found] <= Pairs(|own.image|) && 0 <= found.0 < found.1 < |own.image|
                && CandidatePair(own, ch.hip, Table(), ImageAngle(own, found)) == Some(r.result)
      ensures r.error != 0 ==>
                && r == StarsEither([], -3)
                && (|| (visited == Pairs(|own.image|) && nu == Total(QueryAccesses(own), visited))
                    || (&& visited + [found] <= Pairs(|own.image|)
                        && nu == Total(QueryAccesses(own), visited + [found]) > own.nuMax))
    {
      hide PairsBelow, PairsAt, Pairs, CandidatePair, KnownRows, Total;
      ch.SelectTable(own.table);
      nu := 0;
      ghost var table := Table();
      visited, found := [], (0, 0);
      var n := |own.image|;
      PairsLoopEnds(n);
      NothingSpent(QueryAccesses(own), own.nuMax);
      for i := 0 to n - 1
        invariant Valid() && Table() == table && ch.currentTable == own.table
        invariant nu == Total(QueryAccesses(own), visited) <= own.nuMax
        invariant visited == PairsBelow(n, i) && NoCandidate(own, ch.hip, table, visited)
      {
        PairsStep(n, i, i + 1);
        for j := i + 1 to n
          invariant Valid() && Table() == table && ch.currentTable == own.table
          invariant nu == Total(QueryAccesses(own), visited) <= own.nuMax
          invariant visited == PairsBelow(n, i) + PairsAt(i, j) && NoCandidate(own, ch.hip, table, visited)
        {
          PairsTurn(n, i, j, visited);
          found := (i, j);
          TotalOneMore(QueryAccesses(own), visited, (i, j));
          var pair := FindCandidatePair(own.image[i], own.image[j]);
          if nu > own.nuMax {
            return StarsEither([], NO_CONFIDENT_R_EITHER), visited, found;
          }
          if pair.error == NO_CANDIDATE_PAIR_FOUND_EITHER {
            visited := visited + [(i, j)];
            continue;
          }
          assert [pair.result[0], pair.result[1]] == pair.result;
          return StarsEither([pair.result[0], pair.result[1]], 0), visited, found;
        }
      }
      return StarsEither([], NO_CONFIDENT_R_EITHER), visited, found;
    }

    /** What the loop of `Identify` does with one pair of image stars. */
    method TryPair(i: nat, j: nat) returns (a: Option<StarsEither>)
      requires Valid() && ch.currentTable == own.table && i < |own.image| && j < |own.image|
      modifies `nu
      ensures nu == old(nu) + PairAccesses(own, ch.hip, Table())((i, j)) <= old(nu) + 2
      ensures var answer := PairAnswer(own, ch.hip, Table(), (i, j));
              && a == (if answer == None then None else Some(StarsEither(answer.value, 0)))
              && (answer != None ==> nu == old(nu) + 2)
    {
      hide CandidatePair, KnownRows, Overlay, Triad, BetterOrder, Labelled, Nearby, Separation;
      var r := FindCandidatePair(own.image[i], own.image[j]);
      if r.error == NO_CANDIDATE_PAIR_FOUND_EITHER {
        return None;
      }
      var bigP := ch.NearbyHipStars(own.lib, r.result[0].vector, own.fov);
      nu := nu + 1;
      assert [r.result[0], r.result[1]] == r.result;
      var tested := DirectMatchTest(bigP, [r.result[0], r.result[1]], [own.image[i], own.image[j]]);
      return if tested.value.error != NO_CONFIDENT_A_EITHER then Some(tested.value) else None;
    }

    /** The answer for the first image pair that has one. The accesses are checked before each
        pair, so at most `nuMax + 2` are made. */
    method Identify() returns (a: StarsEither, ghost visited: seq<Pair>, ghost found: Pair)
      requires Valid() && ch.currentTable == own.table && |own.image| > 0
      modifies `nu
      ensures nu <= own.nuMax + 2
      ensures visited <= Pairs(|own.image|) && NoAnswer(own, ch.hip, Table(), visited)
      ensures Affordable(PairAccesses(own, ch.hip, Table()), visited, own.nuMax)
      ensures nu == Total(PairAccesses(own, ch.hip, Table()), visited) + if a.error == 0 then 2 else 0
      ensures a.error == 0 ==>
                && visited + [found] <= Pairs(|own.image|) && 0 <= found.0 < found.1 < |own.image|
                && PairAnswer(own, ch.hip, Table(), found) == Some(a.result)
      ensures a.error == -2 ==> visited == Pairs(|own.image|)
      ensures a.error == -1 ==> nu > own.nuMax && visited + [found] <= Pairs(|own.image|)
      ensures a.error in {0, -2, -1} && (a.error != 0 ==> a.result == [])
    {
      hide PairsBelow, PairsAt, Pairs, PairAnswer, KnownRows, Total, Affordable, PairAccesses;
      nu := 0;
      ghost var table := Table();
      ghost var cost := PairAccesses(own, ch.hip, table);
      visited, found := [], (0, 0);
      var n := |own.image|;
      PairsLoopEnds(n);
      NothingSpent(cost, own.nuMax);
      for i := 0 to n - 1
        invariant nu == Total(cost, visited) <= own.nuMax + 2 && Affordable(cost, visited, own.nuMax)
        invariant visited == PairsBelow(n, i) && NoAnswer(own, ch.hip, table, visited)
      {
        PairsStep(n, i, i + 1);
        for j := i + 1 to n
          invariant nu == Total(cost, visited) <= own.nuMax + 2 && Affordable(cost, visited, own.nuMax)
          invariant visited == PairsBelow(n, i) + PairsAt(i, j) && NoAnswer(own, ch.hip, table, visited)
        {
          PairsTurn(n, i, j, visited);
          found := (i, j);
          if nu > own.nuMax {
            return StarsEither([], EXCEEDED_NU_MAX_EITHER), visited, found;
          }
          AffordableOneMore(cost, visited, (i, j), own.nuMax);
          var answer := TryPair(i, j);
          if answer.Some? {
            return answer.value, visited, found;
          }
          visited := visited + [(i, j)];
        }
      }
      return StarsEither([], NO_CONFIDENT_A_EITHER), visited, found;
    }
  }
}
