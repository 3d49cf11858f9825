/** End-to-end truth of the pyramid method: when it answers, and that its answers are right. */
module PyramidTruth {
  import opened Libm
  import opened Vectors
  import opened Quaternions
  import opened Stars
  import opened Sequences
  import opened Shuffling
  import opened Enumeration
  import opened Chomps
  import opened Identifications
  import opened Angles
  import opened PairTables
  import opened CommonStars
  import opened Images
  import opened Pyramids
  import opened AngleLaws

  // ---- Soundness

  /** The measured angle between two stars is within epsilon of the true one. */
  predicate Measures(s: Setting, bright: seq<Star>, p: Pair, theta: real)
    requires IsPairOf(bright, p)
  {
    -s.epsilon1 <= theta - PairAngle(s.lib, bright, p) <= s.epsilon1
  }

  /** A true pair closer together than the field of view of the table is one of the candidates. */
  lemma CandidateAt(s: Setting, bright: seq<Star>, fov: real, table: seq<Row>, p: Pair, theta: real) returns (k: nat)
    requires IsPairTable(s.lib, bright, fov, table) && PairRowsOnly(table)
    requires IsPairOf(bright, p) && p.0 != p.1 && PairAngle(s.lib, bright, p) < fov
    requires Measures(s, bright, p, theta)
    ensures AtLeastPairs(PairLabels(s, table, theta)) && k < |PairLabels(s, table, theta)|
    ensures var x, y := bright[p.0].labelId, bright[p.1].labelId;
            PairLabels(s, table, theta)[k] in {[x, y], [y, x]}
  {
    var o := if p.0 < p.1 then p else (p.1, p.0);
    WithinAngleSymmetric(s.lib, bright[p.0].vector, bright[p.1].vector, fov);
    var row := PairRow(s.lib, bright, o);
    RowOfTruePair(s, bright, fov, table, o, theta);
    var rows := PairCandidates(s, table, theta);
    k :| k < |rows| && rows[k] == row;
    PairLabelsFrom(s, table, theta);
    assert PairLabels(s, table, theta)[k] == row.labels;
  }

  lemma RowOfTruePair(s: Setting, bright: seq<Star>, fov: real, table: seq<Row>, p: Pair, theta: real)
    requires IsPairTable(s.lib, bright, fov, table)
    requires IsPairOf(bright, p) && p.0 < p.1 && PairAngle(s.lib, bright, p) < fov && Measures(s, bright, p, theta)
    ensures PairRow(s.lib, bright, p) in PairCandidates(s, table, theta)
  {
    hide Separation;
    var row := PairRow(s.lib, bright, p);
    assert PairFits(s.lib, bright, fov, p);
    PairTableMembers(s.lib, bright, fov, table, row);
    assert InBand(row, [theta - s.epsilon1], [theta + s.epsilon1]);
    BoundQueryIsExact(table, [theta - s.epsilon1], [theta + s.epsilon1], row);
  }

  /** So both its labels are in the list. */
  lemma TruePairIsCandidate(s: Setting, bright: seq<Star>, fov: real, table: seq<Row>, p: Pair, theta: real)
    requires IsPairTable(s.lib, bright, fov, table) && PairRowsOnly(table)
    requires IsPairOf(bright, p) && p.0 != p.1 && PairAngle(s.lib, bright, p) < fov
    requires Measures(s, bright, p, theta)
    ensures AtLeastPairs(PairLabels(s, table, theta))
    ensures bright[p.0].labelId in Flattened(PairLabels(s, table, theta))
    ensures bright[p.1].labelId in Flattened(PairLabels(s, table, theta))
  {
    var k := CandidateAt(s, bright, fov, table, p, theta);
    FlattenedMembers(PairLabels(s, table, theta), k);
  }

  /** The three true stars behind a trio of image stars: bright, with different labels, closer
      together than the field of view of the table, and measured to within epsilon. */
  ghost predicate IsTruth(s: Setting, bright: seq<Star>, fov: real, b: Trio<Star>, truth: Trio<int>) {
    && DistinctLabels(bright)
    && 0 <= truth.first < |bright| && 0 <= truth.second < |bright| && 0 <= truth.third < |bright|
    && truth.first != truth.second && truth.first != truth.third && truth.second != truth.third
    && IsTruePair(s, bright, fov, truth.first, truth.second, TrioAngle(s, b, 0, 1))
    && IsTruePair(s, bright, fov, truth.first, truth.third, TrioAngle(s, b, 0, 2))
    && IsTruePair(s, bright, fov, truth.second, truth.third, TrioAngle(s, b, 1, 2))
  }

  ghost predicate IsTruePair(s: Setting, bright: seq<Star>, fov: real, x: int, y: int, theta: real) {
    IsPairOf(bright, (x, y)) && PairAngle(s.lib, bright, (x, y)) < fov && Measures(s, bright, (x, y), theta)
  }

  /** Soundness: whenever the three intersections hold one star each, they are the true stars, in order. */
  lemma PyramidIsSound(s: Setting, bright: seq<Star>, fov: real, table: seq<Row>, b: Trio<Star>, truth: Trio<int>)
    requires IsPairTable(s.lib, bright, fov, table) && PairRowsOnly(table)
    requires IsTruth(s, bright, fov, b, truth)
    ensures var labels := CatalogueLabels(s, table, b);
            labels.Some? ==> labels.value == Trio(bright[truth.first].labelId, bright[truth.second].labelId,
                                                  bright[truth.third].labelId)
  {
    var x, y, z := bright[truth.first].labelId, bright[truth.second].labelId, bright[truth.third].labelId;
    var tij, tik, tjk := TrioAngle(s, b, 0, 1), TrioAngle(s, b, 0, 2), TrioAngle(s, b, 1, 2);
    TruePairIsCandidate(s, bright, fov, table, (truth.first, truth.second), tij);
    TruePairIsCandidate(s, bright, fov, table, (truth.first, truth.third), tik);
    TruePairIsCandidate(s, bright, fov, table, (truth.second, truth.third), tjk);
    TrueLabelsSurvive(PairLabels(s, table, tij), PairLabels(s, table, tik), PairLabels(s, table, tjk), x, y, z);
  }

  /** Voting: when each pair of three different labels is in its list, singleton intersections are those labels. */
  lemma TrueLabelsSurvive(ij: seq<seq<int>>, ik: seq<seq<int>>, jk: seq<seq<int>>, x: int, y: int, z: int)
    requires AtLeastPairs(ij) && AtLeastPairs(ik) && AtLeastPairs(jk)
    requires x != y && x != z && y != z
    requires x in Flattened(ij) && y in Flattened(ij)
    requires x in Flattened(ik) && z in Flattened(ik)
    requires y in Flattened(jk) && z in Flattened(jk)
    ensures var i := CommonOfTwo(ij, ik, []);
            var j := CommonOfTwo(ij, jk, i);
            var k := CommonOfTwo(ik, jk, i + j);
            |i| == |j| == |k| == 1 ==> i == [x] && j == [y] && k == [z]
  {
    hide CommonOfTwo, Flattened;
    var i := CommonOfTwo(ij, ik, []);
    CommonHolds(ij, ik, [], x);
    if |i| == 1 {
      assert i == [x];
      var j := CommonOfTwo(ij, jk, i);
      CommonHolds(ij, jk, i, y);
      if |j| == 1 {
        assert j == [y];
        CommonHolds(ik, jk, i + j, z);
      }
    }
  }

  // ---- When there is an answer

  /** `x` occurs once in the list that has it least often, and no other label that is not removed
      is in both lists. */
  ghost predicate OnlyCommon(ab: seq<seq<int>>, ac: seq<seq<int>>, removed: seq<int>, x: int)
    requires AtLeastPairs(ab) && AtLeastPairs(ac)
  {
    && Min(multiset(Flattened(ab))[x], multiset(Flattened(ac))[x]) == 1
    && forall u :: u != x && u !in removed ==> u !in Flattened(ab) || u !in Flattened(ac)
  }

  lemma SingletonIff(ab: seq<seq<int>>, ac: seq<seq<int>>, removed: seq<int>, x: int)
    requires AtLeastPairs(ab) && AtLeastPairs(ac)
    requires x in Flattened(ab) && x in Flattened(ac) && x !in removed
    ensures |CommonOfTwo(ab, ac, removed)| == 1 <==> OnlyCommon(ab, ac, removed, x)
    ensures |CommonOfTwo(ab, ac, removed)| == 1 ==> CommonOfTwo(ab, ac, removed) == [x]
  {
    hide CommonOfTwo, Flattened;
    var c := CommonOfTwo(ab, ac, removed);
    CommonHolds(ab, ac, removed, x);
    CommonOfTwoIsExact(ab, ac, removed, x);
    if |c| == 1 {
      assert c == [x];
      forall u | u != x && u !in removed ensures u !in Flattened(ab) || u !in Flattened(ac) {
        if u in Flattened(ab) && u in Flattened(ac) {
          CommonHolds(ab, ac, removed, u);
        }
      }
    }
    if OnlyCommon(ab, ac, removed, x) {
      forall u ensures multiset(c)[u] == multiset{x}[u] {
        CommonOfTwoIsExact(ab, ac, removed, u);
        if u != x && u in multiset(c) {
          assert u in c;
          CommonFrom(ab, ac, removed, u);
        }
      }
      assert multiset(c) == multiset{x};
      assert |multiset(c)| == |c|;
    }
  }

  /** Of three stars that are measured well enough, the pyramid gets an answer exactly when each true
      label is the only common one of its two lists, and counts once. */
  lemma PyramidAnswersIff(s: Setting, bright: seq<Star>, fov: real, table: seq<Row>, b: Trio<Star>, truth: Trio<int>)
    requires IsPairTable(s.lib, bright, fov, table) && PairRowsOnly(table)
    requires IsTruth(s, bright, fov, b, truth)
    ensures var ij := PairLabels(s, table, TrioAngle(s, b, 0, 1));
            var ik := PairLabels(s, table, TrioAngle(s, b, 0, 2));
            var jk := PairLabels(s, table, TrioAngle(s, b, 1, 2));
            var x, y, z := bright[truth.first].labelId, bright[truth.second].labelId, bright[truth.third].labelId;
            && AtLeastPairs(ij) && AtLeastPairs(ik) && AtLeastPairs(jk)
            && (CatalogueLabels(s, table, b).Some? <==>
                  OnlyCommon(ij, ik, [], x) && OnlyCommon(ij, jk, [x], y) && OnlyCommon(ik, jk, [x, y], z))
  {
    hide OnlyCommon, CommonOfTwo, PairLabels, Flattened, TrioAngle, IsPairTable;
    var x, y, z := bright[truth.first].labelId, bright[truth.second].labelId, bright[truth.third].labelId;
    var ij := PairLabels(s, table, TrioAngle(s, b, 0, 1));
    var ik := PairLabels(s, table, TrioAngle(s, b, 0, 2));
    var jk := PairLabels(s, table, TrioAngle(s, b, 1, 2));
    TruePairIsCandidate(s, bright, fov, table, (truth.first, truth.second), TrioAngle(s, b, 0, 1));
    TruePairIsCandidate(s, bright, fov, table, (truth.first, truth.third), TrioAngle(s, b, 0, 2));
    TruePairIsCandidate(s, bright, fov, table, (truth.second, truth.third), TrioAngle(s, b, 1, 2));
    SingletonIff(ij, ik, [], x);
    SingletonIff(ij, jk, [x], y);
    SingletonIff(ik, jk, [x, y], z);
    assert [x] + [y] == [x, y];
  }

  function Once(b: bool): nat { if b then 1 else 0 }

  lemma FlattenedCount(ell: seq<seq<int>>, x: int)
    requires AtLeastPairs(ell) && ell != []
    ensures multiset(Flattened(ell))[x]
         == multiset(Flattened(ell[..|ell| - 1]))[x] + Once(ell[|ell| - 1][0] == x) + Once(ell[|ell| - 1][1] == x)
  {
  }

  lemma {:induction false} LabelTwice(ell: seq<seq<int>>, k: nat, l: nat, x: int)
    requires AtLeastPairs(ell) && k < |ell| && l < |ell| && k != l
    requires (ell[k][0] == x || ell[k][1] == x) && (ell[l][0] == x || ell[l][1] == x)
    ensures multiset(Flattened(ell))[x] >= 2
  {
    hide Flattened;
    var last := |ell| - 1;
    var front := ell[..last];
    FlattenedCount(ell, x);
    if k < last && l < last {
      LabelTwice(front, k, l, x);
    } else {
      FlattenedMembers(front, if k < last then k else l);
      assert x in multiset(Flattened(front));
    }
  }

  /** A star with two true neighbours at the same measured angle is twice in the list. */
  lemma TwoNeighbours(s: Setting, bright: seq<Star>, fov: real, table: seq<Row>, x: int, y: int, z: int, theta: real)
    requires IsPairTable(s.lib, bright, fov, table) && PairRowsOnly(table) && DistinctLabels(bright)
    requires IsTruePair(s, bright, fov, x, y, theta) && IsTruePair(s, bright, fov, x, z, theta)
    requires x != y && x != z && y != z
    ensures AtLeastPairs(PairLabels(s, table, theta))
    ensures multiset(Flattened(PairLabels(s, table, theta)))[bright[x].labelId] >= 2
  {
    var k := CandidateAt(s, bright, fov, table, (x, y), theta);
    var l := CandidateAt(s, bright, fov, table, (x, z), theta);
    var ell := PairLabels(s, table, theta);
    assert bright[y].labelId != bright[z].labelId && bright[x].labelId != bright[y].labelId;
    assert k != l;
    LabelTwice(ell, k, l, bright[x].labelId);
  }

  /** Both sides that meet in a star agree with both measured angles there. */
  predicate AlikeAt(s: Setting, bright: seq<Star>, x: int, y: int, z: int, thetaY: real, thetaZ: real)
    requires IsPairOf(bright, (x, y)) && IsPairOf(bright, (x, z))
  {
    Measures(s, bright, (x, y), thetaZ) && Measures(s, bright, (x, z), thetaY)
  }

  /** Three stars with two sides that cannot be told apart get no answer. */
  lemma AlikeSidesAreNotAnswered(s: Setting, bright: seq<Star>, fov: real, table: seq<Row>, b: Trio<Star>,
                                 truth: Trio<int>)
    requires IsPairTable(s.lib, bright, fov, table) && PairRowsOnly(table)
    requires IsTruth(s, bright, fov, b, truth)
    requires var x, y, z := truth.first, truth.second, truth.third;
             || AlikeAt(s, bright, x, y, z, TrioAngle(s, b, 0, 1), TrioAngle(s, b, 0, 2))
             || AlikeAt(s, bright, y, x, z, TrioAngle(s, b, 0, 1), TrioAngle(s, b, 1, 2))
             || AlikeAt(s, bright, z, x, y, TrioAngle(s, b, 0, 2), TrioAngle(s, b, 1, 2))
    ensures CatalogueLabels(s, table, b) == None
  {
    hide PairLabels, Flattened, TrioAngle, IsPairTable, CatalogueLabels;
    var x, y, z := truth.first, truth.second, truth.third;
    var tij, tik, tjk := TrioAngle(s, b, 0, 1), TrioAngle(s, b, 0, 2), TrioAngle(s, b, 1, 2);
    PyramidAnswersIff(s, bright, fov, table, b, truth);
    TrueEitherWay(s, bright, fov, x, y, tij);
    TrueEitherWay(s, bright, fov, x, z, tik);
    TrueEitherWay(s, bright, fov, y, z, tjk);
    if AlikeAt(s, bright, x, y, z, tij, tik) {
      TwoNeighbours(s, bright, fov, table, x, y, z, tij);
      TwoNeighbours(s, bright, fov, table, x, y, z, tik);
    } else if AlikeAt(s, bright, y, x, z, tij, tjk) {
      TwoNeighbours(s, bright, fov, table, y, x, z, tij);
      TwoNeighbours(s, bright, fov, table, y, x, z, tjk);
    } else {
      TwoNeighbours(s, bright, fov, table, z, x, y, tik);
      TwoNeighbours(s, bright, fov, table, z, x, y, tjk);
    }
  }

  /** So a trio with two equal measured angles is never answered, whatever epsilon is. */
  lemma IsoscelesTriosAreNotAnswered(s: Setting, bright: seq<Star>, fov: real, table: seq<Row>, b: Trio<Star>,
                                     truth: Trio<int>)
    requires IsPairTable(s.lib, bright, fov, table) && PairRowsOnly(table)
    requires IsTruth(s, bright, fov, b, truth)
    requires var tij, tik, tjk := TrioAngle(s, b, 0, 1), TrioAngle(s, b, 0, 2), TrioAngle(s, b, 1, 2);
             tij == tik || tij == tjk || tik == tjk
    ensures CatalogueLabels(s, table, b) == None
  {
    hide PairLabels, Flattened, TrioAngle, IsPairTable, CatalogueLabels;
    TrueEitherWay(s, bright, fov, truth.first, truth.second, TrioAngle(s, b, 0, 1));
    TrueEitherWay(s, bright, fov, truth.first, truth.third, TrioAngle(s, b, 0, 2));
    TrueEitherWay(s, bright, fov, truth.second, truth.third, TrioAngle(s, b, 1, 2));
    AlikeSidesAreNotAnswered(s, bright, fov, table, b, truth);
  }

  lemma TrueEitherWay(s: Setting, bright: seq<Star>, fov: real, x: int, y: int, theta: real)
    requires IsPairOf(bright, (x, y))
    ensures PairAngle(s.lib, bright, (x, y)) == PairAngle(s.lib, bright, (y, x))
    ensures IsTruePair(s, bright, fov, x, y, theta) <==> IsTruePair(s, bright, fov, y, x, theta)
  {
    WithinAngleSymmetric(s.lib, bright[x].vector, bright[y].vector, fov);
  }

  /** The true pair is the only one in the field of view of the table that agrees with the angle. */
  ghost predicate OnlyMatch(s: Setting, bright: seq<Star>, fov: real, x: int, y: int, theta: real) {
    forall p: Pair :: 0 <= p.0 < p.1 < |bright| && PairFits(s.lib, bright, fov, p) && Measures(s, bright, p, theta) ==>
      p == (x, y) || p == (y, x)
  }

  lemma OneElement<T(!new)>(s: seq<T>, x: T)
    requires multiset(s)[x] == 1 && forall y :: y in s ==> y == x
    ensures s == [x]
  {
    forall y ensures multiset(s)[y] == multiset{x}[y] {
      assert y in s <==> y in multiset(s);
    }
    assert multiset(s) == multiset{x};
    assert |multiset(s)| == |s|;
  }

  lemma CandidateFits(s: Setting, bright: seq<Star>, fov: real, table: seq<Row>, theta: real, row: Row)
      returns (p: Pair)
    requires IsPairTable(s.lib, bright, fov, table) && row in PairCandidates(s, table, theta)
    ensures 0 <= p.0 < p.1 < |bright| && PairFits(s.lib, bright, fov, p)
    ensures Measures(s, bright, p, theta) && PairRow(s.lib, bright, p) == row
  {
    hide Separation;
    BoundQueryIsExact(table, [theta - s.epsilon1], [theta + s.epsilon1], row);
    PairTableMembers(s.lib, bright, fov, table, row);
    p :| 0 <= p.0 < p.1 < |bright| && PairFits(s.lib, bright, fov, p) && PairRow(s.lib, bright, p) == row;
    assert row.features[0] == PairAngle(s.lib, bright, p);
  }

  predicate IsOnePair(ell: seq<seq<int>>, x: int, y: int) {
    ell == [[x, y]] || ell == [[y, x]]
  }

  /** Then it is the only candidate. */
  lemma OnlyMatchOnlyCandidate(s: Setting, bright: seq<Star>, fov: real, table: seq<Row>, x: int, y: int, theta: real)
    requires IsPairTable(s.lib, bright, fov, table) && PairRowsOnly(table) && DistinctLabels(bright) && x != y
    requires IsTruePair(s, bright, fov, x, y, theta) && OnlyMatch(s, bright, fov, x, y, theta)
    ensures IsOnePair(PairLabels(s, table, theta), bright[x].labelId, bright[y].labelId)
  {
    hide Separation, IsPairTable;
    var o := if x < y then (x, y) else (y, x);
    TrueEitherWay(s, bright, fov, x, y, theta);
    var row := PairRow(s.lib, bright, o);
    var rows := PairCandidates(s, table, theta);
    PairTableIsComplete(s.lib, bright, fov, table, o);
    RowOfTruePair(s, bright, fov, table, o, theta);
    BoundQueryIsExact(table, [theta - s.epsilon1], [theta + s.epsilon1], row);
    forall r | r in rows ensures r == row {
      var p := CandidateFits(s, bright, fov, table, theta, r);
      assert p == o;
    }
    OneElement(rows, row);
    assert PairLabels(s, table, theta) == [row.labels];
  }

  /** Three stars each of whose angles only the true pair has are answered, with the true labels. */
  lemma UnambiguousTriosAreAnswered(s: Setting, bright: seq<Star>, fov: real, table: seq<Row>, b: Trio<Star>,
                                    truth: Trio<int>)
    requires IsPairTable(s.lib, bright, fov, table) && PairRowsOnly(table)
    requires IsTruth(s, bright, fov, b, truth)
    requires OnlyMatch(s, bright, fov, truth.first, truth.second, TrioAngle(s, b, 0, 1))
    requires OnlyMatch(s, bright, fov, truth.first, truth.third, TrioAngle(s, b, 0, 2))
    requires OnlyMatch(s, bright, fov, truth.second, truth.third, TrioAngle(s, b, 1, 2))
    ensures CatalogueLabels(s, table, b)
         == Some(Trio(bright[truth.first].labelId, bright[truth.second].labelId, bright[truth.third].labelId))
  {
    hide PairLabels, TrioAngle, IsPairTable, OnlyMatch, CatalogueLabels;
    var tij, tik, tjk := TrioAngle(s, b, 0, 1), TrioAngle(s, b, 0, 2), TrioAngle(s, b, 1, 2);
    var x, y, z := bright[truth.first].labelId, bright[truth.second].labelId, bright[truth.third].labelId;
    OnlyMatchOnlyCandidate(s, bright, fov, table, truth.first, truth.second, tij);
    OnlyMatchOnlyCandidate(s, bright, fov, table, truth.first, truth.third, tik);
    OnlyMatchOnlyCandidate(s, bright, fov, table, truth.second, truth.third, tjk);
    assert x != y && x != z && y != z;
    PyramidAnswersIff(s, bright, fov, table, b, truth);
    OnlyCommonOfPairs(PairLabels(s, table, tij), PairLabels(s, table, tik), PairLabels(s, table, tjk), x, y, z);
    PyramidIsSound(s, bright, fov, table, b, truth);
  }

  lemma OnlyCommonOfPairs(ij: seq<seq<int>>, ik: seq<seq<int>>, jk: seq<seq<int>>, x: int, y: int, z: int)
    requires IsOnePair(ij, x, y) && IsOnePair(ik, x, z) && IsOnePair(jk, y, z)
    requires x != y && x != z && y != z
    ensures AtLeastPairs(ij) && AtLeastPairs(ik) && AtLeastPairs(jk)
    ensures OnlyCommon(ij, ik, [], x) && OnlyCommon(ij, jk, [x], y) && OnlyCommon(ik, jk, [x, y], z)
  {
    hide Flattened, OnlyCommon;
    OnlyCommonOfTwoPairs(ij, ik, [], x, y, z);
    OnlyCommonOfTwoPairs(ij, jk, [x], y, x, z);
    OnlyCommonOfTwoPairs(ik, jk, [x, y], z, x, y);
  }

  lemma OnlyCommonOfTwoPairs(ab: seq<seq<int>>, ac: seq<seq<int>>, removed: seq<int>, x: int, y: int, z: int)
    requires IsOnePair(ab, x, y) && IsOnePair(ac, x, z) && x != y && x != z && y != z
    ensures AtLeastPairs(ab) && AtLeastPairs(ac) && OnlyCommon(ab, ac, removed, x)
  {
    hide Flattened, IsOnePair;
    OnePairLabels(ab, x, y);
    OnePairLabels(ac, x, z);
  }

  lemma OnePairLabels(ell: seq<seq<int>>, x: int, y: int)
    requires IsOnePair(ell, x, y) && x != y
    ensures AtLeastPairs(ell) && multiset(Flattened(ell))[x] == 1
    ensures forall u :: u in Flattened(ell) <==> u == x || u == y
  {
    assert ell[..0] == [];
    assert Flattened(ell) == [ell[0][0], ell[0][1]];
  }

  // ---- Images of the sky

  /** The image shows the bright stars `truth[0], truth[1], ..`, closer together than `fov`, so well
      that every angle in it is within epsilon of the true one. */
  ghost predicate ShowsMeasured(s: Setting, bright: seq<Star>, fov: real, truth: seq<int>) {
    && |truth| == |s.image|
    && (forall i, j :: 0 <= i < j < |truth| ==>
          && truth[i] != truth[j]
          && IsTruePair(s, bright, fov, truth[i], truth[j], Separation(s.lib, s.image[i].vector, s.image[j].vector)))
  }

  /** A rotated image is one, whatever the attitude and however small epsilon is. */
  lemma RotatedIsMeasured(s: Setting, bright: seq<Star>, fov: real, truth: seq<int>, q: Quaternion)
    requires s.epsilon1 >= 0.0
    requires Shows(s.image, bright, truth, q) && ShownWithin(s.lib, bright, truth, fov)
    ensures ShowsMeasured(s, bright, fov, truth)
  {
    forall i, j | 0 <= i < j < |truth|
      ensures IsTruePair(s, bright, fov, truth[i], truth[j], Separation(s.lib, s.image[i].vector, s.image[j].vector)) {
      ShownAngle(s, bright, truth, q, i, j);
    }
  }

  /** End to end: over a generated table, what identification returns for such an image are three
      image stars with their true labels. */
  lemma IdentificationIsTrue(s: Setting, bright: seq<Star>, fov: real, table: seq<Row>, truth: seq<int>,
                             found: IndexTrio, result: seq<Star>)
    requires IsPairTable(s.lib, bright, fov, table) && PairRowsOnly(table)
    requires DistinctLabels(bright) && ShowsMeasured(s, bright, fov, truth)
    requires IsAnswerFor(s, table, found, result)
    ensures 0 <= truth[found.0] < |bright| && 0 <= truth[found.1] < |bright| && 0 <= truth[found.2] < |bright|
    ensures |result| == 3
    ensures result[0] == DefineLabel(s.image[found.0], bright[truth[found.0]].labelId)
    ensures result[1] == DefineLabel(s.image[found.1], bright[truth[found.1]].labelId)
    ensures result[2] == DefineLabel(s.image[found.2], bright[truth[found.2]].labelId)
  {
    PyramidIsSound(s, bright, fov, table, ImageTrio(s, found), Trio(truth[found.0], truth[found.1], truth[found.2]));
  }

  /** Images that are answered exist: four stars whose six angles are all different, looked at from
      the middle. Of four image stars the loops reach one trio, and it has catalogue labels. */
  lemma AnsweredImagesExist(lib: Libm)
      returns (s: Setting, bright: seq<Star>, fov: real, table: seq<Row>, truth: seq<int>, q: Quaternion)
    requires Laws(lib)
    ensures s.lib == lib && s.epsilon1 == 0.0 && |s.image| == 4
    ensures IsPairTable(lib, bright, fov, table) && PairRowsOnly(table)
    ensures DistinctLabels(bright) && OnTheSphere(bright)
    ensures Shows(s.image, bright, truth, q) && ShownWithin(lib, bright, truth, fov)
    ensures ShowsMeasured(s, bright, fov, truth)
    ensures (0, 1, 2) in PyramidTrios(|s.image|)
    ensures IsAnswerFor(s, table, (0, 1, 2), LabelledTrio(ImageTrio(s, (0, 1, 2)), Trio(1, 2, 3)))
  {
    hide Shows, ShownWithin, OnTheSphere, Separation, Laws, AreFourStars, PairRowsOf, Pairs, PyramidTrios, AnglesDiffer,
      ShowsMeasured;
    var image;
    image, bright, truth, q, fov := FourStars(lib);
    table := PairRowsOf(lib, bright, fov, Pairs(|bright|));
    s := Setting(lib, image, fov, 0.0, 0.0, 0.0, 10, "table", SwapAt(2));
    PairTableIsKnown(lib, bright, bright, fov, table);
    assert forall row :: row in table ==> KnownRow(row, bright, 2, 1);
    RotatedIsMeasured(s, bright, fov, truth, q);
    PyramidTriosExact(4);
    AllAnglesDiffer(lib, bright);
    FirstTrioIsAnswered(s, bright, fov, table, truth);
  }

  lemma FirstTrioIsAnswered(s: Setting, bright: seq<Star>, fov: real, table: seq<Row>, truth: seq<int>)
    requires IsPairTable(s.lib, bright, fov, table) && PairRowsOnly(table) && DistinctLabels(bright)
    requires s.epsilon1 == 0.0 && |s.image| == |bright| == 4 && truth == [0, 1, 2, 3]
    requires ShowsMeasured(s, bright, fov, truth) && AnglesDiffer(s.lib, bright)
    ensures CatalogueLabels(s, table, ImageTrio(s, (0, 1, 2)))
         == Some(Trio(bright[0].labelId, bright[1].labelId, bright[2].labelId))
  {
    hide IsPairTable, Separation, AnglesDiffer, OnlyMatch, CatalogueLabels;
    var b := ImageTrio(s, (0, 1, 2));
    assert IsTruePair(s, bright, fov, truth[0], truth[1], TrioAngle(s, b, 0, 1));
    assert IsTruePair(s, bright, fov, truth[0], truth[2], TrioAngle(s, b, 0, 2));
    assert IsTruePair(s, bright, fov, truth[1], truth[2], TrioAngle(s, b, 1, 2));
    OnlyItsOwnAngle(s, bright, fov, 0, 1, TrioAngle(s, b, 0, 1));
    OnlyItsOwnAngle(s, bright, fov, 0, 2, TrioAngle(s, b, 0, 2));
    OnlyItsOwnAngle(s, bright, fov, 1, 2, TrioAngle(s, b, 1, 2));
    UnambiguousTriosAreAnswered(s, bright, fov, table, b, Trio(0, 1, 2));
  }

  ghost predicate AnglesDiffer(lib: Libm, bright: seq<Star>) {
    forall p: Pair, q: Pair {:trigger PairAngle(lib, bright, p), PairAngle(lib, bright, q)} ::
      0 <= p.0 < p.1 < |bright| && 0 <= q.0 < q.1 < |bright|
          && PairAngle(lib, bright, p) == PairAngle(lib, bright, q) ==>
        p == q
  }

  lemma OnlyItsOwnAngle(s: Setting, bright: seq<Star>, fov: real, x: nat, y: nat, theta: real)
    requires x < y < |bright| && s.epsilon1 == 0.0 && AnglesDiffer(s.lib, bright)
    requires IsTruePair(s, bright, fov, x, y, theta)
    ensures OnlyMatch(s, bright, fov, x, y, theta)
  {
    assert theta == PairAngle(s.lib, bright, (x, y));
  }

  lemma AllAnglesDiffer(lib: Libm, bright: seq<Star>)
    requires Laws(lib) && AreFourStars(bright) && |bright| == 4
    ensures AnglesDiffer(lib, bright)
  {
    hide AreFourStars, Laws, Separation, SqrMagnitude, Dot;
    forall p: Pair, q: Pair | 0 <= p.0 < p.1 < |bright| && 0 <= q.0 < q.1 < |bright|
        && PairAngle(lib, bright, p) == PairAngle(lib, bright, q)
      ensures p == q {
      FourDots(bright);
      SeparationOrder(lib, bright[p.0].vector, bright[p.1].vector, bright[q.0].vector, bright[q.1].vector);
      SeparationOrder(lib, bright[q.0].vector, bright[q.1].vector, bright[p.0].vector, bright[p.1].vector);
      DotsDiffer(bright, p, q);
    }
  }
}
