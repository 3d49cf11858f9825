/** End-to-end truth of the angle method: which pair is the candidate, and when the answer is given. */
module AngleTruth {
  import opened Quaternions
  import opened Stars
  import opened Rotations
  import opened Sequences
  import opened Enumeration
  import opened Chomps
  import opened Identifications
  import opened Angles
  import opened PairTables
  import opened Images
  import opened PyramidTruth

  // ---- The candidate

  /** The angle is within epsilon 1 of that of two bright stars closer together than `fov`. */
  predicate AgreesWith(s: Setting, bright: seq<Star>, fov: real, theta: real, p: Pair) {
    && 0 <= p.0 < p.1 < |bright|
    && Separation(s.lib, bright[p.0].vector, bright[p.1].vector) < fov
    && -s.epsilon1 <= theta - Separation(s.lib, bright[p.0].vector, bright[p.1].vector) <= s.epsilon1
  }

  lemma AgreesIff(s: Setting, bright: seq<Star>, fov: real, theta: real, p: Pair)
    ensures AgreesWith(s, bright, fov, theta, p) <==>
            0 <= p.0 < p.1 < |bright| && PairFits(s.lib, bright, fov, p) && Measures(s, bright, p, theta)
  {
  }

  /** The candidates are the rows of the pairs that agree. */
  lemma CandidatesAgree(s: Setting, bright: seq<Star>, fov: real, table: seq<Row>, theta: real)
    requires IsPairTable(s.lib, bright, fov, table)
    ensures forall p :: AgreesWith(s, bright, fov, theta, p) ==>
              PairRow(s.lib, bright, p) in PairCandidates(s, table, theta)
    ensures forall row :: row in PairCandidates(s, table, theta) ==>
              exists p :: AgreesWith(s, bright, fov, theta, p) && PairRow(s.lib, bright, p) == row
  {
    hide AgreesWith, IsPairTable, PairCandidates, Measures, PairFits, PairRow;
    forall p | AgreesWith(s, bright, fov, theta, p)
      ensures PairRow(s.lib, bright, p) in PairCandidates(s, table, theta) {
      AgreesIff(s, bright, fov, theta, p);
      FittingPair(s, bright, fov, p);
      RowOfTruePair(s, bright, fov, table, p, theta);
    }
    forall row | row in PairCandidates(s, table, theta)
      ensures exists p :: AgreesWith(s, bright, fov, theta, p) && PairRow(s.lib, bright, p) == row {
      var p := CandidateFits(s, bright, fov, table, theta, row);
      AgreesIff(s, bright, fov, theta, p);
    }
  }

  lemma FittingPair(s: Setting, bright: seq<Star>, fov: real, p: Pair)
    requires PairFits(s.lib, bright, fov, p)
    ensures IsPairOf(bright, p) && PairAngle(s.lib, bright, p) < fov
  {
  }

  lemma {:induction false} FilterAscends(keep: Row -> bool, rows: seq<Row>)
    requires forall row :: row in rows ==> |row.features| == 1
    requires forall k, l :: 0 <= k < l < |rows| ==> rows[k].features[0] <= rows[l].features[0]
    ensures forall row :: row in Filter(keep, rows) ==> |row.features| == 1
    ensures forall l :: 0 <= l < |Filter(keep, rows)| ==>
              Filter(keep, rows)[0].features[0] <= Filter(keep, rows)[l].features[0]
  {
    FilterAll(keep, rows);
    if rows != [] {
      var front, last := rows[..|rows| - 1], rows[|rows| - 1];
      FilterAscends(keep, front);
      FilterAll(keep, front);
      forall row | row in front ensures row.features[0] <= last.features[0] {
        var k :| 0 <= k < |front| && front[k] == row;
      }
    }
  }

  lemma AscendingFeatures(table: seq<Row>)
    requires AscendsByAngle(table) && forall row :: row in table ==> |row.features| == 1
    ensures forall k, l :: 0 <= k < l < |table| ==> table[k].features[0] <= table[l].features[0]
  {
    forall k, l | 0 <= k < l < |table| ensures table[k].features[0] <= table[l].features[0] {
      assert AscendsAt(table, k, l);
    }
  }

  /** There is a candidate exactly when the angle is at most the field of view and some pair of bright
      stars agrees with it. It is such a pair, with the stars in the order of the catalogue; and over a
      table as it is generated, no pair that agrees has a smaller angle. */
  lemma CandidatePairIff(s: Setting, hip: seq<Star>, bright: seq<Star>, fov: real, table: seq<Row>, theta: real)
    requires IsCatalogue(hip, bright) && IsPairTable(s.lib, bright, fov, table) && KnownRows(table, hip, 2, 1)
    ensures CandidatePair(s, hip, table, theta).Some? <==>
            theta <= s.fov && exists p :: AgreesWith(s, bright, fov, theta, p)
    ensures CandidatePair(s, hip, table, theta).Some? ==>
              exists p :: AgreesWith(s, bright, fov, theta, p) && 0 <= p.0 < p.1 < |bright|
                          && CandidatePair(s, hip, table, theta).value == [bright[p.0], bright[p.1]]
                          && (AscendsByAngle(table) ==> IsSmallest(s, bright, fov, theta, p))
  {
    hide AgreesWith, IsPairTable, Separation, AscendsByAngle, IsSmallest;
    CandidatesAgree(s, bright, fov, table, theta);
    var rows := PairCandidates(s, table, theta);
    if rows != [] {
      assert rows[0] in rows;
      var p :| AgreesWith(s, bright, fov, theta, p) && PairRow(s.lib, bright, p) == rows[0];
      AgreesIff(s, bright, fov, theta, p);
      if CandidatePair(s, hip, table, theta).Some? {
        CandidateStars(s, hip, bright, fov, table, theta, p);
        if AscendsByAngle(table) {
          FirstIsSmallest(s, hip, bright, fov, table, theta, p);
        }
      }
    }
  }

  lemma CandidateStars(s: Setting, hip: seq<Star>, bright: seq<Star>, fov: real, table: seq<Row>, theta: real, p: Pair)
    requires IsCatalogue(hip, bright) && KnownRows(table, hip, 2, 1)
    requires CandidatePair(s, hip, table, theta).Some? && AgreesWith(s, bright, fov, theta, p)
    requires PairCandidates(s, table, theta) != [] && PairCandidates(s, table, theta)[0] == PairRow(s.lib, bright, p)
    ensures CandidatePair(s, hip, table, theta).value == [bright[p.0], bright[p.1]]
  {
    hide Separation;
    assert bright[p.0] in hip && bright[p.1] in hip;
    LookUpUnique(hip, bright[p.0]);
    LookUpUnique(hip, bright[p.1]);
  }

  /** No pair that agrees with the angle has a smaller one. */
  ghost predicate IsSmallest(s: Setting, bright: seq<Star>, fov: real, theta: real, p: Pair)
    requires IsPairOf(bright, p)
  {
    forall q: Pair :: AgreesWith(s, bright, fov, theta, q) ==>
      Separation(s.lib, bright[p.0].vector, bright[p.1].vector) <= Separation(s.lib, bright[q.0].vector,
                                                                              bright[q.1].vector)
  }

  lemma FirstIsSmallest(s: Setting, hip: seq<Star>, bright: seq<Star>, fov: real, table: seq<Row>, theta: real, p: Pair)
    requires IsPairTable(s.lib, bright, fov, table) && KnownRows(table, hip, 2, 1) && AscendsByAngle(table)
    requires AgreesWith(s, bright, fov, theta, p)
    requires PairCandidates(s, table, theta) != [] && PairCandidates(s, table, theta)[0] == PairRow(s.lib, bright, p)
    ensures IsSmallest(s, bright, fov, theta, p)
  {
    hide IsPairTable, AscendsByAngle;
    forall row | row in table ensures |row.features| == 1 {
      assert KnownRow(row, hip, 2, 1);
    }
    AscendingFeatures(table);
    FilterAscends(row => InBand(row, [theta - s.epsilon1], [theta + s.epsilon1]), table);
    CandidatesAgree(s, bright, fov, table, theta);
    var rows := PairCandidates(s, table, theta);
    forall q: Pair | AgreesWith(s, bright, fov, theta, q)
      ensures Separation(s.lib, bright[p.0].vector, bright[p.1].vector)
           <= Separation(s.lib, bright[q.0].vector, bright[q.1].vector) {
      var l :| 0 <= l < |rows| && rows[l] == PairRow(s.lib, bright, q);
      assert rows[0].features[0] <= rows[l].features[0];
    }
  }

  // ---- The answer

  /** The answer for two stars of a rotated image. Let the angle between them agree with no other pair of
      bright stars, and let the attitude bring every catalogue star within the field of view of the star
      the row lists first near an image star. Then the two get their true labels exactly when matching
      them the other way round leaves one of those catalogue stars unmatched; and no labels otherwise. */
  lemma ImagePairAnswer(s: Setting, hip: seq<Star>, bright: seq<Star>, fov: real, table: seq<Row>, truth: seq<int>,
                        q: Quaternion, i: nat, j: nat, bigP: seq<Star>, wrong: Quaternion)
    requires s.lib.Sound() && s.epsilon1 >= 0.0
    requires IsCatalogue(hip, bright) && IsPairTable(s.lib, bright, fov, table) && KnownRows(table, hip, 2, 1)
    requires Shows(s.image, bright, truth, q) && i < j < |s.image|
    requires PairAngle(s.lib, bright, (truth[i], truth[j])) < fov
    requires PairAngle(s.lib, bright, (truth[i], truth[j])) <= s.fov
    requires OnlyMatch(s, bright, fov, truth[i], truth[j], ImageAngle(s, (i, j)))
    requires !Collinear(bright[truth[i]].vector, bright[truth[j]].vector)
    requires bigP == Nearby(s.lib, hip, bright[if truth[i] < truth[j] then truth[i] else truth[j]].vector, s.fov)
    requires forall p :: p in bigP ==> HasMatch(s.lib, s.image, q, s.epsilon4, p)
    requires wrong == Triad(s.lib, s.image[i].vector, s.image[j].vector, bright[truth[j]].vector,
                            bright[truth[i]].vector)
    ensures PairAnswer(s, hip, table, (i, j))
         == if |Overlay(s.lib, s.image, bigP, wrong, s.epsilon4)| < |bigP|
            then Some([DefineLabel(s.image[i], bright[truth[i]].labelId),
                       DefineLabel(s.image[j], bright[truth[j]].labelId)])
            else None
  {
    hide Overlay, Triad, Rotate, Collinear, HasMatch, SqrNorm, Separation, IsPairTable, Nearby, AgreesWith, BetterOrder,
        CandidatePair, KnownRows, IsCatalogue;
    var x, y := truth[i], truth[j];
    var theta := ImageAngle(s, (i, j));
    ShownAngle(s, bright, truth, q, i, j);
    TrueEitherWay(s, bright, fov, x, y, theta);
    var o := if x < y then (x, y) else (y, x);
    AgreesIff(s, bright, fov, theta, o);
    CandidatePairIff(s, hip, bright, fov, table, theta);
    var p :| AgreesWith(s, bright, fov, theta, p) && 0 <= p.0 < p.1 < |bright|
             && CandidatePair(s, hip, table, theta).value == [bright[p.0], bright[p.1]];
    AgreesIff(s, bright, fov, theta, p);
    assert p == o;
    PairAnswerIsTrue(s, bigP, bright[x], bright[y], s.image[i], s.image[j], q, wrong);
  }
}
