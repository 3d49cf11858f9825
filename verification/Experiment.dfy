/**
 One trial: generate an image, identify it and compare the result with the answers (experiment.h,
 experiment.cpp). Here generation and identification meet.
 */
module Experiments {
  import opened Libm
  import opened Vectors
  import opened Quaternions
  import opened Stars
  import opened Rotations
  import opened Sequences
  import opened Enumeration
  import opened Chomps
  import opened Identifications
  import opened AngleLaws
  import opened PairTables
  import opened Images
  import opened Pyramids
  import opened PyramidTruth
  import opened TrioTables
  import opened TriangleTruth
  import opened Pivots
  import opened BaseTriangles
  import opened Benchmarks

  // ---- The percentage of correct stars

  predicate Agrees(lib: Libm, fov: real, s: Star, found: Star) {
    WithinAngle(lib, found.vector, s.vector, fov) && found.labelId == s.labelId
  }

  /** Answers with which some star of the result agrees. */
  function Agreeing(lib: Libm, fov: real, result: seq<Star>): Star -> bool {
    (s: Star) => exists k :: 0 <= k < |result| && Agrees(lib, fov, s, result[k])
  }

  /** The answers that count are those closer than the field of view to a star of the result with their label. */
  lemma AgreeingExact(lib: Libm, fov: real, result: seq<Star>, answers: seq<Star>, s: Star)
    ensures multiset(Filter(Agreeing(lib, fov, result), answers))[s]
         == if exists k :: && 0 <= k < |result| && Separation(lib, result[k].vector, s.vector) < fov
                           && result[k].labelId == s.labelId
            then multiset(answers)[s] else 0
  {
    FilterCounts(Agreeing(lib, fov, result), answers, s);
    if k :| && 0 <= k < |result| && Separation(lib, result[k].vector, s.vector) < fov
            && result[k].labelId == s.labelId {
      assert Agrees(lib, fov, s, result[k]);
    }
  }

  /** The number of answers found over the size of the result, which is not a number for an empty
      result; 0 for an error. */
  method PercentageCorrect(lib: Libm, b: StarsEither, answers: seq<Star>, fov: real) returns (percentage: Option<real>)
    ensures b.error != 0 ==> percentage == Some(0.0)
    ensures b.error == 0 && b.result == [] ==> percentage == None
    ensures b.error == 0 && b.result != [] ==>
              percentage == Some(|Filter(Agreeing(lib, fov, b.result), answers)| as real / |b.result| as real)
  {
    hide Filter, Agrees;
    if b.error != 0 {
      return Some(0.0);
    }
    var count: nat := 0;
    FilterOfNone(Agreeing(lib, fov, b.result));
    for i := 0 to |answers|
      invariant count == |Filter(Agreeing(lib, fov, b.result), answers[..i])|
    {
      FilterPrefix(Agreeing(lib, fov, b.result), answers, i);
      var k := 0;
      while k < |b.result| && !Agrees(lib, fov, answers[i], b.result[k])
        invariant 0 <= k <= |b.result|
        invariant forall l :: 0 <= l < k ==> !Agrees(lib, fov, answers[i], b.result[l])
      {
        k := k + 1;
      }
      count := count + if k < |b.result| then 1 else 0;
    }
    assert answers[..|answers|] == answers;
    return if b.result == [] then None else Some(count as real / |b.result| as real);
  }

  lemma {:induction false} FilterAtIndices<T>(keep: T -> bool, s: seq<T>, at: set<int>)
    requires forall i :: i in at ==> 0 <= i < |s|
    requires forall i :: 0 <= i < |s| ==> (keep(s[i]) <==> i in at)
    ensures |Filter(keep, s)| == |at|
    decreases |s|
  {
    if s == [] {
      assert forall i :: i !in at;
      assert at == {};
    } else {
      var last := |s| - 1;
      FilterAtIndices(keep, s[..last], at - {last});
    }
  }

  ghost predicate AllNear(lib: Libm, fov: real, answers: seq<Star>, result: seq<Star>, c: IndexTrio)
    requires IsTrioOf(answers, c)
  {
    forall k, i :: 0 <= k < |result| && i in {c.0, c.1, c.2} ==>
        WithinAngle(lib, result[k].vector, answers[i].vector, fov)
  }

  function LabelsAt(stars: seq<Star>, c: IndexTrio): multiset<int>
    requires IsTrioOf(stars, c)
  {
    multiset{stars[c.0].labelId, stars[c.1].labelId, stars[c.2].labelId}
  }

  /** Three stars that carry the labels of three answers between them, all within the field of view of
      each other, count as three correct stars: which of them carries which label makes no difference. */
  lemma ThreeLabelsCountThree(lib: Libm, fov: real, answers: seq<Star>, result: seq<Star>, c: IndexTrio)
    requires IsTrioOf(answers, c) && Distinct(c) && DistinctLabels(answers) && |result| == 3
    requires LabelsAt(result, (0, 1, 2)) == LabelsAt(answers, c)
    requires AllNear(lib, fov, answers, result, c)
    ensures |Filter(Agreeing(lib, fov, result), answers)| == 3
  {
    hide WithinAngle;
    var at := {c.0, c.1, c.2};
    forall i | 0 <= i < |answers| ensures Agreeing(lib, fov, result)(answers[i]) <==> i in at {
      if k :| 0 <= k < |result| && Agrees(lib, fov, answers[i], result[k]) {
        assert result[k].labelId in LabelsAt(result, (0, 1, 2));
        assert result[k].labelId in LabelsAt(answers, c);
      }
      if i in at {
        assert answers[i].labelId in LabelsAt(answers, c);
        assert answers[i].labelId in LabelsAt(result, (0, 1, 2));
        var k := if result[0].labelId == answers[i].labelId then 0
            else if result[1].labelId == answers[i].labelId then 1 else 2;
        assert Agrees(lib, fov, answers[i], result[k]);
      }
    }
    FilterAtIndices(Agreeing(lib, fov, result), answers, at);
  }

  // ---- Generated images

  /** The lists of a test image after it has been generated. */
  ghost predicate IsGenerated(lib: Libm, hip: seq<Star>, fov: real, mBar: real, focus: Vector3, n: nat, b: seq<Star>,
                              r: seq<Star>, answers: seq<Star>, q: Quaternion) {
    && SqrNorm(q) == 1.0
    && n <= |Shown(lib, hip, fov, mBar, focus)| && IsPermutation(r, Shown(lib, hip, fov, mBar, focus)[..n])
    && |b| == |r| == |answers|
    && forall i :: 0 <= i < |b| ==> answers[i] == RotateStar(r[i], q) && b[i] == ResetLabel(answers[i])
  }

  /** Catalogue stars are different points of the unit sphere, and those bright enough for an image
      are bright enough for the tables. */
  ghost predicate IsSky(hip: seq<Star>, bright: seq<Star>, mBar: real) {
    && IsCatalogue(hip, bright) && OnTheSphere(hip)
    && forall s :: s in hip && s.magnitude <= mBar ==> s in bright
  }

  lemma BrightOnTheSphere(hip: seq<Star>, bright: seq<Star>, mBar: real)
    requires IsSky(hip, bright, mBar)
    ensures OnTheSphere(bright)
  {
    hide SqrMagnitude;
    forall i | 0 <= i < |bright| ensures SqrMagnitude(bright[i].vector) == 1.0 {
      assert bright[i] in hip;
    }
    forall i, j | 0 <= i < j < |bright| ensures bright[i].vector != bright[j].vector {
      assert bright[i] in hip && bright[j] in hip;
      var p :| 0 <= p < |hip| && hip[p] == bright[i];
      var q :| 0 <= q < |hip| && hip[q] == bright[j];
      assert p != q;
    }
  }

  /** A generated image shows different bright stars under its attitude, all of them closer together
      than the field of view: it is an image as identification is proved for. */
  lemma GeneratedIsShown(lib: Libm, hip: seq<Star>, bright: seq<Star>, fov: real, mBar: real, focus: Vector3, n: nat,
                         b: seq<Star>, r: seq<Star>, answers: seq<Star>, q: Quaternion) returns (truth: seq<int>)
    requires Laws(lib) && IsSky(hip, bright, mBar) && SqrMagnitude(focus) == 1.0
    requires IsGenerated(lib, hip, fov, mBar, focus, n, b, r, answers, q)
    ensures Shows(b, bright, truth, q) && ShownWithin(lib, bright, truth, fov)
    ensures forall i :: 0 <= i < |b| ==> bright[truth[i]] == r[i]
  {
    hide Rotate, WithinAngle, Shown, SqrMagnitude, Laws, SqrNorm, Shows, IsSky;
    var shown := Shown(lib, hip, fov, mBar, focus);
    PermutationMembers(r, shown[..n]);
    forall s | s in r ensures s in bright && SqrMagnitude(s.vector) == 1.0 && InFocus(lib, focus, fov, s.vector) {
      assert s in shown;
      ShownInFocus(lib, hip, fov, mBar, focus, q, s);
      ShownIsBright(hip, bright, mBar, s);
    }
    DistinctSky(hip, bright, mBar);
    truth := GeneratedImageShows(lib, hip, bright, fov, mBar, focus, n, b, r, q);
    TruthInRange(b, bright, truth, q);
    forall i, j | 0 <= i < j < |truth|
      ensures IsPairOf(bright, (truth[i], truth[j])) && PairAngle(lib, bright, (truth[i], truth[j])) < fov {
      assert r[i] in r && r[j] in r;
      StarsInFocusAreClose(lib, focus, fov, r[i].vector, r[j].vector);
    }
  }

  lemma ShownIsBright(hip: seq<Star>, bright: seq<Star>, mBar: real, s: Star)
    requires IsSky(hip, bright, mBar) && s in hip && s.magnitude <= mBar
    ensures s in bright && SqrMagnitude(s.vector) == 1.0
  {
  }

  lemma DistinctSky(hip: seq<Star>, bright: seq<Star>, mBar: real)
    requires IsSky(hip, bright, mBar)
    ensures DistinctLabels(hip) && DistinctLabels(bright)
  {
  }

  lemma TruthInRange(b: seq<Star>, bright: seq<Star>, truth: seq<int>, q: Quaternion)
    requires Shows(b, bright, truth, q)
    ensures |truth| == |b| && forall i :: 0 <= i < |truth| ==> 0 <= truth[i] < |bright|
  {
  }

  lemma StarsInFocusAreClose(lib: Libm, focus: Vector3, fov: real, u: Vector3, v: Vector3)
    requires Laws(lib) && SqrMagnitude(focus) == SqrMagnitude(u) == SqrMagnitude(v) == 1.0
    requires InFocus(lib, focus, fov, u) && InFocus(lib, focus, fov, v)
    ensures Separation(lib, u, v) < fov
  {
    hide SqrMagnitude, Laws, Separation;
    WithinFieldOfView(lib, focus, u, v, fov);
  }

  lemma WiderField(lib: Libm, bright: seq<Star>, truth: seq<int>, fov: real, wider: real)
    requires ShownWithin(lib, bright, truth, fov) && fov <= wider
    ensures ShownWithin(lib, bright, truth, wider)
  {
  }

  /** All answers are within the field of view of each other, and of themselves. */
  lemma AnswersAreNear(lib: Libm, bright: seq<Star>, fov: real, b: seq<Star>, answers: seq<Star>, truth: seq<int>,
                       q: Quaternion, i: nat, j: nat)
    requires Laws(lib) && OnTheSphere(bright) && fov > 0.0
    requires Shows(b, bright, truth, q) && ShownWithin(lib, bright, truth, fov)
    requires |answers| == |b| && forall k :: 0 <= k < |b| ==> answers[k].vector == b[k].vector
    requires i < |b| && j < |b|
    ensures WithinAngle(lib, b[i].vector, answers[j].vector, fov)
  {
    hide Rotate, SqrMagnitude, Laws, Separation;
    var u, v := bright[truth[i]].vector, bright[truth[j]].vector;
    UnitRotationKeeps(lib, q, u, v);
    WithinAngleSymmetric(lib, u, v, fov);
    if i == j {
      UnitIsNotZero(u);
      SeparationFromItself(lib, u);
    } else if i < j {
      assert PairAngle(lib, bright, (truth[i], truth[j])) < fov;
    } else {
      assert PairAngle(lib, bright, (truth[j], truth[i])) < fov;
    }
  }

  lemma UnitIsNotZero(v: Vector3)
    requires SqrMagnitude(v) == 1.0
    ensures v != ZERO
  {
  }

  /** Answers have the labels of the stars they show. */
  lemma AnswerLabels(bright: seq<Star>, b: seq<Star>, r: seq<Star>, answers: seq<Star>, truth: seq<int>, q: Quaternion)
    requires DistinctLabels(bright) && Shows(b, bright, truth, q) && |b| == |r| == |answers|
    requires forall i :: 0 <= i < |b| ==> bright[truth[i]] == r[i]
    requires forall i :: 0 <= i < |b| ==> answers[i] == RotateStar(r[i], q) && b[i] == ResetLabel(answers[i])
    ensures forall i :: 0 <= i < |b| ==>
              answers[i].labelId == bright[truth[i]].labelId && answers[i].vector == b[i].vector
    ensures forall i :: 0 <= i < |b| ==> DefineLabel(b[i], bright[truth[i]].labelId) == answers[i]
    ensures DistinctLabels(answers)
  {
    hide Rotate;
    forall i, j | 0 <= i < j < |answers| ensures answers[i].labelId != answers[j].labelId {
      assert truth[i] != truth[j];
      assert bright[truth[i]].labelId != bright[truth[j]].labelId;
    }
  }

  // ---- From the sky to the score

  /** What the pyramid method answers for a generated image are three of the answers themselves, and
      they count as fully correct. */
  lemma PyramidAnswersTheImage(s: Setting, hip: seq<Star>, bright: seq<Star>, table: seq<Row>, tableFov: real,
                               fov: real,
                               mBar: real, focus: Vector3, n: nat, r: seq<Star>, answers: seq<Star>, q: Quaternion,
                               found: IndexTrio, result: seq<Star>)
    requires Laws(s.lib) && IsSky(hip, bright, mBar) && SqrMagnitude(focus) == 1.0
    requires IsPairTable(s.lib, bright, tableFov, table) && PairRowsOnly(table)
    requires 0.0 < fov <= tableFov && s.epsilon1 >= 0.0
    requires IsGenerated(s.lib, hip, fov, mBar, focus, n, s.image, r, answers, q)
    requires IsAnswerFor(s, table, found, result)
    ensures result == [answers[found.0], answers[found.1], answers[found.2]]
    ensures |Filter(Agreeing(s.lib, fov, result), answers)| == |result|
  {
    hide Shown, Rotate, SqrMagnitude, SqrNorm, Laws, Shows, ShownWithin, CatalogueLabels, IsPairTable, ShowsMeasured,
        IsSky,
      Filter, Agreeing, WithinAngle, OnTheSphere;
    var truth := GeneratedIsShown(s.lib, hip, bright, fov, mBar, focus, n, s.image, r, answers, q);
    DistinctSky(hip, bright, mBar);
    BrightOnTheSphere(hip, bright, mBar);
    TruthInRange(s.image, bright, truth, q);
    WiderField(s.lib, bright, truth, fov, tableFov);
    RotatedIsMeasured(s, bright, tableFov, truth, q);
    IdentificationIsTrue(s, bright, tableFov, table, truth, found, result);
    AnswerLabels(bright, s.image, r, answers, truth, q);
    forall k, i | 0 <= k < 3 && i in {found.0, found.1, found.2}
      ensures WithinAngle(s.lib, result[k].vector, answers[i].vector, fov) {
      AnswersAreNear(s.lib, bright, fov, s.image, answers, truth, q,
                     if k == 0 then found.0 else if k == 1 then found.1 else found.2, i);
    }
    ThreeLabelsCountThree(s.lib, fov, answers, result, found);
  }

  /** What the planar triangle method answers counts as fully correct too, although its labels may
      have changed places. */
  lemma TriangleScoresFull(s: Setting, hip: seq<Star>, bright: seq<Star>, table: seq<Row>, tableFov: real, fov: real,
                           mBar: real, focus: Vector3, n: nat, r: seq<Star>, answers: seq<Star>, q: Quaternion,
                           found: IndexTrio, result: seq<Star>)
    requires Laws(s.lib) && IsSky(hip, bright, mBar) && SqrMagnitude(focus) == 1.0
    requires IsTrioTable(s.lib, Planar(s.lib), bright, tableFov, table)
    requires 0.0 < fov <= tableFov && fov <= s.fov && s.epsilon1 >= 0.0 && s.epsilon2 >= 0.0
    requires IsGenerated(s.lib, hip, fov, mBar, focus, n, s.image, r, answers, q)
    requires 0 <= found.0 < found.1 < found.2 < |s.image|
    requires TrioOutcome(s, Planar(s.lib), hip, table, found).Some?
    requires IsBestLabelling(s, hip, TrioOutcome(s, Planar(s.lib), hip, table, found).value, ImageStars(s, found),
                             result)
    ensures |result| == 3 && |Filter(Agreeing(s.lib, fov, result), answers)| == |result|
  {
    hide Shown, Rotate, SqrMagnitude, SqrNorm, Laws, Shows, ShownWithin, IsTrioTable, Planar, TrioOutcome,
        IsBestLabelling,
      Filter, Agreeing, WithinAngle, IsMeasuredRun, OnTheSphere;
    var truth := GeneratedIsShown(s.lib, hip, bright, fov, mBar, focus, n, s.image, r, answers, q);
    DistinctSky(hip, bright, mBar);
    BrightOnTheSphere(hip, bright, mBar);
    TruthInRange(s.image, bright, truth, q);
    WiderField(s.lib, bright, truth, fov, tableFov);
    WiderField(s.lib, bright, truth, fov, s.fov);
    assert s.lib.Sound() by { LawsAreSound(s.lib); }
    RotatedRunIsMeasured(s, hip, bright, tableFov, table, truth, q);
    IdentificationHasTrueLabels(s, hip, bright, tableFov, table, truth, found, result);
    AnswerLabels(bright, s.image, r, answers, truth, q);
    forall k, i | 0 <= k < 3 && i in {found.0, found.1, found.2}
      ensures WithinAngle(s.lib, result[k].vector, answers[i].vector, fov) {
      AnswersAreNear(s.lib, bright, fov, s.image, answers, truth, q,
                     if k == 0 then found.0 else if k == 1 then found.1 else found.2, i);
    }
    ThreeLabelsCountThree(s.lib, fov, answers, result, found);
  }

  /** Identifies a generated image by pyramids over the table of pairs, and compares the result with
      the answers. */
  method PyramidScore(ch: Chomp, own: Setting, answers: seq<Star>, fov: real, ghost tableFov: real, ghost mBar: real,
                      ghost focus: Vector3, ghost n: nat, ghost r: seq<Star>, ghost q: Quaternion)
      returns (a: StarsEither, percentage: Option<real>)
    requires Laws(own.lib) && IsSky(ch.hip, ch.bright, mBar) && SqrMagnitude(focus) == 1.0
    requires own.table in ch.tables && IsPairTable(own.lib, ch.bright, tableFov, ch.tables[own.table])
    requires 0.0 < fov <= tableFov && own.epsilon1 >= 0.0
    requires IsGenerated(own.lib, ch.hip, fov, mBar, focus, n, own.image, r, answers, q)
    modifies ch`currentTable
    ensures percentage == Some(if a.error == 0 then 1.0 else 0.0)
  {
    hide Laws, IsSky, IsPairTable, KnownRows, SqrMagnitude, CatalogueLabels, Filter, Agreeing, IsGenerated,
        PyramidTrios,
      IsAnswerFor, NoLabels;
    SkyIsCatalogue(ch.hip, ch.bright, mBar);
    ghost var table := ch.tables[own.table];
    PairTableIsKnown(own.lib, ch.hip, ch.bright, tableFov, table);
    KnownPairRows(table, ch.hip);
    var pyramid := new Pyramid(ch, own);
    ghost var visited, found;
    a, visited, found := pyramid.Identify();
    if a.error == 0 {
      AnswerInRange(own, table, found, a.result);
      PyramidAnswersTheImage(own, ch.hip, ch.bright, table, tableFov, fov, mBar, focus, n, r, answers, q, found,
                             a.result);
    }
    percentage := PercentageCorrect(own.lib, a, answers, fov);
  }

  lemma AnswerInRange(s: Setting, table: seq<Row>, found: IndexTrio, result: seq<Star>)
    requires PairRowsOnly(table) && IsAnswerFor(s, table, found, result)
    ensures 0 <= found.0 < found.1 < found.2 < |s.image| && |result| == 3
  {
  }

  /** A trial without disturbance scores 1 whenever there is an answer, and 0 otherwise. */
  method PyramidTrial(be: Benchmark, ch: Chomp, own: Setting, mBar: real, attempts: seq<Attempt>, ghost tableFov: real)
      returns (a: StarsEither, percentage: Option<real>)
    requires Laws(be.lib) && be.shuffler.Sound() && own.lib == be.lib && own.epsilon1 >= 0.0
    requires IsSky(ch.hip, ch.bright, mBar)
    requires own.table in ch.tables && IsPairTable(be.lib, ch.bright, tableFov, ch.tables[own.table])
    requires 0.0 < be.fov <= tableFov
    requires forall k :: 0 <= k < |attempts| ==>
               SqrMagnitude(attempts[k].focus) == 1.0 && DrawsAttitude(be.lib, attempts[k].from, attempts[k].to)
    requires exists k :: 0 <= k < |attempts| && |Shown(be.lib, ch.hip, be.fov, mBar, attempts[k].focus)| > 4
    modifies be, ch`currentTable
    ensures percentage == Some(if a.error == 0 then 1.0 else 0.0)
  {
    hide Shown, Laws, IsSky, IsPairTable, SqrMagnitude, DrawsAttitude, SqrNorm, Rotate;
    LawsAreSound(be.lib);
    var used := be.GenerateStars(ch, NO_N, mBar, attempts);
    ghost var focus := attempts[used].focus;
    ghost var shown := Shown(be.lib, ch.hip, be.fov, mBar, focus);
    assert shown[..|shown|] == shown;
    assert IsGenerated(be.lib, ch.hip, be.fov, mBar, focus, |shown|, be.b, be.r, be.bAnswers, be.qRb);
    a, percentage := PyramidScore(ch, own.(image := be.b), be.bAnswers, be.fov, tableFov, mBar, focus, |shown|, be.r,
                                  be.qRb);
  }

  lemma SkyIsCatalogue(hip: seq<Star>, bright: seq<Star>, mBar: real)
    requires IsSky(hip, bright, mBar)
    ensures forall s :: s in bright ==> s in hip
  {
  }

  lemma KnownPairRows(table: seq<Row>, hip: seq<Star>)
    requires KnownRows(table, hip, 2, 1)
    ensures PairRowsOnly(table)
  {
    forall row | row in table ensures |row.labels| == 2 && |row.features| == 1 {
      assert KnownRow(row, hip, 2, 1);
    }
  }

  lemma LawsAreSound(lib: Libm)
    requires Laws(lib)
    ensures lib.Sound()
  {
  }
}
