/**
 What the pivot operation of the triangle methods computes (base-triangle.cpp, base-triangle.h):
 which trios of catalogue stars survive a series of queries, in which order image stars are tried
 as the third star, and when the search stops.
 */
module Pivots {
  import opened Vectors
  import opened Stars
  import opened Sequences
  import opened Enumeration
  import opened Chomps
  import opened Identifications
  import opened TrioTables

  // ---- Survivors

  /** Whether `s` is one of the three stars. Stars are compared by their vectors. */
  predicate IsOneOf(s: Star, t: Trio<Star>) {
    s.vector == t.first.vector || s.vector == t.second.vector || s.vector == t.third.vector
  }

  function Agreement(r: Trio<Star>, t: Trio<Star>): nat {
    (if IsOneOf(r.first, t) then 1 else 0) + (if IsOneOf(r.second, t) then 1 else 0)
        + (if IsOneOf(r.third, t) then 1 else 0)
  }

  /** Some trio of the list has at least two stars of `t`. */
  predicate SharesTwo(t: Trio<Star>, trios: seq<Trio<Star>>) {
    exists k :: 0 <= k < |trios| && Agreement(trios[k], t) >= 2
  }

  /** The vectors of a trio. */
  function Corners(t: Trio<Star>): set<Vector3> {
    {t.first.vector, t.second.vector, t.third.vector}
  }

  /** Two different places of `u` hold stars of `t`. */
  ghost predicate HasTwoOf(u: Trio<Star>, t: Trio<Star>) {
    exists p, q :: 0 <= p < q < 3 && u.At(p).vector in Corners(t) && u.At(q).vector in Corners(t)
  }

  lemma AgreementIff(u: Trio<Star>, t: Trio<Star>)
    ensures Agreement(u, t) >= 2 <==> HasTwoOf(u, t)
  {
    assert forall p: nat :: p < 3 ==> (u.At(p).vector in Corners(t) <==> IsOneOf(u.At(p), t));
    if Agreement(u, t) >= 2 {
      var p, q := if IsOneOf(u.first, t) then 0 else 1, if IsOneOf(u.third, t) then 2 else 1;
      assert u.At(p).vector in Corners(t) && u.At(q).vector in Corners(t);
    }
  }

  lemma SharesTwoIff(t: Trio<Star>, trios: seq<Trio<Star>>)
    ensures SharesTwo(t, trios) <==> exists u :: u in trios && HasTwoOf(u, t)
  {
    hide Agreement, HasTwoOf;
    forall u ensures Agreement(u, t) >= 2 <==> HasTwoOf(u, t) {
      AgreementIff(u, t);
    }
    if SharesTwo(t, trios) {
      var k :| 0 <= k < |trios| && Agreement(trios[k], t) >= 2;
      assert trios[k] in trios;
    }
    if u :| u in trios && HasTwoOf(u, t) {
      var k :| 0 <= k < |trios| && trios[k] == u;
      assert Agreement(trios[k], t) >= 2;
    }
  }

  /** A query without results filters nothing. */
  function Survivors(before: seq<Trio<Star>>, query: seq<Trio<Star>>): seq<Trio<Star>> {
    if query == [] then before else Filter((t: Trio<Star>) => SharesTwo(t, query), before)
  }

  /** The trios left after the queries for the third stars `thirds`, the first of which makes the list. */
  function Survived(query: int -> seq<Trio<Star>>, thirds: seq<int>): seq<Trio<Star>>
    requires thirds != []
  {
    var last := |thirds| - 1;
    if last == 0 then query(thirds[0]) else Survivors(Survived(query, thirds[..last]), query(thirds[last]))
  }

  /** A trio survives exactly when the first query returned it and it shares two stars with some
      trio of every later query that returned any. */
  lemma {:induction false} SurvivedExact(query: int -> seq<Trio<Star>>, thirds: seq<int>, t: Trio<Star>)
    requires thirds != []
    ensures t in Survived(query, thirds) <==>
            && t in query(thirds[0])
            && forall m :: 1 <= m < |thirds| ==> query(thirds[m]) == [] || SharesTwo(t, query(thirds[m]))
  {
    var last := |thirds| - 1;
    if last > 0 {
      var front := thirds[..last];
      SurvivedExact(query, front, t);
      FilterAll((u: Trio<Star>) => SharesTwo(u, query(thirds[last])), Survived(query, front));
      assert forall m :: 0 <= m < last ==> front[m] == thirds[m];
    }
  }

  /** How often a trio survives: as often as the first query returned it, if of every later query
      that returned any some trio has two of its stars; and not at all otherwise. So whatever has at
      most one star in common with each trio of a later query is gone. */
  lemma {:induction false} SurvivedCounts(query: int -> seq<Trio<Star>>, thirds: seq<int>, t: Trio<Star>)
    requires thirds != []
    ensures multiset(Survived(query, thirds))[t]
         == if forall m :: 1 <= m < |thirds| ==>
                 query(thirds[m]) == [] || exists u :: u in query(thirds[m]) && HasTwoOf(u, t)
            then multiset(query(thirds[0]))[t] else 0
  {
    hide HasTwoOf, SharesTwo;
    var last := |thirds| - 1;
    if last > 0 {
      var front := thirds[..last];
      SurvivedCounts(query, front, t);
      SharesTwoIff(t, query(thirds[last]));
      FilterCounts((u: Trio<Star>) => SharesTwo(u, query(thirds[last])), Survived(query, front), t);
      assert forall m :: 0 <= m < last ==> front[m] == thirds[m];
    }
  }

  lemma SurvivedNext(query: int -> seq<Trio<Star>>, order: seq<int>, m: nat)
    requires m < |order|
    ensures Survived(query, order[..m + 1])
         == if m == 0 then query(order[0]) else Survivors(Survived(query, order[..m]), query(order[m]))
  {
    assert order[..m + 1][..m] == order[..m];
  }

  /** Filtering the first list by itself, as the first pivot does, keeps everything. */
  lemma FirstQuerySurvives(trios: seq<Trio<Star>>)
    ensures Survivors(trios, trios) == trios
  {
    forall t | t in trios ensures SharesTwo(t, trios) {
      var k :| 0 <= k < |trios| && trios[k] == t;
      assert Agreement(trios[k], t) == 3;
    }
    FilterKeepsAll((t: Trio<Star>) => SharesTwo(t, trios), trios);
  }

  // ---- The order of the third stars

  /** The indices below `m` that are not in the trio, ascending: the queue `pivot_c`. */
  function Others(c: IndexTrio, m: nat): seq<int> {
    if m == 0 then []
    else if m - 1 == c.0 || m - 1 == c.1 || m - 1 == c.2 then Others(c, m - 1)
    else Others(c, m - 1) + [m - 1]
  }

  lemma {:induction false} OthersMembers(c: IndexTrio, m: nat)
    ensures forall x :: x in Others(c, m) <==> 0 <= x < m && x != c.0 && x != c.1 && x != c.2
    ensures NoDuplicates(Others(c, m))
  {
    if m > 0 {
      OthersMembers(c, m - 1);
      NoDuplicatesAppend(Others(c, m - 1), [m - 1]);
    }
  }

  lemma {:induction false} OthersCount(c: IndexTrio, m: nat)
    requires c.0 < c.1 < c.2
    ensures |Others(c, m)| == m - (if 0 <= c.0 < m then 1 else 0) - (if 0 <= c.1 < m then 1 else 0)
              - (if 0 <= c.2 < m then 1 else 0)
  {
    if m > 0 {
      OthersCount(c, m - 1);
    }
  }

  /** The third stars of a pivot that starts at `c`: its own, then the others, unless its own is
      the last star of the image, which ends the search at once. */
  function PivotOrder(n: nat, c: IndexTrio): seq<int> {
    if c.2 == n - 1 then [c.2] else [c.2] + Others(c, n)
  }

  /** At most `n - 3` further pivots, no third star used twice or equal to a fixed one, all in the
      image; and the last in line is the last star of the image, on which the search stops. */
  lemma PivotOrderExact(n: nat, c: IndexTrio)
    requires 0 <= c.0 < c.1 < c.2 < n
    ensures 1 <= |PivotOrder(n, c)| <= 1 + (n - 3)
    ensures NoDuplicates(PivotOrder(n, c))
    ensures forall x :: x in PivotOrder(n, c) ==> 0 <= x < n && x != c.0 && x != c.1
    ensures PivotOrder(n, c)[|PivotOrder(n, c)| - 1] == n - 1
  {
    OthersMembers(c, n);
    OthersCount(c, n);
    if c.2 != n - 1 {
      NoDuplicatesAppend([c.2], Others(c, n));
    }
  }

  /** The third star of the trio comes first. If it is the last star of the image no other is tried;
      otherwise every star that is not in the trio is, in the order of the image. */
  lemma PivotOrderTriesAll(n: nat, c: IndexTrio)
    requires 0 <= c.0 < c.1 < c.2 < n
    ensures PivotOrder(n, c) != [] && PivotOrder(n, c)[0] == c.2
    ensures c.2 == n - 1 ==> |PivotOrder(n, c)| == 1
    ensures c.2 != n - 1 ==> forall x :: 0 <= x < n && x != c.0 && x != c.1 ==> x in PivotOrder(n, c)
    ensures forall p, q :: 1 <= p < q < |PivotOrder(n, c)| ==> PivotOrder(n, c)[p] < PivotOrder(n, c)[q]
  {
    OthersMembers(c, n);
    OthersAscend(c, n);
  }

  lemma {:induction false} OthersAscend(c: IndexTrio, m: nat)
    ensures forall p, q :: 0 <= p < q < |Others(c, m)| ==> Others(c, m)[p] < Others(c, m)[q]
  {
    if m > 0 {
      OthersAscend(c, m - 1);
      OthersMembers(c, m - 1);
      var front := Others(c, m - 1);
      assert forall p :: 0 <= p < |front| ==> front[p] in front;
    }
  }

  // ---- When the search stops

  /** The result of a pivot whose next third star is the m-th: the only survivor, once there is
      only one; nothing, once there is none or no star is left. */
  function PivotFrom(query: int -> seq<Trio<Star>>, order: seq<int>, m: nat): Option<Trio<Star>>
    requires m < |order|
    decreases |order| - m
  {
    var left := Survived(query, order[..m + 1]);
    if |left| == 1 then Some(left[0])
    else if |left| == 0 || m + 1 == |order| then None
    else PivotFrom(query, order, m + 1)
  }

  /** A pivot succeeds exactly when after some query exactly one trio is left. */
  lemma {:induction false} PivotFindsSingleton(query: int -> seq<Trio<Star>>, order: seq<int>, m: nat)
    requires m < |order|
    ensures PivotFrom(query, order, m).Some? ==>
              exists l :: m < l <= |order| && Survived(query, order[..l]) == [PivotFrom(query, order, m).value]
    ensures PivotFrom(query, order, m).None? ==>
              forall l :: m < l <= |order| ==> |Survived(query, order[..l])| != 1
    decreases |order| - m
  {
    var left := Survived(query, order[..m + 1]);
    if |left| == 1 {
      assert left == [left[0]];
    } else if |left| == 0 {
      forall l | m < l <= |order| ensures |Survived(query, order[..l])| != 1 {
        NoneLeft(query, order, m + 1, l);
      }
    } else if m + 1 < |order| {
      PivotFindsSingleton(query, order, m + 1);
    }
  }

  lemma {:induction false} NoneLeft(query: int -> seq<Trio<Star>>, order: seq<int>, m: nat, l: nat)
    requires 1 <= m <= l <= |order|
    requires Survived(query, order[..m]) == []
    ensures Survived(query, order[..l]) == []
    decreases l
  {
    if m < l {
      NoneLeft(query, order, m, l - 1);
      assert order[..l][..l - 1] == order[..l - 1];
    }
  }

  /** What `pivot` returns for a trio of image stars. */
  function PivotOutcome(query: int -> seq<Trio<Star>>, n: nat, c: IndexTrio): Option<Trio<Star>>
    requires 0 <= c.0 < c.1 < c.2 < n
  {
    PivotOrderExact(n, c);
    PivotFrom(query, PivotOrder(n, c), 0)
  }

  // ---- What the search costs

  /** The accesses counted after a pivot whose next third star is the m-th, when `spent` have been counted
      before it. */
  function AccessesFrom(query: int -> seq<Trio<Star>>, cost: int -> nat, order: seq<int>, m: nat, spent: nat,
                        nuMax: nat): nat
    requires m < |order|
    decreases |order| - m
  {
    if spent > nuMax then spent
    else if |Survived(query, order[..m + 1])| <= 1 || m + 1 == |order| then spent + cost(order[m])
    else AccessesFrom(query, cost, order, m + 1, spent + cost(order[m]), nuMax)
  }

  /** Whether such a pivot gives up before it has an outcome. */
  predicate GivesUp(query: int -> seq<Trio<Star>>, cost: int -> nat, order: seq<int>, m: nat, spent: nat, nuMax: nat)
    requires m < |order|
    decreases |order| - m
  {
    || spent > nuMax
    || (&& |Survived(query, order[..m + 1])| > 1 && m + 1 < |order|
        && GivesUp(query, cost, order, m + 1, spent + cost(order[m]), nuMax))
  }

  /** A pivot makes its queries one after the other, up to the l-th: each of them only while the accesses
      are within the budget and more than one trio is left. It gives up exactly when neither what is left
      nor the queue stopped it, and then the accesses exceed the budget. */
  lemma {:induction false} AccessesExact(query: int -> seq<Trio<Star>>, cost: int -> nat, order: seq<int>, m: nat,
                                         spent: nat, nuMax: nat) returns (l: nat)
    requires m < |order|
    ensures m <= l <= |order|
    ensures AccessesFrom(query, cost, order, m, spent, nuMax) == spent + Total(cost, order[m..l])
    ensures forall k :: m <= k < l ==> spent + Total(cost, order[m..k]) <= nuMax
    ensures forall k :: m < k < l ==> |Survived(query, order[..k])| > 1
    ensures GivesUp(query, cost, order, m, spent, nuMax) <==>
            l == m || (l < |order| && |Survived(query, order[..l])| > 1)
    ensures GivesUp(query, cost, order, m, spent, nuMax) ==> spent + Total(cost, order[m..l]) > nuMax
    decreases |order| - m
  {
    hide Total, Survived;
    TotalOfSlice(cost, order, m, m);
    if spent > nuMax {
      l := m;
    } else if |Survived(query, order[..m + 1])| <= 1 || m + 1 == |order| {
      l := m + 1;
      TotalOfSlice(cost, order, m, l);
      TotalOfSlice(cost, order, m + 1, l);
    } else {
      l := AccessesExact(query, cost, order, m + 1, spent + cost(order[m]), nuMax);
      forall k | m < k <= l ensures Total(cost, order[m..k]) == cost(order[m]) + Total(cost, order[m + 1..k]) {
        TotalOfSlice(cost, order, m, k);
      }
    }
  }

  lemma TotalOfSlice(cost: int -> nat, order: seq<int>, m: nat, k: nat)
    requires m <= k <= |order|
    ensures m == k ==> Total(cost, order[m..k]) == 0
    ensures m < k ==> Total(cost, order[m..k]) == cost(order[m]) + Total(cost, order[m + 1..k])
  {
    if m < k {
      assert order[m..k][1..] == order[m + 1..k];
      TotalFromFirst(cost, order[m..k]);
    }
  }

  // ---- The truth is never discarded

  /** If the first query returns the true trio and every later query that returns anything
      returns a trio with two of its stars, the true trio survives: a pivot then fails only by
      leaving more than one trio, and what it finds is the true trio. */
  lemma TruthSurvives(query: int -> seq<Trio<Star>>, n: nat, c: IndexTrio, truth: Trio<Star>)
    requires 0 <= c.0 < c.1 < c.2 < n
    requires truth in query(c.2)
    requires forall e :: 0 <= e < n && e != c.0 && e != c.1 ==> query(e) == [] || SharesTwo(truth, query(e))
    ensures PivotOutcome(query, n, c).Some? ==> PivotOutcome(query, n, c).value == truth
    ensures PivotOutcome(query, n, c).None? ==> |Survived(query, PivotOrder(n, c))| >= 2
  {
    var order := PivotOrder(n, c);
    PivotOrderExact(n, c);
    forall l | 1 <= l <= |order| ensures truth in Survived(query, order[..l]) {
      SurvivedExact(query, order[..l], truth);
      forall m | 1 <= m < l ensures query(order[..l][m]) == [] || SharesTwo(truth, query(order[..l][m])) {
        assert order[..l][m] in order;
      }
      assert order[..l][0] == c.2;
    }
    PivotFindsSingleton(query, order, 0);
    assert order[..|order|] == order;
    if PivotOutcome(query, n, c).None? {
      assert |Survived(query, order[..|order|])| != 1;
    }
  }

  /** `t` is the only trio left after `l` queries, and shares two stars with some trio of each of them
      that returned any. */
  ghost predicate IsSupported(query: int -> seq<Trio<Star>>, order: seq<int>, l: nat, t: Trio<Star>) {
    && 1 <= l <= |order|
    && Survived(query, order[..l]) == [t]
    && t in query(order[0])
    && forall m :: 1 <= m < l ==> query(order[m]) == [] || SharesTwo(t, query(order[m]))
  }

  /** Whatever a pivot finds came from the first query and shares two stars with some trio of
      every query made that returned any. */
  lemma FoundIsSupported(query: int -> seq<Trio<Star>>, n: nat, c: IndexTrio)
    requires 0 <= c.0 < c.1 < c.2 < n
    requires PivotOutcome(query, n, c).Some?
    ensures exists l :: IsSupported(query, PivotOrder(n, c), l, PivotOutcome(query, n, c).value)
  {
    var order := PivotOrder(n, c);
    PivotOrderExact(n, c);
    PivotFindsSingleton(query, order, 0);
    var found := PivotOutcome(query, n, c).value;
    var l :| 0 < l <= |order| && Survived(query, order[..l]) == [found];
    SurvivedExact(query, order[..l], found);
    assert forall m :: 1 <= m < l ==> order[..l][m] == order[m];
    assert IsSupported(query, order, l, found);
  }

  // ---- The queries

  function StarAt(hip: seq<Star>, labelId: int): Star {
    match LookUp(hip, labelId)
    case Success(s) => s
    case Failure(_) => Wrap(ZERO)
  }

  /** The catalogue stars of a row. */
  function StarsOfRow(hip: seq<Star>): Row -> Trio<Star> {
    (row: Row) => if |row.labels| == 3 then Trio(StarAt(hip, row.labels[0]), StarAt(hip, row.labels[1]),
                                                 StarAt(hip, row.labels[2]))
                  else Trio(Wrap(ZERO), Wrap(ZERO), Wrap(ZERO))
  }

  function TrioCandidates(s: Setting, table: seq<Row>, area: real, moment: real): seq<Row> {
    RowsInBand(table, [area - s.epsilon1, moment - s.epsilon2], [area + s.epsilon1, moment + s.epsilon2])
  }

  /** A row is a candidate exactly when its area is within epsilon 1 and its moment within epsilon 2
      of those asked for. */
  lemma TrioCandidateIff(s: Setting, table: seq<Row>, area: real, moment: real, row: Row)
    requires |row.features| == 2
    ensures row in TrioCandidates(s, table, area, moment) <==>
            && row in table
            && -s.epsilon1 <= row.features[0] - area <= s.epsilon1
            && -s.epsilon2 <= row.features[1] - moment <= s.epsilon2
  {
    var low, high := [area - s.epsilon1, moment - s.epsilon2], [area + s.epsilon1, moment + s.epsilon2];
    BoundQueryIsExact(table, low, high, row);
    assert InBand(row, low, high) <==>
           low[0] <= row.features[0] <= high[0] && low[1] <= row.features[1] <= high[1];
  }

  /** The catalogue trios with the features of three image stars; none if the stars are not within
      the field of view of each other. */
  function MatchingTrios(s: Setting, f: Features, hip: seq<Star>, table: seq<Row>, b: Trio<Star>): seq<Trio<Star>> {
    if !TrioWithin(s.lib, b.first, b.second, b.third, s.fov) then []
    else Map(StarsOfRow(hip), TrioCandidates(s, table, f.Area(b.first.vector, b.second.vector, b.third.vector),
                                             f.Moment(b.first.vector, b.second.vector, b.third.vector)))
  }

  /** A catalogue trio matches three stars exactly when the stars are within the field of view of each
      other and a row with its labels has their features to within the epsilons. */
  lemma MatchingTriosIff(s: Setting, f: Features, hip: seq<Star>, table: seq<Row>, b: Trio<Star>, t: Trio<Star>)
    requires KnownRows(table, hip, 3, 2)
    ensures t in MatchingTrios(s, f, hip, table, b) <==>
            && Separation(s.lib, b.first.vector, b.second.vector) < s.fov
            && Separation(s.lib, b.first.vector, b.third.vector) < s.fov
            && Separation(s.lib, b.second.vector, b.third.vector) < s.fov
            && exists row :: row in table && IsMatch(s, f, hip, b, row, t)
  {
    hide Separation, LookUp;
    var area := f.Area(b.first.vector, b.second.vector, b.third.vector);
    var moment := f.Moment(b.first.vector, b.second.vector, b.third.vector);
    var rows := TrioCandidates(s, table, area, moment);
    MapMembers(StarsOfRow(hip), rows, t);
    forall row | row in table
      ensures row in rows && StarsOfRow(hip)(row) == t <==> IsMatch(s, f, hip, b, row, t) {
      assert KnownRow(row, hip, 3, 2);
      TrioCandidateIff(s, table, area, moment, row);
      LookUpFinds(hip, row.labels[0]);
      LookUpFinds(hip, row.labels[1]);
      LookUpFinds(hip, row.labels[2]);
    }
    FilterAll(row => InBand(row, [area - s.epsilon1, moment - s.epsilon2], [area + s.epsilon1, moment + s.epsilon2]),
              table);
  }

  /** The row has the features of three stars to within the epsilons, and the labels of `t`. */
  predicate IsMatch(s: Setting, f: Features, hip: seq<Star>, b: Trio<Star>, row: Row, t: Trio<Star>) {
    && |row.labels| == 3 && |row.features| == 2
    && -s.epsilon1 <= row.features[0] - f.Area(b.first.vector, b.second.vector, b.third.vector) <= s.epsilon1
    && -s.epsilon2 <= row.features[1] - f.Moment(b.first.vector, b.second.vector, b.third.vector) <= s.epsilon2
    && LookUp(hip, row.labels[0]) == Success(t.first)
    && LookUp(hip, row.labels[1]) == Success(t.second)
    && LookUp(hip, row.labels[2]) == Success(t.third)
  }

  function ImageStars(s: Setting, c: IndexTrio): Trio<Star>
    requires IsTrioOf(s.image, c)
  {
    Trio(s.image[c.0], s.image[c.1], s.image[c.2])
  }

  /** The query for each third star, with the first two stars fixed. */
  function Queries(s: Setting, f: Features, hip: seq<Star>, table: seq<Row>, c: IndexTrio): int -> seq<Trio<Star>> {
    third =>
      if IsTrioOf(s.image, (c.0, c.1, third)) then MatchingTrios(s, f, hip, table, ImageStars(s, (c.0, c.1, third)))
      else []
  }

  lemma QueriesAt(s: Setting, f: Features, hip: seq<Star>, table: seq<Row>, first: IndexTrio, c: IndexTrio)
    requires c.0 == first.0 && c.1 == first.1 && IsTrioOf(s.image, c)
    ensures Queries(s, f, hip, table, first)(c.2) == MatchingTrios(s, f, hip, table, ImageStars(s, c))
  {
  }

  /** The trio of catalogue stars for one trio of image stars. */
  function TrioOutcome(s: Setting, f: Features, hip: seq<Star>, table: seq<Row>, c: IndexTrio): Option<Trio<Star>>
    requires 0 <= c.0 < c.1 < c.2 < |s.image|
  {
    PivotOutcome(Queries(s, f, hip, table, c), |s.image|, c)
  }

  /** The access of each query: one if the three stars are within the field of view of each other. */
  function Costs(s: Setting, c: IndexTrio): int -> nat {
    third => if IsTrioOf(s.image, (c.0, c.1, third)) && InView(s, ImageStars(s, (c.0, c.1, third))) then 1 else 0
  }

  predicate InView(s: Setting, b: Trio<Star>) {
    && Separation(s.lib, b.first.vector, b.second.vector) < s.fov
    && Separation(s.lib, b.first.vector, b.third.vector) < s.fov
    && Separation(s.lib, b.second.vector, b.third.vector) < s.fov
  }

  /** The accesses counted after the pivots of some trios, one after the other. */
  function Spent(s: Setting, f: Features, hip: seq<Star>, table: seq<Row>, trios: seq<IndexTrio>): nat
    requires forall t :: t in trios ==> 0 <= t.0 < t.1 < t.2 < |s.image|
  {
    if trios == [] then 0
    else
      var t, before := trios[|trios| - 1], Spent(s, f, hip, table, trios[..|trios| - 1]);
      PivotOrderExact(|s.image|, t);
      AccessesFrom(Queries(s, f, hip, table, t), Costs(s, t), PivotOrder(|s.image|, t), 0, before, s.nuMax)
  }

  lemma SpentOneMore(s: Setting, f: Features, hip: seq<Star>, table: seq<Row>, trios: seq<IndexTrio>, t: IndexTrio)
    requires forall u :: u in trios + [t] ==> 0 <= u.0 < u.1 < u.2 < |s.image|
    ensures PivotOrder(|s.image|, t) != []
    ensures Spent(s, f, hip, table, trios + [t])
         == AccessesFrom(Queries(s, f, hip, table, t), Costs(s, t), PivotOrder(|s.image|, t), 0,
                         Spent(s, f, hip, table, trios), s.nuMax)
  {
    PivotOrderExact(|s.image|, t);
    assert (trios + [t])[..|trios|] == trios;
  }
}
