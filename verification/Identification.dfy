/** What all identification methods share (identification.cpp). */
module Identifications {
  import opened Libm
  import opened Vectors
  import opened Quaternions
  import opened Stars
  import opened Rotations
  import opened Sequences
  import opened Shuffling

  const NO_CONFIDENT_R_EITHER := -3
  const NO_CONFIDENT_A_EITHER := -2
  const EXCEEDED_NU_MAX_EITHER := -1
  const TABLE_ALREADY_EXISTS := -1

  datatype StarsEither = StarsEither(result: seq<Star>, error: int)

  datatype Trio<+T> = Trio(first: T, second: T, third: T) {
    function At(k: nat): T
      requires k < 3
    {
      if k == 0 then first else if k == 1 then second else third
    }
  }

  /** The members every identification object is built with. */
  datatype Setting = Setting(lib: Libm, image: seq<Star>, fov: real, epsilon1: real, epsilon2: real, epsilon4: real,
                             nuMax: nat, table: string, shuffler: Shuffler) {
    ghost predicate Sound() {
      lib.Sound() && shuffler.Sound()
    }
  }

  // ---- Positive overlay

  /** The first star within `epsilon` of a vector. */
  function FirstNear(lib: Libm, stars: seq<Star>, v: Vector3, epsilon: real): Option<Star> {
    if stars == [] then None
    else if WithinAngle(lib, v, stars[0].vector, epsilon) then Some(stars[0])
    else FirstNear(lib, stars[1..], v, epsilon)
  }

  lemma {:induction false} FirstNearFinds(lib: Libm, stars: seq<Star>, v: Vector3, epsilon: real)
    ensures FirstNear(lib, stars, v, epsilon).Some? <==>
            exists s :: s in stars && WithinAngle(lib, v, s.vector, epsilon)
    ensures var near := FirstNear(lib, stars, v, epsilon);
            near.Some? ==> near.value in stars && WithinAngle(lib, v, near.value.vector, epsilon)
  {
    if stars != [] {
      FirstNearFinds(lib, stars[1..], v, epsilon);
      assert forall s :: s in stars <==> s == stars[0] || s in stars[1..];
    }
  }

  /** It is the one with the least index: no star before it is as close. */
  lemma {:induction false} FirstNearIsFirst(lib: Libm, stars: seq<Star>, v: Vector3, epsilon: real) returns (i: nat)
    ensures i <= |stars|
    ensures forall j :: 0 <= j < i ==> Separation(lib, v, stars[j].vector) >= epsilon
    ensures i < |stars| ==> Separation(lib, v, stars[i].vector) < epsilon
    ensures FirstNear(lib, stars, v, epsilon) == if i < |stars| then Some(stars[i]) else None
  {
    hide Separation;
    if stars == [] || WithinAngle(lib, v, stars[0].vector, epsilon) {
      i := 0;
    } else {
      var k := FirstNearIsFirst(lib, stars[1..], v, epsilon);
      i := k + 1;
      assert forall j :: 0 <= j < i ==> j == 0 || stars[j] == stars[1..][j - 1];
    }
  }

  predicate HasMatch(lib: Libm, image: seq<Star>, q: Quaternion, epsilon: real, p: Star) {
    FirstNear(lib, image, RotateStar(p, q).vector, epsilon).Some?
  }

  /** The image star a catalogue star falls on, with the label of the catalogue star. */
  function Matched(lib: Libm, image: seq<Star>, q: Quaternion, epsilon: real, p: Star): Star {
    var near := FirstNear(lib, image, RotateStar(p, q).vector, epsilon);
    if near.Some? then Wrap(near.value.vector, p.labelId) else p
  }

  /** The matches for catalogue stars taken in the order given. */
  function Overlay(lib: Libm, image: seq<Star>, bigP: seq<Star>, q: Quaternion, epsilon: real): seq<Star> {
    Map((p: Star) => Matched(lib, image, q, epsilon, p), Filter((p: Star) => HasMatch(lib, image, q, epsilon, p), bigP))
  }

  /** Shuffling the catalogue stars rearranges the matches: how many there are does not change. */
  lemma OverlayIgnoresShuffle(lib: Libm, image: seq<Star>, bigP: seq<Star>, shuffled: seq<Star>, q: Quaternion,
                              epsilon: real)
    requires IsPermutation(shuffled, bigP)
    ensures IsPermutation(Overlay(lib, image, shuffled, q, epsilon), Overlay(lib, image, bigP, q, epsilon))
    ensures |Overlay(lib, image, shuffled, q, epsilon)| == |Overlay(lib, image, bigP, q, epsilon)|
  {
    var has := (p: Star) => HasMatch(lib, image, q, epsilon, p);
    var matched := (p: Star) => Matched(lib, image, q, epsilon, p);
    FilterPermutes(has, shuffled, bigP);
    MapPermutes(matched, Filter(has, shuffled), Filter(has, bigP));
    PermutationMembers(Overlay(lib, image, shuffled, q, epsilon), Overlay(lib, image, bigP, q, epsilon));
  }

  /** One catalogue star, rotated, matches the first star of the image that is closer than epsilon: the
      match is where the image star is and has the label of the catalogue star. If no image star is
      that close there is no match. */
  lemma OverlayOfOne(lib: Libm, image: seq<Star>, p: Star, q: Quaternion, epsilon: real) returns (i: nat)
    ensures i <= |image|
    ensures forall j :: 0 <= j < i ==> Separation(lib, Rotate(q, p.vector), image[j].vector) >= epsilon
    ensures i < |image| ==> Separation(lib, Rotate(q, p.vector), image[i].vector) < epsilon
    ensures HasMatch(lib, image, q, epsilon, p) <==> i < |image|
    ensures Overlay(lib, image, [p], q, epsilon)
         == if i < |image| then [Star(image[i].vector, p.labelId, -30.0)] else []
  {
    hide Separation, Rotate;
    i := FirstNearIsFirst(lib, image, Rotate(q, p.vector), epsilon);
    OverlayOneMore(lib, image, [p], 0, q, epsilon);
    assert [p][..1] == [p];
  }

  /** And the matches of several stars are those of each, one after the other. */
  lemma {:induction false} OverlayAppends(lib: Libm, image: seq<Star>, a: seq<Star>, b: seq<Star>, q: Quaternion,
                                          epsilon: real)
    ensures Overlay(lib, image, a + b, q, epsilon)
              == Overlay(lib, image, a, q, epsilon) + Overlay(lib, image, b, q, epsilon)
  {
    hide Overlay, Matched, HasMatch;
    if b == [] {
      assert a + b == a && Overlay(lib, image, b, q, epsilon) == [] by {
        OverlayOfNone(lib, image, q, epsilon);
      }
    } else {
      var last := |b| - 1;
      OverlayAppends(lib, image, a, b[..last], q, epsilon);
      OverlayOneMore(lib, image, a + b, |a| + last, q, epsilon);
      OverlayOneMore(lib, image, b, last, q, epsilon);
      assert (a + b)[..|a| + last] == a + b[..last] && (a + b)[..|a| + last + 1] == a + b && b[..last + 1] == b;
    }
  }

  lemma OverlayOfNone(lib: Libm, image: seq<Star>, q: Quaternion, epsilon: real)
    ensures Overlay(lib, image, [], q, epsilon) == []
  {
  }

  lemma OverlayOneMore(lib: Libm, image: seq<Star>, bigP: seq<Star>, n: nat, q: Quaternion, epsilon: real)
    requires n < |bigP|
    ensures Overlay(lib, image, bigP[..n + 1], q, epsilon) ==
            Overlay(lib, image, bigP[..n], q, epsilon)
            + if HasMatch(lib, image, q, epsilon, bigP[n]) then [Matched(lib, image, q, epsilon, bigP[n])] else []
  {
    FilterPrefix((p: Star) => HasMatch(lib, image, q, epsilon, p), bigP, n);
  }

  /** Every match is a star of the image close to a rotated catalogue star, whose label it takes. */
  lemma OverlayIsSound(lib: Libm, image: seq<Star>, bigP: seq<Star>, q: Quaternion, epsilon: real, m: Star)
    requires m in Overlay(lib, image, bigP, q, epsilon)
    ensures exists p, i :: p in bigP && i in image && m.labelId == p.labelId && m.vector == i.vector
                           && WithinAngle(lib, Rotate(q, p.vector), i.vector, epsilon)
  {
    var has := (p: Star) => HasMatch(lib, image, q, epsilon, p);
    var matching := Filter(has, bigP);
    var k :| 0 <= k < |matching| && m == Matched(lib, image, q, epsilon, matching[k]);
    var p := matching[k];
    FilterCounts(has, bigP, p);
    FirstNearFinds(lib, image, Rotate(q, p.vector), epsilon);
    var i := FirstNear(lib, image, Rotate(q, p.vector), epsilon).value;
    assert p in bigP && i in image && WithinAngle(lib, Rotate(q, p.vector), i.vector, epsilon);
  }

  /** No attitude matches more than all catalogue stars, and one that brings each of them near an
      image star matches all. */
  lemma OverlayOfAll(lib: Libm, image: seq<Star>, bigP: seq<Star>, q: Quaternion, epsilon: real)
    ensures |Overlay(lib, image, bigP, q, epsilon)| <= |bigP|
    ensures (forall p :: p in bigP ==> HasMatch(lib, image, q, epsilon, p)) ==>
              |Overlay(lib, image, bigP, q, epsilon)| == |bigP|
  {
    var has := (p: Star) => HasMatch(lib, image, q, epsilon, p);
    FilterShrinks(has, bigP);
    if forall p :: p in bigP ==> HasMatch(lib, image, q, epsilon, p) {
      FilterKeepsAll(has, bigP);
    }
  }

  /** Rotate every catalogue star, in shuffled order, and collect those that fall near a star of the image. */
  method FindPositiveOverlay(lib: Libm, shuffler: Shuffler, image: seq<Star>, bigP: seq<Star>, q: Quaternion,
                             epsilon: real)
      returns (m: seq<Star>)
    requires shuffler.Sound()
    ensures IsPermutation(m, Overlay(lib, image, bigP, q, epsilon))
    ensures |m| == |Overlay(lib, image, bigP, q, epsilon)|
  {
    var engine: int := *;
    var shuffled := Shuffled(shuffler, engine, bigP);
    ShuffledPermutes(shuffler, engine, bigP);
    m := [];
    for k := 0 to |shuffled|
      invariant m == Overlay(lib, image, shuffled[..k], q, epsilon)
    {
      var rPrime := RotateStar(shuffled[k], q);
      var i := 0;
      while i < |image|
        invariant 0 <= i <= |image|
        invariant FirstNear(lib, image, rPrime.vector, epsilon) == FirstNear(lib, image[i..], rPrime.vector, epsilon)
        invariant m == Overlay(lib, image, shuffled[..k], q, epsilon)
      {
        if WithinAngle(lib, rPrime.vector, image[i].vector, epsilon) {
          m := m + [Wrap(image[i].vector, rPrime.labelId)];
          break;
        }
        i := i + 1;
      }
      OverlayOneMore(lib, image, shuffled, k, q, epsilon);
    }
    assert shuffled[..|shuffled|] == shuffled;
    OverlayIgnoresShuffle(lib, image, bigP, shuffled, q, epsilon);
  }

  // ---- Six orders

  const ORDERS: seq<Trio<nat>> := [Trio(0, 1, 2), Trio(0, 2, 1), Trio(1, 0, 2), Trio(1, 2, 0), Trio(2, 0, 1),
                                   Trio(2, 1, 0)]

  /** They are the six permutations of 0, 1, 2, each once. */
  lemma OrdersAreThePermutations(order: Trio<nat>)
    ensures |ORDERS| == 6
    ensures order in ORDERS <==> multiset{order.first, order.second, order.third} == multiset{0, 1, 2}
  {
    if multiset{order.first, order.second, order.third} == multiset{0, 1, 2} {
      assert order.first in multiset{0, 1, 2} && order.second in multiset{0, 1, 2} && order.third in multiset{0, 1, 2};
      assert 0 in multiset{order.first, order.second, order.third};
      assert 1 in multiset{order.first, order.second, order.third};
      assert 2 in multiset{order.first, order.second, order.third};
      var k := if order.first == 0 then (if order.second == 1 then 0 else 1)
               else if order.first == 1 then (if order.second == 0 then 2 else 3)
               else (if order.second == 0 then 4 else 5);
      assert ORDERS[k] == order;
    }
  }

  function Reorder<T>(r: Trio<T>, order: Trio<nat>): Trio<T>
    requires order.first < 3 && order.second < 3 && order.third < 3
  {
    Trio(r.At(order.first), r.At(order.second), r.At(order.third))
  }

  /** `r` in the k-th of the six orders. */
  function InOrder<T>(r: Trio<T>, k: nat): Trio<T>
    requires k < 6
  {
    Reorder(r, ORDERS[k])
  }

  /** The orders in which three stars are tried, first to last. */
  lemma OrdersInTurn<T>(r: Trio<T>)
    ensures InOrder(r, 0) == Trio(r.first, r.second, r.third) && InOrder(r, 1) == Trio(r.first, r.third, r.second)
    ensures InOrder(r, 2) == Trio(r.second, r.first, r.third) && InOrder(r, 3) == Trio(r.second, r.third, r.first)
    ensures InOrder(r, 4) == Trio(r.third, r.first, r.second) && InOrder(r, 5) == Trio(r.third, r.second, r.first)
    ensures ORDERS[0] == Trio(0, 1, 2)
    ensures forall k, l :: 0 <= k < l < |ORDERS| ==>
              ORDERS[k].first < ORDERS[l].first
                  || (ORDERS[k].first == ORDERS[l].first && ORDERS[k].second < ORDERS[l].second)
  {
  }

  /** The attitude that follows from matching the first two stars of each trio. */
  function TrioAttitude(lib: Libm, b: Trio<Star>, r: Trio<Star>): Quaternion
    requires lib.Sound()
  {
    Triad(lib, b.first.vector, b.second.vector, r.first.vector, r.second.vector)
  }

  /** How many catalogue stars agree with the image when `r` is taken in its k-th order. */
  function Score(s: Setting, bigP: seq<Star>, r: Trio<Star>, b: Trio<Star>, k: nat): nat
    requires s.lib.Sound() && k < 6
  {
    |Overlay(s.lib, s.image, bigP, TrioAttitude(s.lib, b, InOrder(r, k)), s.epsilon4)|
  }

  /** The k-th order is the first of the six with the largest score. */
  ghost predicate IsFirstBest(s: Setting, bigP: seq<Star>, r: Trio<Star>, b: Trio<Star>, k: nat)
    requires s.lib.Sound()
  {
    && k < 6
    && (forall i: nat :: i < 6 ==> Score(s, bigP, r, b, i) <= Score(s, bigP, r, b, k))
    && (forall i: nat :: i < k ==> Score(s, bigP, r, b, i) < Score(s, bigP, r, b, k))
  }

  lemma FirstBestIsUnique(s: Setting, bigP: seq<Star>, r: Trio<Star>, b: Trio<Star>, k: nat, l: nat)
    requires s.lib.Sound() && IsFirstBest(s, bigP, r, b, k) && IsFirstBest(s, bigP, r, b, l)
    ensures k == l
  {
    assert Score(s, bigP, r, b, k) <= Score(s, bigP, r, b, l) <= Score(s, bigP, r, b, k);
  }

  /** The first best of the six orders, written out: its attitude, from the first two stars of each trio,
      matches at least as many of the catalogue stars as that of any order and more than that of any order
      before it. */
  lemma FirstBestIff(s: Setting, bigP: seq<Star>, r: Trio<Star>, b: Trio<Star>, k: nat, size: nat -> nat)
    requires s.lib.Sound() && k < 6
    requires forall i: nat :: i < 6 ==>
               size(i) == |Overlay(s.lib, s.image, bigP,
                                   Triad(s.lib, b.first.vector, b.second.vector,
                                         InOrder(r, i).first.vector, InOrder(r, i).second.vector), s.epsilon4)|
    ensures IsFirstBest(s, bigP, r, b, k) <==>
            (forall i: nat :: i < 6 ==> size(i) <= size(k)) && forall i: nat :: i < k ==> size(i) < size(k)
    ensures LabelledBy(b, r, k) == [Star(b.first.vector, InOrder(r, k).first.labelId, b.first.magnitude),
                                    Star(b.second.vector, InOrder(r, k).second.labelId, b.second.magnitude),
                                    Star(b.third.vector, InOrder(r, k).third.labelId, b.third.magnitude)]
  {
    hide Overlay, Triad, InOrder;
    assert forall i: nat :: i < 6 ==> Score(s, bigP, r, b, i) == size(i);
    if (forall i: nat :: i < 6 ==> size(i) <= size(k)) && forall i: nat :: i < k ==> size(i) < size(k) {
      forall i: nat | i < 6 ensures Score(s, bigP, r, b, i) <= Score(s, bigP, r, b, k) {
        assert size(i) <= size(k);
      }
      forall i: nat | i < k ensures Score(s, bigP, r, b, i) < Score(s, bigP, r, b, k) {
        assert size(i) < size(k);
      }
    }
  }

  /** std::max_element by size: the first of the largest. */
  method MaxElement(lists: array<seq<Star>>) returns (best: nat)
    requires lists.Length > 0
    ensures best < lists.Length
    ensures forall i :: 0 <= i < lists.Length ==> |lists[i]| <= |lists[best]|
    ensures forall i :: 0 <= i < best ==> |lists[i]| < |lists[best]|
  {
    best := 0;
    for k := 1 to lists.Length
      invariant best < k
      invariant forall i :: 0 <= i < k ==> |lists[i]| <= |lists[best]|
      invariant forall i :: 0 <= i < best ==> |lists[i]| < |lists[best]|
    {
      if |lists[best]| < |lists[k]| {
        best := k;
      }
    }
  }

  /** C++ compares from left to right: each comparison yields 0 or 1, which the next one compares. */
  function EqualsChain(sizes: seq<nat>): nat
    requires |sizes| > 0
  {
    if |sizes| == 1 then sizes[0]
    else if EqualsChain(sizes[..|sizes| - 1]) == sizes[|sizes| - 1] then 1 else 0
  }

  /** The guard meant to catch six equal lists does not hold for six lists of three. */
  lemma GuardNeverFires(sizes: seq<nat>)
    requires |sizes| == 6 && forall k :: 0 <= k < 6 ==> sizes[k] == 3
    ensures EqualsChain(sizes) == 0
  {
    ChainBelowTwo(sizes);
    ChainBelowTwo(sizes[..5]);
  }

  lemma ChainBelowTwo(sizes: seq<nat>)
    requires |sizes| > 1
    ensures EqualsChain(sizes) < 2
  {
  }

  /** The body trio with the labels of `r` in the k-th order. */
  function LabelledBy(b: Trio<Star>, r: Trio<Star>, k: nat): seq<Star>
    requires k < 6
  {
    var o := InOrder(r, k);
    [DefineLabel(b.first, o.first.labelId), DefineLabel(b.second, o.second.labelId),
     DefineLabel(b.third, o.third.labelId)]
  }

  /** When `b` is the image of `r` under an attitude, the first order finds that attitude: its score
      counts the catalogue stars that the attitude itself takes near a star of the image. */
  lemma TrueOrderScoresTheAttitude(s: Setting, bigP: seq<Star>, r: Trio<Star>, b: Trio<Star>, q: Quaternion, k: nat)
    requires s.lib.Sound() && SqrNorm(q) == 1.0 && k < 6
    requires var o := InOrder(r, k);
             && b.first.vector == Rotate(q, o.first.vector) && b.second.vector == Rotate(q, o.second.vector)
             && !Collinear(o.first.vector, o.second.vector)
    ensures Score(s, bigP, r, b, k) == |Overlay(s.lib, s.image, bigP, q, s.epsilon4)|
  {
    var o := InOrder(r, k);
    var t := TrioAttitude(s.lib, b, o);
    forall p: Star ensures RotateStar(p, t) == RotateStar(p, q) {
      TriadRecoversAttitude(s.lib, q, o.first.vector, o.second.vector, p.vector);
    }
    SameRotationSameOverlay(s.lib, s.image, bigP, t, q, s.epsilon4);
  }

  lemma {:induction false} SameRotationSameOverlay(lib: Libm, image: seq<Star>, bigP: seq<Star>, t: Quaternion,
                                                   q: Quaternion, epsilon: real)
    requires forall p: Star {:trigger RotateStar(p, t)} :: RotateStar(p, t) == RotateStar(p, q)
    ensures Overlay(lib, image, bigP, t, epsilon) == Overlay(lib, image, bigP, q, epsilon)
  {
    if bigP != [] {
      var n := |bigP| - 1;
      SameRotationSameOverlay(lib, image, bigP[..n], t, q, epsilon);
      OverlayOneMore(lib, image, bigP, n, t, epsilon);
      OverlayOneMore(lib, image, bigP, n, q, epsilon);
      assert bigP[..n + 1] == bigP;
      assert RotateStar(bigP[n], t) == RotateStar(bigP[n], q);
    }
  }
}
