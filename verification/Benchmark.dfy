/** Test images and the disturbances applied to them (benchmark.cpp). */
module Benchmarks {
  import opened Libm
  import opened Vectors
  import opened Quaternions
  import opened Stars
  import opened Rotations
  import opened Sequences
  import opened Shuffling
  import opened Chomps
  import opened Images

  const NO_N := -1

  // ---- Conditions on stars

  predicate InFocus(lib: Libm, center: Vector3, fov: real, v: Vector3) {
    WithinAngle(lib, center, v, fov / 2.0)
  }

  ghost predicate AllInFocus(lib: Libm, center: Vector3, fov: real, stars: seq<Star>) {
    forall s :: s in stars ==> InFocus(lib, center, fov, s.vector)
  }

  lemma InFocusPermutes(lib: Libm, center: Vector3, fov: real, s: seq<Star>, t: seq<Star>)
    requires IsPermutation(s, t) && AllInFocus(lib, center, fov, t)
    ensures AllInFocus(lib, center, fov, s)
  {
    PermutationMembers(s, t);
  }

  lemma InFocusEitherWay(lib: Libm, center: Vector3, fov: real, v: Vector3)
    ensures WithinAngle(lib, v, center, fov / 2.0) <==> InFocus(lib, center, fov, v)
  {
    WithinAngleSymmetric(lib, v, center, fov / 2.0);
  }

  function NearCenter(lib: Libm, center: Vector3, fov: real): Star -> bool {
    (s: Star) => WithinAngle(lib, s.vector, center, fov / 2.0)
  }

  /** The random stars that fall into focus: a rejection loop takes them in this order. */
  function Accepted(lib: Libm, center: Vector3, fov: real, draws: seq<Star>): seq<Star> {
    Filter(NearCenter(lib, center, fov), draws)
  }

  /** The draws closer to the focus than half the field of view, in the order they are drawn. */
  lemma AcceptedExact(lib: Libm, center: Vector3, fov: real, draws: seq<Star>, s: Star)
    ensures multiset(Accepted(lib, center, fov, draws))[s]
         == if Separation(lib, s.vector, center) < fov / 2.0 then multiset(draws)[s] else 0
    ensures Accepted(lib, center, fov, []) == []
    ensures Accepted(lib, center, fov, draws + [s])
         == Accepted(lib, center, fov, draws) + (if Separation(lib, s.vector, center) < fov / 2.0 then [s] else [])
  {
    FilterCounts(NearCenter(lib, center, fov), draws, s);
    FilterOneMore(NearCenter(lib, center, fov), draws, s);
  }

  /** While a rejection loop still needs stars another draw is left, and it either adds that draw
      to what was accepted or leaves it out. */
  lemma NextDraw(lib: Libm, center: Vector3, fov: real, draws: seq<Star>, drawn: nat)
    requires drawn <= |draws|
    requires |Accepted(lib, center, fov, draws[..drawn])| < |Accepted(lib, center, fov, draws)|
    ensures drawn < |draws|
    ensures var so := Accepted(lib, center, fov, draws[..drawn]);
            && Accepted(lib, center, fov, draws[..drawn + 1])
               == (if WithinAngle(lib, draws[drawn].vector, center, fov / 2.0) then so + [draws[drawn]] else so)
            && so <= Accepted(lib, center, fov, draws)
            && Accepted(lib, center, fov, draws[..drawn + 1]) <= Accepted(lib, center, fov, draws)
  {
    AcceptedSoFar(NearCenter(lib, center, fov), draws, drawn);
    FilterPrefix(NearCenter(lib, center, fov), draws, drawn);
    AcceptedSoFar(NearCenter(lib, center, fov), draws, drawn + 1);
  }

  /** What has been kept is a prefix of what will be; when more is to come, an element is left. */
  lemma {:induction false} AcceptedSoFar(near: Star -> bool, draws: seq<Star>, drawn: nat)
    requires drawn <= |draws|
    ensures Filter(near, draws[..drawn]) <= Filter(near, draws)
    ensures |Filter(near, draws[..drawn])| < |Filter(near, draws)| ==> drawn < |draws|
    decreases |draws| - drawn
  {
    if drawn == |draws| {
      assert draws[..drawn] == draws;
    } else {
      FilterPrefix(near, draws, drawn);
      AcceptedSoFar(near, draws, drawn + 1);
    }
  }

  /** An attempt at an image: where to look, and the two directions that give the attitude. */
  datatype Attempt = Attempt(focus: Vector3, from: Vector3, to: Vector3)

  function Attitude(lib: Libm, attempt: Attempt): (q: Quaternion)
    requires lib.Sound() && DrawsAttitude(lib, attempt.from, attempt.to)
    ensures SqrNorm(q) == 1.0
  {
    Chance(lib, attempt.from, attempt.to)
  }

  /** The catalogue stars an attempt shows. */
  function Shown(lib: Libm, hip: seq<Star>, fov: real, mBar: real, focus: Vector3): seq<Star> {
    Filter((s: Star) => s.magnitude <= mBar, Nearby(lib, hip, focus, fov / 2.0))
  }

  /** Every catalogue star closer to the focus than half the field of view and no fainter than the limit is
      shown, as often as the catalogue lists it and in its order, and no other star is. */
  lemma ShownExact(lib: Libm, hip: seq<Star>, fov: real, mBar: real, focus: Vector3, s: Star)
    ensures multiset(Shown(lib, hip, fov, mBar, focus))[s]
         == if Separation(lib, focus, s.vector) < fov / 2.0 && s.magnitude <= mBar then multiset(hip)[s] else 0
    ensures Shown(lib, [], fov, mBar, focus) == []
    ensures Shown(lib, hip + [s], fov, mBar, focus)
         == Shown(lib, hip, fov, mBar, focus)
            + (if Separation(lib, focus, s.vector) < fov / 2.0 && s.magnitude <= mBar then [s] else [])
  {
    hide Filter, Nearby, Separation;
    var near, bright := Nearby(lib, hip, focus, fov / 2.0), (t: Star) => t.magnitude <= mBar;
    FilterOfNone(bright);
    NearbyExact(lib, hip, focus, fov / 2.0, s);
    FilterCounts(bright, near, s);
    FilterOneMore(bright, near, s);
    assert near + [] == near && Filter(bright, near) + [] == Filter(bright, near);
  }

  lemma ShownInFocus(lib: Libm, hip: seq<Star>, fov: real, mBar: real, focus: Vector3, q: Quaternion, s: Star)
    requires SqrNorm(q) == 1.0 && s in Shown(lib, hip, fov, mBar, focus)
    ensures s in hip && s.magnitude <= mBar && InFocus(lib, focus, fov, s.vector)
    ensures InFocus(lib, Rotate(q, focus), fov, RotateStar(s, q).vector)
  {
    FilterCounts((t: Star) => t.magnitude <= mBar, Nearby(lib, hip, focus, fov / 2.0), s);
    FilterCounts((t: Star) => WithinAngle(lib, focus, t.vector, fov / 2.0), hip, s);
    UnitRotationKeeps(lib, q, focus, s.vector);
  }

  lemma ImageInFocus(lib: Libm, hip: seq<Star>, fov: real, mBar: real, focus: Vector3, q: Quaternion, b: seq<Star>,
                     r: seq<Star>)
    requires SqrNorm(q) == 1.0 && r == Shown(lib, hip, fov, mBar, focus) && |b| == |r|
    requires forall k :: 0 <= k < |b| ==> b[k] == ResetLabel(RotateStar(r[k], q))
    ensures AllInFocus(lib, Rotate(q, focus), fov, b)
  {
    hide Rotate, InFocus, SqrNorm;
    forall s | s in b ensures InFocus(lib, Rotate(q, focus), fov, s.vector) {
      var k :| 0 <= k < |b| && b[k] == s;
      assert r[k] in r;
      ShownInFocus(lib, hip, fov, mBar, focus, q, r[k]);
    }
  }

  // ---- Light blockers

  /** A star that no blob covers. */
  predicate Uncovered(lib: Libm, blobs: seq<Star>, psi: real, s: Star) {
    forall k :: 0 <= k < |blobs| ==> !WithinAngle(lib, blobs[k].vector, s.vector, psi / 2.0)
  }

  function UncoveredPair(lib: Libm, blobs: seq<Star>, psi: real): ((Star, Star)) -> bool {
    (p: (Star, Star)) => Uncovered(lib, blobs, psi, p.0)
  }

  /** The pairs left by the blobs are those whose image star is at least psi / 2 away from every blob. */
  lemma UncoveredExact(lib: Libm, blobs: seq<Star>, psi: real, pairs: seq<(Star, Star)>, p: (Star, Star))
    ensures multiset(Filter(UncoveredPair(lib, blobs, psi), pairs))[p]
         == if forall k :: 0 <= k < |blobs| ==> Separation(lib, blobs[k].vector, p.0.vector) >= psi / 2.0
            then multiset(pairs)[p] else 0
  {
    FilterCounts(UncoveredPair(lib, blobs, psi), pairs, p);
    assert UncoveredPair(lib, blobs, psi)(p) <==> Uncovered(lib, blobs, psi, p.0);
    if Uncovered(lib, blobs, psi, p.0) {
      forall k | 0 <= k < |blobs| ensures Separation(lib, blobs[k].vector, p.0.vector) >= psi / 2.0 {
        assert !WithinAngle(lib, blobs[k].vector, p.0.vector, psi / 2.0);
      }
    }
  }

  lemma {:induction false} FilterTwice<T>(f: T -> bool, g: T -> bool, h: T -> bool, s: seq<T>)
    requires forall x :: h(x) <==> f(x) && g(x)
    ensures Filter(g, Filter(f, s)) == Filter(h, s)
  {
    if s != [] {
      var last := |s| - 1;
      FilterTwice(f, g, h, s[..last]);
      FilterOneMore(g, Filter(f, s[..last]), s[last]);
    }
  }

  /** The pairs added as false stars: a labelled star, and a zero vector with a label of its own. */
  function FalsePairs(accepted: seq<Star>, n: nat): seq<(Star, Star)>
    requires n <= |accepted|
  {
    seq(n, k requires 0 <= k < n => (DefineLabel(accepted[k], -k - 1), Wrap(ZERO, -k)))
  }

  function Firsts(pairs: seq<(Star, Star)>): seq<Star> {
    Map((p: (Star, Star)) => p.0, pairs)
  }

  lemma FirstsOfZip(b: seq<Star>, r: seq<Star>, extra: seq<(Star, Star)>, b': seq<Star>, r': seq<Star>)
    requires |b| == |r| && |b'| == |r'| && Zip(b', r') == Zip(b, r) + extra
    ensures b' == b + Firsts(extra)
  {
    forall k | 0 <= k < |b'| ensures b'[k] == (b + Firsts(extra))[k] {
      assert Zip(b', r')[k] == (Zip(b, r) + extra)[k];
    }
  }

  lemma FirstsOfPairs(b: seq<Star>, r: seq<Star>)
    requires |b| == |r|
    ensures Firsts(Zip(b, r)) == b
  {
    assert forall k :: 0 <= k < |b| ==> Firsts(Zip(b, r))[k] == b[k];
  }

  /** The first n stars moved, with their labels and magnitudes. */
  function ShiftedStars(b: seq<Star>, shaken: seq<Vector3>, n: nat): seq<Star>
    requires |shaken| >= (if n < |b| then n else |b|)
  {
    seq(|b|, k requires 0 <= k < |b| => if k < n then Wrap(shaken[k], b[k].labelId, b[k].magnitude) else b[k])
  }

  // ---- Any sequence of disturbances

  /** A disturbance, with the random choices it makes. */
  datatype Disturbance =
    | ExtraLight(n: nat, draws: seq<Star>)
    | LessLight(n: nat, psi: real, draws: seq<Star>)
    | ShiftedLight(n: nat, shaken: seq<Vector3>)

  /** There are enough random choices that fall into focus. */
  ghost predicate Enough(lib: Libm, center: Vector3, fov: real, d: Disturbance) {
    match d
    case ExtraLight(n, draws) => |Accepted(lib, center, fov, draws)| >= n
    case LessLight(n, _, draws) => |Accepted(lib, center, fov, draws)| >= n
    case ShiftedLight(n, shaken) =>
      |shaken| >= n && forall k :: 0 <= k < |shaken| ==> WithinAngle(lib, shaken[k], center, fov / 2.0)
  }

  function ShiftedPairs(pairs: seq<(Star, Star)>, shaken: seq<Vector3>, n: nat): seq<(Star, Star)>
    requires |shaken| >= n
  {
    seq(|pairs|, k requires 0 <= k < |pairs| =>
      if k < n then (Wrap(shaken[k], pairs[k].0.labelId, pairs[k].0.magnitude), pairs[k].1) else pairs[k])
  }

  /** What a disturbance does to the pairs of image and inertial stars, up to their order. */
  ghost function Disturbed(lib: Libm, center: Vector3, fov: real, d: Disturbance, pairs: seq<(Star, Star)>)
      : seq<(Star, Star)>
    requires Enough(lib, center, fov, d)
  {
    match d
    case ExtraLight(n, draws) => pairs + FalsePairs(Accepted(lib, center, fov, draws), n)
    case LessLight(n, psi, draws) => Filter(UncoveredPair(lib, Accepted(lib, center, fov, draws)[..n], psi), pairs)
    case ShiftedLight(n, shaken) => ShiftedPairs(pairs, shaken, n)
  }

  ghost predicate AllEnough(lib: Libm, center: Vector3, fov: real, ds: seq<Disturbance>) {
    forall d :: d in ds ==> Enough(lib, center, fov, d)
  }

  /** What a disturbance and the shuffle after it may lead to. */
  ghost predicate MayFollow(lib: Libm, center: Vector3, fov: real, d: Disturbance, before: seq<(Star, Star)>,
                            after: seq<(Star, Star)>)
    requires Enough(lib, center, fov, d)
  {
    IsPermutation(after, Disturbed(lib, center, fov, d, before))
  }

  /** One disturbance after the other, each followed by a shuffle, leads from one list to the other. */
  ghost predicate Leads(lib: Libm, center: Vector3, fov: real, ds: seq<Disturbance>, before: seq<(Star, Star)>,
                        after: seq<(Star, Star)>)
    requires AllEnough(lib, center, fov, ds)
    decreases |ds|, 0
  {
    if ds == [] then after == before
    else LeadsAndThen(lib, center, fov, ds[..|ds| - 1], ds[|ds| - 1], before, after)
  }

  ghost predicate LeadsAndThen(lib: Libm, center: Vector3, fov: real, ds: seq<Disturbance>, d: Disturbance,
                               before: seq<(Star, Star)>, after: seq<(Star, Star)>)
    requires AllEnough(lib, center, fov, ds) && Enough(lib, center, fov, d)
    decreases |ds|, 1
  {
    exists mid :: Leads(lib, center, fov, ds, before, mid) && MayFollow(lib, center, fov, d, mid, after)
  }

  /** All the false pairs that are added. */
  ghost function Added(lib: Libm, center: Vector3, fov: real, ds: seq<Disturbance>): seq<(Star, Star)>
    requires AllEnough(lib, center, fov, ds)
    decreases |ds|
  {
    if ds == [] then []
    else
      var d, front := ds[|ds| - 1], Added(lib, center, fov, ds[..|ds| - 1]);
      assert Enough(lib, center, fov, d);
      if d.ExtraLight? then front + FalsePairs(Accepted(lib, center, fov, d.draws), d.n) else front
  }

  /** A key of a pair that does not depend on where its image star is. */
  ghost predicate IgnoresPlace<K(!new)>(key: ((Star, Star)) -> K) {
    forall p: (Star, Star), v: Vector3 {:trigger Star(v, p.0.labelId, p.0.magnitude)} ::
      key((Star(v, p.0.labelId, p.0.magnitude), p.1)) == key(p)
  }

  lemma {:induction false} FilterMapped<T, U>(f: T -> U, keep: T -> bool, s: seq<T>)
    ensures multiset(Map(f, Filter(keep, s))) <= multiset(Map(f, s))
  {
    if s != [] {
      var front, last := s[..|s| - 1], s[|s| - 1];
      FilterMapped(f, keep, front);
      MapAppend(f, front, [last]);
      MapAppend(f, Filter(keep, front), [last]);
      assert s == front + [last];
    }
  }

  /** Counted by such a key, the pairs after one disturbance are those from before it and the added
      ones, or fewer when light is removed. */
  lemma DisturbedKeys<K(!new)>(lib: Libm, center: Vector3, fov: real, d: Disturbance, pairs: seq<(Star, Star)>,
                               key: ((Star, Star)) -> K)
    requires Enough(lib, center, fov, d)
    requires d.ShiftedLight? ==> IgnoresPlace(key)
    ensures var now := multiset(Map(key, Disturbed(lib, center, fov, d, pairs)));
            match d
            case ExtraLight(n, draws) =>
              now == multiset(Map(key, pairs)) + multiset(Map(key, FalsePairs(Accepted(lib, center, fov, draws), n)))
            case LessLight(_, _, _) => now <= multiset(Map(key, pairs))
            case ShiftedLight(_, _) => now == multiset(Map(key, pairs))
  {
    match d
    case ExtraLight(n, draws) =>
      MapAppend(key, pairs, FalsePairs(Accepted(lib, center, fov, draws), n));
    case LessLight(n, psi, draws) =>
      FilterMapped(key, UncoveredPair(lib, Accepted(lib, center, fov, draws)[..n], psi), pairs);
    case ShiftedLight(n, shaken) =>
      var moved := ShiftedPairs(pairs, shaken, n);
      forall k | 0 <= k < |pairs| ensures key(moved[k]) == key(pairs[k]) {
        if k < n {
          assert moved[k] == (Star(shaken[k], pairs[k].0.labelId, pairs[k].0.magnitude), pairs[k].1);
        }
      }
      assert Map(key, moved) == Map(key, pairs);
  }

  lemma OneMoreDisturbance<K(!new)>(lib: Libm, center: Vector3, fov: real, d: Disturbance, before: seq<(Star, Star)>,
                                    after: seq<(Star, Star)>, key: ((Star, Star)) -> K)
    requires Enough(lib, center, fov, d) && MayFollow(lib, center, fov, d, before, after)
    requires d.ShiftedLight? ==> IgnoresPlace(key)
    ensures var was, now := multiset(Map(key, before)), multiset(Map(key, after));
            match d
            case ExtraLight(n, draws) => now == was
                + multiset(Map(key, FalsePairs(Accepted(lib, center, fov, draws), n)))
            case LessLight(_, _, _) => now <= was
            case ShiftedLight(_, _) => now == was
  {
    DisturbedKeys(lib, center, fov, d, before, key);
    MapPermutes(key, after, Disturbed(lib, center, fov, d, before));
  }

  lemma AddedOneMore<K(!new)>(lib: Libm, center: Vector3, fov: real, ds: seq<Disturbance>, d: Disturbance,
                              key: ((Star, Star)) -> K)
    requires AllEnough(lib, center, fov, ds) && Enough(lib, center, fov, d)
    ensures AllEnough(lib, center, fov, ds + [d])
    ensures multiset(Map(key, Added(lib, center, fov, ds + [d])))
         == multiset(Map(key, Added(lib, center, fov, ds)))
            + if d.ExtraLight? then multiset(Map(key, FalsePairs(Accepted(lib, center, fov, d.draws), d.n)))
                else multiset{}
  {
    assert (ds + [d])[..|ds|] == ds;
    if d.ExtraLight? {
      MapAppend(key, Added(lib, center, fov, ds), FalsePairs(Accepted(lib, center, fov, d.draws), d.n));
    }
  }

  /** Where the pairs come from, whatever is done to an image. With the place of the image star left
      out, each pair after any sequence of disturbances is one of the pairs from before or one of the
      false pairs added, none more often than there; and none is missing unless light was removed.
      When no light was shifted this holds of the pairs as they are. */
  lemma {:induction false} Origins<K(!new)>(lib: Libm, center: Vector3, fov: real, ds: seq<Disturbance>,
                                            before: seq<(Star, Star)>, after: seq<(Star, Star)>,
                                            key: ((Star, Star)) -> K)
    requires AllEnough(lib, center, fov, ds) && Leads(lib, center, fov, ds, before, after)
    requires IgnoresPlace(key) || forall d :: d in ds ==> !d.ShiftedLight?
    ensures var origins := before + Added(lib, center, fov, ds);
            && multiset(Map(key, after)) <= multiset(Map(key, origins))
            && ((forall d :: d in ds ==> !d.LessLight?) ==> multiset(Map(key, after)) == multiset(Map(key, origins)))
    decreases |ds|
  {
    hide Disturbed, Map, FalsePairs, Accepted, WithinAngle, MayFollow, IgnoresPlace;
    if ds == [] {
      assert before + Added(lib, center, fov, ds) == before;
    } else {
      var front, d := ds[..|ds| - 1], ds[|ds| - 1];
      var mid :| Leads(lib, center, fov, front, before, mid) && MayFollow(lib, center, fov, d, mid, after);
      Origins(lib, center, fov, front, before, mid, key);
      MapAppend(key, before, Added(lib, center, fov, front));
      MapAppend(key, before, Added(lib, center, fov, ds));
      OneMoreDisturbance(lib, center, fov, d, mid, after, key);
      AddedOneMore(lib, center, fov, front, d, key);
      assert front + [d] == ds;
    }
  }

  /** Label and magnitude of the image star, and the inertial star. */
  function Tag(): ((Star, Star)) -> (int, real, Star) {
    (p: (Star, Star)) => (p.0.labelId, p.0.magnitude, p.1)
  }

  /** So every pair of a disturbed image has its inertial star from the original image, or is one of
      the false pairs, and as many pairs are left as there were and were added if no light was removed. */
  lemma EveryPairHasAnOrigin(lib: Libm, center: Vector3, fov: real, ds: seq<Disturbance>, before: seq<(Star, Star)>,
                             after: seq<(Star, Star)>)
    requires AllEnough(lib, center, fov, ds) && Leads(lib, center, fov, ds, before, after)
    ensures var origins := before + Added(lib, center, fov, ds);
            && (forall p :: p in after ==> exists o :: o in origins && Tag()(o) == Tag()(p))
            && |after| <= |origins|
            && ((forall d :: d in ds ==> !d.LessLight?) ==> |after| == |origins|)
  {
    var origins := before + Added(lib, center, fov, ds);
    Origins(lib, center, fov, ds, before, after, Tag());
    assert |multiset(Map(Tag(), after))| == |after| && |multiset(Map(Tag(), origins))| == |origins|;
    SmallerMultiset(multiset(Map(Tag(), after)), multiset(Map(Tag(), origins)));
    forall p | p in after ensures exists o :: o in origins && Tag()(o) == Tag()(p) {
      MapMembers(Tag(), after, Tag()(p));
      assert Tag()(p) in multiset(Map(Tag(), origins));
      MapMembers(Tag(), origins, Tag()(p));
    }
  }

  lemma SmallerMultiset<T>(a: multiset<T>, b: multiset<T>)
    requires a <= b
    ensures |a| <= |b|
  {
    assert b == a + (b - a);
  }

  // ---- Answers beside their stars

  /** An image star belongs to the answer it differs from in nothing but the label. */
  function IsAnswer(): (Star, Star) -> bool {
    (x: Star, y: Star) => x == ResetLabel(y)
  }

  ghost predicate HasAnswers(b: seq<Star>, answers: seq<Star>) {
    |b| == |answers| && forall i :: 0 <= i < |b| ==> b[i] == ResetLabel(answers[i])
  }

  /** Extra light keeps the answers beside their stars, whatever the shuffle, if and only if
      nothing is added, or there was no star to begin with. */
  lemma AnswersAfterExtraLight(b: seq<Star>, answers: seq<Star>, accepted: seq<Star>, n: nat)
    requires HasAnswers(b, answers) && NoDuplicates(b) && n <= |accepted|
    ensures StaySideBySide(IsAnswer(), b + Firsts(FalsePairs(accepted, n)), answers) <==> n == 0 || b == []
  {
    var extra := Firsts(FalsePairs(accepted, n));
    if b == [] {
      EmptyStays(IsAnswer(), b + extra, answers);
    } else if n == 0 {
      assert b + extra == b;
      SameLengthStays(IsAnswer(), b, answers);
    } else {
      DifferentLengthsDrift(IsAnswer(), b + extra, answers);
    }
  }

  /** Removing light keeps the answers beside their stars, whatever the shuffle, if and only if it
      removes nothing, or everything. */
  lemma AnswersAfterRemoval(b: seq<Star>, r: seq<Star>, answers: seq<Star>, keep: ((Star, Star)) -> bool)
    requires HasAnswers(b, answers) && NoDuplicates(b) && |r| == |b|
    ensures var kept := Firsts(Filter(keep, Zip(b, r)));
            StaySideBySide(IsAnswer(), kept, answers) <==> |kept| == |b| || kept == []
  {
    var kept := Firsts(Filter(keep, Zip(b, r)));
    FilterShrinks(keep, Zip(b, r));
    if kept == [] {
      EmptyStays(IsAnswer(), kept, answers);
    } else if |kept| == |b| {
      FilterOfSameSize(keep, Zip(b, r));
      FirstsOfPairs(b, r);
      SameLengthStays(IsAnswer(), kept, answers);
    } else {
      assert b[0] != b[1];
      DifferentLengthsDrift(IsAnswer(), kept, answers);
    }
  }

  class Benchmark {
    const lib: Libm
    const shuffler: Shuffler
    const fov: real
    var b: seq<Star>
    var r: seq<Star>
    var bAnswers: seq<Star>
    var center: Vector3
    var qRb: Quaternion
    var engine: int

    constructor (lib: Libm, shuffler: Shuffler, ch: Chomp, fov: real, n: int, mBar: real, attempts: seq<Attempt>)
      requires lib.Sound() && shuffler.Sound()
      requires forall k :: 0 <= k < |attempts| ==> DrawsAttitude(lib, attempts[k].from, attempts[k].to)
      requires exists k :: 0 <= k < |attempts| && |Shown(lib, ch.hip, fov, mBar, attempts[k].focus)| > 4
      ensures Valid() && this.lib == lib && this.fov == fov && this.shuffler == shuffler
      ensures |bAnswers| == |b|
      ensures forall i :: 0 <= i < |b| ==>
                && bAnswers[i] == Star(Rotate(qRb, r[i].vector), r[i].labelId, r[i].magnitude)
                && b[i] == Star(Rotate(qRb, r[i].vector), 0, r[i].magnitude)
    {
      this.lib, this.shuffler, this.fov := lib, shuffler, fov;
      b, r, bAnswers := [], [], [];
      new;
      var _ := GenerateStars(ch, n, mBar, attempts);
    }

    /** Image stars and inertial stars are side by side, and the image stars are in focus. */
    ghost predicate Valid()
      reads this
    {
      shuffler.Sound() && |b| == |r| && AllInFocus(lib, center, fov, b)
    }

    ghost function Aligned(): seq<(Star, Star)>
      requires Valid()
      reads this
    {
      Zip(b, r)
    }

    /** Two copies of the engine shuffle the other two lists in the same way. */
    method Shuffle()
      requires shuffler.Sound() && |b| == |r|
      modifies `b, `r, `bAnswers, `engine
      ensures |b| == |r| == |old(b)| && IsPermutation(Zip(b, r), Zip(old(b), old(r)))
      ensures IsPermutation(b, old(b)) && IsPermutation(r, old(r)) && IsPermutation(bAnswers, old(bAnswers))
      ensures b == Shuffled(shuffler, old(engine), old(b)) && r == Shuffled(shuffler, old(engine), old(r))
      ensures bAnswers == Shuffled(shuffler, old(engine), old(bAnswers)) && |bAnswers| == |old(bAnswers)|
      ensures |old(bAnswers)| == |old(b)| ==>
                IsPermutation(Zip(Zip(b, r), bAnswers), Zip(Zip(old(b), old(r)), old(bAnswers)))
    {
      ShuffledTogether(shuffler, engine, b, r);
      ShuffledPermutes(shuffler, engine, b);
      ShuffledPermutes(shuffler, engine, r);
      ShuffledPermutes(shuffler, engine, bAnswers);
      if |bAnswers| == |b| {
        ShuffledTogether(shuffler, engine, Zip(b, r), bAnswers);
      }
      var e1, e2 := engine, engine;
      b := Shuffled(shuffler, engine, b);
      engine := *;
      r := Shuffled(shuffler, e1, r);
      bAnswers := Shuffled(shuffler, e2, bAnswers);
    }

    /** Draws images until one has more than four stars. Every image star is then the rotated and
        unlabelled inertial star beside it, and the answer beside it is that star with its label. */
    method GenerateStars(ch: Chomp, n: int, mBar: real, attempts: seq<Attempt>) returns (used: nat)
      requires lib.Sound() && shuffler.Sound()
      requires forall k :: 0 <= k < |attempts| ==> DrawsAttitude(lib, attempts[k].from, attempts[k].to)
      requires exists k :: 0 <= k < |attempts| && |Shown(lib, ch.hip, fov, mBar, attempts[k].focus)| > 4
      modifies `b, `r, `bAnswers, `center, `qRb, `engine
      ensures Valid()
      ensures used < |attempts| && |Shown(lib, ch.hip, fov, mBar, attempts[used].focus)| > 4
      ensures forall k :: 0 <= k < used ==> |Shown(lib, ch.hip, fov, mBar, attempts[k].focus)| <= 4
      ensures qRb == Attitude(lib, attempts[used]) && center == Rotate(qRb, attempts[used].focus)
      ensures |b| == |r| == |bAnswers|
      ensures var shown := Shown(lib, ch.hip, fov, mBar, attempts[used].focus);
              IsPermutation(r, if n != NO_N && 0 <= n < |shown| then shown[..n] else shown)
      ensures forall i :: 0 <= i < |b| ==> bAnswers[i] == RotateStar(r[i], qRb) && b[i] == ResetLabel(bAnswers[i])
    {
      hide Shown, InFocus, Shuffled, RotateStar, ResetLabel, DrawsAttitude;
      used := 0;
      while true
        invariant used < |attempts|
        invariant forall k :: 0 <= k < used ==> |Shown(lib, ch.hip, fov, mBar, attempts[k].focus)| <= 4
        decreases |attempts| - used
      {
        Draw(ch, mBar, attempts[used]);
        if |b| > 4 {
          break;
        }
        assert used + 1 < |attempts| by {
          var k :| 0 <= k < |attempts| && |Shown(lib, ch.hip, fov, mBar, attempts[k].focus)| > 4;
          assert k > used;
        }
        used := used + 1;
      }
      if n != NO_N && 0 <= n < |b| {
        r, b, bAnswers := r[..n], b[..n], bAnswers[..n];
      }
      ghost var r0, b0, a0 := r, b, bAnswers;
      Shuffle();
      RotatedRowsKept(b0, r0, a0, b, r, bAnswers, qRb);
      InFocusPermutes(lib, center, fov, b, b0);
    }

    /** One attempt: clear the lists and fill them with the stars around the focus. */
    method Draw(ch: Chomp, mBar: real, attempt: Attempt)
      requires lib.Sound() && DrawsAttitude(lib, attempt.from, attempt.to)
      modifies `b, `r, `bAnswers, `center, `qRb
      ensures qRb == Attitude(lib, attempt) && center == Rotate(qRb, attempt.focus)
      ensures r == Shown(lib, ch.hip, fov, mBar, attempt.focus)
      ensures |b| == |r| == |bAnswers|
      ensures forall k :: 0 <= k < |b| ==> bAnswers[k] == RotateStar(r[k], qRb) && b[k] == ResetLabel(bAnswers[k])
      ensures AllInFocus(lib, center, fov, b)
    {
      hide InFocus, Rotate, SqrNorm, DrawsAttitude, WithinAngle;
      b, bAnswers, r := [], [], [];
      center := attempt.focus;
      qRb := Chance(lib, attempt.from, attempt.to);
      var candidates := ch.NearbyHipStars(lib, center, fov / 2.0);
      ghost var bright := (s: Star) => s.magnitude <= mBar;
      for k := 0 to |candidates|
        invariant r == Filter(bright, candidates[..k])
        invariant |b| == |r| == |bAnswers|
        invariant forall k :: 0 <= k < |b| ==> bAnswers[k] == RotateStar(r[k], qRb) && b[k] == ResetLabel(bAnswers[k])
        invariant center == attempt.focus && qRb == Attitude(lib, attempt)
      {
        FilterPrefix(bright, candidates, k);
        if candidates[k].magnitude <= mBar {
          var rotated := RotateStar(candidates[k], qRb);
          bAnswers := bAnswers + [rotated];
          b := b + [ResetLabel(rotated)];
          r := r + [candidates[k]];
        }
      }
      assert candidates[..|candidates|] == candidates;
      center := RotateStar(Wrap(center), qRb).vector;
      ImageInFocus(lib, ch.hip, fov, mBar, attempt.focus, qRb, b, r);
    }

    /** Appends n false stars that fall into focus, drawn one after the other. */
    method AddExtraLight(n: nat, draws: seq<Star>)
      requires Valid()
      requires |Accepted(lib, center, fov, draws)| >= n
      modifies `b, `r, `bAnswers, `engine
      ensures Valid() && |b| == |old(b)| + n
      ensures var extra := FalsePairs(Accepted(lib, center, fov, draws), n);
              && IsPermutation(Aligned(), old(Aligned()) + extra)
              && b == Shuffled(shuffler, old(engine), old(b) + Firsts(extra))
              && |extra| == n
              && forall k :: 0 <= k < n ==>
                   extra[k] == (Star(Accepted(lib, center, fov, draws)[k].vector, -k - 1,
                                     Accepted(lib, center, fov, draws)[k].magnitude),
                                Star(Vector3(0.0, 0.0, 0.0), -k, -30.0))
      ensures bAnswers == Shuffled(shuffler, old(engine), old(bAnswers))
    {
      hide Accepted, InFocus, WithinAngle, Shuffled;
      ghost var accepted := Accepted(lib, center, fov, draws);
      var current, drawn := 0, 0;
      NoneAccepted(lib, center, fov, draws);
      while current < n
        invariant current <= n && drawn <= |draws|
        invariant Accepted(lib, center, fov, draws[..drawn]) == accepted[..current]
        invariant |b| == |r| == |old(b)| + current && bAnswers == old(bAnswers) && engine == old(engine)
        invariant Zip(b, r) == old(Zip(b, r)) + FalsePairs(accepted, current)
        invariant AllInFocus(lib, center, fov, b)
        decreases |draws| - drawn
      {
        NextDraw(lib, center, fov, draws, drawn);
        var generated := DefineLabel(draws[drawn], -current - 1);
        if WithinAngle(lib, generated.vector, center, fov / 2.0) {
          AddOne(generated, current, accepted);
          current := current + 1;
        }
        drawn := drawn + 1;
      }
      FirstsOfZip(old(b), old(r), FalsePairs(accepted, n), b, r);
      ghost var b0, r0 := b, r;
      Shuffle();
      InFocusPermutes(lib, center, fov, b, b0);
    }

    /** One false star, side by side with a zero vector. */
    method AddOne(generated: Star, k: int, ghost accepted: seq<Star>)
      requires |b| == |r| && AllInFocus(lib, center, fov, b)
      requires 0 <= k < |accepted| && generated == DefineLabel(accepted[k], -k - 1)
      requires WithinAngle(lib, generated.vector, center, fov / 2.0)
      modifies `b, `r
      ensures |b| == |r| == |old(b)| + 1 && AllInFocus(lib, center, fov, b)
      ensures forall front :: old(Zip(b, r)) == front + FalsePairs(accepted, k) ==>
                Zip(b, r) == front + FalsePairs(accepted, k + 1)
    {
      InFocusEitherWay(lib, center, fov, generated.vector);
      ZipAppend(b, r, generated, Wrap(ZERO, -k));
      r := r + [Wrap(ZERO, -k)];
      b := b + [generated];
      forall front | old(Zip(b, r)) == front + FalsePairs(accepted, k)
          ensures Zip(b, r) == front + FalsePairs(accepted, k + 1) {
        assert FalsePairs(accepted, k + 1) == FalsePairs(accepted, k) + [(generated, Wrap(ZERO, -k))];
      }
    }

    /** Removes exactly the stars within psi / 2 of a blob, with the inertial stars beside them.
        The answers are not touched. */
    method RemoveLight(n: nat, psi: real, draws: seq<Star>)
      requires Valid()
      requires |Accepted(lib, center, fov, draws)| >= n
      modifies `b, `r, `bAnswers, `engine
      ensures Valid()
      ensures var blobs := Accepted(lib, center, fov, draws)[..n];
              && IsPermutation(Aligned(), Filter(UncoveredPair(lib, blobs, psi), old(Aligned())))
              && b == Shuffled(shuffler, old(engine), Firsts(Filter(UncoveredPair(lib, blobs, psi), old(Aligned()))))
      ensures bAnswers == Shuffled(shuffler, old(engine), old(bAnswers))
    {
      hide Accepted, InFocus, WithinAngle, Shuffled, UncoveredPair;
      var blobs: seq<Star> := [];
      var drawn := 0;
      NoneAccepted(lib, center, fov, draws);
      while |blobs| < n
        invariant b == old(b) && r == old(r) && bAnswers == old(bAnswers) && engine == old(engine)
        invariant |blobs| <= n && drawn <= |draws|
        invariant Accepted(lib, center, fov, draws[..drawn]) == blobs
        invariant blobs <= Accepted(lib, center, fov, draws)
        decreases |draws| - drawn
      {
        NextDraw(lib, center, fov, draws, drawn);
        if WithinAngle(lib, draws[drawn].vector, center, fov / 2.0) {
          blobs := blobs + [draws[drawn]];
        }
        drawn := drawn + 1;
      }
      ghost var before := Zip(b, r);
      NothingCovers(lib, psi, before);
      for k := 0 to |blobs|
        invariant |b| == |r| && bAnswers == old(bAnswers) && engine == old(engine)
        invariant Zip(b, r) == Filter(UncoveredPair(lib, blobs[..k], psi), before)
        invariant AllInFocus(lib, center, fov, b)
      {
        CoverOnce(blobs[k], psi);
        assert blobs[..k + 1] == blobs[..k] + [blobs[k]];
        OneMoreBlob(lib, blobs[..k], blobs[k], psi, before);
      }
      assert blobs[..|blobs|] == blobs == Accepted(lib, center, fov, draws)[..n];
      FirstsOfPairs(b, r);
      ghost var b0 := b;
      Shuffle();
      InFocusPermutes(lib, center, fov, b, b0);
    }

    /** One blob: erase what it covers from both lists, walking both at once. */
    method CoverOnce(blob: Star, psi: real)
      requires |b| == |r|
      modifies `b, `r
      ensures |b| == |r| && forall s :: s in b ==> s in old(b)
      ensures Zip(b, r) == Filter(UncoveredPair(lib, [blob], psi), old(Zip(b, r)))
    {
      hide Filter, UncoveredPair, Zip, WithinAngle, Walked;
      ghost var keep := UncoveredPair(lib, [blob], psi);
      ghost var before := Zip(b, r);
      ghost var seen := 0;
      var s := 0;
      ZipSizes(b, r);
      WalkStart(keep, before);
      while s < |b| && s < |r|
        invariant |b| == |r| && s <= |b|
        invariant Walked(keep, before, seen, Zip(b, r), s)
        invariant |b| - s == |before| - seen
        decreases |b| - s
      {
        ZipSizes(b, r);
        WalkStep(keep, before, seen, Zip(b, r), s);
        OneBlobCovers(lib, blob, psi, b[s], r[s]);
        if WithinAngle(lib, blob.vector, b[s].vector, psi / 2.0) {
          EraseFromZip(b, r, s);
          b := b[..s] + b[s + 1..];
          r := r[..s] + r[s + 1..];
        } else {
          s := s + 1;
        }
        seen := seen + 1;
      }
      WalkEnd(keep, before, seen, Zip(b, r), s);
      FirstsFrom(keep, b, r, old(b), old(r));
    }

    /** Moves the first n image stars, each to a place in focus. The stars beside them stay. */
    method ShiftLight(n: nat, shaken: seq<Vector3>)
      requires Valid()
      requires |shaken| >= (if n < |b| then n else |b|)
      requires forall k :: 0 <= k < |shaken| ==> WithinAngle(lib, shaken[k], center, fov / 2.0)
      modifies `b, `r, `bAnswers, `engine
      ensures Valid() && |b| == |old(b)|
      ensures IsPermutation(Aligned(), Zip(ShiftedStars(old(b), shaken, n), old(r)))
      ensures forall k :: 0 <= k < |old(b)| ==>
                (ShiftedStars(old(b), shaken, n)[k]
              == if k < n then Star(shaken[k], old(b)[k].labelId, old(b)[k].magnitude) else old(b)[k])
      ensures IsPermutation(r, old(r)) && IsPermutation(bAnswers, old(bAnswers))
      ensures |old(bAnswers)| == |old(b)| ==>
                |bAnswers| == |b|
                && IsPermutation(Zip(Aligned(), bAnswers),
                                 Zip(Zip(ShiftedStars(old(b), shaken, n), old(r)), old(bAnswers)))
    {
      var current := 0;
      var i := 0;
      while i < |b| && current < n
        invariant current == i <= |old(b)| && i <= n
        invariant |b| == |old(b)| && r == old(r) && bAnswers == old(bAnswers)
        invariant b == ShiftedStars(old(b), shaken, i)
        invariant AllInFocus(lib, center, fov, b)
        decreases |b| - i
      {
        var candidate := Wrap(shaken[i], b[i].labelId, b[i].magnitude);
        InFocusEitherWay(lib, center, fov, candidate.vector);
        assert forall s :: s in b[i := candidate] ==> s in b || s == candidate;
        b := b[i := candidate];
        current := current + 1;
        i := i + 1;
      }
      assert b == ShiftedStars(old(b), shaken, n);
      ghost var b0 := b;
      Shuffle();
      InFocusPermutes(lib, center, fov, b, b0);
    }

    /** Any sequence of disturbances, one after the other. The answers stay the same stars. */
    method Perform(ds: seq<Disturbance>)
      requires Valid() && AllEnough(lib, center, fov, ds)
      modifies `b, `r, `bAnswers, `engine
      ensures Valid() && Leads(lib, center, fov, ds, old(Aligned()), Aligned())
      ensures IsPermutation(bAnswers, old(bAnswers))
    {
      hide Disturbed, InFocus, Shuffled;
      for k := 0 to |ds|
        invariant Valid()
        invariant Leads(lib, center, fov, ds[..k], old(Aligned()), Aligned())
        invariant IsPermutation(bAnswers, old(bAnswers))
      {
        assert ds[..k + 1][..k] == ds[..k];
        PerformOne(ds[k]);
      }
      assert ds[..|ds|] == ds;
    }

    method PerformOne(d: Disturbance)
      requires Valid() && Enough(lib, center, fov, d)
      modifies `b, `r, `bAnswers, `engine
      ensures Valid() && IsPermutation(Aligned(), Disturbed(lib, center, fov, d, old(Aligned())))
      ensures IsPermutation(bAnswers, old(bAnswers))
    {
      hide InFocus, Shuffled, Accepted, WithinAngle, UncoveredPair;
      ShuffledPermutes(shuffler, engine, bAnswers);
      match d {
        case ExtraLight(n, draws) =>
          AddExtraLight(n, draws);
        case LessLight(n, psi, draws) =>
          RemoveLight(n, psi, draws);
        case ShiftedLight(n, shaken) =>
          ShiftLight(n, shaken);
          assert Zip(ShiftedStars(old(b), shaken, n), old(r)) == ShiftedPairs(old(Aligned()), shaken, n);
      }
    }
  }

  ghost predicate IsRow(b: seq<Star>, r: seq<Star>, a: seq<Star>, x: Star, y: Star, z: Star)
    requires |b| == |r| == |a|
  {
    exists j :: 0 <= j < |b| && b[j] == x && r[j] == y && a[j] == z
  }

  /** Three lists permuted together keep their rows. */
  lemma RowsKept(b0: seq<Star>, r0: seq<Star>, a0: seq<Star>, b: seq<Star>, r: seq<Star>, a: seq<Star>)
    requires |b0| == |r0| == |a0| && |b| == |r| == |a|
    requires IsPermutation(Zip(Zip(b, r), a), Zip(Zip(b0, r0), a0))
    ensures forall i :: 0 <= i < |b| ==> IsRow(b0, r0, a0, b[i], r[i], a[i])
  {
    var now, before := Zip(Zip(b, r), a), Zip(Zip(b0, r0), a0);
    PermutationMembers(now, before);
    forall i | 0 <= i < |b| ensures IsRow(b0, r0, a0, b[i], r[i], a[i]) {
      assert now[i] in now;
      var j :| 0 <= j < |before| && before[j] == now[i];
      assert now[i] == ((b[i], r[i]), a[i]) && before[j] == ((b0[j], r0[j]), a0[j]);
      assert b0[j] == b[i] && r0[j] == r[i] && a0[j] == a[i];
    }
  }

  lemma RotatedRowsKept(b0: seq<Star>, r0: seq<Star>, a0: seq<Star>, b: seq<Star>, r: seq<Star>, a: seq<Star>,
                        q: Quaternion)
    requires |b0| == |r0| == |a0| && |b| == |r| == |a|
    requires IsPermutation(Zip(Zip(b, r), a), Zip(Zip(b0, r0), a0))
    requires forall i :: 0 <= i < |b0| ==> a0[i] == RotateStar(r0[i], q) && b0[i] == ResetLabel(a0[i])
    ensures forall i :: 0 <= i < |b| ==> a[i] == RotateStar(r[i], q) && b[i] == ResetLabel(a[i])
  {
    hide IsPermutation, Zip, RotateStar, ResetLabel;
    RowsKept(b0, r0, a0, b, r, a);
    forall i | 0 <= i < |b| ensures a[i] == RotateStar(r[i], q) && b[i] == ResetLabel(a[i]) {
      assert IsRow(b0, r0, a0, b[i], r[i], a[i]);
    }
  }

  lemma ZipAppend(b: seq<Star>, r: seq<Star>, x: Star, y: Star)
    requires |b| == |r|
    ensures Zip(b + [x], r + [y]) == Zip(b, r) + [(x, y)]
  {
  }

  /** Walking along a list from which elements are erased: the part behind is filtered, the part
      ahead untouched. */
  ghost predicate Walked<T>(keep: T -> bool, before: seq<T>, seen: nat, now: seq<T>, s: nat) {
    && seen <= |before|
    && now == Filter(keep, before[..seen]) + before[seen..]
    && s == |Filter(keep, before[..seen])|
  }

  lemma WalkStart<T>(keep: T -> bool, before: seq<T>)
    ensures Walked(keep, before, 0, before, 0)
  {
  }

  lemma WalkStep<T>(keep: T -> bool, before: seq<T>, seen: nat, now: seq<T>, s: nat)
    requires Walked(keep, before, seen, now, s) && seen < |before|
    ensures s < |now| && now[s] == before[seen]
    ensures keep(before[seen]) ==> Walked(keep, before, seen + 1, now, s + 1)
    ensures !keep(before[seen]) ==> Walked(keep, before, seen + 1, now[..s] + now[s + 1..], s)
  {
    FilterPrefix(keep, before, seen);
    assert before[seen..] == [before[seen]] + before[seen + 1..];
  }

  lemma WalkEnd<T>(keep: T -> bool, before: seq<T>, seen: nat, now: seq<T>, s: nat)
    requires Walked(keep, before, seen, now, s) && seen == |before|
    ensures now == Filter(keep, before)
  {
    assert before[..seen] == before && before[seen..] == [];
  }

  lemma EraseFromZip(b: seq<Star>, r: seq<Star>, s: nat)
    requires |b| == |r| && s < |b|
    ensures Zip(b[..s] + b[s + 1..], r[..s] + r[s + 1..]) == Zip(b, r)[..s] + Zip(b, r)[s + 1..]
  {
  }

  lemma OneBlobCovers(lib: Libm, blob: Star, psi: real, s: Star, r: Star)
    ensures Uncovered(lib, [blob], psi, s) <==> !WithinAngle(lib, blob.vector, s.vector, psi / 2.0)
    ensures UncoveredPair(lib, [blob], psi)((s, r)) <==> !WithinAngle(lib, blob.vector, s.vector, psi / 2.0)
  {
    assert [blob][0] == blob;
  }

  lemma ZipSizes(b: seq<Star>, r: seq<Star>)
    requires |b| == |r|
    ensures |Zip(b, r)| == |b| && forall k :: 0 <= k < |b| ==> Zip(b, r)[k] == (b[k], r[k])
  {
  }

  lemma FirstsFrom(keep: ((Star, Star)) -> bool, b: seq<Star>, r: seq<Star>, b0: seq<Star>, r0: seq<Star>)
    requires |b| == |r| && |b0| == |r0|
    requires Zip(b, r) == Filter(keep, Zip(b0, r0))
    ensures forall s :: s in b ==> s in b0
  {
    FilterAll(keep, Zip(b0, r0));
    forall s | s in b ensures s in b0 {
      var k :| 0 <= k < |b| && b[k] == s;
      assert Zip(b, r)[k] in Zip(b0, r0);
      var j :| 0 <= j < |b0| && Zip(b0, r0)[j] == Zip(b, r)[k];
      assert b0[j] == s;
    }
  }

  lemma NoneAccepted(lib: Libm, center: Vector3, fov: real, draws: seq<Star>)
    ensures Accepted(lib, center, fov, draws[..0]) == []
  {
  }

  lemma OneMoreBlob(lib: Libm, blobs: seq<Star>, blob: Star, psi: real, pairs: seq<(Star, Star)>)
    ensures Filter(UncoveredPair(lib, [blob], psi), Filter(UncoveredPair(lib, blobs, psi), pairs))
         == Filter(UncoveredPair(lib, blobs + [blob], psi), pairs)
  {
    forall p: (Star, Star)
      ensures UncoveredPair(lib, blobs + [blob], psi)(p) <==>
              UncoveredPair(lib, blobs, psi)(p) && UncoveredPair(lib, [blob], psi)(p) {
      OneMoreCovers(lib, blobs, blob, psi, p.0);
    }
    FilterTwice(UncoveredPair(lib, blobs, psi), UncoveredPair(lib, [blob], psi),
                UncoveredPair(lib, blobs + [blob], psi), pairs);
  }

  lemma OneMoreCovers(lib: Libm, blobs: seq<Star>, blob: Star, psi: real, s: Star)
    ensures Uncovered(lib, blobs + [blob], psi, s) <==> Uncovered(lib, blobs, psi, s) && Uncovered(lib, [blob], psi, s)
  {
    OneBlobCovers(lib, blob, psi, s, s);
    if Uncovered(lib, blobs + [blob], psi, s) {
      forall k | 0 <= k < |blobs| ensures !WithinAngle(lib, blobs[k].vector, s.vector, psi / 2.0) {
        assert (blobs + [blob])[k] == blobs[k];
      }
      assert (blobs + [blob])[|blobs|] == blob;
    }
  }

  lemma {:induction false} NothingCovers(lib: Libm, psi: real, pairs: seq<(Star, Star)>)
    ensures Filter(UncoveredPair(lib, [], psi), pairs) == pairs
  {
    if pairs != [] {
      NothingCovers(lib, psi, pairs[..|pairs| - 1]);
      assert pairs == pairs[..|pairs| - 1] + [pairs[|pairs| - 1]];
    }
  }

  // ---- What a generated image shows

  lemma IndexOf(bright: seq<Star>, s: Star) returns (k: nat)
    requires s in bright
    ensures k < |bright| && bright[k] == s
  {
    k :| k < |bright| && bright[k] == s;
  }

  lemma {:induction false} IndicesOf(bright: seq<Star>, r: seq<Star>) returns (truth: seq<int>)
    requires forall s :: s in r ==> s in bright
    ensures |truth| == |r| && forall i :: 0 <= i < |r| ==> 0 <= truth[i] < |bright| && bright[truth[i]] == r[i]
  {
    if r == [] {
      truth := [];
    } else {
      var k := IndexOf(bright, r[|r| - 1]);
      var front := IndicesOf(bright, r[..|r| - 1]);
      truth := front + [k];
    }
  }

  /** A generated image, whose inertial stars come from a catalogue without repetitions, is an
      image as the identification methods are proved for: it shows those stars under its attitude. */
  lemma GeneratedImageShows(lib: Libm, hip: seq<Star>, bright: seq<Star>, fov: real, mBar: real, focus: Vector3, n: nat,
                            b: seq<Star>, r: seq<Star>, q: Quaternion) returns (truth: seq<int>)
    requires SqrNorm(q) == 1.0 && DistinctLabels(hip)
    requires n <= |Shown(lib, hip, fov, mBar, focus)| && IsPermutation(r, Shown(lib, hip, fov, mBar, focus)[..n])
    requires |b| == |r| && forall i :: 0 <= i < |b| ==> b[i] == ResetLabel(RotateStar(r[i], q))
    requires forall s :: s in r ==> s in bright
    ensures Shows(b, bright, truth, q)
    ensures forall i :: 0 <= i < |b| ==> bright[truth[i]] == r[i]
  {
    hide Rotate, WithinAngle;
    var near := (t: Star) => WithinAngle(lib, focus, t.vector, fov / 2.0);
    assert NoDuplicates(hip);
    FilterDistinct(near, hip);
    FilterDistinct((t: Star) => t.magnitude <= mBar, Nearby(lib, hip, focus, fov / 2.0));
    PermutationDistinct(r, Shown(lib, hip, fov, mBar, focus)[..n]);
    truth := IndicesOf(bright, r);
  }
}
