/**
 The orders in which the identification methods go through pairs and trios of star indices. Each
 nest of loops is the list of index tuples it visits; the loops themselves are proved elsewhere to
 walk along that list.
 */
module Enumeration {
  import opened Sequences

  type Pair = (int, int)
  type IndexTrio = (int, int, int)

  // ---- for i < n - 1, for i < j < n  (angle.cpp)

  function PairOf(i: int): int -> seq<Pair> {
    j => [(i, j)]
  }

  /** The pairs the inner loop visits before it reaches `j`. */
  function PairsAt(i: int, j: int): seq<Pair> {
    Concat(PairOf(i), i + 1, j)
  }

  function PairsOf(n: int): int -> seq<Pair> {
    i => PairsAt(i, n)
  }

  /** The pairs visited before the outer loop reaches `i`. */
  function PairsBelow(n: int, i: int): seq<Pair> {
    Concat(PairsOf(n), 0, i)
  }

  function Pairs(n: nat): seq<Pair> {
    PairsBelow(n, n - 1)
  }

  function First(): Pair -> int { (p: Pair) => p.0 }

  function Second(): Pair -> int { (p: Pair) => p.1 }

  lemma PairsAtExact(i: int, j: int)
    ensures forall p :: p in PairsAt(i, j) <==> p.0 == i && i < p.1 < j
    ensures NoDuplicates(PairsAt(i, j))
  {
    ConcatExact(PairOf(i), Second(), (p: Pair) => p.0 == i, i + 1, j);
  }

  /** The loops visit every pair `i < j` of `n` stars exactly once. */
  lemma PairsExact(n: nat)
    ensures forall p :: p in Pairs(n) <==> 0 <= p.0 < p.1 < n
    ensures NoDuplicates(Pairs(n))
  {
    var f := PairsOf(n);
    forall i ensures forall p :: p in f(i) <==> p.0 == i && i < p.1 < n
             ensures NoDuplicates(f(i)) {
      PairsAtExact(i, n);
    }
    ConcatExact(f, First(), (p: Pair) => p.0 < p.1 < n, 0, n - 1);
  }

  /** What the loops have visited at (i, j) is a prefix of what they visit. */
  lemma PairsPrefix(n: nat, i: int, j: int)
    requires 0 <= i < n - 1 && i < j <= n
    ensures PairsBelow(n, i) + PairsAt(i, j) <= Pairs(n)
  {
    ConcatPrefix(PairOf(i), i + 1, j, n);
    ConcatPrefix(PairsOf(n), 0, i + 1, n - 1);
    assert PairsBelow(n, i + 1) == PairsBelow(n, i) + PairsAt(i, n);
  }

  lemma PairsStep(n: int, i: int, j: int)
    requires i < j
    ensures PairsBelow(n, i) + PairsAt(i, j + 1) == PairsBelow(n, i) + PairsAt(i, j) + [(i, j)]
    ensures PairsBelow(n, i) + PairsAt(i, i + 1) == PairsBelow(n, i)
    ensures 0 <= i ==> PairsBelow(n, i) + PairsAt(i, n) == PairsBelow(n, i + 1)
  {
  }

  /** One turn of the inner loop, with all it may do with its pair. */
  lemma PairsTurn(n: nat, i: int, j: int, visited: seq<Pair>)
    requires 0 <= i < j < n
    requires visited == PairsBelow(n, i) + PairsAt(i, j)
    ensures visited + [(i, j)] == PairsBelow(n, i) + PairsAt(i, j + 1)
    ensures visited <= Pairs(n) && visited + [(i, j)] <= Pairs(n)
  {
    PairsStep(n, i, j);
    PairsPrefix(n, i, j);
    PairsPrefix(n, i, j + 1);
  }

  lemma PairsLoopEnds(n: nat)
    ensures PairsBelow(n, 0) == [] && PairsBelow(n, n - 1) == Pairs(n)
    ensures [] <= Pairs(n)
  {
  }

  // ---- for i < n - 2, for i < j < n - 1, for j < k < n  (base-triangle.cpp)

  function TrioOf(i: int, j: int): int -> seq<IndexTrio> {
    k => [(i, j, k)]
  }

  function TriosAt(i: int, j: int, k: int): seq<IndexTrio> {
    Concat(TrioOf(i, j), j + 1, k)
  }

  function TriosOf(n: int, i: int): int -> seq<IndexTrio> {
    j => TriosAt(i, j, n)
  }

  function TriosFrom(n: int, i: int, j: int): seq<IndexTrio> {
    Concat(TriosOf(n, i), i + 1, j)
  }

  function AllTriosOf(n: int): int -> seq<IndexTrio> {
    i => TriosFrom(n, i, n - 1)
  }

  function TriosBelow(n: int, i: int): seq<IndexTrio> {
    Concat(AllTriosOf(n), 0, i)
  }

  function Trios(n: nat): seq<IndexTrio> {
    TriosBelow(n, n - 2)
  }

  function FirstIndex(): IndexTrio -> int { (t: IndexTrio) => t.0 }

  function SecondIndex(): IndexTrio -> int { (t: IndexTrio) => t.1 }

  function ThirdIndex(): IndexTrio -> int { (t: IndexTrio) => t.2 }

  lemma TriosAtExact(i: int, j: int, k: int)
    ensures forall t :: t in TriosAt(i, j, k) <==> t.0 == i && t.1 == j && j < t.2 < k
    ensures NoDuplicates(TriosAt(i, j, k))
  {
    ConcatExact(TrioOf(i, j), ThirdIndex(), (t: IndexTrio) => t.0 == i && t.1 == j, j + 1, k);
  }

  lemma TriosFromExact(n: int, i: int, j: int)
    ensures forall t :: t in TriosFrom(n, i, j) <==> t.0 == i && i < t.1 < j && t.1 < t.2 < n
    ensures NoDuplicates(TriosFrom(n, i, j))
  {
    var f := TriosOf(n, i);
    forall b ensures forall t :: t in f(b) <==> t.0 == i && t.1 == b && b < t.2 < n
             ensures NoDuplicates(f(b)) {
      TriosAtExact(i, b, n);
    }
    ConcatExact(f, SecondIndex(), (t: IndexTrio) => t.0 == i && t.1 < t.2 < n, i + 1, j);
  }

  lemma TriosBelowExact(n: int, i: int)
    ensures forall t :: t in TriosBelow(n, i) <==> 0 <= t.0 < i && t.0 < t.1 < n - 1 && t.1 < t.2 < n
    ensures NoDuplicates(TriosBelow(n, i))
  {
    var f := AllTriosOf(n);
    forall a ensures forall t :: t in f(a) <==> t.0 == a && a < t.1 < n - 1 && t.1 < t.2 < n
             ensures NoDuplicates(f(a)) {
      TriosFromExact(n, a, n - 1);
    }
    ConcatExact(f, FirstIndex(), (t: IndexTrio) => t.0 < t.1 < n - 1 && t.1 < t.2 < n, 0, i);
  }

  /** The loops visit every trio `i < j < k` of `n` stars exactly once. */
  lemma TriosExact(n: nat)
    ensures forall t :: t in Trios(n) <==> 0 <= t.0 < t.1 < t.2 < n
    ensures NoDuplicates(Trios(n))
  {
    TriosBelowExact(n, n - 2);
  }

  /** What the loops have visited when they stand at (i, j, k). */
  function TriosVisited(n: int, i: int, j: int, k: int): seq<IndexTrio> {
    TriosBelow(n, i) + TriosFrom(n, i, j) + TriosAt(i, j, k)
  }

  lemma TriosPrefix(n: nat, i: int, j: int, k: int)
    requires 0 <= i < j < n - 1 && j < k <= n
    ensures TriosVisited(n, i, j, k) <= Trios(n)
  {
    hide Concat;
    TriosLoops(n, i, j);
    TriosNextFrom(n, i, j);
    var below, from := TriosBelow(n, i), TriosFrom(n, i, j);
    ConcatPrefix(TrioOf(i, j), j + 1, k, n);
    PrefixAppend(below + from, TriosAt(i, j, k), TriosAt(i, j, n));
    ConcatPrefix(TriosOf(n, i), i + 1, j + 1, n - 1);
    PrefixAppend(below, TriosFrom(n, i, j + 1), TriosFrom(n, i, n - 1));
    assert (below + from) + TriosAt(i, j, n) == below + TriosFrom(n, i, j + 1);
    ConcatPrefix(AllTriosOf(n), 0, i + 1, n - 2);
  }

  lemma TriosNextFrom(n: nat, i: int, j: int)
    requires 0 <= i < j
    ensures TriosFrom(n, i, j + 1) == TriosFrom(n, i, j) + TriosAt(i, j, n)
    ensures TriosBelow(n, i + 1) == TriosBelow(n, i) + TriosFrom(n, i, n - 1)
  {
  }

  /** One turn of the innermost loop, with all it may do with its trio. */
  lemma TriosTurn(n: nat, i: int, j: int, k: int, visited: seq<IndexTrio>)
    requires 0 <= i < j < k < n
    requires visited == TriosVisited(n, i, j, k)
    ensures visited + [(i, j, k)] == TriosVisited(n, i, j, k + 1)
    ensures visited <= Trios(n) && visited + [(i, j, k)] <= Trios(n)
  {
    TriosPrefix(n, i, j, k);
    TriosPrefix(n, i, j, k + 1);
  }

  /** A loop that ends leaves off where the next turn of the enclosing loop begins. */
  lemma TriosLoops(n: int, i: int, j: int)
    requires 0 <= i < j
    ensures TriosVisited(n, i, j, j + 1) == TriosBelow(n, i) + TriosFrom(n, i, j)
    ensures TriosVisited(n, i, j, n) == TriosBelow(n, i) + TriosFrom(n, i, j + 1)
    ensures TriosBelow(n, i) + TriosFrom(n, i, i + 1) == TriosBelow(n, i)
    ensures TriosBelow(n, i) + TriosFrom(n, i, n - 1) == TriosBelow(n, i + 1)
  {
  }

  lemma TriosLoopEnds(n: nat)
    ensures TriosBelow(n, 0) == [] && TriosBelow(n, n - 2) == Trios(n)
    ensures n <= 2 ==> Trios(n) == []
    ensures [] <= Trios(n)
  {
  }

  // ---- for dj, for dk, for di with j = i + dj and k = j + dk  (pyramid.cpp)

  /** The trio at distance `d` from the first index, with the given gaps. */
  function GapTrioOf(first: int, dj: int, dk: int): int -> seq<IndexTrio> {
    d => [(first + d, first + d + dj, first + d + dj + dk)]
  }

  function GapTriosAt(first: int, dj: int, dk: int, di: int): seq<IndexTrio> {
    Concat(GapTrioOf(first, dj, dk), 0, di)
  }

  function GapTriosOf(first: int, m: int, dj: int): int -> seq<IndexTrio> {
    dk => GapTriosAt(first, dj, dk, m - dj - dk)
  }

  /** `m` is the number of indices the loops reach. */
  function GapTriosFrom(first: int, m: int, dj: int, dk: int): seq<IndexTrio> {
    Concat(GapTriosOf(first, m, dj), 1, dk)
  }

  function AllGapTriosOf(first: int, m: int): int -> seq<IndexTrio> {
    dj => GapTriosFrom(first, m, dj, m - dj)
  }

  function GapTriosBelow(first: int, m: int, dj: int): seq<IndexTrio> {
    Concat(AllGapTriosOf(first, m), 1, dj)
  }

  /** As the program writes the bounds for `n` stars: `dj < n - 1`, `dk < n - dj - 1`, `di < n - dj - dk - 1`. */
  function PyramidTrios(n: nat): seq<IndexTrio> {
    GapTriosBelow(0, n - 1, n - 1)
  }

  /** As the paper writes them, counting stars from 1: `dj <= n - 2`, `dk <= n - 1 - dj`, `i <= n - dj - dk`. */
  function PaperTrios(n: nat): seq<IndexTrio> {
    GapTriosBelow(1, n, n - 1)
  }

  function FirstGap(): IndexTrio -> int { (t: IndexTrio) => t.1 - t.0 }

  function SecondGap(): IndexTrio -> int { (t: IndexTrio) => t.2 - t.1 }

  function DistanceFrom(first: int): IndexTrio -> int { (t: IndexTrio) => t.0 - first }

  lemma GapTriosAtExact(first: int, dj: int, dk: int, di: int)
    ensures forall t :: t in GapTriosAt(first, dj, dk, di) <==>
                        t.1 - t.0 == dj && t.2 - t.1 == dk && first <= t.0 < first + di
    ensures NoDuplicates(GapTriosAt(first, dj, dk, di))
  {
    ConcatExact(GapTrioOf(first, dj, dk), DistanceFrom(first), (t: IndexTrio) => t.1 - t.0 == dj && t.2 - t.1 == dk, 0,
                di);
  }

  lemma GapTriosFromExact(first: int, m: int, dj: int, dk: int)
    ensures forall t :: t in GapTriosFrom(first, m, dj, dk) <==>
                        t.1 - t.0 == dj && 1 <= t.2 - t.1 < dk && first <= t.0 && t.2 < first + m
    ensures NoDuplicates(GapTriosFrom(first, m, dj, dk))
  {
    var f := GapTriosOf(first, m, dj);
    forall b ensures forall t :: t in f(b) <==>
                                 t.1 - t.0 == dj && t.2 - t.1 == b && first <= t.0 < first + (m - dj - b)
             ensures NoDuplicates(f(b)) {
      GapTriosAtExact(first, dj, b, m - dj - b);
    }
    ConcatExact(f, SecondGap(), (t: IndexTrio) => t.1 - t.0 == dj && first <= t.0 && t.2 < first + m, 1, dk);
  }

  lemma GapTriosBelowExact(first: int, m: int, dj: int)
    ensures forall t :: t in GapTriosBelow(first, m, dj) <==>
                        1 <= t.1 - t.0 < dj && t.1 < t.2 && first <= t.0 && t.2 < first + m
    ensures NoDuplicates(GapTriosBelow(first, m, dj))
  {
    var f := AllGapTriosOf(first, m);
    forall b ensures forall t :: t in f(b) <==>
                                 t.1 - t.0 == b && 1 <= t.2 - t.1 < m - b && first <= t.0 && t.2 < first + m
             ensures NoDuplicates(f(b)) {
      GapTriosFromExact(first, m, b, m - b);
    }
    ConcatExact(f, FirstGap(), (t: IndexTrio) => t.1 < t.2 && first <= t.0 && t.2 < first + m, 1, dj);
  }

  /** What the loops have visited when they stand at (dj, dk, di). */
  function GapTriosVisited(first: int, m: int, dj: int, dk: int, di: int): seq<IndexTrio> {
    GapTriosBelow(first, m, dj) + GapTriosFrom(first, m, dj, dk) + GapTriosAt(first, dj, dk, di)
  }

  lemma GapTriosPrefix(first: int, m: int, dj: int, dk: int, di: int)
    requires 1 <= dj < m && 1 <= dk < m - dj && 0 <= di <= m - dj - dk
    ensures GapTriosVisited(first, m, dj, dk, di) <= GapTriosBelow(first, m, m)
  {
    ConcatPrefix(GapTrioOf(first, dj, dk), 0, di, m - dj - dk);
    ConcatPrefix(GapTriosOf(first, m, dj), 1, dk + 1, m - dj);
    ConcatPrefix(AllGapTriosOf(first, m), 1, dj + 1, m);
    assert GapTriosFrom(first, m, dj, dk + 1) == GapTriosFrom(first, m, dj, dk)
        + GapTriosAt(first, dj, dk, m - dj - dk);
    assert GapTriosBelow(first, m, dj + 1) == GapTriosBelow(first, m, dj) + GapTriosFrom(first, m, dj, m - dj);
  }

  /** Each turn of the inner loop visits one more trio, and a loop that ends leaves off where the next turn begins. */
  lemma GapTriosStep(first: int, m: int, dj: int, dk: int, di: int)
    requires 1 <= dj < m && 1 <= dk < m - dj && 0 <= di
    ensures GapTriosVisited(first, m, dj, dk, di + 1)
         == GapTriosVisited(first, m, dj, dk, di) + [(first + di, first + di + dj, first + di + dj + dk)]
    ensures GapTriosVisited(first, m, dj, dk, 0) == GapTriosBelow(first, m, dj) + GapTriosFrom(first, m, dj, dk)
    ensures GapTriosVisited(first, m, dj, dk, m - dj - dk)
              == GapTriosBelow(first, m, dj) + GapTriosFrom(first, m, dj, dk + 1)
  {
  }

  /** One turn of the innermost loop of the program, with all it may do with its trio. */
  lemma PyramidTurn(n: nat, dj: int, dk: int, di: int, visited: seq<IndexTrio>)
    requires 1 <= dj < n - 1 && 1 <= dk < n - dj - 1 && 0 <= di < n - dj - dk - 1
    requires visited == GapTriosVisited(0, n - 1, dj, dk, di)
    ensures visited + [(di, di + dj, di + dj + dk)] == GapTriosVisited(0, n - 1, dj, dk, di + 1)
    ensures visited <= PyramidTrios(n)
    ensures visited + [(di, di + dj, di + dj + dk)] <= PyramidTrios(n)
  {
    GapTriosStep(0, n - 1, dj, dk, di);
    GapTriosPrefix(0, n - 1, dj, dk, di);
    GapTriosPrefix(0, n - 1, dj, dk, di + 1);
  }

  lemma PyramidLoopEnds(n: nat)
    ensures GapTriosBelow(0, n - 1, 1) == []
    ensures GapTriosBelow(0, n - 1, n - 1) == PyramidTrios(n)
    ensures n <= 2 ==> PyramidTrios(n) == []
    ensures [] <= PyramidTrios(n)
  {
  }

  lemma GapTriosOuterStep(first: int, m: int, dj: int)
    requires 1 <= dj < m
    ensures GapTriosBelow(first, m, dj) + GapTriosFrom(first, m, dj, 1) == GapTriosBelow(first, m, dj)
    ensures GapTriosBelow(first, m, dj) + GapTriosFrom(first, m, dj, m - dj) == GapTriosBelow(first, m, dj + 1)
  {
  }

  // ---- How many trios there are

  /** Twice "x choose 2" and six times "x choose 3". */
  function TwiceChoose2(x: int): int {
    x * (x - 1)
  }

  function SixTimesChoose3(x: int): int {
    x * (x - 1) * (x - 2)
  }

  lemma ChooseSteps(x: int)
    ensures TwiceChoose2(x + 1) == TwiceChoose2(x) + 2 * x
    ensures SixTimesChoose3(x + 1) == SixTimesChoose3(x) + 3 * TwiceChoose2(x)
  {
  }

  lemma {:induction false} GapTriosAtCount(first: int, dj: int, dk: int, di: nat)
    ensures |GapTriosAt(first, dj, dk, di)| == di
  {
    if di > 0 {
      GapTriosAtCount(first, dj, dk, di - 1);
    }
  }

  lemma {:induction false} GapTriosFromCount(first: int, m: int, dj: int, dk: int)
    requires 1 <= dk && (dk == 1 || dj + dk <= m)
    ensures 2 * |GapTriosFrom(first, m, dj, dk)| == TwiceChoose2(m - dj) - TwiceChoose2(m - dj - dk + 1)
    decreases dk
  {
    if dk > 1 {
      GapTriosFromCount(first, m, dj, dk - 1);
      GapTriosAtCount(first, dj, dk - 1, m - dj - (dk - 1));
      ChooseSteps(m - dj - dk + 1);
    }
  }

  lemma {:induction false} GapTriosBelowCount(first: int, m: int, dj: int)
    requires 1 <= dj && (dj == 1 || dj <= m)
    ensures 6 * |GapTriosBelow(first, m, dj)| == SixTimesChoose3(m) - SixTimesChoose3(m - dj + 1)
    decreases dj
  {
    if dj > 1 {
      GapTriosBelowCount(first, m, dj - 1);
      GapTriosFromCount(first, m, dj - 1, m - (dj - 1));
      ChooseSteps(m - dj + 1);
    }
  }

  /** As written, the loops visit every trio of the first `n - 1` stars exactly once and in bounds:
      "n - 1 choose 3" trios, none with star `n - 1`. */
  lemma PyramidTriosExact(n: nat)
    ensures forall t :: t in PyramidTrios(n) <==> 0 <= t.0 < t.1 < t.2 < n - 1
    ensures NoDuplicates(PyramidTrios(n))
    ensures n >= 1 ==> 6 * |PyramidTrios(n)| == SixTimesChoose3(n - 1)
  {
    GapTriosBelowExact(0, n - 1, n - 1);
    if n >= 2 {
      GapTriosBelowCount(0, n - 1, n - 1);
    }
  }

  /** With the paper's bounds they visit all "n choose 3" trios exactly once. */
  lemma PaperTriosExact(n: nat)
    ensures forall t :: t in PaperTrios(n) <==> 1 <= t.0 < t.1 < t.2 <= n
    ensures NoDuplicates(PaperTrios(n))
    ensures 6 * |PaperTrios(n)| == SixTimesChoose3(n)
  {
    GapTriosBelowExact(1, n, n - 1);
    if n >= 2 {
      GapTriosBelowCount(1, n, n - 1);
    }
  }

  // ---- When an outer loop ends

  const UNSIGNED_VALUES := 0x1_0000_0000
  const SIZE_VALUES := 0x1_0000_0000_0000_0000

  /** A 32-bit counter that starts from 0, after some turns. */
  function Counter(turns: nat): nat {
    turns % UNSIGNED_VALUES
  }

  /** A loop that runs while its counter is below the bound comes to an end. */
  ghost predicate LoopEnds(bound: nat) {
    exists turns :: Counter(turns) >= bound
  }

  /** The outer loops compare a 32-bit counter with the size of a list less `back`, a 64-bit number
      that wraps around below zero. They end if and only if the list has at least `back` elements and
      the counter can reach the bound: an empty image is never done with. */
  lemma OuterLoopEndsIff(n: nat, back: nat)
    requires n < SIZE_VALUES && back <= 2
    ensures LoopEnds((n - back) % SIZE_VALUES) <==> back <= n < UNSIGNED_VALUES + back
  {
    if n < back {
      assert (n - back) % SIZE_VALUES == n - back + SIZE_VALUES;
    } else if n - back < UNSIGNED_VALUES {
      assert Counter(n - back) == n - back;
    }
  }
}
