/** Shuffling (std::shuffle): what it does to one list, and to lists that belong together. */
module Shuffling {
  import opened Sequences

  function Indices(n: nat): seq<nat> {
    seq(n, k => k)
  }

  /** The order a list is brought into depends on the state of the engine and the length of the
      list, and on nothing else. */
  datatype Shuffler = Shuffler(Order: (int, nat) -> seq<nat>) {
    ghost predicate Sound() {
      forall engine, n {:trigger Order(engine, n)} :: IsPermutation(Order(engine, n), Indices(n))
    }
  }

  function Rearranged<T>(s: seq<T>, order: seq<nat>): seq<T>
    requires forall k :: 0 <= k < |order| ==> order[k] < |s|
  {
    seq(|order|, k requires 0 <= k < |order| => s[order[k]])
  }

  lemma OrderInRange(order: seq<nat>, n: nat)
    requires IsPermutation(order, Indices(n))
    ensures |order| == n && forall k :: 0 <= k < |order| ==> order[k] < n
  {
    PermutationMembers(order, Indices(n));
    forall k | 0 <= k < |order| ensures order[k] < n {
      assert order[k] in Indices(n);
    }
  }

  function Shuffled<T>(shuffler: Shuffler, engine: int, s: seq<T>): seq<T>
    requires shuffler.Sound()
  {
    OrderInRange(shuffler.Order(engine, |s|), |s|);
    Rearranged(s, shuffler.Order(engine, |s|))
  }

  lemma RearrangedPermutes<T>(s: seq<T>, order: seq<nat>)
    requires IsPermutation(order, Indices(|s|))
    requires forall k :: 0 <= k < |order| ==> order[k] < |s|
    ensures IsPermutation(Rearranged(s, order), s)
  {
    if s == [] {
      OrderInRange(order, 0);
    } else {
      var at := (k: nat) => if k < |s| then s[k] else s[0];
      MapPermutes(at, order, Indices(|s|));
      assert Map(at, Indices(|s|)) == s;
      assert Map(at, order) == Rearranged(s, order);
    }
  }

  lemma ShuffledPermutes<T>(shuffler: Shuffler, engine: int, s: seq<T>)
    requires shuffler.Sound()
    ensures IsPermutation(Shuffled(shuffler, engine, s), s)
    ensures |Shuffled(shuffler, engine, s)| == |s|
  {
    OrderInRange(shuffler.Order(engine, |s|), |s|);
    RearrangedPermutes(s, shuffler.Order(engine, |s|));
  }

  // ---- Lists side by side

  function Zip<T, U>(b: seq<T>, a: seq<U>): seq<(T, U)>
    requires |b| == |a|
  {
    seq(|b|, k requires 0 <= k < |b| => (b[k], a[k]))
  }

  /** Lists of the same length shuffled by the same engine stay side by side. */
  lemma ShuffledTogether<T, U>(shuffler: Shuffler, engine: int, b: seq<T>, a: seq<U>)
    requires shuffler.Sound() && |b| == |a|
    ensures |Shuffled(shuffler, engine, b)| == |Shuffled(shuffler, engine, a)| == |b|
    ensures Zip(Shuffled(shuffler, engine, b), Shuffled(shuffler, engine, a)) == Shuffled(shuffler, engine, Zip(b, a))
    ensures IsPermutation(Zip(Shuffled(shuffler, engine, b), Shuffled(shuffler, engine, a)), Zip(b, a))
  {
    OrderInRange(shuffler.Order(engine, |b|), |b|);
    ShuffledPermutes(shuffler, engine, Zip(b, a));
    assert Zip(Shuffled(shuffler, engine, b), Shuffled(shuffler, engine, a)) == Shuffled(shuffler, engine, Zip(b, a));
  }

  /** Wherever both lists have an element, the two belong together. */
  ghost predicate SideBySide<T, U>(belong: (T, U) -> bool, b: seq<T>, a: seq<U>) {
    forall k :: 0 <= k < |b| && k < |a| ==> belong(b[k], a[k])
  }

  /** Whatever the shuffle and the state of the engine, shuffling both lists leaves them side by side. */
  ghost predicate StaySideBySide<T, U>(belong: (T, U) -> bool, b: seq<T>, a: seq<U>) {
    forall shuffler: Shuffler, engine: int {:trigger Shuffled(shuffler, engine, b)} ::
      shuffler.Sound() ==> SideBySide(belong, Shuffled(shuffler, engine, b), Shuffled(shuffler, engine, a))
  }

  lemma SameLengthStays<T, U>(belong: (T, U) -> bool, b: seq<T>, a: seq<U>)
    requires |b| == |a| && SideBySide(belong, b, a)
    ensures StaySideBySide(belong, b, a)
  {
    forall shuffler: Shuffler, engine: int | shuffler.Sound()
      ensures SideBySide(belong, Shuffled(shuffler, engine, b), Shuffled(shuffler, engine, a)) {
      OrderInRange(shuffler.Order(engine, |b|), |b|);
    }
  }

  lemma EmptyStays<T, U>(belong: (T, U) -> bool, b: seq<T>, a: seq<U>)
    requires b == [] || a == []
    ensures StaySideBySide(belong, b, a)
  {
    forall shuffler: Shuffler, engine: int | shuffler.Sound()
      ensures SideBySide(belong, Shuffled(shuffler, engine, b), Shuffled(shuffler, engine, a)) {
      ShuffledPermutes(shuffler, engine, b);
      ShuffledPermutes(shuffler, engine, a);
    }
  }

  /** The indices below `n` with the first two exchanged. */
  function FirstTwoSwapped(n: nat): seq<nat>
    requires n >= 2
  {
    [1, 0] + Indices(n)[2..]
  }

  /** Leaves every list alone but those of length `n`, whose first two elements it exchanges. */
  function SwapAt(n: nat): Shuffler
    requires n >= 2
  {
    Shuffler((engine, m) => if m == n then FirstTwoSwapped(n) else Indices(m))
  }

  lemma SwapAtIsSound(n: nat)
    requires n >= 2
    ensures SwapAt(n).Sound()
  {
    assert Indices(n) == [0, 1] + Indices(n)[2..];
    assert IsPermutation(FirstTwoSwapped(n), Indices(n));
  }

  lemma SwapAtFirst<T>(n: nat, engine: int, s: seq<T>)
    requires n >= 2 && s != []
    ensures SwapAt(n).Sound()
    ensures |Shuffled(SwapAt(n), engine, s)| == |s|
    ensures Shuffled(SwapAt(n), engine, s)[0] == if |s| == n then s[1] else s[0]
  {
    SwapAtIsSound(n);
    OrderInRange(SwapAt(n).Order(engine, |s|), |s|);
  }

  /** Lists of different lengths drift apart, if the first two elements of the longer list do not
      both belong to the first one of the shorter. */
  lemma DifferentLengthsDrift<T, U>(belong: (T, U) -> bool, b: seq<T>, a: seq<U>)
    requires b != [] && a != [] && |b| != |a|
    requires |b| > |a| ==> !(belong(b[0], a[0]) && belong(b[1], a[0]))
    requires |b| < |a| ==> !(belong(b[0], a[0]) && belong(b[0], a[1]))
    ensures !StaySideBySide(belong, b, a)
  {
    var longer := if |b| > |a| then |b| else |a|;
    var absent := longer + 1;
    SwapAtFirst(longer, 0, b);
    SwapAtFirst(longer, 0, a);
    SwapAtFirst(absent, 0, b);
    SwapAtFirst(absent, 0, a);
    var b0, a0 := Shuffled(SwapAt(absent), 0, b), Shuffled(SwapAt(absent), 0, a);
    var b1, a1 := Shuffled(SwapAt(longer), 0, b), Shuffled(SwapAt(longer), 0, a);
    assert !belong(b0[0], a0[0]) || !belong(b1[0], a1[0]);
    assert !SideBySide(belong, b0, a0) || !SideBySide(belong, b1, a1);
  }

  /** The elements that start out side by side. */
  ghost function Partners<T(!new), U(!new)>(b: seq<T>, a: seq<U>): (T, U) -> bool {
    (x: T, y: U) => exists i :: 0 <= i < |b| && i < |a| && b[i] == x && a[i] == y
  }

  /** Two lists without repetitions stay side by side under every shuffle if and only if they have
      the same length, or one of them is empty. */
  lemma StaySideBySideIff<T(!new), U(!new)>(b: seq<T>, a: seq<U>)
    requires NoDuplicates(b) && NoDuplicates(a)
    ensures StaySideBySide(Partners(b, a), b, a) <==> |b| == |a| || b == [] || a == []
  {
    var partners := Partners(b, a);
    if |b| == |a| {
      SameLengthStays(partners, b, a);
    } else if b == [] || a == [] {
      EmptyStays(partners, b, a);
    } else {
      DifferentLengthsDrift(partners, b, a);
    }
  }
}
