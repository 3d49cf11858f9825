/** Sequences as the standard algorithms treat them: filtered, mapped and rearranged. */
module Sequences {

  datatype Option<+T> = None | Some(value: T)

  /** A value, or the exception the source throws instead. */
  datatype Result<+T> = Success(value: T) | Failure(error: string)

  ghost predicate NoDuplicates<T(!new)>(s: seq<T>) {
    forall p, q :: 0 <= p < q < |s| ==> s[p] != s[q]
  }

  lemma NoDuplicatesAppend<T(!new)>(a: seq<T>, b: seq<T>)
    requires NoDuplicates(a) && NoDuplicates(b)
    requires forall x :: x in a ==> x !in b
    ensures NoDuplicates(a + b)
  {
    forall p, q | 0 <= p < q < |a + b| ensures (a + b)[p] != (a + b)[q] {
      if p < |a| <= q {
        assert a[p] in a && b[q - |a|] in b;
      }
    }
  }

  // ---- Adding up

  ghost function Total<T>(cost: T -> nat, s: seq<T>): nat {
    if s == [] then 0 else Total(cost, s[..|s| - 1]) + cost(s[|s| - 1])
  }

  lemma TotalOneMore<T>(cost: T -> nat, s: seq<T>, x: T)
    ensures Total(cost, s + [x]) == Total(cost, s) + cost(x)
  {
    assert (s + [x])[..|s|] == s;
  }

  lemma {:induction false} TotalFromFirst<T>(cost: T -> nat, s: seq<T>)
    requires s != []
    ensures Total(cost, s) == cost(s[0]) + Total(cost, s[1..])
  {
    if |s| > 1 {
      TotalFromFirst(cost, s[..|s| - 1]);
      assert s[1..][..|s| - 2] == s[..|s| - 1][1..];
    }
  }

  // ---- Filtering: std::remove_if followed by erase, or a loop that keeps what it wants

  function Filter<T>(keep: T -> bool, s: seq<T>): seq<T> {
    if s == [] then []
    else
      var front := Filter(keep, s[..|s| - 1]);
      if keep(s[|s| - 1]) then front + [s[|s| - 1]] else front
  }

  /** A filter keeps every copy of what it keeps, and nothing else. */
  lemma {:induction false} FilterCounts<T>(keep: T -> bool, s: seq<T>, x: T)
    ensures multiset(Filter(keep, s))[x] == if keep(x) then multiset(s)[x] else 0
    ensures x in Filter(keep, s) <==> x in s && keep(x)
  {
    if s != [] {
      assert s == s[..|s| - 1] + [s[|s| - 1]];
      FilterCounts(keep, s[..|s| - 1], x);
    }
  }

  lemma FilterOfNone<T>(keep: T -> bool)
    ensures Filter(keep, []) == []
  {
  }

  lemma FilterPrefix<T>(keep: T -> bool, s: seq<T>, n: nat)
    requires n < |s|
    ensures Filter(keep, s[..n + 1]) == if keep(s[n]) then Filter(keep, s[..n]) + [s[n]] else Filter(keep, s[..n])
  {
    assert s[..n + 1][..n] == s[..n];
  }

  lemma FilterOneMore<T>(keep: T -> bool, s: seq<T>, x: T)
    ensures Filter(keep, s + [x]) == if keep(x) then Filter(keep, s) + [x] else Filter(keep, s)
  {
    assert (s + [x])[..|s|] == s;
  }

  lemma FilterAll<T>(keep: T -> bool, s: seq<T>)
    ensures forall x :: x in Filter(keep, s) <==> x in s && keep(x)
  {
    forall x ensures x in Filter(keep, s) <==> x in s && keep(x) {
      FilterCounts(keep, s, x);
    }
  }

  lemma {:induction false} FilterKeepsAll<T>(keep: T -> bool, s: seq<T>)
    requires forall x :: x in s ==> keep(x)
    ensures Filter(keep, s) == s
  {
    if s != [] {
      FilterKeepsAll(keep, s[..|s| - 1]);
      assert s == s[..|s| - 1] + [s[|s| - 1]];
    }
  }

  lemma {:induction false} FilterShrinks<T>(keep: T -> bool, s: seq<T>)
    ensures |Filter(keep, s)| <= |s|
  {
    if s != [] {
      FilterShrinks(keep, s[..|s| - 1]);
    }
  }

  /** A filter that does not shorten a list leaves it as it is. */
  lemma {:induction false} FilterOfSameSize<T>(keep: T -> bool, s: seq<T>)
    requires |Filter(keep, s)| == |s|
    ensures Filter(keep, s) == s
  {
    if s != [] {
      FilterShrinks(keep, s[..|s| - 1]);
      FilterOfSameSize(keep, s[..|s| - 1]);
      assert s == s[..|s| - 1] + [s[|s| - 1]];
    }
  }

  // ---- Mapping

  function Map<T, U>(f: T -> U, s: seq<T>): seq<U> {
    seq(|s|, k requires 0 <= k < |s| => f(s[k]))
  }

  lemma MapAppend<T, U>(f: T -> U, a: seq<T>, b: seq<T>)
    ensures Map(f, a + b) == Map(f, a) + Map(f, b)
    ensures multiset(Map(f, a + b)) == multiset(Map(f, a)) + multiset(Map(f, b))
  {
    assert Map(f, a + b) == Map(f, a) + Map(f, b);
  }

  // ---- What a loop visits

  /** The lists `f(lo)`, .., `f(hi - 1)` one after the other. */
  function Concat<T>(f: int -> seq<T>, lo: int, hi: int): seq<T>
    decreases hi - lo
  {
    if hi <= lo then [] else Concat(f, lo, hi - 1) + f(hi - 1)
  }

  lemma PrefixAppend<T>(a: seq<T>, b: seq<T>, c: seq<T>)
    requires b <= c
    ensures a + b <= a + c
  {
  }

  lemma {:induction false} ConcatPrefix<T>(f: int -> seq<T>, lo: int, mid: int, hi: int)
    requires mid <= hi
    ensures Concat(f, lo, mid) <= Concat(f, lo, hi)
    decreases hi - mid
  {
    if mid < hi {
      ConcatPrefix(f, lo, mid, hi - 1);
    }
  }

  /** Whatever is in `f(a)` tells which `a` it came from. */
  ghost predicate TellsApart<T(!new)>(key: T -> int, f: int -> seq<T>) {
    forall a, x :: x in f(a) ==> key(x) == a
  }

  lemma {:induction false} ConcatMembers<T(!new)>(f: int -> seq<T>, key: T -> int, lo: int, hi: int)
    requires TellsApart(key, f)
    ensures forall x :: x in Concat(f, lo, hi) <==> lo <= key(x) < hi && x in f(key(x))
    decreases hi - lo
  {
    if hi > lo {
      ConcatMembers(f, key, lo, hi - 1);
    }
  }

  lemma {:induction false} ConcatDistinct<T(!new)>(f: int -> seq<T>, key: T -> int, lo: int, hi: int)
    requires TellsApart(key, f)
    requires forall a :: lo <= a < hi ==> NoDuplicates(f(a))
    ensures NoDuplicates(Concat(f, lo, hi))
    decreases hi - lo
  {
    if hi > lo {
      ConcatDistinct(f, key, lo, hi - 1);
      ConcatMembers(f, key, lo, hi - 1);
      NoDuplicatesAppend(Concat(f, lo, hi - 1), f(hi - 1));
    }
  }

  /** If each list holds exactly the members with its own key, the lists one after the other hold
      exactly the members with a key in range, none twice. */
  lemma ConcatExact<T(!new)>(f: int -> seq<T>, key: T -> int, member: T -> bool, lo: int, hi: int)
    requires forall a, x :: x in f(a) <==> key(x) == a && member(x)
    requires forall a :: NoDuplicates(f(a))
    ensures forall x :: x in Concat(f, lo, hi) <==> lo <= key(x) < hi && member(x)
    ensures NoDuplicates(Concat(f, lo, hi))
  {
    ConcatMembers(f, key, lo, hi);
    ConcatDistinct(f, key, lo, hi);
  }

  // ---- Permutations

  ghost predicate IsPermutation<T>(s: seq<T>, t: seq<T>) {
    multiset(s) == multiset(t)
  }

  lemma PermutationMembers<T>(s: seq<T>, t: seq<T>)
    requires IsPermutation(s, t)
    ensures |s| == |t|
    ensures forall x :: x in s <==> x in t
  {
    assert |s| == |multiset(s)| && |t| == |multiset(t)|;
    forall x ensures x in s <==> x in t {
      assert x in s <==> x in multiset(s);
      assert x in t <==> x in multiset(t);
    }
  }

  lemma FilterPermutes<T(!new)>(keep: T -> bool, s: seq<T>, t: seq<T>)
    requires IsPermutation(s, t)
    ensures IsPermutation(Filter(keep, s), Filter(keep, t))
  {
    forall x ensures multiset(Filter(keep, s))[x] == multiset(Filter(keep, t))[x] {
      FilterCounts(keep, s, x);
      FilterCounts(keep, t, x);
    }
  }

  /** Taking one element out of a sequence takes one copy of it away. */
  lemma RemoveOne<T>(t: seq<T>, k: nat)
    requires k < |t|
    ensures multiset(t[..k] + t[k + 1..]) == multiset(t) - multiset{t[k]}
  {
    assert t == t[..k] + [t[k]] + t[k + 1..];
  }

  lemma RemoveFirst<T>(t: seq<T>)
    requires t != []
    ensures multiset(t[1..]) == multiset(t) - multiset{t[0]}
  {
    assert t == [t[0]] + t[1..];
  }

  lemma MapRemoveOne<T, U>(f: T -> U, t: seq<T>, k: nat)
    requires k < |t|
    ensures multiset(Map(f, t)) == multiset(Map(f, t[..k] + t[k + 1..])) + multiset{f(t[k])}
  {
    var u := Map(f, t);
    assert Map(f, t[..k] + t[k + 1..]) == u[..k] + u[k + 1..];
    assert u == u[..k] + [u[k]] + u[k + 1..];
  }

  /** A permutation of the arguments permutes the values. */
  lemma {:induction false} MapPermutes<T, U>(f: T -> U, s: seq<T>, t: seq<T>)
    requires IsPermutation(s, t)
    ensures IsPermutation(Map(f, s), Map(f, t))
    decreases |s|
  {
    PermutationMembers(s, t);
    if s != [] {
      var last := |s| - 1;
      assert s[last] in t;
      var k :| 0 <= k < |t| && t[k] == s[last];
      RemoveOne(t, k);
      RemoveOne(s, last);
      assert s[..last] + s[last + 1..] == s[..last];
      MapPermutes(f, s[..last], t[..k] + t[k + 1..]);
      MapRemoveOne(f, t, k);
      MapRemoveOne(f, s, last);
    }
  }

  // ---- Multiplicities

  lemma {:induction false} NoDuplicatesCount<T(!new)>(s: seq<T>, x: T)
    requires NoDuplicates(s)
    ensures multiset(s)[x] == if x in s then 1 else 0
  {
    if s != [] {
      var last := |s| - 1;
      assert s == s[..last] + [s[last]];
      NoDuplicatesCount(s[..last], x);
    }
  }

  lemma {:induction false} FilterDistinct<T(!new)>(keep: T -> bool, s: seq<T>)
    requires NoDuplicates(s)
    ensures NoDuplicates(Filter(keep, s))
  {
    if s != [] {
      var last := |s| - 1;
      FilterDistinct(keep, s[..last]);
      FilterCounts(keep, s[..last], s[last]);
    }
  }

  /** A value that only one element maps to occurs as often as that element. */
  lemma {:induction false} MapCounts<T, U>(f: T -> U, s: seq<T>, x: T)
    requires forall y :: y in s && f(y) == f(x) ==> y == x
    ensures multiset(Map(f, s))[f(x)] == multiset(s)[x]
  {
    if s != [] {
      var last := |s| - 1;
      MapCounts(f, s[..last], x);
      assert s == s[..last] + [s[last]];
      assert Map(f, s) == Map(f, s[..last]) + [f(s[last])];
    }
  }

  lemma MapMembers<T, U>(f: T -> U, s: seq<T>, u: U)
    ensures u in Map(f, s) <==> exists x :: x in s && f(x) == u
  {
    if u in Map(f, s) {
      var k :| 0 <= k < |s| && Map(f, s)[k] == u;
      assert s[k] in s && f(s[k]) == u;
    }
    if x :| x in s && f(x) == u {
      var k :| 0 <= k < |s| && s[k] == x;
      assert Map(f, s)[k] == u;
    }
  }

  lemma {:induction false} DistinctByCount<T(!new)>(s: seq<T>)
    requires forall x :: x in s ==> multiset(s)[x] == 1
    ensures NoDuplicates(s)
  {
    if s != [] {
      var front, last := s[..|s| - 1], s[|s| - 1];
      assert s == front + [last];
      forall x | x in front ensures multiset(front)[x] == 1 {
        assert multiset(s)[x] == multiset(front)[x] + multiset([last])[x];
        assert x in multiset(front);
      }
      DistinctByCount(front);
      assert multiset(s)[last] == multiset(front)[last] + 1;
      assert last !in multiset(front);
      NoDuplicatesAppend(front, [last]);
    }
  }

  lemma PermutationDistinct<T(!new)>(s: seq<T>, t: seq<T>)
    requires IsPermutation(s, t) && NoDuplicates(t)
    ensures NoDuplicates(s)
  {
    PermutationMembers(s, t);
    forall x | x in s ensures multiset(s)[x] == 1 {
      NoDuplicatesCount(t, x);
    }
    DistinctByCount(s);
  }
}
