/** The stars that lists of label pairs have in common (pyramid.cpp, both `common` functions). */
module CommonStars {
  import opened Sequences

  ghost predicate Ascending(s: seq<int>) {
    forall p, q :: 0 <= p < q < |s| ==> s[p] <= s[q]
  }

  lemma AscendingCons(x: int, s: seq<int>)
    requires Ascending(s) && forall y :: y in s ==> x <= y
    ensures Ascending([x] + s)
  {
    forall p, q | 0 <= p < q < |[x] + s| ensures ([x] + s)[p] <= ([x] + s)[q] {
      assert ([x] + s)[q] == s[q - 1] && s[q - 1] in s;
      if p > 0 {
        assert ([x] + s)[p] == s[p - 1];
      }
    }
  }

  lemma AscendingSnoc(s: seq<int>, x: int)
    requires Ascending(s) && forall y :: y in s ==> y <= x
    ensures Ascending(s + [x])
  {
    forall p, q | 0 <= p < q < |s + [x]| ensures (s + [x])[p] <= (s + [x])[q] {
      assert (s + [x])[p] == s[p] && s[p] in s;
    }
  }

  /** What the head and the tail of an ascending list hold. */
  lemma AscendingTail(s: seq<int>)
    requires Ascending(s) && s != []
    ensures Ascending(s[1..])
    ensures forall x :: x in s ==> s[0] <= x
    ensures forall x :: x < s[0] ==> multiset(s)[x] == 0
    ensures forall x :: multiset(s)[x] == multiset(s[1..])[x] + if x == s[0] then 1 else 0
  {
    assert s == [s[0]] + s[1..];
    forall x | x < s[0] ensures multiset(s)[x] == 0 {
      assert x in s <==> x in multiset(s);
    }
  }

  lemma SameHead(s: seq<int>, t: seq<int>)
    requires Ascending(s) && Ascending(t) && IsPermutation(s, t) && s != [] && t != []
    ensures s[0] == t[0]
  {
    PermutationMembers(s, t);
    assert s[0] in t && t[0] in s;
    AscendingTail(s);
    AscendingTail(t);
  }

  lemma SameTail(s: seq<int>, t: seq<int>)
    requires IsPermutation(s, t) && s != [] && t != [] && s[0] == t[0]
    ensures IsPermutation(s[1..], t[1..])
  {
    RemoveFirst(s);
    RemoveFirst(t);
  }

  /** Counts and order leave no freedom: only one ascending list has given counts. */
  lemma {:induction false} AscendingIsUnique(s: seq<int>, t: seq<int>)
    requires Ascending(s) && Ascending(t) && IsPermutation(s, t)
    ensures s == t
    decreases |s|
  {
    PermutationMembers(s, t);
    if s == [] {
      assert t == [];
    } else {
      SameHead(s, t);
      SameTail(s, t);
      AscendingIsUnique(s[1..], t[1..]);
      assert s == [s[0]] + s[1..] && t == [t[0]] + t[1..];
    }
  }

  // ---- std::sort

  function InsertInt(x: int, s: seq<int>): seq<int> {
    if s == [] then [x]
    else if x <= s[0] then [x] + s
    else [s[0]] + InsertInt(x, s[1..])
  }

  function SortInts(s: seq<int>): seq<int> {
    if s == [] then [] else InsertInt(s[0], SortInts(s[1..]))
  }

  lemma {:induction false} InsertIntCounts(x: int, s: seq<int>)
    ensures multiset(InsertInt(x, s)) == multiset(s) + multiset{x}
  {
    if s != [] {
      assert s == [s[0]] + s[1..];
      InsertIntCounts(x, s[1..]);
    }
  }

  lemma {:induction false} InsertIntAscending(x: int, s: seq<int>)
    requires Ascending(s)
    ensures Ascending(InsertInt(x, s))
  {
    if s != [] {
      AscendingTail(s);
      if x <= s[0] {
        AscendingCons(x, s);
      } else {
        InsertIntAscending(x, s[1..]);
        InsertIntCounts(x, s[1..]);
        forall y | y in InsertInt(x, s[1..]) ensures s[0] <= y {
          assert y in multiset(InsertInt(x, s[1..]));
          assert y != x ==> y in s[1..];
        }
        AscendingCons(s[0], InsertInt(x, s[1..]));
      }
    }
  }

  lemma {:induction false} SortIntsExact(s: seq<int>)
    ensures IsPermutation(SortInts(s), s) && Ascending(SortInts(s))
  {
    if s != [] {
      assert s == [s[0]] + s[1..];
      SortIntsExact(s[1..]);
      InsertIntCounts(s[0], SortInts(s[1..]));
      InsertIntAscending(s[0], SortInts(s[1..]));
    }
  }

  // ---- std::set_intersection

  /** Merges two ascending lists and keeps what both have. */
  function SetIntersection(a: seq<int>, b: seq<int>): seq<int>
    decreases |a| + |b|
  {
    if a == [] || b == [] then []
    else if a[0] < b[0] then SetIntersection(a[1..], b)
    else if b[0] < a[0] then SetIntersection(a, b[1..])
    else [a[0]] + SetIntersection(a[1..], b[1..])
  }

  function Min(x: nat, y: nat): nat { if x <= y then x else y }

  /** The merge keeps each label as often as the list that has it least often. */
  lemma {:induction false} SetIntersectionCounts(a: seq<int>, b: seq<int>, x: int)
    requires Ascending(a) && Ascending(b)
    ensures multiset(SetIntersection(a, b))[x] == Min(multiset(a)[x], multiset(b)[x])
    decreases |a| + |b|
  {
    if a != [] && b != [] {
      AscendingTail(a);
      AscendingTail(b);
      if a[0] < b[0] {
        SetIntersectionCounts(a[1..], b, x);
      } else if b[0] < a[0] {
        SetIntersectionCounts(a, b[1..], x);
      } else {
        SetIntersectionCounts(a[1..], b[1..], x);
      }
    }
  }

  lemma SetIntersectionMembers(a: seq<int>, b: seq<int>, x: int)
    requires Ascending(a) && Ascending(b) && x in SetIntersection(a, b)
    ensures x in a && x in b
  {
    SetIntersectionCounts(a, b, x);
    assert x in multiset(SetIntersection(a, b));
    assert x in multiset(a) && x in multiset(b);
  }

  lemma {:induction false} SetIntersectionAscending(a: seq<int>, b: seq<int>)
    requires Ascending(a) && Ascending(b)
    ensures Ascending(SetIntersection(a, b))
    decreases |a| + |b|
  {
    if a != [] && b != [] {
      AscendingTail(a);
      AscendingTail(b);
      if a[0] < b[0] {
        SetIntersectionAscending(a[1..], b);
      } else if b[0] < a[0] {
        SetIntersectionAscending(a, b[1..]);
      } else {
        SetIntersectionAscending(a[1..], b[1..]);
        forall x | x in SetIntersection(a[1..], b[1..]) ensures a[0] <= x {
          SetIntersectionMembers(a[1..], b[1..], x);
        }
        AscendingCons(a[0], SetIntersection(a[1..], b[1..]));
      }
    }
  }

  // ---- Flattening

  ghost predicate AtLeastPairs(ell: seq<seq<int>>) {
    forall k :: 0 <= k < |ell| ==> |ell[k]| >= 2
  }

  /** The first two labels of every candidate. */
  function Flattened(ell: seq<seq<int>>): seq<int>
    requires AtLeastPairs(ell)
  {
    if ell == [] then []
    else Flattened(ell[..|ell| - 1]) + [ell[|ell| - 1][0], ell[|ell| - 1][1]]
  }

  method FlattenPairs(ell: seq<seq<int>>) returns (out: seq<int>)
    requires AtLeastPairs(ell)
    ensures out == SortInts(Flattened(ell))
  {
    out := [];
    for k := 0 to |ell|
      invariant out == Flattened(ell[..k])
    {
      assert ell[..k + 1][..k] == ell[..k];
      out := out + [ell[k][0]];
      out := out + [ell[k][1]];
    }
    assert ell[..|ell|] == ell;
    out := SortInts(out);
  }

  lemma {:induction false} FlattenedMembers(ell: seq<seq<int>>, k: nat)
    requires AtLeastPairs(ell) && k < |ell|
    ensures ell[k][0] in Flattened(ell) && ell[k][1] in Flattened(ell)
  {
    var last := |ell| - 1;
    if k < last {
      FlattenedMembers(ell[..last], k);
    } else {
      assert Flattened(ell)[|Flattened(ell[..last])|] == ell[k][0];
      assert Flattened(ell)[|Flattened(ell[..last])| + 1] == ell[k][1];
    }
  }

  lemma {:induction false} FlattenedFrom(ell: seq<seq<int>>, x: int)
    requires AtLeastPairs(ell) && x in Flattened(ell)
    ensures exists k :: 0 <= k < |ell| && x in ell[k]
  {
    var last := |ell| - 1;
    if x in Flattened(ell[..last]) {
      FlattenedFrom(ell[..last], x);
    } else {
      assert x in ell[last];
    }
  }

  // ---- The common labels

  function Without(s: seq<int>, removed: seq<int>): seq<int> {
    Filter((x: int) => x !in removed, s)
  }

  function CommonOfTwo(ab: seq<seq<int>>, ac: seq<seq<int>>, removed: seq<int>): seq<int>
    requires AtLeastPairs(ab) && AtLeastPairs(ac)
  {
    Without(SetIntersection(SortInts(Flattened(ab)), SortInts(Flattened(ac))), removed)
  }

  function CommonOfThree(ae: seq<seq<int>>, be: seq<seq<int>>, ce: seq<seq<int>>, removed: seq<int>): seq<int>
    requires AtLeastPairs(ae) && AtLeastPairs(be) && AtLeastPairs(ce)
  {
    Without(SetIntersection(SetIntersection(SortInts(Flattened(ae)), SortInts(Flattened(be))),
                            SortInts(Flattened(ce))), removed)
  }

  lemma {:induction false} FilterAscending(keep: int -> bool, s: seq<int>)
    requires Ascending(s)
    ensures Ascending(Filter(keep, s))
  {
    if s != [] {
      var last := |s| - 1;
      FilterAscending(keep, s[..last]);
      FilterAll(keep, s[..last]);
      forall x | x in Filter(keep, s[..last]) ensures x <= s[last] {
        assert x in s[..last];
      }
      if keep(s[last]) {
        AscendingSnoc(Filter(keep, s[..last]), s[last]);
      }
    }
  }

  /** The result holds every label as often as the list that has it least often, no removed
      label at all, and is in ascending order. */
  lemma CommonOfTwoIsExact(ab: seq<seq<int>>, ac: seq<seq<int>>, removed: seq<int>, x: int)
    requires AtLeastPairs(ab) && AtLeastPairs(ac)
    ensures multiset(CommonOfTwo(ab, ac, removed))[x]
         == if x in removed then 0 else Min(multiset(Flattened(ab))[x], multiset(Flattened(ac))[x])
    ensures Ascending(CommonOfTwo(ab, ac, removed))
  {
    var a, b := SortInts(Flattened(ab)), SortInts(Flattened(ac));
    SortIntsExact(Flattened(ab));
    SortIntsExact(Flattened(ac));
    SetIntersectionCounts(a, b, x);
    SetIntersectionAscending(a, b);
    FilterCounts((y: int) => y !in removed, SetIntersection(a, b), x);
    FilterAscending((y: int) => y !in removed, SetIntersection(a, b));
  }

  lemma CommonOfThreeIsExact(ae: seq<seq<int>>, be: seq<seq<int>>, ce: seq<seq<int>>, removed: seq<int>, x: int)
    requires AtLeastPairs(ae) && AtLeastPairs(be) && AtLeastPairs(ce)
    ensures multiset(CommonOfThree(ae, be, ce, removed))[x]
         == if x in removed then 0
            else Min(Min(multiset(Flattened(ae))[x], multiset(Flattened(be))[x]), multiset(Flattened(ce))[x])
    ensures Ascending(CommonOfThree(ae, be, ce, removed))
  {
    var a, b, c := SortInts(Flattened(ae)), SortInts(Flattened(be)), SortInts(Flattened(ce));
    SortIntsExact(Flattened(ae));
    SortIntsExact(Flattened(be));
    SortIntsExact(Flattened(ce));
    var ab := SetIntersection(a, b);
    SetIntersectionCounts(a, b, x);
    SetIntersectionAscending(a, b);
    SetIntersectionCounts(ab, c, x);
    SetIntersectionAscending(ab, c);
    FilterCounts((y: int) => y !in removed, SetIntersection(ab, c), x);
    FilterAscending((y: int) => y !in removed, SetIntersection(ab, c));
  }

  /** A label of both lists that is not removed is in the result. */
  lemma CommonHolds(ab: seq<seq<int>>, ac: seq<seq<int>>, removed: seq<int>, x: int)
    requires AtLeastPairs(ab) && AtLeastPairs(ac)
    requires x in Flattened(ab) && x in Flattened(ac) && x !in removed
    ensures x in CommonOfTwo(ab, ac, removed)
  {
    CommonOfTwoIsExact(ab, ac, removed, x);
    assert x in multiset(Flattened(ab)) && x in multiset(Flattened(ac));
    assert x in multiset(CommonOfTwo(ab, ac, removed));
  }

  /** A label of the result is in both lists. */
  lemma CommonFrom(ab: seq<seq<int>>, ac: seq<seq<int>>, removed: seq<int>, x: int)
    requires AtLeastPairs(ab) && AtLeastPairs(ac)
    requires x in CommonOfTwo(ab, ac, removed)
    ensures x in Flattened(ab) && x in Flattened(ac) && x !in removed
  {
    CommonOfTwoIsExact(ab, ac, removed, x);
    assert x in multiset(CommonOfTwo(ab, ac, removed));
    assert x in multiset(Flattened(ab)) && x in multiset(Flattened(ac));
  }

  lemma CommonFromThree(ae: seq<seq<int>>, be: seq<seq<int>>, ce: seq<seq<int>>, removed: seq<int>, x: int)
    requires AtLeastPairs(ae) && AtLeastPairs(be) && AtLeastPairs(ce)
    requires x in CommonOfThree(ae, be, ce, removed)
    ensures x in Flattened(ae) && x in Flattened(be) && x in Flattened(ce) && x !in removed
  {
    CommonOfThreeIsExact(ae, be, ce, removed, x);
    assert x in multiset(CommonOfThree(ae, be, ce, removed));
    assert x in multiset(Flattened(ae)) && x in multiset(Flattened(be)) && x in multiset(Flattened(ce));
  }
}
