/**
  Python's `sorted`, as a stable insertion sort under a total preorder.

  `sorted(xs, key=k, reverse=True)` (optimisation.py:343) and
  `sorted(zip(scores, wolves))` (optimisation.py:110, 136) are both stable
  sorts: the result is ordered, is a permutation of the input, and keeps the
  input order among elements the order cannot tell apart. `SortBy` has these
  three properties (`SortByPermutes`, `SortBySorted`, `SortByStable`), and
  they determine the result uniquely, so it is the list Python returns.
*/
module Sorting {

  /** `le` is total and transitive. */
  ghost predicate TotalPreorder<T(!new)>(le: (T, T) -> bool) {
    && (forall a, b :: le(a, b) || le(b, a))
    && (forall a, b, c :: le(a, b) && le(b, c) ==> le(a, c))
  }

  /** Neither of `a`, `b` comes strictly before the other. */
  predicate Equivalent<T>(le: (T, T) -> bool, a: T, b: T) {
    le(a, b) && le(b, a)
  }

  ghost predicate SortedBy<T>(s: seq<T>, le: (T, T) -> bool) {
    forall i, j :: 0 <= i < j < |s| ==> le(s[i], s[j])
  }

  /** Places `x` before the first element it does not come after. */
  function Insert<T>(x: T, s: seq<T>, le: (T, T) -> bool): (r: seq<T>)
    ensures |r| == |s| + 1
    ensures multiset(r) == multiset(s) + multiset{x}
  {
    if s == [] then [x]
    else if le(x, s[0]) then [x] + s
    else
      assert s == [s[0]] + s[1..];
      [s[0]] + Insert(x, s[1..], le)
  }

  function SortBy<T>(s: seq<T>, le: (T, T) -> bool): (r: seq<T>)
    ensures |r| == |s|
  {
    if s == [] then [] else Insert(s[0], SortBy(s[1..], le), le)
  }

  /** The elements of `s` equivalent to `x`, in the order `s` holds them. */
  function EquivalentTo<T>(s: seq<T>, le: (T, T) -> bool, x: T): seq<T> {
    if s == [] then []
    else (if Equivalent(le, s[0], x) then [s[0]] else []) + EquivalentTo(s[1..], le, x)
  }

  /** Sorting only rearranges the elements. */
  lemma {:induction false} SortByPermutes<T>(s: seq<T>, le: (T, T) -> bool)
    ensures multiset(SortBy(s, le)) == multiset(s)
  {
    if s != [] {
      SortByPermutes(s[1..], le);
      assert s == [s[0]] + s[1..];
    }
  }

  /** Every element of the input is in the result. */
  lemma SortByKeeps<T>(s: seq<T>, le: (T, T) -> bool, x: T)
    requires x in s
    ensures x in SortBy(s, le)
  {
    SortByPermutes(s, le);
    assert x in multiset(s);
  }

  /** An element of the first `k` sits at an index below `k`; any other element of `r` at one from `k` on. */
  lemma PrefixPosition<T>(r: seq<T>, k: nat, x: T)
    requires k <= |r| && x in r
    ensures x in r[..k] ==> exists p :: 0 <= p < k && r[p] == x
    ensures x !in r[..k] ==> exists q :: k <= q < |r| && r[q] == x
  {
    var i :| 0 <= i < |r| && r[i] == x;
    if i < k {
      assert r[..k][i] == x;
    }
    if x in r[..k] {
      var p :| 0 <= p < k && r[..k][p] == x;
      assert r[p] == x;
    }
  }

  lemma {:induction false} InsertSorted<T(!new)>(x: T, s: seq<T>, le: (T, T) -> bool)
    requires TotalPreorder(le) && SortedBy(s, le)
    ensures SortedBy(Insert(x, s, le), le)
  {
    if s != [] && !le(x, s[0]) {
      InsertSorted(x, s[1..], le);
      var r := Insert(x, s[1..], le);
      forall y | y in r
        ensures le(s[0], y)
      {
        assert y in multiset(r);
        if y != x {
          assert y in multiset(s[1..]);
        }
      }
    }
  }

  /** The result is in order. */
  lemma {:induction false} SortBySorted<T(!new)>(s: seq<T>, le: (T, T) -> bool)
    requires TotalPreorder(le)
    ensures SortedBy(SortBy(s, le), le)
  {
    if s != [] {
      SortBySorted(s[1..], le);
      InsertSorted(s[0], SortBy(s[1..], le), le);
    }
  }

  /** In a sorted list each element comes no later than everything from it on. */
  lemma SortedSuffixBound<T(!new)>(s: seq<T>, le: (T, T) -> bool, k: nat)
    requires TotalPreorder(le) && SortedBy(s, le) && k < |s|
    ensures forall w :: w in multiset(s[k..]) ==> le(s[k], w)
  {
    forall w | w in multiset(s[k..])
      ensures le(s[k], w)
    {
      assert w in s[k..];
      var j :| k <= j < |s| && s[j] == w;
      if j == k {
        assert le(w, w) || le(w, w);
      }
    }
  }

  /**
    The first three elements of a sorted permutation of `z` (at least three
    long) come from three different entries of `z`, in order, each no later
    than every entry left once the ones before it are taken away.
  */
  lemma SortedFirstThree<T(!new)>(s: seq<T>, z: seq<T>, le: (T, T) -> bool)
    requires TotalPreorder(le) && SortedBy(s, le) && multiset(s) == multiset(z) && |s| >= 3
    ensures multiset{s[0], s[1], s[2]} <= multiset(z)
    ensures le(s[0], s[1]) && le(s[1], s[2])
    ensures forall w :: w in multiset(z) ==> le(s[0], w)
    ensures forall w :: w in multiset(z) - multiset{s[0]} ==> le(s[1], w)
    ensures forall w :: w in multiset(z) - multiset{s[0], s[1]} ==> le(s[2], w)
  {
    FirstThreeDrawn(s, z);
    SortedSuffixBound(s, le, 0);
    assert s[0..] == s;
    SecondBelowRest(s, z, le);
    ThirdBelowRest(s, z, le);
  }

  lemma FirstThreeDrawn<T>(s: seq<T>, z: seq<T>)
    requires multiset(s) == multiset(z) && |s| >= 3
    ensures multiset{s[0], s[1], s[2]} <= multiset(z)
  {
    assert s == [s[0], s[1], s[2]] + s[3..];
    assert multiset(s) == multiset{s[0], s[1], s[2]} + multiset(s[3..]);
  }

  lemma SecondBelowRest<T(!new)>(s: seq<T>, z: seq<T>, le: (T, T) -> bool)
    requires TotalPreorder(le) && SortedBy(s, le) && multiset(s) == multiset(z) && |s| >= 3
    ensures forall w :: w in multiset(z) - multiset{s[0]} ==> le(s[1], w)
  {
    FrontMultiset(s);
    SortedSuffixBound(s, le, 1);
  }

  lemma ThirdBelowRest<T(!new)>(s: seq<T>, z: seq<T>, le: (T, T) -> bool)
    requires TotalPreorder(le) && SortedBy(s, le) && multiset(s) == multiset(z) && |s| >= 3
    ensures forall w :: w in multiset(z) - multiset{s[0], s[1]} ==> le(s[2], w)
  {
    FrontMultiset(s);
    FrontMultiset(s[1..]);
    assert s[1..][1..] == s[2..];
    assert multiset{s[0], s[1]} == multiset{s[0]} + multiset{s[1]};
    SortedSuffixBound(s, le, 2);
  }

  /** A non-empty list holds its head once more than its tail. */
  lemma FrontMultiset<T>(s: seq<T>)
    requires s != []
    ensures multiset(s) == multiset{s[0]} + multiset(s[1..])
  {
    assert s == [s[0]] + s[1..];
  }

  lemma EquivalentToCons<T>(a: T, t: seq<T>, le: (T, T) -> bool, y: T)
    ensures EquivalentTo([a] + t, le, y) == (if Equivalent(le, a, y) then [a] else []) + EquivalentTo(t, le, y)
  {
    assert ([a] + t)[1..] == t;
  }

  /** An element that `x` does not come before is not equivalent to anything `x` is equivalent to. */
  lemma NotEquivalentPast<T(!new)>(le: (T, T) -> bool, x: T, z: T, y: T)
    requires TotalPreorder(le)
    requires !le(x, z) && Equivalent(le, x, y)
    ensures !Equivalent(le, z, y)
  {
    assert le(x, y);
  }

  lemma EmptyPrefix<T>(e: seq<T>, t: seq<T>)
    requires e == []
    ensures e + t == t
  {
  }

  lemma {:induction false} InsertStable<T(!new)>(x: T, s: seq<T>, le: (T, T) -> bool, y: T)
    requires TotalPreorder(le)
    ensures EquivalentTo(Insert(x, s, le), le, y)
         == (if Equivalent(le, x, y) then [x] else []) + EquivalentTo(s, le, y)
    decreases s
  {
    var xs := if Equivalent(le, x, y) then [x] else [];
    if s == [] {
      EquivalentToCons(x, [], le, y);
      assert [x] + [] == [x];
    } else if le(x, s[0]) {
      EquivalentToCons(x, s, le, y);
    } else {
      var t := Insert(x, s[1..], le);
      assert Insert(x, s, le) == [s[0]] + t;
      var rest := EquivalentTo(s[1..], le, y);
      InsertStable(x, s[1..], le, y);
      EquivalentToCons(s[0], t, le, y);
      assert s == [s[0]] + s[1..];
      EquivalentToCons(s[0], s[1..], le, y);
      var heads := if Equivalent(le, s[0], y) then [s[0]] else [];
      assert EquivalentTo(Insert(x, s, le), le, y) == heads + (xs + rest);
      assert EquivalentTo(s, le, y) == heads + rest;
      if Equivalent(le, x, y) {
        NotEquivalentPast(le, x, s[0], y);
        EmptyPrefix(heads, xs + rest);
        EmptyPrefix(heads, rest);
      } else {
        EmptyPrefix(xs, rest);
        EmptyPrefix(xs, heads + rest);
      }
    }
  }

  /** Sorting keeps the input order among equivalent elements. */
  lemma {:induction false} SortByStable<T(!new)>(s: seq<T>, le: (T, T) -> bool, y: T)
    requires TotalPreorder(le)
    ensures EquivalentTo(SortBy(s, le), le, y) == EquivalentTo(s, le, y)
  {
    if s != [] {
      SortByStable(s[1..], le, y);
      InsertStable(s[0], SortBy(s[1..], le), le, y);
    }
  }
}
