/** A stable comparison sort, standing for `Array.prototype.sort`, and what it guarantees. */
module Sorting {
  import opened Prelude

  /** `before` is a consistent comparator: asymmetric, and every element is on one side of any ordered pair. */
  ghost predicate StrictWeak<T(!new)>(before: (T, T) -> bool) {
    && (forall a, b :: before(a, b) ==> !before(b, a))
    && (forall a, b, c {:trigger before(a, b), before(a, c)} {:trigger before(a, b), before(c, b)} ::
          before(a, b) ==> before(a, c) || before(c, b))
  }

  /** Later elements never belong before earlier ones. */
  predicate Sorted<T>(s: seq<T>, before: (T, T) -> bool) {
    forall i, j :: 0 <= i < j < |s| ==> !before(s[j], s[i])
  }

  function Insert<T>(s: seq<T>, x: T, before: (T, T) -> bool): (r: seq<T>)
    ensures |r| == |s| + 1
  {
    if s == [] then [x]
    else
      var n := |s| - 1;
      if before(x, s[n]) then Insert(s[..n], x, before) + [s[n]] else s + [x]
  }

  function Sort<T>(s: seq<T>, before: (T, T) -> bool): (r: seq<T>)
    ensures |r| == |s|
  {
    if s == [] then [] else Insert(Sort(s[..|s| - 1], before), s[|s| - 1], before)
  }

  lemma {:induction false} InsertContents<T>(s: seq<T>, x: T, before: (T, T) -> bool)
    ensures multiset(Insert(s, x, before)) == multiset(s) + multiset{x}
  {
    if s != [] {
      var n := |s| - 1;
      assert s == s[..n] + [s[n]];
      if before(x, s[n]) {
        InsertContents(s[..n], x, before);
      }
    }
  }

  /** Sorting permutes. */
  lemma {:induction false} SortPermutes<T>(s: seq<T>, before: (T, T) -> bool)
    ensures multiset(Sort(s, before)) == multiset(s)
  {
    if s != [] {
      var n := |s| - 1;
      assert s == s[..n] + [s[n]];
      SortPermutes(s[..n], before);
      InsertContents(Sort(s[..n], before), s[n], before);
    }
  }

  lemma {:induction false} InsertSorted<T(!new)>(s: seq<T>, x: T, before: (T, T) -> bool)
    requires StrictWeak(before) && Sorted(s, before)
    ensures Sorted(Insert(s, x, before), before)
  {
    if s != [] {
      var n := |s| - 1;
      if before(x, s[n]) {
        InsertSorted(s[..n], x, before);
        var rest := Insert(s[..n], x, before);
        InsertContents(s[..n], x, before);
        forall i | 0 <= i < |rest| ensures !before(s[n], rest[i]) {
          assert rest[i] in multiset(rest);
          if rest[i] != x {
            assert rest[i] in s[..n];
          }
        }
      } else {
        forall i | 0 <= i < |s| ensures !before(x, s[i]) {
          assert i < n ==> !before(s[n], s[i]);
        }
      }
    }
  }

  /** Sorting with a consistent comparator sorts. */
  lemma {:induction false} SortSorts<T(!new)>(s: seq<T>, before: (T, T) -> bool)
    requires StrictWeak(before)
    ensures Sorted(Sort(s, before), before)
  {
    if s != [] {
      var n := |s| - 1;
      SortSorts(s[..n], before);
      InsertSorted(Sort(s[..n], before), s[n], before);
    }
  }

  /** The comparator tells any two different elements of `s` apart. */
  ghost predicate Separates<T(!new)>(s: seq<T>, before: (T, T) -> bool) {
    forall x, y :: x in s && y in s && x != y ==> before(x, y) || before(y, x)
  }

  lemma SameLast<T(!new)>(a: seq<T>, b: seq<T>, before: (T, T) -> bool)
    requires a != [] && |a| == |b| && multiset(a) == multiset(b)
    requires Sorted(a, before) && Sorted(b, before) && Separates(a, before)
    ensures a[|a| - 1] == b[|b| - 1]
  {
    var n := |a| - 1;
    var x, y := a[n], b[n];
    assert x in multiset(b) && y in multiset(a);
    var i :| 0 <= i < |a| && a[i] == y;
    var j :| 0 <= j < |b| && b[j] == x;
    assert i < n ==> !before(x, y);
    assert j < n ==> !before(y, x);
  }

  lemma WithoutLast<T>(a: seq<T>)
    requires a != []
    ensures multiset(a[..|a| - 1]) == multiset(a) - multiset{a[|a| - 1]}
  {
    assert a == a[..|a| - 1] + [a[|a| - 1]];
  }

  lemma SamePrefixContents<T>(a: seq<T>, b: seq<T>)
    requires a != [] && |a| == |b| && multiset(a) == multiset(b) && a[|a| - 1] == b[|b| - 1]
    ensures multiset(a[..|a| - 1]) == multiset(b[..|b| - 1])
  {
    WithoutLast(a);
    WithoutLast(b);
  }

  /** With a comparator that tells elements apart there is only one sorted arrangement. */
  lemma {:induction false} SortedUnique<T(!new)>(a: seq<T>, b: seq<T>, before: (T, T) -> bool)
    requires multiset(a) == multiset(b) && Sorted(a, before) && Sorted(b, before) && Separates(a, before)
    ensures a == b
  {
    assert |a| == |b| by { assert |multiset(a)| == |a| && |multiset(b)| == |b|; }
    if a != [] {
      var n := |a| - 1;
      SameLast(a, b, before);
      SamePrefixContents(a, b);
      assert forall x :: x in a[..n] ==> x in a;
      SortedUnique(a[..n], b[..n], before);
      assert a == a[..n] + [a[n]] && b == b[..n] + [b[n]];
    }
  }

  /** So the order of the input does not matter. */
  lemma SortOrderIndependent<T(!new)>(s: seq<T>, t: seq<T>, before: (T, T) -> bool)
    requires StrictWeak(before) && multiset(s) == multiset(t) && Separates(s, before)
    ensures Sort(s, before) == Sort(t, before)
  {
    SortPermutes(s, before);
    SortPermutes(t, before);
    SortSorts(s, before);
    SortSorts(t, before);
    forall x, y | x in Sort(s, before) && y in Sort(s, before) && x != y ensures before(x, y) || before(y, x) {
      assert x in multiset(s) && y in multiset(s);
    }
    SortedUnique(Sort(s, before), Sort(t, before), before);
  }

  lemma {:induction false} DistinctCounts<T>(s: seq<T>)
    ensures Distinct(s) <==> forall x :: x in multiset(s) ==> multiset(s)[x] == 1
  {
    if s != [] {
      var n := |s| - 1;
      assert s == s[..n] + [s[n]];
      DistinctCounts(s[..n]);
      if Distinct(s) {
        assert s[n] !in multiset(s[..n]);
      } else if Distinct(s[..n]) {
        assert s[n] in s[..n];
        assert multiset(s)[s[n]] == 2;
      } else {
        var x :| x in multiset(s[..n]) && multiset(s[..n])[x] != 1;
        assert multiset(s)[x] != 1;
      }
    }
  }

  /** A permutation of distinct elements has distinct elements, the same ones. */
  lemma DistinctPermutation<T>(a: seq<T>, b: seq<T>)
    requires multiset(a) == multiset(b) && Distinct(a)
    ensures Distinct(b) && |a| == |b| && forall x :: x in a <==> x in b
  {
    DistinctCounts(a);
    DistinctCounts(b);
    assert |multiset(a)| == |a| && |multiset(b)| == |b|;
    forall x ensures x in a <==> x in b {
      assert x in a <==> x in multiset(a);
      assert x in b <==> x in multiset(b);
    }
  }
}
