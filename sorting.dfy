/**
 * `Array.prototype.sort` with a comparator. ECMAScript requires the sort to be
 * stable, so for a consistent comparator `c` the result is the stable sort by the
 * relation `c(a, b) <= 0`; InsertionSort computes exactly that order, and
 * SortInPlace is the in-place form `arr.sort(c)` produces it with.
 */
module Sorting {

  /** Totality and transitivity of `le` at one triple of values. */
  ghost predicate PreorderAt<T>(le: (T, T) -> bool, x: T, y: T, z: T) {
    && (le(x, y) || le(y, x))
    && (le(x, y) && le(y, z) ==> le(x, z))
  }

  /**
   * `le` is total and transitive: what a consistent comparator's `c(a, b) <= 0` is.
   * The law is stated through PreorderAt, so a proof uses it at the triples it names.
   */
  ghost predicate TotalPreorder<T(!new)>(le: (T, T) -> bool) {
    forall x, y, z :: PreorderAt(le, x, y, z)
  }

  ghost predicate Sorted<T>(s: seq<T>, le: (T, T) -> bool) {
    forall i, j :: 0 <= i < j < |s| ==> le(s[i], s[j])
  }

  /** Puts `x` after the leading elements that may precede it. */
  function Insert<T>(x: T, s: seq<T>, le: (T, T) -> bool): seq<T> {
    if s == [] || !le(s[0], x) then [x] + s
    else [s[0]] + Insert(x, s[1..], le)
  }

  /** Stable insertion sort: each element goes after every earlier one it does not precede. */
  function InsertionSort<T>(s: seq<T>, le: (T, T) -> bool): seq<T> {
    if s == [] then []
    else Insert(s[|s| - 1], InsertionSort(s[..|s| - 1], le), le)
  }

  lemma {:induction false} InsertPermutes<T>(x: T, s: seq<T>, le: (T, T) -> bool)
    ensures |Insert(x, s, le)| == |s| + 1
    ensures multiset(Insert(x, s, le)) == multiset(s) + multiset{x}
  {
    if s != [] && le(s[0], x) {
      InsertPermutes(x, s[1..], le);
      assert s == [s[0]] + s[1..];
    }
  }

  /** The result is a rearrangement of the input. */
  lemma {:induction false} InsertionSortPermutes<T>(s: seq<T>, le: (T, T) -> bool)
    ensures |InsertionSort(s, le)| == |s|
    ensures multiset(InsertionSort(s, le)) == multiset(s)
  {
    if s != [] {
      InsertionSortPermutes(s[..|s| - 1], le);
      InsertPermutes(s[|s| - 1], InsertionSort(s[..|s| - 1], le), le);
      assert s == s[..|s| - 1] + [s[|s| - 1]];
    }
  }

  lemma {:induction false} InsertKeepsSorted<T(!new)>(x: T, s: seq<T>, le: (T, T) -> bool)
    requires TotalPreorder(le) && Sorted(s, le)
    ensures Sorted(Insert(x, s, le), le)
  {
    if s == [] {
    } else if !le(s[0], x) {
      forall k | 0 <= k < |s|
        ensures le(x, s[k])
      {
        assert PreorderAt(le, x, s[0], s[k]);
        assert PreorderAt(le, s[0], x, x);
      }
    } else {
      var t := Insert(x, s[1..], le);
      InsertKeepsSorted(x, s[1..], le);
      InsertPermutes(x, s[1..], le);
      forall k | 0 <= k < |t|
        ensures le(s[0], t[k])
      {
        assert t[k] in multiset(t);
        assert t[k] in multiset(s[1..]) + multiset{x};
        if t[k] != x {
          assert t[k] in s[1..];
        }
        assert PreorderAt(le, s[0], x, x);
      }
      assert Insert(x, s, le) == [s[0]] + t;
    }
  }

  /** The result is ordered by `le`. */
  lemma {:induction false} InsertionSortSorted<T(!new)>(s: seq<T>, le: (T, T) -> bool)
    requires TotalPreorder(le)
    ensures Sorted(InsertionSort(s, le), le)
  {
    if s != [] {
      InsertionSortSorted(s[..|s| - 1], le);
      InsertKeepsSorted(s[|s| - 1], InsertionSort(s[..|s| - 1], le), le);
    }
  }

  /** A comparator that always answers 0 leaves the input as it is (the sort is stable). */
  lemma {:induction false} InsertionSortAllEqual<T>(s: seq<T>, le: (T, T) -> bool)
    requires forall x, y :: le(x, y)
    ensures InsertionSort(s, le) == s
  {
    if s != [] {
      var init := s[..|s| - 1];
      InsertionSortAllEqual(init, le);
      InsertAtEnd(s[|s| - 1], init, le);
      assert init + [s[|s| - 1]] == s;
    }
  }

  lemma {:induction false} InsertAtEnd<T>(x: T, s: seq<T>, le: (T, T) -> bool)
    requires forall y :: y in s ==> le(y, x)
    ensures Insert(x, s, le) == s + [x]
  {
    if s != [] {
      assert forall y :: y in s[1..] ==> y in s;
      InsertAtEnd(x, s[1..], le);
      assert s == [s[0]] + s[1..];
    }
  }

  /** Where Insert puts `x`: after the first `j` elements when those may precede it and `s[j]` may not. */
  lemma {:induction false} InsertPosition<T>(x: T, s: seq<T>, j: nat, le: (T, T) -> bool)
    requires j <= |s|
    requires forall m :: 0 <= m < j ==> le(s[m], x)
    requires j < |s| ==> !le(s[j], x)
    ensures Insert(x, s, le) == s[..j] + [x] + s[j..]
  {
    if j > 0 {
      var tail := s[1..];
      forall m | 0 <= m < j - 1
        ensures le(tail[m], x)
      {
        assert tail[m] == s[m + 1];
      }
      assert j - 1 < |tail| ==> tail[j - 1] == s[j];
      InsertPosition(x, tail, j - 1, le);
      assert Insert(x, s, le) == [s[0]] + Insert(x, tail, le);
      assert tail[..j - 1] == s[1..j] && tail[j - 1..] == s[j..];
      assert s[..j] == [s[0]] + s[1..j];
    }
  }

  /**
   * `a.sort(c)`: sorts the array in place, moving each element down past the
   * elements it must precede; the result is the stable sort of the old contents.
   */
  method SortInPlace<T(!new)>(a: array<T>, le: (T, T) -> bool)
    requires TotalPreorder(le)
    modifies a
    ensures a[..] == InsertionSort(old(a[..]), le)
  {
    ghost var s := a[..];
    var i := 0;
    while i < a.Length
      invariant 0 <= i <= a.Length
      invariant a[..i] == InsertionSort(s[..i], le)
      invariant a[i..] == s[i..]
    {
      ghost var t := a[..i];
      assert a[i] == s[i];
      assert a[i + 1..] == s[i + 1..] by { assert a[i + 1..] == a[i..][1..]; }
      var j := SinkDown(a, i, le);
      SinkDownInserts(s, i, t, j, le);
      assert a[..i + 1] == InsertionSort(s[..i + 1], le);
      i := i + 1;
    }
    assert s[..a.Length] == s;
  }

  /**
   * One step of SortInPlace: moves `a[i]` down past the elements of `a[..i]`
   * it must precede, and returns the index it stops at.
   */
  method SinkDown<T>(a: array<T>, i: nat, le: (T, T) -> bool) returns (j: nat)
    requires i < a.Length
    modifies a
    ensures j <= i
    ensures a[..i + 1] == old(a[..i])[..j] + [old(a[i])] + old(a[..i])[j..]
    ensures j > 0 ==> le(old(a[..i])[j - 1], old(a[i]))
    ensures forall m :: j <= m < i ==> !le(old(a[..i])[m], old(a[i]))
    ensures a[i + 1..] == old(a[i + 1..])
  {
    ghost var t := a[..i];
    ghost var x := a[i];
    j := i;
    while j > 0 && !le(a[j - 1], a[j])
      invariant 0 <= j <= i
      invariant a[j] == x
      invariant forall m :: 0 <= m < j ==> a[m] == t[m]
      invariant forall m :: j < m <= i ==> a[m] == t[m - 1]
      invariant forall m :: j <= m < i ==> !le(t[m], x)
      invariant a[i + 1..] == old(a[i + 1..])
    {
      a[j - 1], a[j] := a[j], a[j - 1];
      j := j - 1;
    }
    ghost var r := t[..j] + [x] + t[j..];
    assert |r| == i + 1;
    forall m | 0 <= m <= i
      ensures a[m] == r[m]
    {
      if m < j {
        assert r[m] == t[m];
      } else if m > j {
        assert r[m] == t[j..][m - j - 1] == t[m - 1];
      }
    }
    assert a[..i + 1] == r;
  }

  /** What SinkDown leaves in `a[..i + 1]` is the sort of one more element of the input. */
  lemma SinkDownInserts<T(!new)>(s: seq<T>, i: nat, t: seq<T>, j: nat, le: (T, T) -> bool)
    requires TotalPreorder(le)
    requires j <= i < |s| && |t| == i && t == InsertionSort(s[..i], le)
    requires j > 0 ==> le(t[j - 1], s[i])
    requires forall m :: j <= m < i ==> !le(t[m], s[i])
    ensures t[..j] + [s[i]] + t[j..] == InsertionSort(s[..i + 1], le)
  {
    assert j < i ==> !le(t[j], s[i]);
    InsertionSortSorted(s[..i], le);
    PrefixPrecedes(t, s[i], j, le);
    InsertPosition(s[i], t, j, le);
    var s' := s[..i + 1];
    assert s'[..|s'| - 1] == s[..i] && s'[|s'| - 1] == s[i];
    assert InsertionSort(s', le) == Insert(s[i], t, le);
  }

  lemma PrefixPrecedes<T(!new)>(t: seq<T>, x: T, j: nat, le: (T, T) -> bool)
    requires TotalPreorder(le) && Sorted(t, le)
    requires j <= |t| && (j > 0 ==> le(t[j - 1], x))
    ensures forall m :: 0 <= m < j ==> le(t[m], x)
  {
    forall m | 0 <= m < j
      ensures le(t[m], x)
    {
      if m < j - 1 {
        assert le(t[m], t[j - 1]);
        assert PreorderAt(le, t[m], t[j - 1], x);
      }
    }
  }
}
