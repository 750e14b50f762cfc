// `Array.prototype.sort` with a comparator, as the list pages use it: the
// comparator is a total preorder ("a may come before b"), and the array is
// reordered in place into a permutation that respects it.

module Sorting {
  import Common

  /** `le(a, b)`: the comparator returns a value <= 0 for `(a, b)`. */
  ghost predicate TotalPreorder<T(!new)>(le: (T, T) -> bool) {
    && (forall a, b :: le(a, b) || le(b, a))
    && (forall a, b, c :: le(a, b) && le(b, c) ==> le(a, c))
  }

  ghost predicate Sorted<T>(s: seq<T>, le: (T, T) -> bool) {
    forall i, j :: 0 <= i < j < |s| ==> le(s[i], s[j])
  }

  /** Sorts `a` in place (insertion sort by adjacent swaps). */
  method SortInPlace<T(!new)>(a: array<T>, le: (T, T) -> bool)
    requires TotalPreorder(le)
    modifies a
    ensures Sorted(a[..], le)
    ensures multiset(a[..]) == old(multiset(a[..]))
  {
    var i := 0;
    while i < a.Length
      invariant 0 <= i <= a.Length
      invariant Sorted(a[..i], le)
      invariant multiset(a[..]) == old(multiset(a[..]))
    {
      InsertLast(a, i, le);
      i := i + 1;
    }
    assert a[..a.Length] == a[..];
  }

  /** While `s[j]` moves down: the prefix `s[..i + 1]` without position `j`
      is sorted, and `s[j]` may come before everything above it. */
  ghost predicate Sinking<T>(s: seq<T>, j: int, i: int, le: (T, T) -> bool)
    requires 0 <= j <= i < |s|
  {
    && (forall p, q :: 0 <= p < q <= i && p != j && q != j ==> le(s[p], s[q]))
    && (forall q :: j < q <= i ==> le(s[j], s[q]))
  }

  /** Swapping `s[j]` with a predecessor it must precede moves it one down. */
  lemma SinkStep<T(!new)>(s: seq<T>, j: int, i: int, le: (T, T) -> bool)
    requires TotalPreorder(le)
    requires 0 < j <= i < |s| && Sinking(s, j, i, le) && !le(s[j - 1], s[j])
    ensures Sinking(s[j - 1 := s[j]][j := s[j - 1]], j - 1, i, le)
  {
    var t := s[j - 1 := s[j]][j := s[j - 1]];
    assert le(s[j], s[j - 1]);
    forall q | j - 1 < q <= i ensures le(t[j - 1], t[q]) {
      if q > j {
        assert le(s[j], s[q]);
      }
    }
    forall p, q | 0 <= p < q <= i && p != j - 1 && q != j - 1 ensures le(t[p], t[q]) {
      if q == j {
        assert le(s[p], s[j - 1]);
      } else if p == j {
        assert le(s[j - 1], s[q]);
      }
    }
  }

  /** Once `s[j]` has found its place, the prefix `s[..i + 1]` is sorted. */
  lemma SinkDone<T(!new)>(s: seq<T>, j: int, i: int, le: (T, T) -> bool)
    requires TotalPreorder(le)
    requires 0 <= j <= i < |s| && Sinking(s, j, i, le)
    requires j == 0 || le(s[j - 1], s[j])
    ensures Sorted(s[..i + 1], le)
  {
    forall p, q | 0 <= p < q <= i ensures le(s[p], s[q]) {
      if q == j && p < j - 1 {
        assert le(s[p], s[j - 1]);
      }
    }
  }

  /** One pass of the insertion sort: moves `a[i]` down into the sorted
      prefix `a[..i]` by adjacent swaps. */
  method InsertLast<T(!new)>(a: array<T>, i: int, le: (T, T) -> bool)
    requires TotalPreorder(le)
    requires 0 <= i < a.Length && Sorted(a[..i], le)
    modifies a
    ensures Sorted(a[..i + 1], le)
    ensures multiset(a[..]) == old(multiset(a[..]))
  {
    var j := i;
    while j > 0 && !le(a[j - 1], a[j])
      invariant 0 <= j <= i
      invariant Sinking(a[..], j, i, le)
      invariant multiset(a[..]) == old(multiset(a[..]))
    {
      SinkStep(a[..], j, i, le);
      a[j - 1], a[j] := a[j], a[j - 1];
      j := j - 1;
    }
    SinkDone(a[..], j, i, le);
  }

  /** `[...s].sort(cmp)`: sorts a copy and leaves `s` as it was. */
  method SortedCopy<T(!new)>(s: seq<T>, le: (T, T) -> bool) returns (r: seq<T>)
    requires TotalPreorder(le)
    ensures Sorted(r, le)
    ensures multiset(r) == multiset(s)
  {
    var a := new T[|s|](i requires 0 <= i < |s| => s[i]);
    assert a[..] == s;
    SortInPlace(a, le);
    r := a[..];
  }

  /** Filtering a sorted list keeps it sorted: the search that runs after a
      sort never disturbs the order. */
  lemma {:induction false} FilterKeepsSorted<T>(s: seq<T>, p: T -> bool, le: (T, T) -> bool)
    requires Sorted(s, le)
    ensures Sorted(Common.Filter(s, p), le)
  {
    if s != [] {
      FilterKeepsSorted(s[1..], p, le);
      var rest := Common.Filter(s[1..], p);
      forall k | 0 <= k < |rest| ensures le(s[0], rest[k]) {
        var m :| 0 <= m < |s[1..]| && s[1..][m] == rest[k];
        assert s[m + 1] == rest[k];
      }
    }
  }

  /** Filtering two permutations of a list gives permutations of each other:
      a search after a sort keeps the same elements as one before it. */
  lemma FilterPreservesPermutation<T>(s: seq<T>, t: seq<T>, p: T -> bool)
    requires multiset(s) == multiset(t)
    ensures multiset(Common.Filter(s, p)) == multiset(Common.Filter(t, p))
  {
    forall x ensures multiset(Common.Filter(s, p))[x] == multiset(Common.Filter(t, p))[x] {
      FilterMultiplicity(s, p, x);
      FilterMultiplicity(t, p, x);
    }
  }

  lemma {:induction false} FilterMultiplicity<T>(s: seq<T>, p: T -> bool, x: T)
    ensures multiset(Common.Filter(s, p))[x] == if p(x) then multiset(s)[x] else 0
  {
    if s != [] {
      var rest := s[1..];
      FilterMultiplicity(rest, p, x);
      assert s == [s[0]] + rest;
      assert multiset(s) == multiset([s[0]]) + multiset(rest);
      if p(s[0]) {
        assert Common.Filter(s, p) == [s[0]] + Common.Filter(rest, p);
        assert multiset(Common.Filter(s, p)) == multiset([s[0]]) + multiset(Common.Filter(rest, p));
      } else {
        assert Common.Filter(s, p) == Common.Filter(rest, p);
      }
    }
  }

  // ---------------------------------------------------------------------
  // `a.localeCompare(b)`, taken as code-point order
  // ---------------------------------------------------------------------

  /** -1, 0 or 1 as `a` sorts before, with, or after `b`; a proper prefix
      sorts first. */
  function StrCompare(a: string, b: string): (r: int)
    ensures -1 <= r <= 1
  {
    if a == [] && b == [] then 0
    else if a == [] then -1
    else if b == [] then 1
    else if a[0] < b[0] then -1
    else if a[0] > b[0] then 1
    else StrCompare(a[1..], b[1..])
  }

  /** Swapping the operands flips the sign, and 0 means equal texts. */
  lemma {:induction false} StrCompareAntisymmetric(a: string, b: string)
    ensures StrCompare(a, b) == -StrCompare(b, a)
    ensures StrCompare(a, b) == 0 <==> a == b
  {
    if a != [] && b != [] && a[0] == b[0] {
      StrCompareAntisymmetric(a[1..], b[1..]);
      if a[1..] == b[1..] {
        assert a == [a[0]] + a[1..] && b == [b[0]] + b[1..];
      }
    }
  }

  lemma {:induction false} StrCompareTransitive(a: string, b: string, c: string)
    requires StrCompare(a, b) <= 0 && StrCompare(b, c) <= 0
    ensures StrCompare(a, c) <= 0
  {
    if a != [] && b != [] && c != [] && a[0] == b[0] && b[0] == c[0] {
      StrCompareTransitive(a[1..], b[1..], c[1..]);
    }
  }
}
