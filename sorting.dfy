/** Python's `sorted(..., key=...)` over a strict order, and order-preserving filtering. */
module Sorting {

  /** `lt` is irreflexive and transitive. */
  ghost predicate IsStrictOrder<T(!new)>(lt: (T, T) -> bool) {
    && (forall a :: !lt(a, a))
    && (forall a, b, c :: lt(a, b) && lt(b, c) ==> lt(a, c))
  }

  /** Every element comes strictly before every later one. */
  predicate Sorted<T>(lt: (T, T) -> bool, s: seq<T>) {
    forall i, j :: 0 <= i < j < |s| ==> lt(s[i], s[j])
  }

  /** Inserts `x` before the first element that does not come strictly before it. */
  function Insert<T(!new)>(lt: (T, T) -> bool, x: T, s: seq<T>): (r: seq<T>)
    ensures multiset(r) == multiset(s) + multiset{x}
  {
    if s == [] || !lt(s[0], x) then [x] + s
    else
      assert s == [s[0]] + s[1..];
      [s[0]] + Insert(lt, x, s[1..])
  }

  /** Stable insertion sort: the permutation of `s` that `sorted` returns. */
  function SortBy<T(!new)>(lt: (T, T) -> bool, s: seq<T>): (r: seq<T>)
    ensures multiset(r) == multiset(s)
    ensures |r| == |s|
    ensures forall x :: x in r <==> x in s
  {
    if s == [] then []
    else
      assert s == [s[0]] + s[1..];
      var r := Insert(lt, s[0], SortBy(lt, s[1..]));
      assert forall x :: x in r <==> x in multiset(r);
      r
  }

  lemma {:induction false} InsertSorted<T(!new)>(lt: (T, T) -> bool, x: T, s: seq<T>)
    requires IsStrictOrder(lt) && Sorted(lt, s)
    requires forall y :: y in s ==> lt(x, y) || lt(y, x)
    ensures Sorted(lt, Insert(lt, x, s))
  {
    if s == [] || !lt(s[0], x) {
      if s != [] {
        assert lt(x, s[0]);
      }
    } else {
      InsertSorted(lt, x, s[1..]);
      var t := Insert(lt, x, s[1..]);
      forall z | z in t ensures lt(s[0], z) {
        assert z in multiset(t);
        assert z == x || z in multiset(s[1..]);
      }
    }
  }

  /** Sorting a sequence whose elements are pairwise comparable yields a strictly sorted
      sequence. */
  lemma {:induction false} SortBySorted<T(!new)>(lt: (T, T) -> bool, s: seq<T>)
    requires IsStrictOrder(lt)
    requires forall i, j :: 0 <= i < |s| && 0 <= j < |s| && i != j ==> lt(s[i], s[j]) || lt(s[j], s[i])
    ensures Sorted(lt, SortBy(lt, s))
  {
    if s != [] {
      var t := s[1..];
      assert forall i, j :: 0 <= i < |t| && 0 <= j < |t| && i != j ==> lt(t[i], t[j]) || lt(t[j], t[i]) by {
        forall i, j | 0 <= i < |t| && 0 <= j < |t| && i != j ensures lt(t[i], t[j]) || lt(t[j], t[i]) {
          assert t[i] == s[i + 1] && t[j] == s[j + 1];
        }
      }
      SortBySorted(lt, t);
      forall y | y in SortBy(lt, t) ensures lt(s[0], y) || lt(y, s[0]) {
        var j :| 0 <= j < |t| && t[j] == y;
        assert s[j + 1] == y;
      }
      InsertSorted(lt, s[0], SortBy(lt, t));
    }
  }

  /** The head of a strictly sorted sequence comes before all its other elements. */
  lemma SortedHead<T(!new)>(lt: (T, T) -> bool, a: seq<T>, x: T)
    requires Sorted(lt, a) && x in a
    ensures x == a[0] || lt(a[0], x)
  {
    var k :| 0 <= k < |a| && a[k] == x;
    assert k == 0 || lt(a[0], a[k]);
  }

  /** A strict order admits one sorted arrangement of a set of elements: two strictly sorted
      sequences with the same elements are equal. */
  lemma {:induction false} SortedUnique<T(!new)>(lt: (T, T) -> bool, a: seq<T>, b: seq<T>)
    requires IsStrictOrder(lt) && Sorted(lt, a) && Sorted(lt, b)
    requires forall x :: x in a <==> x in b
    ensures a == b
  {
    assert |a| > 0 ==> a[0] in a;
    assert |b| > 0 ==> b[0] in b;
    if |a| > 0 && |b| > 0 {
      SortedHead(lt, a, b[0]);
      SortedHead(lt, b, a[0]);
      assert !lt(a[0], a[0]);
      assert a[0] == b[0];
      forall x ensures x in a[1..] <==> x in b[1..] {
        assert a == [a[0]] + a[1..] && b == [b[0]] + b[1..];
        assert x in a[1..] ==> x != a[0] && x in a;
        assert x in b[1..] ==> x != b[0] && x in b;
      }
      SortedUnique(lt, a[1..], b[1..]);
      assert a == [a[0]] + a[1..] && b == [b[0]] + b[1..];
    }
  }

  /** The elements of `s` that satisfy `p`, in their original order (a list comprehension
      with an `if`). */
  function Filter<T(!new)>(s: seq<T>, p: T -> bool): (r: seq<T>)
    ensures |r| <= |s|
    ensures forall x :: x in r <==> x in s && p(x)
  {
    if s == [] then []
    else
      assert s == [s[0]] + s[1..];
      (if p(s[0]) then [s[0]] else []) + Filter(s[1..], p)
  }

  lemma {:induction false} FilterConcat<T(!new)>(a: seq<T>, b: seq<T>, p: T -> bool)
    ensures Filter(a + b, p) == Filter(a, p) + Filter(b, p)
    decreases |a|
  {
    if a != [] {
      assert (a + b)[0] == a[0] && (a + b)[1..] == a[1..] + b;
      FilterConcat(a[1..], b, p);
    } else {
      assert a + b == b;
    }
  }

  /** Filtering keeps a sequence whose elements all pass. */
  lemma {:induction false} FilterAll<T(!new)>(s: seq<T>, p: T -> bool)
    requires forall i :: 0 <= i < |s| ==> p(s[i])
    ensures Filter(s, p) == s
  {
    if s != [] {
      FilterAll(s[1..], p);
    }
  }

  /** An element before everything of a sorted sequence extends it to a sorted one. */
  lemma SortedCons<T>(lt: (T, T) -> bool, x: T, s: seq<T>)
    requires Sorted(lt, s)
    requires forall y :: y in s ==> lt(x, y)
    ensures Sorted(lt, [x] + s)
  {
    var r := [x] + s;
    forall i, j | 0 <= i < j < |r| ensures lt(r[i], r[j]) {
      assert r[j] == s[j - 1];
      if i > 0 {
        assert r[i] == s[i - 1];
      }
    }
  }

  /** A prefix one longer is the prefix followed by the next element. */
  lemma TakeSnoc<T>(s: seq<T>, i: nat)
    requires i < |s|
    ensures s[..i + 1] == s[..i] + [s[i]]
  {
  }

  /** A non-empty sequence is its front followed by its last element. */
  lemma FrontLast<T>(s: seq<T>)
    requires s != []
    ensures s[..|s| - 1] + [s[|s| - 1]] == s
  {
  }
}
