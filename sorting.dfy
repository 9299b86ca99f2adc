/**
 * Sorting of group keys, as pandas' `groupby(..., sort=True)` orders its groups:
 * an insertion sort parameterised by a strict total order.
 */
module Sorting {
  import opened Seqs

  /** `lt` is irreflexive, transitive and total on distinct values. */
  ghost predicate StrictTotalOrder<T(!new)>(lt: (T, T) -> bool) {
    && (forall a :: !lt(a, a))
    && (forall a, b, c :: lt(a, b) && lt(b, c) ==> lt(a, c))
    && (forall a, b :: a != b ==> lt(a, b) || lt(b, a))
  }

  /** Every element is strictly below every later one. */
  predicate StrictlySorted<T>(s: seq<T>, lt: (T, T) -> bool) {
    forall i, j :: 0 <= i < j < |s| ==> lt(s[i], s[j])
  }

  function Insert<T>(x: T, s: seq<T>, lt: (T, T) -> bool): seq<T>
  {
    if s == [] then [x]
    else if lt(s[0], x) then [s[0]] + Insert(x, s[1..], lt)
    else [x] + s
  }

  function Sort<T>(s: seq<T>, lt: (T, T) -> bool): seq<T>
  {
    if s == [] then [] else Insert(s[0], Sort(s[1..], lt), lt)
  }

  lemma {:induction false} InsertPermutes<T>(x: T, s: seq<T>, lt: (T, T) -> bool)
    ensures multiset(Insert(x, s, lt)) == multiset(s) + multiset{x}
  {
    if s != [] && lt(s[0], x) {
      InsertPermutes(x, s[1..], lt);
      assert s == [s[0]] + s[1..];
    }
  }

  lemma {:induction false} InsertSorted<T(!new)>(x: T, s: seq<T>, lt: (T, T) -> bool)
    requires StrictTotalOrder(lt) && StrictlySorted(s, lt) && x !in s
    ensures StrictlySorted(Insert(x, s, lt), lt)
  {
    if s == [] {
    } else if lt(s[0], x) {
      var tail := s[1..];
      InsertSorted(x, tail, lt);
      InsertPermutes(x, tail, lt);
      var r := Insert(x, tail, lt);
      forall k | 0 <= k < |r| ensures lt(s[0], r[k]) {
        assert r[k] in multiset(r);
        assert r[k] == x || r[k] in tail;
      }
    } else {
      assert lt(x, s[0]);
      forall i, j | 0 <= i < j < |[x] + s| ensures lt(([x] + s)[i], ([x] + s)[j]) {
        if i == 0 && j > 1 {
          assert lt(s[0], s[j - 1]);
        }
      }
    }
  }

  /**
   * Sorting a duplicate-free sequence under a strict total order yields a
   * strictly increasing permutation of it.
   */
  lemma {:induction false} SortCorrect<T(!new)>(s: seq<T>, lt: (T, T) -> bool)
    requires StrictTotalOrder(lt) && Distinct(s)
    ensures StrictlySorted(Sort(s, lt), lt)
    ensures multiset(Sort(s, lt)) == multiset(s)
  {
    if s != [] {
      var tail := s[1..];
      assert Distinct(tail);
      SortCorrect(tail, lt);
      InsertPermutes(s[0], Sort(tail, lt), lt);
      assert s == [s[0]] + tail;
      assert s[0] !in multiset(Sort(tail, lt));
      InsertSorted(s[0], Sort(tail, lt), lt);
    }
  }

  /** The head of a strictly sorted sequence is below every other element of it. */
  lemma HeadIsLeast<T(!new)>(s: seq<T>, lt: (T, T) -> bool)
    requires StrictTotalOrder(lt) && StrictlySorted(s, lt) && s != []
    ensures forall x :: x in s[1..] ==> lt(s[0], x)
    ensures forall x :: x in s[1..] <==> x in s && x != s[0]
  {
    forall x | x in s[1..] ensures lt(s[0], x) {
      var k :| 1 <= k < |s| && s[k] == x;
    }
    assert s == [s[0]] + s[1..];
  }

  lemma NonEmptyHasHead<T>(s: seq<T>)
    ensures s != [] ==> s[0] in s
  {
  }

  /** A strictly sorted sequence is fixed by its elements: there is only one such order. */
  lemma {:induction false} SortedUnique<T(!new)>(a: seq<T>, b: seq<T>, lt: (T, T) -> bool)
    requires StrictTotalOrder(lt) && StrictlySorted(a, lt) && StrictlySorted(b, lt)
    requires forall x :: x in a <==> x in b
    ensures a == b
  {
    NonEmptyHasHead(a);
    NonEmptyHasHead(b);
    if a != [] && b != [] {
      HeadIsLeast(a, lt);
      HeadIsLeast(b, lt);
      assert a[0] == b[0];
      SortedUnique(a[1..], b[1..], lt);
      assert a == [a[0]] + a[1..] && b == [b[0]] + b[1..];
    }
  }

  /** A selection from a strictly sorted sequence is strictly sorted. */
  lemma {:induction false} FilterSorted<T>(s: seq<T>, p: T -> bool, lt: (T, T) -> bool)
    requires StrictlySorted(s, lt)
    ensures StrictlySorted(Filter(s, p), lt)
  {
    if s != [] {
      var tail := s[1..];
      assert StrictlySorted(tail, lt);
      FilterSorted(tail, p, lt);
      var f := Filter(tail, p);
      if p(s[0]) {
        forall k | 0 <= k < |f| ensures lt(s[0], f[k]) {
          FilterMember(tail, p, f[k]);
          var m :| 0 <= m < |tail| && tail[m] == f[k];
          assert s[m + 1] == f[k];
        }
        assert Filter(s, p) == [s[0]] + f;
      }
    }
  }
}
