/** Sequence operations shared by the table model: selection, de-duplication, joining. */
module Seqs {

  /** No element occurs twice. */
  predicate Distinct<T(==)>(s: seq<T>) {
    forall i, j :: 0 <= i < j < |s| ==> s[i] != s[j]
  }

  /** The elements of `s` satisfying `p`, in their original order (a boolean-mask selection). */
  function Filter<T>(s: seq<T>, p: T -> bool): (r: seq<T>)
    ensures |r| <= |s|
  {
    if s == [] then [] else (if p(s[0]) then [s[0]] else []) + Filter(s[1..], p)
  }

  /** Selection distributes over concatenation: survivors keep the input's relative order. */
  lemma {:induction false} FilterAppend<T>(a: seq<T>, b: seq<T>, p: T -> bool)
    ensures Filter(a + b, p) == Filter(a, p) + Filter(b, p)
  {
    if a == [] {
      assert a + b == b;
    } else {
      var h := if p(a[0]) then [a[0]] else [];
      assert (a + b)[0] == a[0];
      assert (a + b)[1..] == a[1..] + b;
      FilterAppend(a[1..], b, p);
      calc {
        Filter(a + b, p);
        h + Filter(a[1..] + b, p);
        h + (Filter(a[1..], p) + Filter(b, p));
        (h + Filter(a[1..], p)) + Filter(b, p);
        Filter(a, p) + Filter(b, p);
      }
    }
  }

  lemma FilterSingleton<T>(x: T, p: T -> bool)
    ensures Filter([x], p) == if p(x) then [x] else []
  {
    assert [x][1..] == [];
  }

  /** Every survivor of a selection is an input element that passes the mask. */
  lemma {:induction false} FilterElements<T>(s: seq<T>, p: T -> bool)
    ensures forall i :: 0 <= i < |Filter(s, p)| ==> Filter(s, p)[i] in s && p(Filter(s, p)[i])
  {
    forall i | 0 <= i < |Filter(s, p)| ensures Filter(s, p)[i] in s && p(Filter(s, p)[i]) {
      FilterMember(s, p, Filter(s, p)[i]);
    }
  }

  /** An element survives a selection exactly when it is in the input and passes the mask. */
  lemma {:induction false} FilterMember<T>(s: seq<T>, p: T -> bool, x: T)
    ensures x in Filter(s, p) <==> x in s && p(x)
  {
    if s != [] {
      FilterMember(s[1..], p, x);
      assert x in s <==> x == s[0] || x in s[1..];
    }
  }

  /**
   * Selections of two sequences related element by element, under masks that
   * agree on related elements, are related element by element.
   */
  lemma {:induction false} FilterAligned<A, B>(s: seq<A>, t: seq<B>, p: A -> bool, q: B -> bool, rel: (A, B) -> bool)
    requires |s| == |t|
    requires forall i :: 0 <= i < |s| ==> rel(s[i], t[i]) && q(t[i]) == p(s[i])
    ensures |Filter(t, q)| == |Filter(s, p)|
    ensures forall k :: 0 <= k < |Filter(s, p)| ==> rel(Filter(s, p)[k], Filter(t, q)[k])
  {
    if s != [] {
      var s', t' := s[1..], t[1..];
      assert forall i :: 0 <= i < |s'| ==> s'[i] == s[i + 1] && t'[i] == t[i + 1];
      FilterAligned(s', t', p, q, rel);
      var fs, ft := Filter(s', p), Filter(t', q);
      assert Filter(s, p) == (if p(s[0]) then [s[0]] else []) + fs;
      assert Filter(t, q) == (if p(s[0]) then [t[0]] else []) + ft;
      if p(s[0]) {
        forall k | 0 <= k < |Filter(s, p)| ensures rel(Filter(s, p)[k], Filter(t, q)[k]) {
          if k > 0 {
            assert Filter(s, p)[k] == fs[k - 1] && Filter(t, q)[k] == ft[k - 1];
          }
        }
      }
    }
  }

  /** A mask that refuses all of `m` and passes all of `a` and `b` removes exactly `m` from `a + m + b`. */
  lemma {:induction false} FilterDropsMiddle<T>(a: seq<T>, m: seq<T>, b: seq<T>, p: T -> bool)
    requires forall i :: 0 <= i < |a| ==> p(a[i])
    requires forall i :: 0 <= i < |m| ==> !p(m[i])
    requires forall i :: 0 <= i < |b| ==> p(b[i])
    ensures Filter(a + m + b, p) == a + b
  {
    FilterAppend(a + m, b, p);
    FilterAppend(a, m, p);
    FilterKeepsAll(a, p);
    FilterKeepsAll(b, p);
    FilterNone(m, p);
    calc {
      Filter(a + m + b, p);
      Filter(a + m, p) + Filter(b, p);
      (Filter(a, p) + Filter(m, p)) + Filter(b, p);
      (a + []) + b;
    }
    assert a + [] == a;
  }

  /** A mask that refuses everything selects nothing. */
  lemma {:induction false} FilterNone<T>(s: seq<T>, p: T -> bool)
    requires forall i :: 0 <= i < |s| ==> !p(s[i])
    ensures Filter(s, p) == []
  {
    if s != [] {
      FilterNone(s[1..], p);
    }
  }

  /** Two masks that never both hold select, together, at most the whole sequence. */
  lemma {:induction false} FilterExclusive<T>(s: seq<T>, p: T -> bool, q: T -> bool)
    requires forall i :: 0 <= i < |s| ==> !(p(s[i]) && q(s[i]))
    ensures |Filter(s, p)| + |Filter(s, q)| <= |s|
  {
    if s != [] {
      FilterExclusive(s[1..], p, q);
    }
  }

  /** Selecting twice with the same mask selects nothing more. */
  lemma {:induction false} FilterIdempotent<T>(s: seq<T>, p: T -> bool)
    ensures Filter(Filter(s, p), p) == Filter(s, p)
  {
    if s != [] {
      FilterIdempotent(s[1..], p);
      var head := if p(s[0]) then [s[0]] else [];
      FilterAppend(head, Filter(s[1..], p), p);
    }
  }

  /** A mask that holds everywhere keeps the whole sequence. */
  lemma {:induction false} FilterKeepsAll<T>(s: seq<T>, p: T -> bool)
    requires forall i :: 0 <= i < |s| ==> p(s[i])
    ensures Filter(s, p) == s
  {
    if s != [] {
      FilterKeepsAll(s[1..], p);
    }
  }

  /** Selection of a duplicate-free sequence is duplicate-free. */
  lemma {:induction false} FilterDistinct<T>(s: seq<T>, p: T -> bool)
    requires Distinct(s)
    ensures Distinct(Filter(s, p))
  {
    if s != [] {
      FilterDistinct(s[1..], p);
      assert s[0] !in s[1..];
      FilterMember(s[1..], p, s[0]);
    }
  }

  /** The position of the first occurrence of `x` in `s`. */
  function FirstIndex<T(==)>(s: seq<T>, x: T): (k: nat)
    requires x in s
    ensures k < |s| && s[k] == x
    ensures forall j :: 0 <= j < k ==> s[j] != x
  {
    if s[0] == x then 0 else 1 + FirstIndex(s[1..], x)
  }

  /** The position of the first element `p` rejects; the length of `s` when it accepts them all. */
  function FirstRejected<T>(s: seq<T>, p: T -> bool): (k: nat)
    ensures k <= |s|
    ensures forall j :: 0 <= j < k ==> p(s[j])
    ensures k < |s| ==> !p(s[k])
  {
    if s == [] || !p(s[0]) then 0 else 1 + FirstRejected(s[1..], p)
  }

  /** The first occurrence in a prefix is the first occurrence in the whole. */
  lemma FirstIndexPrefix<T>(s: seq<T>, n: nat, x: T)
    requires n <= |s| && x in s[..n]
    ensures FirstIndex(s, x) == FirstIndex(s[..n], x) < n
  {
    var b := FirstIndex(s[..n], x);
    assert s[b] == x;
    assert forall j :: 0 <= j < b ==> s[..n][j] == s[j];
  }

  /**
   * The distinct elements of `s` in order of first appearance (pandas' `unique`,
   * or the insertion order of the keys of a dict built from `s`).
   */
  function Dedup<T(==)>(s: seq<T>): (r: seq<T>)
    ensures Distinct(r)
    ensures forall i :: 0 <= i < |r| ==> r[i] in s
    ensures forall i :: 0 <= i < |s| ==> s[i] in r
    decreases |s|
  {
    if s == [] then []
    else
      var init, last := s[..|s| - 1], s[|s| - 1];
      assert s == init + [last];
      var d := Dedup(init);
      if last in d then d else d + [last]
  }

  /** De-duplication keeps elements in the order of their first occurrence. */
  lemma {:induction false} DedupFirstAppearance<T>(s: seq<T>)
    ensures forall i, j :: 0 <= i < j < |Dedup(s)| ==>
      FirstIndex(s, Dedup(s)[i]) < FirstIndex(s, Dedup(s)[j])
  {
    if s != [] {
      var n := |s| - 1;
      var init, last := s[..n], s[n];
      assert s == init + [last];
      DedupFirstAppearance(init);
      var d, r := Dedup(init), Dedup(s);
      forall i, j | 0 <= i < j < |r|
        ensures FirstIndex(s, r[i]) < FirstIndex(s, r[j])
      {
        assert r[i] in d;
        FirstIndexPrefix(s, n, r[i]);
        if j < |d| {
          FirstIndexPrefix(s, n, r[j]);
        } else {
          assert r[j] == last && last !in init;
          assert FirstIndex(s, last) == n;
        }
      }
    }
  }

  /** A duplicate-free sequence is its own de-duplication. */
  lemma {:induction false} DedupOfDistinct<T>(s: seq<T>)
    requires Distinct(s)
    ensures Dedup(s) == s
  {
    if s != [] {
      var init, last := s[..|s| - 1], s[|s| - 1];
      assert s == init + [last];
      assert Distinct(init);
      DedupOfDistinct(init);
    }
  }

  /** Python's `sep.join(parts)`. */
  function Join(sep: string, parts: seq<string>): string
  {
    if |parts| == 0 then ""
    else if |parts| == 1 then parts[0]
    else parts[0] + sep + Join(sep, parts[1..])
  }
}
