/**
 * Queryset operations over in-memory tables: `filter`, `first`/`get`, the
 * `Sum` aggregate (with the `or 0` default) and key uniqueness.
 */
module Seqs {
  import opened Wrappers

  /** The rows of `s` that satisfy `p`, in their original order (`queryset.filter(...)`). */
  function Filter<T(!new)>(s: seq<T>, p: T -> bool): (r: seq<T>)
    ensures |r| <= |s|
    ensures forall x :: x in r <==> x in s && p(x)
  {
    if s == [] then [] else (if p(s[0]) then [s[0]] else []) + Filter(s[1..], p)
  }

  /** The first row of `s` that satisfies `p`, if any (`queryset.filter(...).first()`). */
  function Find<T(!new)>(s: seq<T>, p: T -> bool): (r: Option<T>)
    ensures r.Some? ==> r.value in s && p(r.value)
    ensures r.None? <==> forall x :: x in s ==> !p(x)
  {
    if s == [] then None else if p(s[0]) then Some(s[0]) else Find(s[1..], p)
  }

  /** The sum of `f` over the rows of `s`; 0 for no rows (`aggregate(Sum(...))['total'] or 0`). */
  function SumOf<T>(s: seq<T>, f: T -> int): int
  {
    if s == [] then 0 else f(s[0]) + SumOf(s[1..], f)
  }

  /** No two rows of `s` share a `key` (a primary key or a one-to-one column). */
  predicate Unique<T, K(==)>(s: seq<T>, key: T -> K)
  {
    forall i, j :: 0 <= i < j < |s| ==> key(s[i]) != key(s[j])
  }

  /** The set of `key` values present in `s`. */
  function Keys<T(==,!new), K(==)>(s: seq<T>, key: T -> K): (ks: set<K>)
    ensures forall x :: x in s ==> key(x) in ks
    ensures forall k :: k in ks ==> exists x :: x in s && key(x) == k
  {
    set x | x in s :: key(x)
  }

  lemma {:induction false} FilterAppend<T(!new)>(a: seq<T>, b: seq<T>, p: T -> bool)
    ensures Filter(a + b, p) == Filter(a, p) + Filter(b, p)
  {
    if a == [] {
      assert a + b == b;
    } else {
      assert (a + b)[1..] == a[1..] + b;
      FilterAppend(a[1..], b, p);
    }
  }

  /** Two predicates that agree on every row select the same rows. */
  lemma {:induction false} FilterCongruent<T(!new)>(s: seq<T>, p: T -> bool, q: T -> bool)
    requires forall x :: x in s ==> p(x) == q(x)
    ensures Filter(s, p) == Filter(s, q)
  {
    if s != [] {
      FilterCongruent(s[1..], p, q);
    }
  }

  /** Chaining two filters is one filter on their conjunction. */
  lemma {:induction false} FilterFusion<T(!new)>(s: seq<T>, p: T -> bool, q: T -> bool, pq: T -> bool)
    requires forall x :: pq(x) == (p(x) && q(x))
    ensures Filter(Filter(s, p), q) == Filter(s, pq)
  {
    if s != [] {
      FilterFusion(s[1..], p, q, pq);
      assert pq(s[0]) == (p(s[0]) && q(s[0]));
      var t := Filter(s, p);
      if p(s[0]) {
        assert t == [s[0]] + Filter(s[1..], p);
        assert t[0] == s[0] && t[1..] == Filter(s[1..], p);
      } else {
        assert t == Filter(s[1..], p);
      }
    }
  }

  /** A filter that every row passes changes nothing. */
  lemma {:induction false} FilterAll<T(!new)>(s: seq<T>, p: T -> bool)
    requires forall x :: x in s ==> p(x)
    ensures Filter(s, p) == s
  {
    if s != [] {
      FilterAll(s[1..], p);
    }
  }

  /** A filter that no row passes selects nothing. */
  lemma {:induction false} FilterNone<T(!new)>(s: seq<T>, p: T -> bool)
    requires forall x :: x in s ==> !p(x)
    ensures Filter(s, p) == []
  {
    if s != [] {
      FilterNone(s[1..], p);
    }
  }

  /** A subsequence of a table with unique keys keeps unique keys. */
  lemma {:induction false} FilterUnique<T(!new), K>(s: seq<T>, p: T -> bool, key: T -> K)
    requires Unique(s, key)
    ensures Unique(Filter(s, p), key)
  {
    if s != [] {
      FilterUnique(s[1..], p, key);
      var rest := Filter(s[1..], p);
      if p(s[0]) {
        var r := [s[0]] + rest;
        assert Filter(s, p) == r;
        forall i, j | 0 <= i < j < |r| ensures key(r[i]) != key(r[j]) {
          if i == 0 {
            assert r[j] in s[1..];
          }
        }
      }
    }
  }

  /** One more than the largest key in use, so never a key of `s`. */
  function NextKey<T(!new)>(s: seq<T>, key: T -> int): (k: int)
    ensures k > 0
    ensures forall x :: x in s ==> key(x) < k
  {
    if s == [] then 1 else
      var k' := NextKey(s[1..], key);
      if key(s[0]) < k' then k' else key(s[0]) + 1
  }

  /** Filtering rows whose value is non-negative can only lower the sum. */
  lemma {:induction false} SumOfFilterLe<T(!new)>(s: seq<T>, p: T -> bool, f: T -> int)
    requires forall x :: x in s ==> f(x) >= 0
    ensures SumOf(Filter(s, p), f) <= SumOf(s, f)
  {
    if s != [] {
      SumOfFilterLe(s[1..], p, f);
      var t := Filter(s, p);
      assert f(s[0]) >= 0;
      if p(s[0]) {
        assert t == [s[0]] + Filter(s[1..], p);
        assert t[0] == s[0] && t[1..] == Filter(s[1..], p);
      } else {
        assert t == Filter(s[1..], p);
      }
    }
  }

  /** The first match in `a + b` is the first match in `a`, else the first in `b`. */
  lemma {:induction false} FindAppend<T(!new)>(a: seq<T>, b: seq<T>, p: T -> bool)
    ensures Find(a + b, p) == if Find(a, p).Some? then Find(a, p) else Find(b, p)
  {
    if a == [] {
      assert a + b == b;
    } else {
      assert (a + b)[0] == a[0] && (a + b)[1..] == a[1..] + b;
      FindAppend(a[1..], b, p);
    }
  }

  /** A sum of non-negative values is non-negative. */
  lemma {:induction false} SumOfNonNegative<T>(s: seq<T>, f: T -> int)
    requires forall i :: 0 <= i < |s| ==> f(s[i]) >= 0
    ensures SumOf(s, f) >= 0
  {
    if s != [] {
      SumOfNonNegative(s[1..], f);
    }
  }

  /** When every value is at least 1, the sum is at least the number of rows. */
  lemma {:induction false} SumOfAtLeastCount<T>(s: seq<T>, f: T -> int)
    requires forall i :: 0 <= i < |s| ==> f(s[i]) >= 1
    ensures SumOf(s, f) >= |s|
  {
    if s != [] {
      SumOfAtLeastCount(s[1..], f);
    }
  }

  /** Appending a row whose key is new keeps the keys unique. */
  lemma UniqueAppend<T, K>(s: seq<T>, x: T, key: T -> K)
    requires Unique(s, key)
    requires forall i :: 0 <= i < |s| ==> key(s[i]) != key(x)
    ensures Unique(s + [x], key)
  {
  }

  /** The keys of `s + [x]` are the keys of `s` and the key of `x`. */
  lemma KeysAppend<T(!new), K>(s: seq<T>, x: T, key: T -> K)
    ensures Keys(s + [x], key) == Keys(s, key) + {key(x)}
  {
    assert forall y :: y in s + [x] <==> y in s || y == x;
  }

  /** Rows with unique keys that all share one key are at most one row. */
  lemma UniqueSameKey<T, K>(s: seq<T>, key: T -> K, k: K)
    requires Unique(s, key)
    requires forall i :: 0 <= i < |s| ==> key(s[i]) == k
    ensures |s| <= 1
  {
    if |s| >= 2 {
      UniquePair(s, key, 0, 1);
      assert false;
    }
  }

  lemma UniquePair<T, K>(s: seq<T>, key: T -> K, i: int, j: int)
    ensures Unique(s, key) && 0 <= i < j < |s| ==> key(s[i]) != key(s[j])
  {
  }
}
