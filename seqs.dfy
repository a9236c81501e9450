/**
 * Array.prototype.filter as a function on sequences, and the facts about it
 * that the table filter, the chart projection and the counters use.
 */
module Seqs {

  /** The elements of s that satisfy p, in their original order. */
  function Filter<T>(s: seq<T>, p: T -> bool): (r: seq<T>)
    ensures |r| <= |s|
  {
    if s == [] then [] else (if p(s[0]) then [s[0]] else []) + Filter(s[1..], p)
  }

  /** A non-empty sequence is its front followed by its last element. */
  lemma SplitLast<T>(s: seq<T>)
    requires s != []
    ensures s == s[..|s| - 1] + [s[|s| - 1]]
  {
  }

  lemma {:induction false} FilterConcat<T>(a: seq<T>, b: seq<T>, p: T -> bool)
    ensures Filter(a + b, p) == Filter(a, p) + Filter(b, p)
    decreases |a|
  {
    if a != [] {
      FilterConcat(a[1..], b, p);
      assert (a + b)[1..] == a[1..] + b;
    } else {
      assert a + b == b;
    }
  }

  /** Filtering a sequence with one more element at its end. */
  lemma FilterSnoc<T>(s: seq<T>, y: T, p: T -> bool)
    ensures Filter(s + [y], p) == Filter(s, p) + (if p(y) then [y] else [])
  {
    FilterConcat(s, [y], p);
    assert [y][1..] == [];
  }

  /** Two appended pieces of which one is empty can be appended in either order. */
  lemma AppendSwap<T>(a: seq<T>, b: seq<T>, c: seq<T>)
    requires b == [] || c == []
    ensures a + b + c == a + c + b
  {
  }

  /** Filtering keeps each element that passes with its multiplicity and drops the others. */
  lemma {:induction false} FilterMultiset<T>(s: seq<T>, p: T -> bool)
    ensures forall x :: multiset(Filter(s, p))[x] == if p(x) then multiset(s)[x] else 0
    decreases |s|
  {
    if s != [] {
      FilterMultiset(s[1..], p);
      assert s == [s[0]] + s[1..];
    }
  }

  /** Every element of the filtered sequence is an element of s that passes. */
  lemma FilterMembers<T>(s: seq<T>, p: T -> bool)
    ensures forall x :: x in Filter(s, p) <==> x in s && p(x)
  {
    FilterMultiset(s, p);
    forall x ensures x in Filter(s, p) <==> x in s && p(x) {
      assert x in Filter(s, p) <==> multiset(Filter(s, p))[x] > 0;
      assert x in s <==> multiset(s)[x] > 0;
    }
  }

  lemma FilterMember<T>(s: seq<T>, p: T -> bool, x: T)
    requires x in Filter(s, p)
    ensures x in s && p(x)
  {
    FilterMembers(s, p);
  }

  /** The filtered sequence is non-empty exactly when some element passes. */
  lemma FilterNonEmpty<T>(s: seq<T>, p: T -> bool)
    ensures |Filter(s, p)| > 0 <==> exists x :: x in s && p(x)
  {
    FilterMembers(s, p);
    if |Filter(s, p)| > 0 {
      assert Filter(s, p)[0] in Filter(s, p);
    }
  }

  /** Filtering a sequence all of whose elements pass changes nothing. */
  lemma {:induction false} FilterAllPass<T>(s: seq<T>, p: T -> bool)
    requires forall x :: x in s ==> p(x)
    ensures Filter(s, p) == s
    decreases |s|
  {
    if s != [] {
      assert s[0] in s;
      assert forall x :: x in s[1..] ==> x in s;
      FilterAllPass(s[1..], p);
    }
  }

  /** Two tests that agree on the elements of s filter it alike. */
  lemma {:induction false} FilterCongruent<T>(s: seq<T>, p: T -> bool, q: T -> bool)
    requires forall x :: x in s ==> p(x) == q(x)
    ensures Filter(s, p) == Filter(s, q)
    decreases |s|
  {
    if s != [] {
      assert s[0] in s;
      assert forall x :: x in s[1..] ==> x in s;
      FilterCongruent(s[1..], p, q);
    }
  }

  /** Filtering by p and then by q is filtering by their conjunction pq. */
  lemma {:induction false} FilterFilter<T>(s: seq<T>, p: T -> bool, q: T -> bool, pq: T -> bool)
    requires forall x :: pq(x) == (p(x) && q(x))
    ensures Filter(Filter(s, p), q) == Filter(s, pq)
    decreases |s|
  {
    if s != [] {
      FilterFilter(s[1..], p, q, pq);
      var head := if p(s[0]) then [s[0]] else [];
      FilterConcat(head, Filter(s[1..], p), q);
      if p(s[0]) {
        assert Filter(head, q) == (if q(s[0]) then [s[0]] else []) + Filter([], q);
      }
    }
  }

  /** A second filter that only admits what the first one admits makes the first redundant. */
  lemma FilterNarrow<T>(s: seq<T>, p: T -> bool, q: T -> bool)
    requires forall x :: q(x) ==> p(x)
    ensures Filter(Filter(s, p), q) == Filter(s, q)
  {
    FilterFilter(s, p, q, q);
  }

  /**
   * If the filtered sequence is ordered by le, then any two passing
   * elements of s are related by le in the order they appear in s.
   */
  lemma {:induction false} FilterOrderedPair<T>(s: seq<T>, p: T -> bool, le: (T, T) -> bool, i: int, j: int)
    requires 0 <= i < j < |s| && p(s[i]) && p(s[j])
    requires forall m, n :: 0 <= m < n < |Filter(s, p)| ==> le(Filter(s, p)[m], Filter(s, p)[n])
    ensures le(s[i], s[j])
    decreases |s|
  {
    var f, rest := Filter(s, p), Filter(s[1..], p);
    if i == 0 {
      assert f == [s[0]] + rest;
      FilterMembers(s[1..], p);
      assert s[j] == s[1..][j - 1];
      assert s[j] in rest;
      var n :| 0 <= n < |rest| && rest[n] == s[j];
      assert f[0] == s[0] && f[n + 1] == s[j];
    } else {
      assert f == (if p(s[0]) then [s[0]] else []) + rest;
      forall m, n | 0 <= m < n < |rest|
        ensures le(rest[m], rest[n])
      {
        var k := if p(s[0]) then 1 else 0;
        assert rest[m] == f[m + k] && rest[n] == f[n + k];
      }
      FilterOrderedPair(s[1..], p, le, i - 1, j - 1);
    }
  }

  /** Filtering keeps a sequence ordered by le ordered. */
  lemma {:induction false} FilterKeepsOrdered<T>(s: seq<T>, p: T -> bool, le: (T, T) -> bool)
    requires forall m, n :: 0 <= m < n < |s| ==> le(s[m], s[n])
    ensures forall m, n :: 0 <= m < n < |Filter(s, p)| ==> le(Filter(s, p)[m], Filter(s, p)[n])
    decreases |s|
  {
    if s != [] {
      var rest := Filter(s[1..], p);
      forall m, n | 0 <= m < n < |s[1..]|
        ensures le(s[1..][m], s[1..][n])
      {
        assert s[1..][m] == s[m + 1] && s[1..][n] == s[n + 1];
      }
      FilterKeepsOrdered(s[1..], p, le);
      if p(s[0]) {
        FilterMembers(s[1..], p);
        var f := Filter(s, p);
        assert f == [s[0]] + rest;
        forall m, n | 0 <= m < n < |f|
          ensures le(f[m], f[n])
        {
          if m == 0 {
            assert f[n] == rest[n - 1];
            FilterMember(s[1..], p, rest[n - 1]);
            var j :| 0 <= j < |s[1..]| && s[1..][j] == rest[n - 1];
            assert s[j + 1] == f[n];
          } else {
            assert f[m] == rest[m - 1] && f[n] == rest[n - 1];
          }
        }
      }
    }
  }
}
