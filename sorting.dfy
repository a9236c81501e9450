/**
 * The sorts onFilter applies: Array.prototype.sort, which is stable, with a
 * comparator on the timestamp, on the path or on the status code. A run of
 * stable sorts leaves the records ordered lexicographically by the keys,
 * the key sorted last deciding first.
 */
module Sorting {
  import opened Text
  import opened Records
  import opened Seqs

  /** The three comparators of onFilter. */
  datatype SortKey = ByTimestamp | ByPath | ByStatus

  /** The comparator of k does not put b before a (it returns <= 0 for a, b). */
  predicate Le(k: SortKey, a: Record, b: Record) {
    match k
    case ByTimestamp => a.timestamp <= b.timestamp
    case ByPath => StrLe(a.path, b.path)
    case ByStatus => a.statusCode <= b.statusCode
  }

  /** The comparator of k returns 0: a and b tie on that key. */
  predicate SameKey(k: SortKey, a: Record, b: Record) {
    Le(k, a, b) && Le(k, b, a)
  }

  lemma LeReflexive(k: SortKey, a: Record)
    ensures Le(k, a, a)
  {
    StrLeReflexive(a.path);
  }

  lemma LeTotal(k: SortKey, a: Record, b: Record)
    ensures Le(k, a, b) || Le(k, b, a)
  {
    StrLeTotal(a.path, b.path);
  }

  lemma LeTransitive(k: SortKey, a: Record, b: Record, c: Record)
    requires Le(k, a, b) && Le(k, b, c)
    ensures Le(k, a, c)
  {
    if k == ByPath {
      StrLeTransitive(a.path, b.path, c.path);
    }
  }

  /** Two records tie on a key exactly when that field is equal. */
  lemma SameKeyIff(k: SortKey, a: Record, b: Record)
    ensures SameKey(k, a, b) <==> match k
      case ByTimestamp => a.timestamp == b.timestamp
      case ByPath => a.path == b.path
      case ByStatus => a.statusCode == b.statusCode
  {
    if k == ByPath {
      StrLeReflexive(a.path);
      if SameKey(k, a, b) {
        StrLeAntisymmetric(a.path, b.path);
      }
    }
  }

  /** s is ordered by the comparator of k. */
  ghost predicate Sorted(k: SortKey, s: seq<Record>) {
    forall i, j :: 0 <= i < j < |s| ==> Le(k, s[i], s[j])
  }

  /** Lexicographic order on several keys: the first key decides, the later ones break ties. */
  predicate LexLe(ks: seq<SortKey>, a: Record, b: Record)
    decreases |ks|
  {
    ks == [] || (Le(ks[0], a, b) && (SameKey(ks[0], a, b) ==> LexLe(ks[1..], a, b)))
  }

  /** a and b tie on every key of ks. */
  predicate Ties(ks: seq<SortKey>, a: Record, b: Record)
    decreases |ks|
  {
    ks == [] || (SameKey(ks[0], a, b) && Ties(ks[1..], a, b))
  }

  ghost predicate SortedLex(ks: seq<SortKey>, s: seq<Record>) {
    forall i, j :: 0 <= i < j < |s| ==> LexLe(ks, s[i], s[j])
  }

  function LexOrder(ks: seq<SortKey>): (Record, Record) -> bool {
    (a, b) => LexLe(ks, a, b)
  }

  /** The records that tie with x on key k. */
  function KeyClass(k: SortKey, x: Record): Record -> bool {
    y => SameKey(k, y, x)
  }

  /** The records that tie with x on every key of ks. */
  function TieClass(ks: seq<SortKey>, x: Record): Record -> bool {
    y => Ties(ks, y, x)
  }

  lemma {:induction false} LexLeReflexive(ks: seq<SortKey>, a: Record)
    ensures LexLe(ks, a, a)
    decreases |ks|
  {
    if ks != [] {
      LeReflexive(ks[0], a);
      LexLeReflexive(ks[1..], a);
    }
  }

  lemma {:induction false} TiesReflexive(ks: seq<SortKey>, a: Record)
    ensures Ties(ks, a, a)
    decreases |ks|
  {
    if ks != [] {
      LeReflexive(ks[0], a);
      TiesReflexive(ks[1..], a);
    }
  }

  /** Records that tie on all of ks tie on each key of ks. */
  lemma {:induction false} TiesOnEach(ks: seq<SortKey>, k: SortKey, a: Record, b: Record)
    requires k in ks && Ties(ks, a, b)
    ensures SameKey(k, a, b)
    decreases |ks|
  {
    if ks[0] != k {
      TiesOnEach(ks[1..], k, a, b);
    }
  }

  /** Records ordered both ways lexicographically tie on every key. */
  lemma {:induction false} LexLeAntisymmetric(ks: seq<SortKey>, a: Record, b: Record)
    requires LexLe(ks, a, b) && LexLe(ks, b, a)
    ensures Ties(ks, a, b)
    decreases |ks|
  {
    if ks != [] {
      LexLeAntisymmetric(ks[1..], a, b);
    }
  }

  /** Ordering by one key is the lexicographic order on that key alone. */
  lemma SortedSingle(k: SortKey, s: seq<Record>)
    ensures Sorted(k, s) <==> SortedLex([k], s)
  {
    assert [k][1..] == [];
    forall a, b ensures LexLe([k], a, b) == Le(k, a, b) {
      assert LexLe([][..], a, b);
    }
  }

  /** Insert x after every element of t that does not sort after it. */
  function Insert(k: SortKey, t: seq<Record>, x: Record): seq<Record>
    decreases |t|
  {
    if t == [] || Le(k, t[|t| - 1], x) then t + [x]
    else Insert(k, t[..|t| - 1], x) + [t[|t| - 1]]
  }

  /** Array.prototype.sort with the comparator of k, as a stable insertion sort. */
  function SortBy(k: SortKey, s: seq<Record>): seq<Record>
    decreases |s|
  {
    if s == [] then [] else Insert(k, SortBy(k, s[..|s| - 1]), s[|s| - 1])
  }

  lemma {:induction false} InsertMultiset(k: SortKey, t: seq<Record>, x: Record)
    ensures multiset(Insert(k, t, x)) == multiset(t) + multiset{x}
    decreases |t|
  {
    if !(t == [] || Le(k, t[|t| - 1], x)) {
      InsertMultiset(k, t[..|t| - 1], x);
      SplitLast(t);
    }
  }

  lemma {:induction false} InsertSorted(k: SortKey, t: seq<Record>, x: Record)
    requires Sorted(k, t)
    ensures Sorted(k, Insert(k, t, x))
    decreases |t|
  {
    var r := Insert(k, t, x);
    if t == [] || Le(k, t[|t| - 1], x) {
      forall i, j | 0 <= i < j < |r|
        ensures Le(k, r[i], r[j])
      {
        if j == |t| && i < |t| - 1 {
          LeTransitive(k, t[i], t[|t| - 1], x);
        }
      }
    } else {
      var init, last := t[..|t| - 1], t[|t| - 1];
      InsertSorted(k, init, x);
      InsertMultiset(k, init, x);
      var r' := Insert(k, init, x);
      LeTotal(k, last, x);
      forall i, j | 0 <= i < j < |r|
        ensures Le(k, r[i], r[j])
      {
        if j == |r'| {
          assert r[i] in multiset(r');
          if r[i] != x {
            assert r[i] in init;
          }
        }
      }
    }
  }

  /**
   * Inserting x adds it behind the records of its own key class and moves
   * nothing within any class: insertion is stable.
   */
  lemma {:induction false} InsertClass(k: SortKey, t: seq<Record>, x: Record, z: Record)
    ensures Filter(Insert(k, t, x), KeyClass(k, z))
         == Filter(t, KeyClass(k, z)) + (if SameKey(k, x, z) then [x] else [])
    decreases |t|
  {
    var c := KeyClass(k, z);
    if t == [] || Le(k, t[|t| - 1], x) {
      FilterConcat(t, [x], c);
    } else {
      var init, last := t[..|t| - 1], t[|t| - 1];
      var cx := if SameKey(k, x, z) then [x] else [];
      var cl := if SameKey(k, last, z) then [last] else [];
      if SameKey(k, x, z) && SameKey(k, last, z) {
        LeTransitive(k, last, z, x);
        assert false;
      }
      InsertClass(k, init, x, z);
      FilterSnoc(Insert(k, init, x), last, c);
      FilterSnoc(init, last, c);
      SplitLast(t);
      AppendSwap(Filter(init, c), cx, cl);
    }
  }

  /**
   * SortBy is a stable sort: the result is ordered by k, is a permutation
   * of the input, and keeps every key class in input order.
   */
  lemma SortByCorrect(k: SortKey, s: seq<Record>)
    ensures Sorted(k, SortBy(k, s))
    ensures multiset(SortBy(k, s)) == multiset(s)
    ensures forall z :: Filter(SortBy(k, s), KeyClass(k, z)) == Filter(s, KeyClass(k, z))
  {
    SortBySorted(k, s);
    SortByMultiset(k, s);
    forall z ensures Filter(SortBy(k, s), KeyClass(k, z)) == Filter(s, KeyClass(k, z)) {
      SortByStable(k, s, z);
    }
  }

  lemma {:induction false} SortBySorted(k: SortKey, s: seq<Record>)
    ensures Sorted(k, SortBy(k, s))
    decreases |s|
  {
    if s != [] {
      SortBySorted(k, s[..|s| - 1]);
      InsertSorted(k, SortBy(k, s[..|s| - 1]), s[|s| - 1]);
    }
  }

  lemma {:induction false} SortByMultiset(k: SortKey, s: seq<Record>)
    ensures multiset(SortBy(k, s)) == multiset(s)
    decreases |s|
  {
    if s != [] {
      var init, x := s[..|s| - 1], s[|s| - 1];
      SortByMultiset(k, init);
      InsertMultiset(k, SortBy(k, init), x);
      SplitLast(s);
    }
  }

  lemma {:induction false} SortByStable(k: SortKey, s: seq<Record>, z: Record)
    ensures Filter(SortBy(k, s), KeyClass(k, z)) == Filter(s, KeyClass(k, z))
    decreases |s|
  {
    if s != [] {
      var init, x := s[..|s| - 1], s[|s| - 1];
      SortByStable(k, init, z);
      InsertClass(k, SortBy(k, init), x, z);
      FilterSnoc(init, x, KeyClass(k, z));
      SplitLast(s);
    }
  }

  /**
   * A stable sort by k of a sequence ordered by ks leaves it ordered by
   * k first and ks among ties: the key sorted last takes precedence.
   */
  lemma SortByExtends(k: SortKey, ks: seq<SortKey>, s: seq<Record>)
    requires SortedLex(ks, s)
    ensures SortedLex([k] + ks, SortBy(k, s))
  {
    var t := SortBy(k, s);
    SortByCorrect(k, s);
    forall i, j | 0 <= i < j < |t|
      ensures LexLe([k] + ks, t[i], t[j])
    {
      assert ([k] + ks)[1..] == ks;
      if SameKey(k, t[i], t[j]) {
        var c := KeyClass(k, t[i]);
        LeReflexive(k, t[i]);
        FilterKeepsOrdered(s, c, LexOrder(ks));
        assert Filter(t, c) == Filter(s, c);
        FilterOrderedPair(t, c, LexOrder(ks), i, j);
      }
    }
  }

  /** A stable sort by k changes nothing within a set of records that all tie with x on k. */
  lemma SortByKeepsClassOrder(k: SortKey, s: seq<Record>, x: Record, q: Record -> bool)
    requires forall y :: q(y) ==> SameKey(k, y, x)
    ensures Filter(SortBy(k, s), q) == Filter(s, q)
  {
    SortByCorrect(k, s);
    FilterNarrow(SortBy(k, s), KeyClass(k, x), q);
    FilterNarrow(s, KeyClass(k, x), q);
  }

  /** Filtering keeps a lexicographically ordered sequence ordered. */
  lemma FilterKeepsSortedLex(ks: seq<SortKey>, s: seq<Record>, p: Record -> bool)
    requires SortedLex(ks, s)
    ensures SortedLex(ks, Filter(s, p))
  {
    FilterKeepsOrdered(s, p, LexOrder(ks));
  }

  lemma SortedLexTail(ks: seq<SortKey>, s: seq<Record>)
    requires s != [] && SortedLex(ks, s)
    ensures SortedLex(ks, s[1..])
  {
    forall i, j | 0 <= i < j < |s| - 1
      ensures LexLe(ks, s[1..][i], s[1..][j])
    {
      assert s[1..][i] == s[i + 1] && s[1..][j] == s[j + 1];
    }
  }

  /** Ordered permutations that agree on each tie class start with the same record. */
  lemma SortedTiesSameHead(ks: seq<SortKey>, a: seq<Record>, b: seq<Record>)
    requires a != [] && multiset(a) == multiset(b)
    requires SortedLex(ks, a) && SortedLex(ks, b)
    requires forall x :: Filter(a, TieClass(ks, x)) == Filter(b, TieClass(ks, x))
    ensures b != [] && a[0] == b[0]
  {
    assert |b| == |multiset(b)| == |multiset(a)| == |a|;
    var a0, b0 := a[0], b[0];
    assert b0 in multiset(a);
    assert a0 in multiset(b);
    LexLeReflexive(ks, a0);
    LexLeReflexive(ks, b0);
    assert LexLe(ks, a0, b0) && LexLe(ks, b0, a0);
    LexLeAntisymmetric(ks, b0, a0);
    TiesReflexive(ks, a0);
    var c := TieClass(ks, a0);
    assert Filter(a, c) == [a0] + Filter(a[1..], c);
    assert Filter(b, c) == [b0] + Filter(b[1..], c);
    assert a0 == Filter(a, c)[0] == Filter(b, c)[0] == b0;
  }

  /** Dropping a common first record keeps the tie classes in agreement. */
  lemma TieClassesOfTails(ks: seq<SortKey>, a: seq<Record>, b: seq<Record>)
    requires a != [] && b != [] && a[0] == b[0]
    requires forall x :: Filter(a, TieClass(ks, x)) == Filter(b, TieClass(ks, x))
    ensures forall x :: Filter(a[1..], TieClass(ks, x)) == Filter(b[1..], TieClass(ks, x))
  {
    forall x ensures Filter(a[1..], TieClass(ks, x)) == Filter(b[1..], TieClass(ks, x)) {
      var cx := TieClass(ks, x);
      var h := if cx(a[0]) then [a[0]] else [];
      assert Filter(a, cx) == h + Filter(a[1..], cx);
      assert Filter(b, cx) == h + Filter(b[1..], cx);
      assert Filter(a, cx) == Filter(b, cx);
      assert Filter(a[1..], cx) == (h + Filter(a[1..], cx))[|h|..];
      assert Filter(b[1..], cx) == (h + Filter(b[1..], cx))[|h|..];
    }
  }

  /** Permutations with the same first record have permuted tails. */
  lemma MultisetTails(a: seq<Record>, b: seq<Record>)
    requires a != [] && b != [] && a[0] == b[0] && multiset(a) == multiset(b)
    ensures multiset(a[1..]) == multiset(b[1..])
  {
    assert a == [a[0]] + a[1..] && b == [b[0]] + b[1..];
    assert multiset(a[1..]) == multiset(a) - multiset{a[0]};
    assert multiset(b[1..]) == multiset(b) - multiset{a[0]};
  }

  /**
   * Two orderings of the same records that are both ordered by ks and agree
   * on the order within each class of full ties are the same sequence.
   */
  lemma {:induction false} SortedTiesUnique(ks: seq<SortKey>, a: seq<Record>, b: seq<Record>)
    requires multiset(a) == multiset(b)
    requires SortedLex(ks, a) && SortedLex(ks, b)
    requires forall x :: Filter(a, TieClass(ks, x)) == Filter(b, TieClass(ks, x))
    ensures a == b
    decreases |a|
  {
    if a == [] {
      assert |b| == |multiset(b)| == 0;
    } else {
      SortedTiesSameHead(ks, a, b);
      MultisetTails(a, b);
      TieClassesOfTails(ks, a, b);
      SortedLexTail(ks, a);
      SortedLexTail(ks, b);
      SortedTiesUnique(ks, a[1..], b[1..]);
    }
  }
}
