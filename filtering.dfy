/**
 * onFilter: the table's visible rows. The records are sorted by timestamp,
 * filtered by status code and by path, then optionally sorted by path and
 * optionally by status code.
 */
module Filtering {
  import opened Text
  import opened Records
  import opened Seqs
  import opened Sorting

  /** The four filter controls of the table. */
  datatype FilterState = FilterState(
    statusFilter: string,
    pathFilter: string,
    sortedOptions: bool,
    sortedStatus: bool)

  /** status_code.toString() === statusFilter */
  predicate StatusMatches(r: Record, statusFilter: string) {
    IntToString(r.statusCode) == statusFilter
  }

  /** path.toLowerCase().includes(pathFilter.toLowerCase()) */
  predicate PathMatches(r: Record, pathFilter: string) {
    Contains(Lower(r.path), Lower(pathFilter))
  }

  /** A record passes when each non-empty filter matches it. */
  predicate Passes(st: FilterState, r: Record) {
    && (st.statusFilter == "" || StatusMatches(r, st.statusFilter))
    && (st.pathFilter == "" || PathMatches(r, st.pathFilter))
  }

  function StatusTest(statusFilter: string): Record -> bool {
    r => StatusMatches(r, statusFilter)
  }

  function PathTest(pathFilter: string): Record -> bool {
    r => PathMatches(r, pathFilter)
  }

  function PassesTest(st: FilterState): Record -> bool {
    r => Passes(st, r)
  }

  /**
   * The order of the result: the key sorted last decides first. Status
   * code, if sorted by it, then path, if sorted by it, then timestamp.
   */
  function SortOrder(st: FilterState): (ks: seq<SortKey>)
    ensures |ks| >= 1 && ks[|ks| - 1] == ByTimestamp
  {
    (if st.sortedStatus then [ByStatus] else []) + (if st.sortedOptions then [ByPath] else []) + [ByTimestamp]
  }

  /** The result holds exactly the passing records, each as often as in the input. */
  ghost predicate KeepsPassing(tableData: seq<Record>, st: FilterState, filtered: seq<Record>) {
    forall x :: multiset(filtered)[x] == if Passes(st, x) then multiset(tableData)[x] else 0
  }

  /** Records that tie on every key of the order keep their input order. */
  ghost predicate TiesInInputOrder(tableData: seq<Record>, st: FilterState, filtered: seq<Record>) {
    forall x :: Filter(filtered, TieClass(SortOrder(st), x))
             == Filter(Filter(tableData, PassesTest(st)), TieClass(SortOrder(st), x))
  }

  /** Everything onFilter promises about its result. */
  ghost predicate IsFilterResult(tableData: seq<Record>, st: FilterState, filtered: seq<Record>) {
    && KeepsPassing(tableData, st, filtered)
    && SortedLex(SortOrder(st), filtered)
    && TiesInInputOrder(tableData, st, filtered)
  }

  /**
   * onFilter over a copy of tableData. Passing records only, with their
   * multiplicity; ordered by SortOrder(st); full ties in input order.
   */
  method OnFilter(tableData: seq<Record>, st: FilterState) returns (filtered: seq<Record>)
    ensures KeepsPassing(tableData, st, filtered)
    ensures SortedLex(SortOrder(st), filtered)
    ensures TiesInInputOrder(tableData, st, filtered)
  {
    filtered := tableData;
    filtered := SortBy(ByTimestamp, filtered);
    ghost var byTime := filtered;

    if st.statusFilter != "" {
      filtered := Filter(filtered, StatusTest(st.statusFilter));
    }
    if st.pathFilter != "" {
      filtered := Filter(filtered, PathTest(st.pathFilter));
    }
    PassingStage(st, byTime, filtered);
    ghost var passing := filtered;

    if st.sortedOptions {
      filtered := SortBy(ByPath, filtered);
    }
    if st.sortedStatus {
      filtered := SortBy(ByStatus, filtered);
    }
    SortingStages(tableData, st, passing, filtered);
  }

  /** The two filter steps of onFilter together keep exactly the passing records. */
  lemma PassingStage(st: FilterState, byTime: seq<Record>, filtered: seq<Record>)
    requires
      var afterStatus := if st.statusFilter != "" then Filter(byTime, StatusTest(st.statusFilter)) else byTime;
      filtered == if st.pathFilter != "" then Filter(afterStatus, PathTest(st.pathFilter)) else afterStatus
    ensures filtered == Filter(byTime, PassesTest(st))
  {
    var statusPass := (r: Record) => st.statusFilter == "" || StatusMatches(r, st.statusFilter);
    var pathPass := (r: Record) => st.pathFilter == "" || PathMatches(r, st.pathFilter);
    var afterStatus := if st.statusFilter != "" then Filter(byTime, StatusTest(st.statusFilter)) else byTime;
    if st.statusFilter != "" {
      FilterCongruent(byTime, StatusTest(st.statusFilter), statusPass);
    } else {
      FilterAllPass(byTime, statusPass);
    }
    if st.pathFilter != "" {
      FilterCongruent(afterStatus, PathTest(st.pathFilter), pathPass);
    } else {
      FilterAllPass(afterStatus, pathPass);
    }
    FilterFilter(byTime, statusPass, pathPass, PassesTest(st));
  }

  /** The sorts after the filters of onFilter, as a function of what the filters kept. */
  function ThenSorted(st: FilterState, passing: seq<Record>): seq<Record> {
    var byPath := if st.sortedOptions then SortBy(ByPath, passing) else passing;
    if st.sortedStatus then SortBy(ByStatus, byPath) else byPath
  }

  /** The sorts and filters of onFilter together. */
  lemma SortingStages(tableData: seq<Record>, st: FilterState, passing: seq<Record>, filtered: seq<Record>)
    requires passing == Filter(SortBy(ByTimestamp, tableData), PassesTest(st))
    requires filtered == ThenSorted(st, passing)
    ensures KeepsPassing(tableData, st, filtered)
    ensures SortedLex(SortOrder(st), filtered)
    ensures TiesInInputOrder(tableData, st, filtered)
  {
    MultiplicityStage(tableData, st);
    OrderStage(tableData, st);
    StabilityStage(tableData, st);
  }

  lemma MultiplicityStage(tableData: seq<Record>, st: FilterState)
    ensures KeepsPassing(tableData, st, ThenSorted(st, Filter(SortBy(ByTimestamp, tableData), PassesTest(st))))
  {
    var byTime := SortBy(ByTimestamp, tableData);
    var passing := Filter(byTime, PassesTest(st));
    var byPath := if st.sortedOptions then SortBy(ByPath, passing) else passing;
    SortByCorrect(ByTimestamp, tableData);
    FilterMultiset(byTime, PassesTest(st));
    SortByCorrect(ByPath, passing);
    SortByCorrect(ByStatus, byPath);
  }

  lemma OrderStage(tableData: seq<Record>, st: FilterState)
    ensures SortedLex(SortOrder(st), ThenSorted(st, Filter(SortBy(ByTimestamp, tableData), PassesTest(st))))
  {
    var byTime := SortBy(ByTimestamp, tableData);
    var passing := Filter(byTime, PassesTest(st));
    var byPath := if st.sortedOptions then SortBy(ByPath, passing) else passing;
    SortByCorrect(ByTimestamp, tableData);
    SortedSingle(ByTimestamp, byTime);
    FilterKeepsSortedLex([ByTimestamp], byTime, PassesTest(st));
    var pathOrder := (if st.sortedOptions then [ByPath] else []) + [ByTimestamp];
    if st.sortedOptions {
      SortByExtends(ByPath, [ByTimestamp], passing);
      assert pathOrder == [ByPath] + [ByTimestamp];
    }
    assert SortedLex(pathOrder, byPath);
    if st.sortedStatus {
      SortByExtends(ByStatus, pathOrder, byPath);
      assert [ByStatus] + pathOrder == SortOrder(st);
    } else {
      assert pathOrder == SortOrder(st);
    }
  }

  /** Records in one class of full ties tie on each key that was sorted. */
  lemma TieClassKeys(st: FilterState, x: Record, y: Record)
    requires Ties(SortOrder(st), y, x)
    ensures SameKey(ByTimestamp, y, x)
    ensures st.sortedOptions ==> SameKey(ByPath, y, x)
    ensures st.sortedStatus ==> SameKey(ByStatus, y, x)
  {
    var order := SortOrder(st);
    assert ByTimestamp == order[|order| - 1];
    TiesOnEach(order, ByTimestamp, y, x);
    if st.sortedOptions {
      assert ByPath in order;
      TiesOnEach(order, ByPath, y, x);
    }
    if st.sortedStatus {
      assert order[0] == ByStatus;
      TiesOnEach(order, ByStatus, y, x);
    }
  }

  lemma StabilityStage(tableData: seq<Record>, st: FilterState)
    ensures TiesInInputOrder(tableData, st, ThenSorted(st, Filter(SortBy(ByTimestamp, tableData), PassesTest(st))))
  {
    var order := SortOrder(st);
    var byTime := SortBy(ByTimestamp, tableData);
    var passing := Filter(byTime, PassesTest(st));
    var byPath := if st.sortedOptions then SortBy(ByPath, passing) else passing;
    var filtered := ThenSorted(st, passing);
    forall x ensures Filter(filtered, TieClass(order, x)) == Filter(Filter(tableData, PassesTest(st)), TieClass(order, x)) {
      var tie := TieClass(order, x);
      var both := (y: Record) => Passes(st, y) && Ties(order, y, x);
      forall y | tie(y) ensures SameKey(ByTimestamp, y, x) && (st.sortedOptions ==> SameKey(ByPath, y, x))
                             && (st.sortedStatus ==> SameKey(ByStatus, y, x)) {
        TieClassKeys(st, x, y);
      }
      if st.sortedStatus {
        SortByKeepsClassOrder(ByStatus, byPath, x, tie);
      }
      if st.sortedOptions {
        SortByKeepsClassOrder(ByPath, passing, x, tie);
      }
      assert Filter(filtered, tie) == Filter(passing, tie);
      FilterFilter(byTime, PassesTest(st), tie, both);
      forall y | both(y) ensures SameKey(ByTimestamp, y, x) {
        TieClassKeys(st, x, y);
      }
      SortByKeepsClassOrder(ByTimestamp, tableData, x, both);
      FilterFilter(tableData, PassesTest(st), tie, both);
    }
  }

  /** onFilter's contract determines its result: two results that meet it are equal. */
  lemma FilterResultUnique(tableData: seq<Record>, st: FilterState, a: seq<Record>, b: seq<Record>)
    requires IsFilterResult(tableData, st, a) && IsFilterResult(tableData, st, b)
    ensures a == b
  {
    assert multiset(a) == multiset(b) by {
      forall x ensures multiset(a)[x] == multiset(b)[x] { }
    }
    SortedTiesUnique(SortOrder(st), a, b);
  }

  /** Running onFilter again, with the same controls, on its own result changes nothing. */
  lemma FilterIdempotent(tableData: seq<Record>, st: FilterState, a: seq<Record>, b: seq<Record>)
    requires IsFilterResult(tableData, st, a) && IsFilterResult(a, st, b)
    ensures b == a
  {
    forall x | x in a ensures Passes(st, x) {
      assert multiset(a)[x] > 0;
    }
    FilterAllPass(a, PassesTest(st));
    forall x ensures multiset(a)[x] == if Passes(st, x) then multiset(a)[x] else 0 {
      if !Passes(st, x) {
        assert multiset(a)[x] == 0;
      }
    }
    assert IsFilterResult(a, st, a);
    FilterResultUnique(a, st, a, b);
  }

  /** When no record passes the filters, the table is empty. */
  lemma NoMatchGivesEmpty(tableData: seq<Record>, st: FilterState, filtered: seq<Record>)
    requires KeepsPassing(tableData, st, filtered)
    requires forall r :: r in tableData ==> !Passes(st, r)
    ensures filtered == []
  {
    forall x ensures multiset(filtered)[x] == 0 {
      if Passes(st, x) {
        assert x !in tableData;
      }
    }
    assert multiset(filtered) == multiset{};
  }

  /**
   * What SortOrder means for two records a (earlier) and b (later): by
   * status code when that sort is on; among equal codes, or when it is off,
   * by path when that sort is on; among the remaining ties, by timestamp.
   */
  predicate InTableOrder(st: FilterState, a: Record, b: Record) {
    var statusTie := !st.sortedStatus || a.statusCode == b.statusCode;
    var pathTie := !st.sortedOptions || a.path == b.path;
    && (st.sortedStatus ==> a.statusCode <= b.statusCode)
    && (st.sortedOptions && statusTie ==> StrLe(a.path, b.path))
    && (statusTie && pathTie ==> a.timestamp <= b.timestamp)
  }

  lemma {:induction false} LexLeTimestamp(a: Record, b: Record)
    ensures LexLe([ByTimestamp], a, b) <==> a.timestamp <= b.timestamp
  {
    assert [ByTimestamp][1..] == [];
  }

  lemma {:induction false} LexLePathFirst(a: Record, b: Record)
    ensures LexLe([ByPath, ByTimestamp], a, b)
        <==> StrLe(a.path, b.path) && (a.path == b.path ==> a.timestamp <= b.timestamp)
  {
    assert [ByPath, ByTimestamp][1..] == [ByTimestamp];
    LexLeTimestamp(a, b);
    SameKeyIff(ByPath, a, b);
  }

  /** SortOrder, taken lexicographically, is exactly InTableOrder. */
  lemma {:induction false} SortOrderMeaning(st: FilterState, a: Record, b: Record)
    ensures LexLe(SortOrder(st), a, b) <==> InTableOrder(st, a, b)
  {
    var pathOrder := (if st.sortedOptions then [ByPath] else []) + [ByTimestamp];
    if st.sortedOptions {
      assert pathOrder == [ByPath, ByTimestamp];
      LexLePathFirst(a, b);
      StrLeReflexive(a.path);
    } else {
      assert pathOrder == [ByTimestamp];
      LexLeTimestamp(a, b);
    }
    if st.sortedStatus {
      assert SortOrder(st) == [ByStatus] + pathOrder;
      assert ([ByStatus] + pathOrder)[1..] == pathOrder;
      SameKeyIff(ByStatus, a, b);
    } else {
      assert SortOrder(st) == pathOrder;
    }
  }

  /** Every earlier row of the table stands in InTableOrder to every later row. */
  lemma ResultOrder(tableData: seq<Record>, st: FilterState, filtered: seq<Record>)
    requires SortedLex(SortOrder(st), filtered)
    ensures forall i, j :: 0 <= i < j < |filtered| ==> InTableOrder(st, filtered[i], filtered[j])
  {
    forall i, j | 0 <= i < j < |filtered| ensures InTableOrder(st, filtered[i], filtered[j]) {
      SortOrderMeaning(st, filtered[i], filtered[j]);
    }
  }

  /** The status filter is an exact match: the rendering of n selects code n and nothing else. */
  lemma StatusFilterExact(r: Record, n: int)
    ensures StatusMatches(r, IntToString(n)) <==> r.statusCode == n
  {
    IntToStringInjective(r.statusCode, n);
  }

  lemma LowerSlice(s: string, i: int, j: int)
    requires 0 <= i <= j <= |s|
    ensures Lower(s)[i..j] == Lower(s[i..j])
  {
  }

  /**
   * The path filter ignores case: the filter matches exactly when its
   * lower-cased text occurs in the lower-cased path, and any occurrence of
   * the filter text as written is such an occurrence.
   */
  lemma PathFilterMeaning(r: Record, f: string)
    ensures PathMatches(r, f) <==> exists i :: OccursAt(Lower(r.path), Lower(f), i)
    ensures Contains(r.path, f) ==> PathMatches(r, f)
  {
    ContainsIff(Lower(r.path), Lower(f));
    ContainsIff(r.path, f);
    if Contains(r.path, f) {
      var i :| OccursAt(r.path, f, i);
      LowerSlice(r.path, i, i + |f|);
      assert OccursAt(Lower(r.path), Lower(f), i);
    }
  }

  lemma LowerIdempotent(s: string)
    ensures Lower(Lower(s)) == Lower(s)
  {
  }

  /** Filtering by a path or by its lower-cased form selects the same records. */
  lemma PathFilterCaseInsensitive(r: Record, f: string)
    ensures PathMatches(r, Lower(f)) == PathMatches(r, f)
  {
    LowerIdempotent(f);
  }
}
