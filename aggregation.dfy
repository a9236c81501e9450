/**
 * The three aggregations of the table over the whole record set: the
 * average response time per path, the error count per path and the number
 * of errors on one calendar day.
 */
module Aggregation {
  import opened Records
  import opened Seqs
  import opened Sums

  // ---------------------------------------------------------------------
  // Reference definitions, by recursion on all records but the last
  // ---------------------------------------------------------------------

  /** Number of records with path p. */
  function PathCount(data: seq<Record>, p: string): nat {
    if data == [] then 0
    else PathCount(data[..|data| - 1], p) + (if data[|data| - 1].path == p then 1 else 0)
  }

  /** Sum of the response times of the records with path p. */
  function PathTotal(data: seq<Record>, p: string): real {
    if data == [] then 0.0
    else PathTotal(data[..|data| - 1], p) + (if data[|data| - 1].path == p then data[|data| - 1].responseTime else 0.0)
  }

  /** Number of error records with path p. */
  function ErrorCount(data: seq<Record>, p: string): nat {
    if data == [] then 0
    else ErrorCount(data[..|data| - 1], p)
         + (if data[|data| - 1].path == p && IsError(data[|data| - 1].statusCode) then 1 else 0)
  }

  /** Sum of all response times. */
  function TotalResponseTime(data: seq<Record>): real {
    if data == [] then 0.0 else TotalResponseTime(data[..|data| - 1]) + data[|data| - 1].responseTime
  }

  /** Number of error records. */
  function TotalErrors(data: seq<Record>): nat {
    if data == [] then 0 else TotalErrors(data[..|data| - 1]) + (if IsError(data[|data| - 1].statusCode) then 1 else 0)
  }

  /** The distinct paths of the records. */
  function Paths(data: seq<Record>): set<string> {
    set r | r in data :: r.path
  }

  /** r is an error record whose formatted date is day. */
  predicate ErrorOnDate(r: Record, day: string) {
    IsError(r.statusCode) && FormatDate(r.date) == day
  }

  /** Number of error records whose formatted date is day. */
  function ErrorsOnDate(data: seq<Record>, day: string): (n: nat)
    ensures n <= |data|
  {
    if data == [] then 0
    else ErrorsOnDate(data[..|data| - 1], day) + (if ErrorOnDate(data[|data| - 1], day) then 1 else 0)
  }

  /** What getErrorCountByDate(data, targetDate) returns. */
  function ErrorCountByDate(data: seq<Record>, targetDate: string): nat {
    ErrorsOnDate(data, FormatTarget(targetDate))
  }

  lemma PathsSnoc(data: seq<Record>)
    requires data != []
    ensures Paths(data) == Paths(data[..|data| - 1]) + {data[|data| - 1].path}
  {
    assert data == data[..|data| - 1] + [data[|data| - 1]];
  }

  /** A path with no record has neither a count nor a total. */
  lemma {:induction false} AbsentPath(data: seq<Record>, p: string)
    requires p !in Paths(data)
    ensures PathCount(data, p) == 0 && PathTotal(data, p) == 0.0
    decreases |data|
  {
    if data != [] {
      PathsSnoc(data);
      AbsentPath(data[..|data| - 1], p);
    }
  }

  // ---------------------------------------------------------------------
  // calculateAverageResponseTimes
  // ---------------------------------------------------------------------

  /** The running { total, count } of one path. */
  datatype Group = Group(total: real, count: nat)

  /**
   * calculateAverageResponseTimes: group the records by path into running
   * totals and counts, then divide each total by its count. The keys are
   * exactly the distinct paths, every count is at least one, so no
   * division by zero happens, and each average is the mean of the path's
   * response times.
   */
  method CalculateAverageResponseTimes(data: seq<Record>) returns (averages: map<string, real>)
    ensures averages.Keys == Paths(data)
    ensures forall p :: p in averages ==>
      PathCount(data, p) >= 1 && averages[p] == Mean(Group(PathTotal(data, p), PathCount(data, p)))
  {
    var grouped := GroupByPath(data);
    averages := DivideGroups(grouped);
  }

  /** A mean a of c values adding up to t scales back to t. */
  lemma MeanTimesCount(a: real, c: nat, t: real)
    requires c >= 1 && a == Mean(Group(t, c))
    ensures a * (c as real) == t
  {
    DivideThenMultiply(t, c as real);
  }

  /** A path's average times its number of records is its total response time. */
  lemma AverageTimesCount(data: seq<Record>, p: string, a: real)
    requires PathCount(data, p) >= 1 && a == Mean(Group(PathTotal(data, p), PathCount(data, p)))
    ensures a * (PathCount(data, p) as real) == PathTotal(data, p)
  {
    MeanTimesCount(a, PathCount(data, p), PathTotal(data, p));
  }

  /** What the grouping loop builds: one { total, count } per distinct path. */
  ghost predicate GroupsOf(data: seq<Record>, grouped: map<string, Group>) {
    && grouped.Keys == Paths(data)
    && forall p :: p in grouped ==>
      grouped[p] == Group(PathTotal(data, p), PathCount(data, p)) && grouped[p].count >= 1
  }

  /** The division loop of calculateAverageResponseTimes: one mean per group. */
  method DivideGroups(grouped: map<string, Group>) returns (averages: map<string, real>)
    requires forall p :: p in grouped ==> grouped[p].count >= 1
    ensures averages.Keys == grouped.Keys
    ensures forall p :: p in averages ==> averages[p] == Mean(grouped[p])
  {
    averages := map[];
    var remaining := grouped.Keys;
    while remaining != {}
      invariant remaining <= grouped.Keys
      invariant averages.Keys == grouped.Keys - remaining
      invariant forall p :: p in averages ==> averages[p] == Mean(grouped[p])
      decreases remaining
    {
      var path :| path in remaining;
      averages := averages[path := grouped[path].total / (grouped[path].count as real)];
      remaining := remaining - {path};
    }
  }

  /** total / count of a group that has at least one record. */
  function Mean(g: Group): real
    requires g.count >= 1
  {
    g.total / (g.count as real)
  }

  /** The grouping loop of calculateAverageResponseTimes. */
  method GroupByPath(data: seq<Record>) returns (grouped: map<string, Group>)
    ensures GroupsOf(data, grouped)
  {
    grouped := map[];
    var i := 0;
    while i < |data|
      invariant 0 <= i <= |data|
      invariant GroupsOf(data[..i], grouped)
    {
      var item := data[i];
      PathsPrefix(data, i);
      if item.path !in grouped {
        AbsentPath(data[..i], item.path);
        grouped := grouped[item.path := Group(0.0, 0)];
      }
      var g := grouped[item.path];
      grouped := grouped[item.path := Group(g.total + item.responseTime, g.count + 1)];
      i := i + 1;
    }
    assert data[..i] == data;
  }

  /** One more record of the prefix adds its path, and its time and one to that path's group. */
  lemma PathsPrefix(data: seq<Record>, i: int)
    requires 0 <= i < |data|
    ensures Paths(data[..i + 1]) == Paths(data[..i]) + {data[i].path}
    ensures forall p :: PathCount(data[..i + 1], p) == PathCount(data[..i], p) + (if data[i].path == p then 1 else 0)
    ensures forall p :: PathTotal(data[..i + 1], p)
                     == PathTotal(data[..i], p) + (if data[i].path == p then data[i].responseTime else 0.0)
  {
    assert data[..i + 1][..i] == data[..i];
    PathsSnoc(data[..i + 1]);
  }

  lemma DivideThenMultiply(t: real, c: real)
    requires c != 0.0
    ensures (t / c) * c == t
  {
  }

  // ---------------------------------------------------------------------
  // calculateErrorCounts
  // ---------------------------------------------------------------------

  /**
   * calculateErrorCounts: one counter per path, created at the path's
   * first error record. A path is a key exactly when it has an error
   * record, and its value is the number of its error records.
   */
  method CalculateErrorCounts(data: seq<Record>) returns (errors: map<string, nat>)
    ensures forall p :: p in errors <==> ErrorCount(data, p) > 0
    ensures forall p :: p in errors ==> errors[p] == ErrorCount(data, p)
  {
    errors := map[];
    var i := 0;
    while i < |data|
      invariant 0 <= i <= |data|
      invariant forall p :: p in errors <==> ErrorCount(data[..i], p) > 0
      invariant forall p :: p in errors ==> errors[p] == ErrorCount(data[..i], p)
    {
      var item := data[i];
      var isError := (item.statusCode >= 400 && item.statusCode <= 451)
                  || (item.statusCode >= 500 && item.statusCode <= 511);
      if isError {
        if item.path !in errors {
          errors := errors[item.path := 0];
        }
        errors := errors[item.path := errors[item.path] + 1];
      }
      assert data[..i + 1][..i] == data[..i];
      i := i + 1;
    }
    assert data[..i] == data;
  }

  // ---------------------------------------------------------------------
  // getErrorCountByDate
  // ---------------------------------------------------------------------

  /**
   * getErrorCountByDate: format the target date, then count the error
   * records whose formatted date is that string.
   */
  method GetErrorCountByDate(data: seq<Record>, targetDate: string) returns (errorCount: nat)
    ensures errorCount == ErrorsOnDate(data, FormatTarget(targetDate))
    ensures errorCount <= |data|
  {
    var formattedTargetDate := FormatTarget(targetDate);
    errorCount := 0;
    var i := 0;
    while i < |data|
      invariant 0 <= i <= |data|
      invariant errorCount == ErrorsOnDate(data[..i], formattedTargetDate)
    {
      var item := data[i];
      var isError := (item.statusCode >= 400 && item.statusCode <= 451)
                  || (item.statusCode >= 500 && item.statusCode <= 511);
      var itemDate := FormatDate(item.date);
      ErrorsOnDatePrefix(data, i, formattedTargetDate, isError && itemDate == formattedTargetDate);
      if isError && itemDate == formattedTargetDate {
        errorCount := errorCount + 1;
      }
      i := i + 1;
    }
    assert data[..i] == data;
  }

  /** One more record of the prefix adds one exactly when it is an error on that day. */
  lemma ErrorsOnDatePrefix(data: seq<Record>, i: int, day: string, hit: bool)
    requires 0 <= i < |data| && hit == ErrorOnDate(data[i], day)
    ensures ErrorsOnDate(data[..i + 1], day) == ErrorsOnDate(data[..i], day) + (if hit then 1 else 0)
  {
    assert data[..i + 1][..i] == data[..i];
  }

  // ---------------------------------------------------------------------
  // Properties of the aggregations
  // ---------------------------------------------------------------------

  /** A path is one of the distinct paths exactly when it has at least one record. */
  lemma {:induction false} PathsAreCounted(data: seq<Record>, p: string)
    ensures p in Paths(data) <==> PathCount(data, p) >= 1
    decreases |data|
  {
    if data != [] {
      PathsSnoc(data);
      PathsAreCounted(data[..|data| - 1], p);
    }
  }

  /** A path has an error count exactly when one of its records has an error status. */
  lemma {:induction false} ErrorCountPositiveIff(data: seq<Record>, p: string)
    ensures ErrorCount(data, p) > 0
        <==> exists i :: 0 <= i < |data| && data[i].path == p && IsError(data[i].statusCode)
    decreases |data|
  {
    if data != [] {
      var init := data[..|data| - 1];
      ErrorCountPositiveIff(init, p);
      forall i | 0 <= i < |init| ensures init[i] == data[i] { }
    }
  }

  /** No path has more error records than records: error keys are average keys. */
  lemma {:induction false} ErrorsWithinPath(data: seq<Record>, p: string)
    ensures ErrorCount(data, p) <= PathCount(data, p)
    ensures ErrorCount(data, p) > 0 ==> p in Paths(data)
    decreases |data|
  {
    if data != [] {
      ErrorsWithinPath(data[..|data| - 1], p);
    }
    PathsAreCounted(data, p);
  }

  /** The response-time total of each path, as a function of the path. */
  ghost function TotalsByPath(data: seq<Record>): string -> real {
    p => PathTotal(data, p)
  }

  /** The error count of each path, as a function of the path. */
  ghost function ErrorsByPath(data: seq<Record>): string -> real {
    p => ErrorCount(data, p) as real
  }

  /** Summed over any set of paths that covers the data, the path totals give the grand total. */
  lemma {:induction false} TotalsPartition(data: seq<Record>, keys: set<string>)
    requires Paths(data) <= keys
    ensures SumOver(keys, TotalsByPath(data)) == TotalResponseTime(data)
    decreases |data|
  {
    if data == [] {
      SumOverZero(keys, TotalsByPath(data));
    } else {
      var init, r := data[..|data| - 1], data[|data| - 1];
      PathsSnoc(data);
      TotalsPartition(init, keys);
      SumOverBump(keys, TotalsByPath(init), TotalsByPath(data), r.path, r.responseTime);
    }
  }

  /** Summed over any set that holds every path with an error, the error counts give all errors. */
  lemma {:induction false} ErrorsPartition(data: seq<Record>, keys: set<string>)
    requires forall p :: ErrorCount(data, p) > 0 ==> p in keys
    ensures SumOver(keys, ErrorsByPath(data)) == TotalErrors(data) as real
    decreases |data|
  {
    if data == [] {
      SumOverZero(keys, ErrorsByPath(data));
    } else {
      var init, r := data[..|data| - 1], data[|data| - 1];
      forall p | ErrorCount(init, p) > 0 ensures p in keys {
        assert ErrorCount(data, p) > 0;
      }
      ErrorsPartition(init, keys);
      if IsError(r.statusCode) {
        assert ErrorCount(data, r.path) > 0;
        SumOverBump(keys, ErrorsByPath(init), ErrorsByPath(data), r.path, 1.0);
      } else {
        SumOverCongruent(keys, ErrorsByPath(init), ErrorsByPath(data));
      }
    }
  }

  /**
   * Average consistency: over the averages map, the sum of average * count
   * equals the sum of all response times.
   */
  lemma AveragesSumToTotal(data: seq<Record>, averages: map<string, real>)
    requires averages.Keys == Paths(data)
    requires forall p :: p in averages ==>
      PathCount(data, p) >= 1 && averages[p] == Mean(Group(PathTotal(data, p), PathCount(data, p)))
    ensures SumOver(averages.Keys, ScaledAverages(data, averages)) == TotalResponseTime(data)
  {
    forall p | p in averages.Keys
      ensures ScaledAverages(data, averages)(p) == TotalsByPath(data)(p)
    {
      AverageTimesCount(data, p, averages[p]);
    }
    SumOverCongruent(averages.Keys, ScaledAverages(data, averages), TotalsByPath(data));
    TotalsPartition(data, averages.Keys);
  }

  /** Each path's average times its record count. */
  ghost function ScaledAverages(data: seq<Record>, averages: map<string, real>): string -> real {
    p => if p in averages then averages[p] * (PathCount(data, p) as real) else 0.0
  }

  /** The values of the error-count map add up to the number of error records. */
  lemma ErrorCountsSumToTotal(data: seq<Record>, errors: map<string, nat>)
    requires forall p :: p in errors <==> ErrorCount(data, p) > 0
    requires forall p :: p in errors ==> errors[p] == ErrorCount(data, p)
    ensures SumOver(errors.Keys, p => if p in errors then errors[p] as real else 0.0) == TotalErrors(data) as real
  {
    SumOverCongruent(errors.Keys, p => if p in errors then errors[p] as real else 0.0, ErrorsByPath(data));
    ErrorsPartition(data, errors.Keys);
  }

  /** ErrorsOnDate counts what filtering by ErrorOnDate keeps. */
  lemma {:induction false} ErrorsOnDateCountsFilter(data: seq<Record>, day: string)
    ensures ErrorsOnDate(data, day) == |Filter(data, r => ErrorOnDate(r, day))|
    decreases |data|
  {
    if data != [] {
      var init, x := data[..|data| - 1], data[|data| - 1];
      ErrorsOnDateCountsFilter(init, day);
      FilterConcat(init, [x], r => ErrorOnDate(r, day));
      assert data == init + [x];
    }
  }

  /** The per-date error count does not depend on the order of the records. */
  lemma ErrorsOnDateOrderIndependent(a: seq<Record>, b: seq<Record>, day: string)
    requires multiset(a) == multiset(b)
    ensures ErrorsOnDate(a, day) == ErrorsOnDate(b, day)
  {
    var p := (r: Record) => ErrorOnDate(r, day);
    ErrorsOnDateCountsFilter(a, day);
    ErrorsOnDateCountsFilter(b, day);
    FilterMultiset(a, p);
    FilterMultiset(b, p);
    assert multiset(Filter(a, p)) == multiset(Filter(b, p));
    assert |Filter(a, p)| == |multiset(Filter(a, p))| == |multiset(Filter(b, p))| == |Filter(b, p)|;
  }

  /** A target string that is not a date matches no record: the count is zero. */
  lemma {:induction false} InvalidTargetCountsNothing(data: seq<Record>, targetDate: string)
    requires ParseDate(targetDate).None?
    ensures ErrorCountByDate(data, targetDate) == 0
    decreases |data|
  {
    if data != [] {
      FormatDateIsNotInvalid(data[|data| - 1].date);
      InvalidTargetCountsNothing(data[..|data| - 1], targetDate);
    }
  }

  /** The error records that fall on calendar day d. */
  function ErrorOnDay(d: CalendarDate): Record -> bool {
    (r: Record) => IsError(r.statusCode) && r.date == d
  }

  /**
   * For valid dates, comparing formatted strings is comparing calendar
   * dates: the count for d is the number of error records dated d.
   */
  lemma ErrorsOnCalendarDay(data: seq<Record>, d: CalendarDate)
    requires ValidDate(d) && forall r :: r in data ==> ValidDate(r.date)
    ensures ErrorsOnDate(data, FormatDate(d)) == |Filter(data, ErrorOnDay(d))|
  {
    ErrorsOnDateCountsFilter(data, FormatDate(d));
    forall r | r in data
      ensures ErrorOnDate(r, FormatDate(d)) == ErrorOnDay(d)(r)
    {
      FormatDateInjective(r.date, d);
    }
    FilterCongruent(data, r => ErrorOnDate(r, FormatDate(d)), ErrorOnDay(d));
  }

  /**
   * getErrorCountByDate on a "YYYY-MM-DD" string of a valid date counts the
   * error records of that calendar day, over all paths.
   */
  lemma ErrorCountByDateOfDay(data: seq<Record>, d: CalendarDate)
    requires ValidDate(d) && 1000 <= d.year <= 9999
    requires forall r :: r in data ==> ValidDate(r.date)
    ensures ErrorCountByDate(data, FormatDate(d)) == |Filter(data, ErrorOnDay(d))|
  {
    ParseFormatRoundTrip(d);
    ErrorsOnCalendarDay(data, d);
  }
}
