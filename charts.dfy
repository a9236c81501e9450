/**
 * The two charts drawn under the table while a path filter is set: the
 * records whose path equals the filter (ignoring case), in timestamp order,
 * as (date, response time) points for the line chart and as (date, error
 * count of that date) points for the bar chart.
 */
module Charts {
  import opened Text
  import opened Records
  import opened Seqs
  import opened Sorting
  import opened Aggregation
  import opened Filtering

  /** One point handed to a chart. */
  datatype DataPoint = DataPoint(x: string, y: real)

  /** The chart's selection: the path equals the filter up to case. */
  function PathEquals(f: string): Record -> bool {
    (r: Record) => Lower(r.path) == Lower(f)
  }

  /** data.filter(path equals f).sort(by timestamp) */
  function ChartRecords(data: seq<Record>, f: string): seq<Record> {
    SortBy(ByTimestamp, Filter(data, PathEquals(f)))
  }

  /** Both charts are drawn when the filter is non-empty and some record's path equals it. */
  predicate ShowCharts(data: seq<Record>, f: string) {
    f != "" && |Filter(data, PathEquals(f))| > 0
  }

  /** The line chart's points: the date and the response time of each chart record. */
  function LineSeries(data: seq<Record>, f: string): (pts: seq<DataPoint>)
    ensures |pts| == |ChartRecords(data, f)|
  {
    var rs := ChartRecords(data, f);
    seq(|rs|, i requires 0 <= i < |rs| => DataPoint(FormatDate(rs[i].date), rs[i].responseTime))
  }

  /**
   * The bar chart's points as written: the date of each chart record and
   * getErrorCountByDate over the whole data set for that date.
   */
  function BarSeries(data: seq<Record>, f: string): (pts: seq<DataPoint>)
    ensures |pts| == |ChartRecords(data, f)|
  {
    var rs := ChartRecords(data, f);
    seq(|rs|, i requires 0 <= i < |rs| =>
      DataPoint(FormatDate(rs[i].date), ErrorCountByDate(data, FormatDate(rs[i].date)) as real))
  }

  /**
   * The bar chart's points as its title ("Error Count Over Time" for the
   * path) intends: the error count of that date among the path's own records.
   */
  function BarSeriesForPath(data: seq<Record>, f: string): (pts: seq<DataPoint>)
    ensures |pts| == |ChartRecords(data, f)|
  {
    var rs := ChartRecords(data, f);
    seq(|rs|, i requires 0 <= i < |rs| =>
      DataPoint(FormatDate(rs[i].date), ErrorCountByDate(Filter(data, PathEquals(f)), FormatDate(rs[i].date)) as real))
  }

  /**
   * The chart records are the records whose path equals the filter, each as
   * often as in the data, ordered by timestamp, records with equal
   * timestamps in data order.
   */
  lemma ChartRecordsCorrect(data: seq<Record>, f: string)
    ensures Sorted(ByTimestamp, ChartRecords(data, f))
    ensures forall x :: multiset(ChartRecords(data, f))[x] == if PathEquals(f)(x) then multiset(data)[x] else 0
    ensures forall x :: Filter(ChartRecords(data, f), KeyClass(ByTimestamp, x))
                     == Filter(Filter(data, PathEquals(f)), KeyClass(ByTimestamp, x))
  {
    SortByCorrect(ByTimestamp, Filter(data, PathEquals(f)));
    FilterMultiset(data, PathEquals(f));
  }

  /**
   * The charts are shown exactly when the filter is non-empty and there is
   * a line to draw, that is, when some record's path equals the filter.
   */
  lemma ShowChartsIff(data: seq<Record>, f: string)
    ensures ShowCharts(data, f) <==> f != "" && LineSeries(data, f) != []
    ensures ShowCharts(data, f) <==> f != "" && exists r :: r in data && Lower(r.path) == Lower(f)
  {
    ChartRecordsLength(data, f);
    FilterNonEmpty(data, PathEquals(f));
  }

  /** Sorting leaves as many chart records as the path selection holds. */
  lemma ChartRecordsLength(data: seq<Record>, f: string)
    ensures |ChartRecords(data, f)| == |Filter(data, PathEquals(f))|
  {
    var sel := Filter(data, PathEquals(f));
    SortByCorrect(ByTimestamp, sel);
    assert |ChartRecords(data, f)| == |multiset(ChartRecords(data, f))| == |multiset(sel)| == |sel|;
  }

  /** Each line point is the date and response time of the chart record at the same place. */
  lemma LineSeriesPoints(data: seq<Record>, f: string, i: int)
    requires 0 <= i < |LineSeries(data, f)|
    ensures var r := ChartRecords(data, f)[i];
      && r in data && Lower(r.path) == Lower(f)
      && LineSeries(data, f)[i] == DataPoint(FormatDate(r.date), r.responseTime)
  {
    ChartRecordsCorrect(data, f);
    var r := ChartRecords(data, f)[i];
    assert multiset(ChartRecords(data, f))[r] > 0;
  }

  /** The two charts have the same x values, point for point. */
  lemma SeriesShareDates(data: seq<Record>, f: string)
    ensures forall i :: 0 <= i < |LineSeries(data, f)| ==> LineSeries(data, f)[i].x == BarSeries(data, f)[i].x
  {
  }

  /** A record the chart shows also passes the table's path filter with the same text. */
  lemma ChartPathPassesTableFilter(r: Record, f: string)
    requires PathEquals(f)(r)
    ensures PathMatches(r, f)
  {
    assert StartsWith(Lower(r.path), Lower(f));
  }

  /**
   * As written, a bar's height is the number of error records, of every
   * path, on the calendar day of its record.
   */
  lemma BarSeriesCountsAllPaths(data: seq<Record>, f: string, i: int)
    requires forall r :: r in data ==> ValidDate(r.date)
    requires 0 <= i < |BarSeries(data, f)|
    requires 1000 <= ChartRecords(data, f)[i].date.year <= 9999
    ensures var d := ChartRecords(data, f)[i].date;
      BarSeries(data, f)[i].y == |Filter(data, ErrorOnDay(d))| as real
  {
    ChartRecordsCorrect(data, f);
    var r := ChartRecords(data, f)[i];
    assert multiset(ChartRecords(data, f))[r] > 0;
    ErrorCountByDateOfDay(data, r.date);
  }

  /**
   * A concrete input where the bar chart of a path reports an error that
   * belongs to another path: "/a" answered 200 and "/b" answered 500 on the
   * same day, and the bar for "/a" on that day is 1.
   */
  lemma BarSeriesCountsOtherPath()
    ensures var d := CalendarDate(2024, 0, 15);
      var ok := Record(1, d, "/a", 10.0, 200, Wrappers.None);
      var failed := Record(2, d, "/b", 20.0, 500, Wrappers.None);
      var data := [ok, failed];
      && ChartRecords(data, "/a") == [ok]
      && BarSeries(data, "/a")[0].y == 1.0
      && BarSeriesForPath(data, "/a")[0].y == 0.0
  {
    var d := CalendarDate(2024, 0, 15);
    var ok := Record(1, d, "/a", 10.0, 200, Wrappers.None);
    var failed := Record(2, d, "/b", 20.0, 500, Wrappers.None);
    var data := [ok, failed];
    assert Lower("/a") == "/a" && Lower("/b") == "/b";
    assert Filter(data, PathEquals("/a")) == [ok] by {
      assert Filter([failed], PathEquals("/a")) == [];
    }
    assert SortBy(ByTimestamp, [ok]) == [ok] by {
      assert [ok][..0] == [];
    }
    BarSeriesCountsAllPaths(data, "/a", 0);
    assert Filter(data, ErrorOnDay(d)) == [failed] by {
      assert Filter([failed], ErrorOnDay(d)) == [failed] + Filter([], ErrorOnDay(d));
    }
    BarSeriesForPathCounts(data, "/a", 0);
    assert Filter(data, PathErrorOnDay("/a", d)) == [] by {
      assert Filter([failed], PathErrorOnDay("/a", d)) == [];
    }
  }

  /** The error records of path f (up to case) on calendar day d. */
  function PathErrorOnDay(f: string, d: CalendarDate): Record -> bool {
    (r: Record) => Lower(r.path) == Lower(f) && IsError(r.statusCode) && r.date == d
  }

  /**
   * Corrected, a bar's height is the number of error records of the
   * filtered path on the calendar day of its record.
   */
  lemma BarSeriesForPathCounts(data: seq<Record>, f: string, i: int)
    requires forall r :: r in data ==> ValidDate(r.date)
    requires 0 <= i < |BarSeriesForPath(data, f)|
    requires 1000 <= ChartRecords(data, f)[i].date.year <= 9999
    ensures var d := ChartRecords(data, f)[i].date;
      BarSeriesForPath(data, f)[i].y == |Filter(data, PathErrorOnDay(f, d))| as real
  {
    ChartRecordsCorrect(data, f);
    var r := ChartRecords(data, f)[i];
    assert multiset(ChartRecords(data, f))[r] > 0;
    var sel := Filter(data, PathEquals(f));
    FilterMembers(data, PathEquals(f));
    ErrorCountByDateOfDay(sel, r.date);
    FilterFilter(data, PathEquals(f), ErrorOnDay(r.date), PathErrorOnDay(f, r.date));
  }

  /**
   * Corrected, a bar never exceeds the as-written one, and a record that is
   * itself an error makes its own bar at least 1.
   */
  lemma BarSeriesForPathBounds(data: seq<Record>, f: string, i: int)
    requires forall r :: r in data ==> ValidDate(r.date)
    requires 0 <= i < |BarSeriesForPath(data, f)|
    requires 1000 <= ChartRecords(data, f)[i].date.year <= 9999
    ensures BarSeriesForPath(data, f)[i].y <= BarSeries(data, f)[i].y
    ensures IsError(ChartRecords(data, f)[i].statusCode) ==> BarSeriesForPath(data, f)[i].y >= 1.0
  {
    var r := ChartRecords(data, f)[i];
    var d := r.date;
    BarSeriesCountsAllPaths(data, f, i);
    BarSeriesForPathCounts(data, f, i);
    FilterNarrow(data, ErrorOnDay(d), PathErrorOnDay(f, d));
    FilterFilter(data, ErrorOnDay(d), PathErrorOnDay(f, d), PathErrorOnDay(f, d));
    ChartRecordsCorrect(data, f);
    assert multiset(ChartRecords(data, f))[r] > 0;
    if IsError(r.statusCode) {
      FilterMembers(data, PathErrorOnDay(f, d));
      assert r in Filter(data, PathErrorOnDay(f, d));
    }
  }
}
