/** The optional value used for the record's error text and for date parsing. */
module Wrappers {
  datatype Option<T> = None | Some(value: T)
}

/**
 * The request record of the dashboard, the rule that classifies a status code
 * as an error, and the "YYYY-MM-DD" rendering of calendar dates (formatDate)
 * together with the parse of such a string back into a date.
 */
module Records {
  import opened Wrappers
  import opened Text

  /**
   * A calendar date as the local-time getters of a Date give it:
   * getFullYear(), getMonth() (0-based) and getDate().
   */
  datatype CalendarDate = CalendarDate(year: int, monthIndex: int, day: int)

  /** The ranges a Date's month index and day of month always lie in. */
  predicate ValidDate(d: CalendarDate) {
    0 <= d.monthIndex <= 11 && 1 <= d.day <= 31
  }

  /**
   * One row of the request data. The timestamp is already parsed into epoch
   * milliseconds and `date` is its local calendar date.
   */
  datatype Record = Record(
    timestamp: int,
    date: CalendarDate,
    path: string,
    responseTime: real,
    statusCode: int,
    error: Option<string>)

  /** A status code counts as an error in 400..451 and 500..511 only. */
  predicate IsError(code: int) {
    (400 <= code <= 451) || (500 <= code <= 511)
  }

  /** The codes below 400, the gap 452..499 and every code from 512 on are never errors. */
  lemma NonErrorCodes(code: int)
    ensures !IsError(code) <==> code < 400 || 452 <= code <= 499 || code >= 512
  {
  }

  function Pad2(s: string): string {
    PadStart(s, 2, '0')
  }

  /** formatDate: year, then the 1-based month and the day, each padded to two digits. */
  function FormatDate(d: CalendarDate): string {
    IntToString(d.year) + "-" + Pad2(IntToString(d.monthIndex + 1)) + "-" + Pad2(IntToString(d.day))
  }

  /** What formatDate renders for an Invalid Date (every getter gives NaN). */
  const InvalidDateText: string := "NaN-NaN-NaN"

  /**
   * `new Date(s)` for a date-only string "YYYY-MM-DD": four year digits, a
   * month 01..12 and a day 01..31; any other string is an Invalid Date.
   */
  function ParseDate(s: string): (r: Option<CalendarDate>)
    ensures r.Some? ==> ValidDate(r.value) && 0 <= r.value.year <= 9999
  {
    if |s| == 10 && s[4] == '-' && s[7] == '-'
       && IsDigits(s[..4]) && IsDigits(s[5..7]) && IsDigits(s[8..])
    then
      var month := DigitsValue(s[5..7]);
      var day := DigitsValue(s[8..]);
      if 1 <= month <= 12 && 1 <= day <= 31 then
        assert DigitsValue(s[..4]) <= 9999 by { DigitsBound4(s[..4]); }
        Some(CalendarDate(DigitsValue(s[..4]), month - 1, day))
      else None
    else None
  }

  lemma DigitsBound4(s: string)
    requires IsDigits(s) && |s| == 4
    ensures DigitsValue(s) <= 9999
  {
    DigitsValueBound(s);
    assert Pow10(4) == 10 * Pow10(3) == 100 * Pow10(2) == 1000 * Pow10(1) == 10000;
  }

  /** Two digits are worth ten times the first plus the second. */
  lemma DigitsValueTwo(t: string)
    requires |t| == 2 && IsDigits(t)
    ensures DigitsValue(t) == 10 * DigitValue(t[0]) + DigitValue(t[1])
  {
    var a := t[..1];
    assert a[..|a| - 1] == [] && a[|a| - 1] == t[0];
    assert DigitsValue(a) == DigitValue(t[0]);
    assert t[..|t| - 1] == a;
  }

  lemma Pad2OfOne(c: char)
    ensures Pad2([c]) == ['0', c]
  {
    assert PadStart(['0'] + [c], 2, '0') == ['0'] + [c];
  }

  lemma Pad2OfTwo(t: string)
    requires |t| == 2
    ensures Pad2(t) == t
  {
  }

  /** The formatted date of the target string of getErrorCountByDate. */
  function FormatTarget(target: string): string {
    match ParseDate(target)
    case Some(d) => FormatDate(d)
    case None => InvalidDateText
  }

  /** Padding 1..99 gives two digits with the same value. */
  lemma {:induction false} Pad2Value(n: nat)
    requires 1 <= n <= 99
    ensures |Pad2(NatToString(n))| == 2 && IsDigits(Pad2(NatToString(n)))
    ensures DigitsValue(Pad2(NatToString(n))) == n
  {
    var t := Pad2(NatToString(n));
    if n < 10 {
      Pad2OfOne(DigitChar(n));
      assert t == ['0', DigitChar(n)];
      DigitsValueTwo(t);
    } else {
      NatToStringLength(n, 1);
      NatToStringRoundTrip(n);
      Pad2OfTwo(NatToString(n));
    }
  }

  /** Every two-digit string of positive value is the padded rendering of that value. */
  lemma {:induction false} Pad2Digits(t: string)
    requires |t| == 2 && IsDigits(t) && DigitsValue(t) >= 1
    ensures Pad2(NatToString(DigitsValue(t))) == t
  {
    var n := DigitsValue(t);
    DigitsValueTwo(t);
    if t[0] == '0' {
      assert n == DigitValue(t[1]);
      assert NatToString(n) == [t[1]];
      Pad2OfOne(t[1]);
      assert t == ['0', t[1]];
    } else {
      DigitsRoundTrip(t);
      Pad2OfTwo(t);
    }
  }

  /** Padding the rendering of 1..99 gives two digits with the same value. */
  lemma Pad2IntValue(n: int)
    requires 1 <= n <= 99
    ensures |Pad2(IntToString(n))| == 2 && IsDigits(Pad2(IntToString(n)))
    ensures DigitsValue(Pad2(IntToString(n))) == n
  {
    Pad2Value(n);
  }

  /**
   * Every valid date, whatever the number of year digits, renders as the
   * year, a dash, two digits worth monthIndex + 1, a dash and two digits
   * worth the day.
   */
  lemma FormatDateParts(d: CalendarDate)
    requires ValidDate(d)
    ensures var s := FormatDate(d);
      && |s| == |IntToString(d.year)| + 6 && s[..|s| - 6] == IntToString(d.year)
      && s[|s| - 6] == '-' && s[|s| - 3] == '-'
      && IsDigits(s[|s| - 5..|s| - 3]) && DigitsValue(s[|s| - 5..|s| - 3]) == d.monthIndex + 1
      && IsDigits(s[|s| - 2..]) && DigitsValue(s[|s| - 2..]) == d.day
  {
    Pad2IntValue(d.monthIndex + 1);
    Pad2IntValue(d.day);
    JoinParts(IntToString(d.year), Pad2(IntToString(d.monthIndex + 1)), Pad2(IntToString(d.day)));
  }

  /**
   * For a valid date with a four-digit year the rendering is "YYYY-MM-DD":
   * ten characters, the month part in 01..12 and the day part in 01..31.
   */
  lemma FormatDateShape(d: CalendarDate)
    requires ValidDate(d) && 1000 <= d.year <= 9999
    ensures var s := FormatDate(d);
      && |s| == 10 && s[4] == '-' && s[7] == '-'
      && IsDigits(s[..4]) && IsDigits(s[5..7]) && IsDigits(s[8..])
      && DigitsValue(s[..4]) == d.year
      && DigitsValue(s[5..7]) == d.monthIndex + 1 && 1 <= DigitsValue(s[5..7]) <= 12
      && DigitsValue(s[8..]) == d.day && 1 <= DigitsValue(s[8..]) <= 31
  {
    NatToStringLength(d.year, 3);
    NatToStringRoundTrip(d.year);
    FormatDateParts(d);
  }

  /** Parsing a formatted date with a four-digit year gives the date back. */
  lemma ParseFormatRoundTrip(d: CalendarDate)
    requires ValidDate(d) && 1000 <= d.year <= 9999
    ensures ParseDate(FormatDate(d)) == Some(d)
  {
    FormatDateShape(d);
  }

  /** A parsed date whose year has no leading zero formats back to the same string. */
  lemma FormatParseRoundTrip(s: string)
    requires ParseDate(s).Some? && s[0] != '0'
    ensures FormatDate(ParseDate(s).value) == s
  {
    var d := ParseDate(s).value;
    DigitsRoundTrip(s[..4]);
    Pad2Digits(s[5..7]);
    Pad2Digits(s[8..]);
    assert s == s[..4] + "-" + s[5..7] + "-" + s[8..];
  }

  /** The rendering of an integer ends in a digit. */
  lemma IntToStringEndsInDigit(i: int)
    ensures var t := IntToString(i); |t| >= 1 && '0' <= t[|t| - 1] <= '9'
  {
    var n: nat := if i < 0 then -i else i;
    NatToStringRoundTrip(n);
    var u := NatToString(n);
    assert u[|u| - 1] in u;
    if i < 0 {
      assert IntToString(i) == "-" + u;
    }
  }

  /** The last character of a + b is the last character of a non-empty b. */
  lemma LastOfConcat(a: string, b: string)
    requires |b| >= 1
    ensures (a + b)[|a + b| - 1] == b[|b| - 1]
  {
  }

  /** Padding keeps the last character. */
  lemma Pad2Last(t: string)
    requires |t| >= 1
    ensures |Pad2(t)| >= 1 && Pad2(t)[|Pad2(t)| - 1] == t[|t| - 1]
  {
    PadStartShape(t, 2, '0');
    LastOfConcat(seq(|Pad2(t)| - |t|, _ => '0'), t);
  }

  /** The last character of a formatted date is always a digit. */
  lemma FormatDateEndsInDigit(d: CalendarDate)
    ensures var s := FormatDate(d); |s| >= 1 && '0' <= s[|s| - 1] <= '9'
  {
    IntToStringEndsInDigit(d.day);
    Pad2Last(IntToString(d.day));
    LastOfConcat(IntToString(d.year) + "-" + Pad2(IntToString(d.monthIndex + 1)) + "-", Pad2(IntToString(d.day)));
  }

  /** A valid date never renders as the Invalid Date text. */
  lemma FormatDateIsNotInvalid(d: CalendarDate)
    ensures FormatDate(d) != InvalidDateText
  {
    FormatDateEndsInDigit(d);
  }

  /** How year, month and day parts sit in "year-MM-DD". */
  lemma JoinParts(y: string, m: string, dd: string)
    requires |m| == 2 && |dd| == 2
    ensures var s := y + "-" + m + "-" + dd;
      && |s| == |y| + 6 && s[..|s| - 6] == y && s[|s| - 6] == '-' && s[|s| - 3] == '-'
      && s[|s| - 5..|s| - 3] == m && s[|s| - 2..] == dd
  {
    var s := y + "-" + m + "-" + dd;
    assert s == y + ("-" + m + "-" + dd);
  }

  /** "year-MM-DD" strings that are equal have equal parts. */
  lemma JoinInjective(y1: string, m1: string, dd1: string, y2: string, m2: string, dd2: string)
    requires |m1| == 2 && |dd1| == 2 && |m2| == 2 && |dd2| == 2
    requires y1 + "-" + m1 + "-" + dd1 == y2 + "-" + m2 + "-" + dd2
    ensures y1 == y2 && m1 == m2 && dd1 == dd2
  {
    JoinParts(y1, m1, dd1);
    JoinParts(y2, m2, dd2);
  }

  /**
   * On valid dates formatDate is one-to-one: two dates format alike exactly
   * when they are the same date, whatever the number of year digits.
   */
  lemma FormatDateInjective(a: CalendarDate, b: CalendarDate)
    requires ValidDate(a) && ValidDate(b)
    ensures FormatDate(a) == FormatDate(b) <==> a == b
  {
    if FormatDate(a) == FormatDate(b) {
      Pad2Value(a.monthIndex + 1);
      Pad2Value(a.day);
      Pad2Value(b.monthIndex + 1);
      Pad2Value(b.day);
      JoinInjective(IntToString(a.year), Pad2(IntToString(a.monthIndex + 1)), Pad2(IntToString(a.day)),
                    IntToString(b.year), Pad2(IntToString(b.monthIndex + 1)), Pad2(IntToString(b.day)));
      IntToStringInjective(a.year, b.year);
    }
  }
}
