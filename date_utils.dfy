/** Analytics date ranges (lib/api/analytics/date-utils.ts): the first and
    last day of the current month, the previous month, or the six months
    ending with the current one, as `YYYY-MM-DD` strings. The current date
    is an input. */
module DateUtils {
  import opened Wrappers
  import opened Strings
  import opened Calendar

  datatype DateRange = DateRange(startDate: string, endDate: string)

  /** The same range as calendar dates, before formatting. */
  datatype Span = Span(first: Date, last: Date)

  const INVALID_PERIOD: string := "Invalid period: "

  /** The two ends of the range a period names, months counted zero-based
      from January of `today.year`; `None` for an unknown period. */
  function SpanOf(period: string, today: Date): Option<Span>
  {
    var y, m := today.year, today.month - 1;
    if period == "current-month" then Some(Span(FirstOfMonth(y, m), DayZero(y, m + 1)))
    else if period == "previous-month" then Some(Span(FirstOfMonth(y, m - 1), DayZero(y, m)))
    else if period == "six-months" then Some(Span(FirstOfMonth(y, m - 5), DayZero(y, m + 1)))
    else None
  }

  /** `getDateRange`: an unknown period throws `Invalid period: <period>`. */
  function GetDateRange(period: string, today: Date): (r: Result<DateRange, string>)
  {
    match SpanOf(period, today)
    case None => Err(INVALID_PERIOD + period)
    case Some(s) => Ok(DateRange(FormatIsoDate(s.first), FormatIsoDate(s.last)))
  }

  /** Only the three named periods have a range; anything else is the
      error carrying the period's name. */
  lemma PeriodsRecognised(period: string, today: Date)
    ensures GetDateRange(period, today).Ok? <==>
            period == "current-month" || period == "previous-month" || period == "six-months"
    ensures GetDateRange(period, today).Err? ==> GetDateRange(period, today).error == INVALID_PERIOD + period
  {
  }

  /** The whole of one month, first to last day. */
  ghost predicate WholeMonth(s: Span, year: int, month: int)
  {
    1 <= month <= 12 &&
    s.first == Date(year, month, 1) && s.last == Date(year, month, DaysInMonth(year, month))
  }

  /** "current-month" is today's month from its first to its last day. */
  lemma CurrentMonth(today: Date)
    requires ValidDate(today)
    ensures var s := SpanOf("current-month", today);
            s.Some? && WholeMonth(s.value, today.year, today.month)
  {
    DayZeroIsMonthEnd(today.year, today.month);
  }

  /** "previous-month" is the month before today's, January wrapping to
      December of the year before. */
  lemma PreviousMonth(today: Date)
    requires ValidDate(today)
    ensures var s := SpanOf("previous-month", today);
            s.Some? &&
            (today.month == 1 ==> WholeMonth(s.value, today.year - 1, 12)) &&
            (today.month > 1 ==> WholeMonth(s.value, today.year, today.month - 1))
  {
    var m := today.month - 1;
    DayZeroIsMonthEnd(today.year, m);
    if today.month == 1 {
      assert (m - 1) / 12 == -1 && (m - 1) % 12 == 11;
    }
  }

  /** "six-months" runs from the first of the month five months back, in
      the previous year when today's month is May or earlier, to the last
      day of today's month: six calendar months. */
  lemma SixMonths(today: Date)
    requires ValidDate(today)
    ensures var s := SpanOf("six-months", today);
            s.Some? &&
            (today.month > 5 ==> s.value.first == Date(today.year, today.month - 5, 1)) &&
            (today.month <= 5 ==> s.value.first == Date(today.year - 1, today.month + 7, 1)) &&
            s.value.last == Date(today.year, today.month, DaysInMonth(today.year, today.month)) &&
            MonthCount(s.value.last) - MonthCount(s.value.first) == 5
  {
    var m := today.month - 1;
    DayZeroIsMonthEnd(today.year, today.month);
    if today.month <= 5 {
      assert (m - 5) / 12 == -1 && (m - 5) % 12 == m + 7;
    }
  }

  /** Months since January of year 0. */
  function MonthCount(d: Date): int
  {
    d.year * 12 + d.month - 1
  }

  /** Every range starts on the 1st and ends on the last day of a month,
      strictly after its start. */
  lemma SpanShape(period: string, today: Date)
    requires ValidDate(today)
    requires SpanOf(period, today).Some?
    ensures var s := SpanOf(period, today).value;
            ValidDate(s.first) && ValidDate(s.last) &&
            s.first.day == 1 && s.last.day == DaysInMonth(s.last.year, s.last.month) &&
            Before(s.first, s.last)
  {
    if period == "current-month" {
      CurrentMonth(today);
    } else if period == "previous-month" {
      PreviousMonth(today);
    } else {
      SixMonths(today);
    }
  }

  /** The ends of every range lie in today's year or the one before. */
  lemma SpanYears(period: string, today: Date)
    requires ValidDate(today)
    requires SpanOf(period, today).Some?
    ensures var s := SpanOf(period, today).value;
            today.year - 1 <= s.first.year <= today.year && today.year - 1 <= s.last.year <= today.year
  {
    if period == "current-month" {
      CurrentMonth(today);
    } else if period == "previous-month" {
      PreviousMonth(today);
    } else {
      SixMonths(today);
    }
  }

  /** A span of four-digit years formats as two ISO strings in text order,
      the first ending in day "01". */
  lemma FormattedSpan(s: Span)
    requires ValidDate(s.first) && ValidDate(s.last)
    requires 0 <= s.first.year <= 9999 && 0 <= s.last.year <= 9999
    requires s.first.day == 1 && Before(s.first, s.last)
    ensures IsIsoDateString(FormatIsoDate(s.first)) && IsIsoDateString(FormatIsoDate(s.last))
    ensures FormatIsoDate(s.first)[8..] == "01"
    ensures StrLess(FormatIsoDate(s.first), FormatIsoDate(s.last))
  {
    FormatParseRoundTrip(s.first);
    FormatParseRoundTrip(s.last);
    IsoPieces(s.first);
    assert FixedDigits(1, 2) == "01";
    FormatOrder(s.first, s.last);
  }

  /** For a year in 1..9999 both ends are `YYYY-MM-DD` strings, and the start
      sorts before the end as text, which is how the backend compares them. */
  lemma DateRangeStrings(period: string, today: Date)
    requires ValidDate(today) && 1 <= today.year <= 9999
    requires GetDateRange(period, today).Ok?
    ensures var r := GetDateRange(period, today).value;
            IsIsoDateString(r.startDate) && IsIsoDateString(r.endDate) &&
            r.startDate[8..] == "01" &&
            StrLess(r.startDate, r.endDate)
  {
    SpanShape(period, today);
    SpanYears(period, today);
    FormattedSpan(SpanOf(period, today).value);
  }
}
