/** Proleptic Gregorian calendar dates, the day numbers that JavaScript's
    `Date` arithmetic measures, ISO `YYYY-MM-DD` strings, and the month
    normalisation of `new Date(year, monthIndex, day)`. */
module Calendar {
  import opened Wrappers
  import opened Strings

  /** A calendar date; `month` is 1..12. */
  datatype Date = Date(year: int, month: int, day: int)

  predicate IsLeapYear(y: int)
  {
    (y % 4 == 0 && y % 100 != 0) || y % 400 == 0
  }

  function DaysInMonth(y: int, m: int): (n: int)
    requires 1 <= m <= 12
    ensures 28 <= n <= 31
  {
    if m == 2 then (if IsLeapYear(y) then 29 else 28)
    else if m == 4 || m == 6 || m == 9 || m == 11 then 30
    else 31
  }

  function YearLength(y: int): int
  {
    if IsLeapYear(y) then 366 else 365
  }

  predicate ValidDate(d: Date)
  {
    1 <= d.month <= 12 && 1 <= d.day <= DaysInMonth(d.year, d.month)
  }

  /** Chronological order of dates. */
  predicate Before(a: Date, b: Date)
  {
    a.year < b.year ||
    (a.year == b.year && (a.month < b.month || (a.month == b.month && a.day < b.day)))
  }

  /** Days from 1 January of year 0 to 1 January of year `y`. */
  function DaysBeforeYear(y: int): int
  {
    365 * y + (y + 3) / 4 - (y + 99) / 100 + (y + 399) / 400
  }

  /** Days from 1 January to the first of month `m` (`m == 13` is the year's end). */
  function DaysBeforeMonth(y: int, m: int): (n: int)
    requires 1 <= m <= 13
    ensures 28 * (m - 1) <= n <= 31 * (m - 1)
  {
    if m == 1 then 0 else DaysBeforeMonth(y, m - 1) + DaysInMonth(y, m - 1)
  }

  /** Days since 1 January of year 0; differences of day numbers are what
      `(b.getTime() - a.getTime()) / 86400000` gives for two dates parsed
      from `YYYY-MM-DD` strings (both are UTC midnights). */
  function DayNumber(d: Date): int
    requires ValidDate(d)
  {
    DaysBeforeYear(d.year) + DaysBeforeMonth(d.year, d.month) + d.day - 1
  }

  lemma YearStep(y: int)
    ensures DaysBeforeYear(y + 1) == DaysBeforeYear(y) + YearLength(y)
  {
    Step4(y);
    Step100(y);
    Step400(y);
    Divisors(y);
    var a, b, c := (y + 4) / 4 - (y + 3) / 4, (y + 100) / 100 - (y + 99) / 100, (y + 400) / 400 - (y + 399) / 400;
    assert DaysBeforeYear(y + 1) - DaysBeforeYear(y) == 365 + a - b + c;
    assert YearLength(y) == 365 + a - b + c;
  }

  /** A multiple of 400 is a multiple of 100, which is a multiple of 4. */
  lemma Divisors(y: int)
    ensures y % 400 == 0 ==> y % 100 == 0
    ensures y % 100 == 0 ==> y % 4 == 0
  {
    if y % 400 == 0 {
      MultipleOf100(y / 400 * 4);
    }
    if y % 100 == 0 {
      MultipleOf4(y / 100 * 25);
    }
  }

  lemma MultipleOf100(k: int)
    ensures (100 * k) % 100 == 0
  {
    var d := (100 * k) / 100;
    assert 100 * d <= 100 * k < 100 * d + 100;
    assert d == k;
  }

  lemma MultipleOf4(k: int)
    ensures (4 * k) % 4 == 0
  {
    var d := (4 * k) / 4;
    assert 4 * d <= 4 * k < 4 * d + 4;
    assert d == k;
  }

  /** Each year `y` divisible by 4 adds one to the count of such years. */
  lemma Step4(y: int)
    ensures (y + 4) / 4 - (y + 3) / 4 == if y % 4 == 0 then 1 else 0
  {
    var q, r := y / 4, y % 4;
    assert y + 4 == 4 * (q + 1) + r;
    assert (y + 4) / 4 == q + 1;
    if r == 0 {
      assert y + 3 == 4 * q + 3;
    } else {
      assert y + 3 == 4 * (q + 1) + (r - 1);
    }
  }

  lemma Step100(y: int)
    ensures (y + 100) / 100 - (y + 99) / 100 == if y % 100 == 0 then 1 else 0
  {
    var q, r := y / 100, y % 100;
    assert y + 100 == 100 * (q + 1) + r;
    assert (y + 100) / 100 == q + 1;
    if r == 0 {
      assert y + 99 == 100 * q + 99;
    } else {
      assert y + 99 == 100 * (q + 1) + (r - 1);
    }
  }

  lemma Step400(y: int)
    ensures (y + 400) / 400 - (y + 399) / 400 == if y % 400 == 0 then 1 else 0
  {
    var q, r := y / 400, y % 400;
    assert y + 400 == 400 * (q + 1) + r;
    assert (y + 400) / 400 == q + 1;
    if r == 0 {
      assert y + 399 == 400 * q + 399;
    } else {
      assert y + 399 == 400 * (q + 1) + (r - 1);
    }
  }

  lemma MonthsFillYear(y: int)
    ensures DaysBeforeMonth(y, 13) == YearLength(y)
  {
    var feb := DaysInMonth(y, 2);
    assert DaysBeforeMonth(y, 2) == 31;
    assert DaysBeforeMonth(y, 3) == 31 + feb;
    assert DaysBeforeMonth(y, 4) == 62 + feb;
    assert DaysBeforeMonth(y, 5) == 92 + feb;
    assert DaysBeforeMonth(y, 6) == 123 + feb;
    assert DaysBeforeMonth(y, 7) == 153 + feb;
    assert DaysBeforeMonth(y, 8) == 184 + feb;
    assert DaysBeforeMonth(y, 9) == 215 + feb;
    assert DaysBeforeMonth(y, 10) == 245 + feb;
    assert DaysBeforeMonth(y, 11) == 276 + feb;
    assert DaysBeforeMonth(y, 12) == 306 + feb;
    assert DaysBeforeMonth(y, 13) == 337 + feb;
  }

  lemma {:induction false} DaysBeforeMonthOrder(y: int, m1: int, m2: int)
    requires 1 <= m1 < m2 <= 13
    ensures DaysBeforeMonth(y, m1) + DaysInMonth(y, m1) <= DaysBeforeMonth(y, m2)
    decreases m2 - m1
  {
    if m1 + 1 < m2 {
      DaysBeforeMonthOrder(y, m1 + 1, m2);
    }
  }

  lemma {:induction false} DaysBeforeYearOrder(y1: int, y2: int)
    requires y1 < y2
    ensures DaysBeforeYear(y1) + YearLength(y1) <= DaysBeforeYear(y2)
    decreases y2 - y1
  {
    YearStep(y1);
    if y1 + 1 < y2 {
      DaysBeforeYearOrder(y1 + 1, y2);
    }
  }

  lemma DayNumberInYear(d: Date)
    requires ValidDate(d)
    ensures DaysBeforeYear(d.year) <= DayNumber(d) < DaysBeforeYear(d.year) + YearLength(d.year)
  {
    MonthsFillYear(d.year);
    DaysBeforeMonthOrder(d.year, d.month, 13);
  }

  /** A later date has a larger day number, and equal day numbers mean equal dates. */
  lemma DayNumberOrder(a: Date, b: Date)
    requires ValidDate(a) && ValidDate(b)
    ensures Before(a, b) <==> DayNumber(a) < DayNumber(b)
    ensures a == b <==> DayNumber(a) == DayNumber(b)
  {
    if Before(a, b) {
      DayNumberBefore(a, b);
    } else if Before(b, a) {
      DayNumberBefore(b, a);
    }
  }

  lemma DayNumberBefore(a: Date, b: Date)
    requires ValidDate(a) && ValidDate(b) && Before(a, b)
    ensures DayNumber(a) < DayNumber(b)
  {
    if a.year < b.year {
      DayNumberInYear(a);
      DayNumberInYear(b);
      DaysBeforeYearOrder(a.year, b.year);
    } else if a.month < b.month {
      DaysBeforeMonthOrder(a.year, a.month, b.month);
    }
  }

  /** The day before a valid date. */
  function PreviousDay(d: Date): (p: Date)
    requires ValidDate(d)
    ensures ValidDate(p)
  {
    if d.day > 1 then Date(d.year, d.month, d.day - 1)
    else if d.month > 1 then Date(d.year, d.month - 1, DaysInMonth(d.year, d.month - 1))
    else Date(d.year - 1, 12, 31)
  }

  lemma PreviousDayNumber(d: Date)
    requires ValidDate(d)
    ensures DayNumber(PreviousDay(d)) == DayNumber(d) - 1
  {
    if d.day > 1 {
      DayBefore(d);
    } else if d.month > 1 {
      MonthBefore(d);
    } else {
      YearBefore(d);
    }
  }

  /** Within a month, the day before is one day number less. */
  lemma DayBefore(d: Date)
    requires ValidDate(d) && d.day > 1
    ensures DayNumber(PreviousDay(d)) + 1 == DayNumber(d)
  {
  }

  /** The last day of a month is the day before the first of the next. */
  lemma MonthBefore(d: Date)
    requires ValidDate(d) && d.day == 1 && d.month > 1
    ensures DayNumber(PreviousDay(d)) + 1 == DayNumber(d)
  {
    MonthEnd(d.year, d.month);
    assert d == Date(d.year, d.month, 1);
  }

  lemma MonthEnd(y: int, m: int)
    requires 2 <= m <= 12
    ensures DayNumber(Date(y, m - 1, DaysInMonth(y, m - 1))) + 1 == DayNumber(Date(y, m, 1))
  {
    assert DaysBeforeMonth(y, m) == DaysBeforeMonth(y, m - 1) + DaysInMonth(y, m - 1);
  }

  /** 1 January follows 31 December of the year before. */
  lemma YearBefore(d: Date)
    requires ValidDate(d) && d.day == 1 && d.month == 1
    ensures DayNumber(PreviousDay(d)) + 1 == DayNumber(d)
  {
    NewYearsEve(d.year - 1);
    assert d == Date(d.year - 1 + 1, 1, 1);
  }

  /** 31 December is the day before the next 1 January. */
  lemma NewYearsEve(y: int)
    ensures DayNumber(Date(y, 12, 31)) + 1 == DayNumber(Date(y + 1, 1, 1))
  {
    YearStep(y);
    MonthsFillYear(y);
    assert DaysBeforeMonth(y, 13) == DaysBeforeMonth(y, 12) + 31;
    assert DayNumber(Date(y + 1, 1, 1)) == DaysBeforeYear(y + 1);
  }

  /** `new Date(year, monthIndex, 1)`: the first day of the month `monthIndex`
      months after January of `year` (zero-based, any integer, carried into the year). */
  function FirstOfMonth(year: int, monthIndex: int): (d: Date)
    ensures ValidDate(d) && d.day == 1
  {
    Date(year + monthIndex / 12, monthIndex % 12 + 1, 1)
  }

  /** `new Date(year, monthIndex, 0)`: day 0 is the day before the first. */
  function DayZero(year: int, monthIndex: int): (d: Date)
    ensures ValidDate(d)
  {
    PreviousDay(FirstOfMonth(year, monthIndex))
  }

  /** Day 0 of a month is the last day of the month before it. */
  lemma DayZeroIsMonthEnd(year: int, monthIndex: int)
    ensures var f := FirstOfMonth(year, monthIndex - 1);
            DayZero(year, monthIndex) == Date(f.year, f.month, DaysInMonth(f.year, f.month))
  {
    var f := FirstOfMonth(year, monthIndex - 1);
    var g := FirstOfMonth(year, monthIndex);
    if monthIndex % 12 == 0 {
      assert (monthIndex - 1) % 12 == 11;
      assert (monthIndex - 1) / 12 == monthIndex / 12 - 1;
    } else {
      assert (monthIndex - 1) % 12 == monthIndex % 12 - 1;
      assert (monthIndex - 1) / 12 == monthIndex / 12;
    }
  }

  /** The year as `toISOString` writes it: four digits for 0..9999, otherwise
      a sign and six digits. */
  function YearString(y: int): string
  {
    if 0 <= y <= 9999 then FixedDigits(y, 4)
    else if y < 0 then "-" + FixedDigits(-y, 6)
    else "+" + FixedDigits(y, 6)
  }

  /** `YYYY-MM-DD`, the date part of `toISOString()`. */
  function FormatIsoDate(d: Date): string
    requires ValidDate(d)
  {
    YearString(d.year) + "-" + FixedDigits(d.month, 2) + "-" + FixedDigits(d.day, 2)
  }

  /** Ten characters: four digits, '-', two digits, '-', two digits. */
  predicate IsIsoDateString(s: string)
  {
    |s| == 10 && s[4] == '-' && s[7] == '-' &&
    AllDigits(s[..4]) && AllDigits(s[5..7]) && AllDigits(s[8..])
  }

  /** Reads a `YYYY-MM-DD` string naming a real calendar date. */
  function ParseIsoDate(s: string): (r: Option<Date>)
    ensures r.Some? ==> ValidDate(r.value) && 0 <= r.value.year <= 9999
  {
    if !IsIsoDateString(s) then None
    else
      var d := Date(DigitsValue(s[..4]), DigitsValue(s[5..7]), DigitsValue(s[8..]));
      FixedDigitsBound(s[..4]);
      if ValidDate(d) then Some(d) else None
  }

  lemma {:induction false} FixedDigitsBound(s: string)
    requires AllDigits(s)
    ensures DigitsValue(s) < Pow10(|s|)
  {
    if s != [] {
      FixedDigitsBound(s[..|s| - 1]);
    }
  }

  lemma {:induction false} DigitsInverse(s: string)
    requires AllDigits(s)
    ensures FixedDigits(DigitsValue(s), |s|) == s
  {
    if s != [] {
      var init := s[..|s| - 1];
      var n := DigitsValue(s);
      assert n / 10 == DigitsValue(init);
      assert n % 10 == DigitValue(s[|s| - 1]);
      DigitsInverse(init);
      assert s == init + [s[|s| - 1]];
    }
  }

  lemma IsoPieces(d: Date)
    requires ValidDate(d) && 0 <= d.year <= 9999
    ensures var s := FormatIsoDate(d);
            |s| == 10 && s[..4] == FixedDigits(d.year, 4) && s[4] == '-' &&
            s[5..7] == FixedDigits(d.month, 2) && s[7] == '-' && s[8..] == FixedDigits(d.day, 2)
  {
  }

  /** Formatting gives a well-formed string, and parsing it gives the date back. */
  lemma FormatParseRoundTrip(d: Date)
    requires ValidDate(d) && 0 <= d.year <= 9999
    ensures IsIsoDateString(FormatIsoDate(d))
    ensures ParseIsoDate(FormatIsoDate(d)) == Some(d)
  {
    IsoPieces(d);
    FixedDigitsRoundTrip(d.year, 4);
    FixedDigitsRoundTrip(d.month, 2);
    FixedDigitsRoundTrip(d.day, 2);
  }

  /** Every string that parses is the formatting of the date it names. */
  lemma ParseFormatRoundTrip(s: string)
    requires ParseIsoDate(s).Some?
    ensures FormatIsoDate(ParseIsoDate(s).value) == s
  {
    var d := ParseIsoDate(s).value;
    DigitsInverse(s[..4]);
    DigitsInverse(s[5..7]);
    DigitsInverse(s[8..]);
    IsoPieces(d);
    SamePieces(FormatIsoDate(d), s);
  }

  /** Two ten-character strings with the same pieces are equal. */
  lemma SamePieces(a: string, b: string)
    requires |a| == 10 && |b| == 10
    requires a[..4] == b[..4] && a[4] == b[4] && a[5..7] == b[5..7] && a[7] == b[7] && a[8..] == b[8..]
    ensures a == b
  {
    forall i | 0 <= i < 10 ensures a[i] == b[i] {
      if i < 4 {
        assert a[i] == a[..4][i];
      } else if 5 <= i < 7 {
        assert a[i] == a[5..7][i - 5] && b[i] == b[5..7][i - 5];
      } else if 8 <= i {
        assert a[i] == a[8..][i - 8] && b[i] == b[8..][i - 8];
      }
    }
  }

  /** Comparing two `Y-M-D` strings whose pieces have equal widths compares
      the years, then the months, then the days. */
  lemma IsoTextOrder(ya: string, ma: string, da: string, yb: string, mb: string, db: string)
    requires |ya| == |yb| && |ma| == |mb|
    ensures StrLess(ya + "-" + ma + "-" + da, yb + "-" + mb + "-" + db) <==>
            StrLess(ya, yb) || (ya == yb && (StrLess(ma, mb) || (ma == mb && StrLess(da, db))))
  {
    var ta, tb := ma + ("-" + da), mb + ("-" + db);
    assert ya + "-" + ma + "-" + da == ya + ("-" + ta);
    assert yb + "-" + mb + "-" + db == yb + ("-" + tb);
    StrLessConcat(ya, "-" + ta, yb, "-" + tb);
    StrLessConcat("-", ta, "-", tb);
    StrLessConcat(ma, "-" + da, mb, "-" + db);
    StrLessConcat("-", da, "-", db);
    StrLessIrreflexive("-");
  }

  /** Fixed-width digit strings are equal exactly when the numbers are. */
  lemma FixedDigitsInjective(a: nat, b: nat, w: nat)
    requires a < Pow10(w) && b < Pow10(w)
    ensures FixedDigits(a, w) == FixedDigits(b, w) <==> a == b
  {
    FixedDigitsRoundTrip(a, w);
    FixedDigitsRoundTrip(b, w);
  }

  /** For four-digit years, comparing ISO strings as text compares the dates
      chronologically. */
  lemma FormatOrder(a: Date, b: Date)
    requires ValidDate(a) && ValidDate(b) && 0 <= a.year <= 9999 && 0 <= b.year <= 9999
    ensures StrLess(FormatIsoDate(a), FormatIsoDate(b)) <==> Before(a, b)
    ensures FormatIsoDate(a) == FormatIsoDate(b) <==> a == b
  {
    IsoTextOrder(FixedDigits(a.year, 4), FixedDigits(a.month, 2), FixedDigits(a.day, 2),
                 FixedDigits(b.year, 4), FixedDigits(b.month, 2), FixedDigits(b.day, 2));
    FixedDigitsOrder(a.year, b.year, 4);
    FixedDigitsOrder(a.month, b.month, 2);
    FixedDigitsOrder(a.day, b.day, 2);
    FixedDigitsInjective(a.year, b.year, 4);
    FixedDigitsInjective(a.month, b.month, 2);
    FixedDigitsInjective(a.day, b.day, 2);
    if FormatIsoDate(a) == FormatIsoDate(b) {
      FormatParseRoundTrip(a);
      FormatParseRoundTrip(b);
    }
  }
}
