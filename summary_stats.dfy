/** Summary statistics (lib/api/analytics/summary-stats.ts): the total
    spent, the average per day over an inclusive date range and the
    largest category of a category breakdown. Amounts are integers in
    minor units (cents), so `toFixed(2)` is a rounding to whole minor
    units. */
module SummaryStatistics {
  import opened Wrappers
  import opened Seqs
  import opened Calendar
  import opened Tallies
  import opened CategoryBreakdowns

  /** `largestCategory`: a breakdown element, or the "N/A" placeholder,
      which has no fill. */
  datatype LargestCategory = LargestCategory(category: string, amount: int, percentage: int, fill: Option<string>)

  datatype SummaryStats = SummaryStats(totalSpent: int, avgPerDay: int, largestCategory: LargestCategory)

  const NOT_AVAILABLE: string := "N/A"

  /** `categoryBreakdown.reduce((sum, cat) => sum + cat.amount, 0)`. */
  function TotalSpent(b: seq<CategoryBreakdown>): (total: int)
    ensures b == [] ==> total == 0
  {
    SumOf(b, BreakdownAmount)
  }

  /** The total of the breakdown of a set of expenses is what those
      expenses add up to. */
  lemma TotalOfBreakdown(cats: seq<CategoryRow>, rows: seq<ExpenseRow>)
    ensures var r := BreakdownOf(Some(cats), None, Some(rows), None);
            r.Ok? && TotalSpent(r.value) == SumOf(Entries(rows), Amount)
  {
    BreakdownAmounts(cats, rows);
  }

  /** `daysDiff`: the whole days between the two dates, either way round,
      plus one so that both ends count. */
  function DaysDiff(start: Date, end: Date): int
    requires ValidDate(start) && ValidDate(end)
  {
    var d := DayNumber(end) - DayNumber(start);
    (if d >= 0 then d else -d) + 1
  }

  /** The day count is positive, symmetric, and 1 exactly for a single day. */
  lemma DaysDiffFacts(start: Date, end: Date)
    requires ValidDate(start) && ValidDate(end)
    ensures DaysDiff(start, end) >= 1
    ensures DaysDiff(start, end) == DaysDiff(end, start)
    ensures DaysDiff(start, end) == 1 <==> start == end
  {
    DayNumberOrder(start, end);
  }

  /** From the first to the last day of a month the range counts the
      month's days. */
  lemma DaysDiffOfMonth(year: int, monthIndex: int)
    ensures var f := FirstOfMonth(year, monthIndex);
            var l := DayZero(year, monthIndex + 1);
            DaysDiff(f, l) == DaysInMonth(f.year, f.month)
  {
    DayZeroIsMonthEnd(year, monthIndex + 1);
    var f := FirstOfMonth(year, monthIndex);
    var l := DayZero(year, monthIndex + 1);
    DayNumbersInMonth(f, l);
  }

  /** Two dates of one month are as many days apart as their day numbers. */
  lemma DayNumbersInMonth(a: Date, b: Date)
    requires ValidDate(a) && ValidDate(b) && a.year == b.year && a.month == b.month
    ensures DayNumber(b) - DayNumber(a) == b.day - a.day
  {
  }

  /** `parseFloat((total / days).toFixed(2))` in minor units: the quotient
      rounded to the nearest integer, halves away from zero. */
  function AvgPerDay(total: int, days: int): int
    requires days >= 1
  {
    if total >= 0 then (2 * total + days) / (2 * days)
    else -((-2 * total + days) / (2 * days))
  }

  /** The average is the nearest whole number to the quotient. */
  lemma AvgPerDayNearest(total: int, days: int)
    requires days >= 1
    ensures var a := AvgPerDay(total, days);
            -days <= 2 * (total - a * days) <= days
  {
    if total >= 0 {
      NearestNonNegative(total, days);
    } else {
      NearestNonNegative(-total, days);
    }
  }

  lemma NearestNonNegative(total: int, days: int)
    requires total >= 0 && days >= 1
    ensures var a := (2 * total + days) / (2 * days);
            -days <= 2 * (total - a * days) <= days
  {
    var a := (2 * total + days) / (2 * days);
    var rem := (2 * total + days) % (2 * days);
    assert 2 * total + days == a * (2 * days) + rem;
    assert 0 <= rem < 2 * days;
  }

  /** Rounding treats a debit and a credit alike, and a single day is the
      total itself. */
  lemma AvgPerDaySymmetric(total: int, days: int)
    requires days >= 1
    ensures AvgPerDay(-total, days) == -AvgPerDay(total, days)
    ensures AvgPerDay(total, 1) == total
  {
  }

  /** The `reduce` step: the previous element unless the current one is at
      least as large. */
  function Larger(prev: CategoryBreakdown, current: CategoryBreakdown): CategoryBreakdown
  {
    if prev.amount > current.amount then prev else current
  }

  /** `b.reduce(Larger)` on a non-empty breakdown. */
  function ReduceLarger(b: seq<CategoryBreakdown>): CategoryBreakdown
    requires b != []
  {
    if |b| == 1 then b[0] else Larger(ReduceLarger(b[..|b| - 1]), b[|b| - 1])
  }

  /** Element `i` has the largest amount, and every later element a smaller one. */
  ghost predicate IsLastLargest(b: seq<CategoryBreakdown>, i: int)
  {
    0 <= i < |b| &&
    (forall j :: 0 <= j < |b| ==> b[j].amount <= b[i].amount) &&
    (forall j :: i < j < |b| ==> b[j].amount < b[i].amount)
  }

  /** The reduction picks the last of the elements with the largest amount. */
  lemma {:induction false} ReduceLargerIsLastLargest(b: seq<CategoryBreakdown>)
    requires b != []
    ensures exists i :: IsLastLargest(b, i) && ReduceLarger(b) == b[i]
  {
    if |b| == 1 {
      assert IsLastLargest(b, 0);
    } else {
      var init := b[..|b| - 1];
      ReduceLargerIsLastLargest(init);
      var i :| IsLastLargest(init, i) && ReduceLarger(init) == init[i];
      assert ReduceLarger(b) == Larger(init[i], b[|b| - 1]);
      LargestStep(b, i);
    }
  }

  /** One more element either stays below the largest so far or becomes
      the last largest. */
  lemma LargestStep(b: seq<CategoryBreakdown>, i: int)
    requires |b| >= 2 && IsLastLargest(b[..|b| - 1], i)
    ensures var last := |b| - 1;
            if b[i].amount > b[last].amount then IsLastLargest(b, i) else IsLastLargest(b, last)
  {
    var init := b[..|b| - 1];
    var last := |b| - 1;
    assert forall j :: 0 <= j < last ==> b[j] == init[j];
  }

  function FromBreakdown(c: CategoryBreakdown): LargestCategory
  {
    LargestCategory(c.category, c.amount, c.percentage, Some(c.fill))
  }

  /** `largestCategory`. */
  function LargestOf(b: seq<CategoryBreakdown>): LargestCategory
  {
    if |b| > 0 then FromBreakdown(ReduceLarger(b))
    else LargestCategory(NOT_AVAILABLE, 0, 0, None)
  }

  /** An empty breakdown gives the placeholder; a non-empty one the last of
      its elements with the largest amount, whole. */
  lemma LargestFacts(b: seq<CategoryBreakdown>)
    ensures b == [] ==> LargestOf(b) == LargestCategory(NOT_AVAILABLE, 0, 0, None)
    ensures b != [] ==> exists i :: IsLastLargest(b, i) && LargestOf(b) == FromBreakdown(b[i])
  {
    if b != [] {
      ReduceLargerIsLastLargest(b);
    }
  }

  /** `getSummaryStats`. */
  function GetSummaryStats(start: Date, end: Date, b: seq<CategoryBreakdown>): SummaryStats
    requires ValidDate(start) && ValidDate(end)
  {
    var total := TotalSpent(b);
    SummaryStats(total, AvgPerDay(total, DaysDiff(start, end)), LargestOf(b))
  }

  /** The three statistics together: the total, an average within half a
      minor unit of the total spread over the days, and the largest
      category. */
  lemma SummaryStatsFacts(start: Date, end: Date, b: seq<CategoryBreakdown>)
    requires ValidDate(start) && ValidDate(end)
    ensures var s := GetSummaryStats(start, end, b);
            var days := DaysDiff(start, end);
            s.totalSpent == SumOf(b, BreakdownAmount) &&
            days >= 1 &&
            -days <= 2 * (s.totalSpent - s.avgPerDay * days) <= days &&
            s.largestCategory == LargestOf(b)
  {
    DaysDiffFacts(start, end);
    AvgPerDayNearest(TotalSpent(b), DaysDiff(start, end));
  }
}
