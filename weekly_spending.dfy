/** Weekly spending (lib/api/analytics/weekly-spending.ts): the fetched
    expenses grouped into "Week N" buckets counted from the start of the
    range, sorted by week number. The backend query is an input: its rows
    (already restricted to the range and to undeleted expenses) and its
    error. Amounts are integers in minor units. */
module WeeklySpendings {
  import opened Wrappers
  import opened Seqs
  import opened Strings
  import opened Calendar
  import opened Tallies

  /** A row of `select("expense_date, amount")`, its date parsed. */
  datatype SpendingRow = SpendingRow(expenseDate: Date, amount: int)

  datatype WeeklySpending = WeeklySpending(week: string, amount: int)

  const WEEKLY_FAILED: string := "Failed to fetch weekly spending: "

  /** `getWeekNumber`: whole days from `start` to `date`, in weeks of seven
      counted from 1, and never below 1. */
  function GetWeekNumber(date: Date, start: Date): int
    requires ValidDate(date) && ValidDate(start)
  {
    var days := DayNumber(date) - DayNumber(start);
    var w := days / 7 + 1;
    if w > 1 then w else 1
  }

  /** Week 1 holds the first seven days and every earlier date; day `d`
      after it lies in week `d / 7 + 1`. */
  lemma WeekNumberFacts(date: Date, start: Date)
    requires ValidDate(date) && ValidDate(start)
    ensures GetWeekNumber(date, start) >= 1
    ensures var d := DayNumber(date) - DayNumber(start);
            (d >= 0 ==> GetWeekNumber(date, start) == d / 7 + 1) &&
            (d < 0 ==> GetWeekNumber(date, start) == 1)
  {
  }

  /** A later date never falls in an earlier week. */
  lemma WeekNumberMonotone(a: Date, b: Date, start: Date)
    requires ValidDate(a) && ValidDate(b) && ValidDate(start)
    requires DayNumber(a) <= DayNumber(b)
    ensures GetWeekNumber(a, start) <= GetWeekNumber(b, start)
  {
    var da, db := DayNumber(a) - DayNumber(start), DayNumber(b) - DayNumber(start);
    DivMonotone(da, db);
  }

  lemma DivMonotone(x: int, y: int)
    requires x <= y
    ensures x / 7 <= y / 7
  {
  }

  /** `` `Week ${n}` ``. */
  function WeekLabel(n: nat): string
  {
    "Week " + NatToString(n)
  }

  /** `parseInt(name.split(' ')[1])` for the labels built by `WeekLabel`; 0
      stands for the `NaN` of any other label, which never arises. */
  function WeekOfLabel(name: string): int
  {
    if |name| > 5 && name[..5] == "Week " && AllDigits(name[5..]) then DigitsValue(name[5..]) else 0
  }

  /** Reading a label back gives its week number, so different weeks get
      different labels. */
  lemma WeekLabelRoundTrip(n: nat)
    ensures WeekOfLabel(WeekLabel(n)) == n
  {
    var l := WeekLabel(n);
    assert l[..5] == "Week " && l[5..] == NatToString(n);
    NatToStringRoundTrip(n);
  }

  function WeekOf(w: WeeklySpending): int
  {
    WeekOfLabel(w.week)
  }

  function WeeklyAmount(w: WeeklySpending): int
  {
    w.amount
  }

  /** Each row as a (label, amount) entry. */
  function WeekEntries(rows: seq<SpendingRow>, start: Date): (e: seq<Entry<string>>)
    requires ValidDate(start) && forall i :: 0 <= i < |rows| ==> ValidDate(rows[i].expenseDate)
    ensures |e| == |rows|
    ensures forall i :: 0 <= i < |rows| ==>
              e[i] == Entry(WeekLabel(GetWeekNumber(rows[i].expenseDate, start)), rows[i].amount)
  {
    if rows == [] then []
    else [Entry(WeekLabel(GetWeekNumber(rows[0].expenseDate, start)), rows[0].amount)] + WeekEntries(rows[1..], start)
  }

  /** `Object.entries(weeks).map(...)`: the labels are not array indices,
      so they come in insertion order; `toFixed(2)` leaves a total in
      minor units as it is. */
  function WeekRows(labels: seq<string>, totals: map<string, int>): (r: seq<WeeklySpending>)
    ensures |r| == |labels|
    ensures forall i :: 0 <= i < |labels| ==> r[i] == WeeklySpending(labels[i], TotalOf(totals)(labels[i]))
  {
    if labels == [] then [] else [WeeklySpending(labels[0], TotalOf(totals)(labels[0]))] + WeekRows(labels[1..], totals)
  }

  /** `getWeeklySpending` as a function of the query's answer. */
  function WeeklyOf(start: Date, data: Option<seq<SpendingRow>>, error: Option<string>): Result<seq<WeeklySpending>, string>
    requires ValidDate(start)
    requires data.Some? ==> forall i :: 0 <= i < |data.value| ==> ValidDate(data.value[i].expenseDate)
  {
    if error.Some? then Err(WEEKLY_FAILED + error.value)
    else
      var rows := if data.Some? then data.value else [];
      var t := TallyOf(WeekEntries(rows, start));
      Ok(SortByKey(WeekRows(t.order, t.totals), WeekOf))
  }

  /** `getWeeklySpending`. */
  method GetWeeklySpending(start: Date, data: Option<seq<SpendingRow>>, error: Option<string>)
    returns (r: Result<seq<WeeklySpending>, string>)
    requires ValidDate(start)
    requires data.Some? ==> forall i :: 0 <= i < |data.value| ==> ValidDate(data.value[i].expenseDate)
    ensures r == WeeklyOf(start, data, error)
  {
    if error.Some? {
      return Err(WEEKLY_FAILED + error.value);
    }
    var rows := if data.Some? then data.value else [];
    var labels, totals := TallyEntries(WeekEntries(rows, start));
    r := Ok(SortByKey(WeekRows(labels, totals), WeekOf));
  }

  lemma {:induction false} WeekRowsSum(labels: seq<string>, totals: map<string, int>)
    ensures SumOf(WeekRows(labels, totals), WeeklyAmount) == SumOf(labels, TotalOf(totals))
  {
    if labels != [] {
      WeekRowsSum(labels[1..], totals);
      assert WeekRows(labels, totals)[1..] == WeekRows(labels[1..], totals);
    }
  }

  /** Every bucket label is the label of its own week number. */
  lemma WeekKeysAreLabels(start: Date, rows: seq<SpendingRow>)
    requires ValidDate(start) && forall i :: 0 <= i < |rows| ==> ValidDate(rows[i].expenseDate)
    ensures forall k :: k in TallyOf(WeekEntries(rows, start)).totals ==>
              WeekOfLabel(k) >= 0 && WeekLabel(WeekOfLabel(k)) == k
  {
    var e := WeekEntries(rows, start);
    forall k | k in TallyOf(e).totals ensures WeekOfLabel(k) >= 0 && WeekLabel(WeekOfLabel(k)) == k {
      var m := KeyIndex(e, k);
      WeekLabelRoundTrip(GetWeekNumber(rows[m].expenseDate, start));
    }
  }

  /** There is a bucket for week `n` exactly when some row falls in week `n`. */
  lemma WeeklyWeeks(start: Date, rows: seq<SpendingRow>)
    requires ValidDate(start) && forall i :: 0 <= i < |rows| ==> ValidDate(rows[i].expenseDate)
    ensures forall n: nat :: WeekLabel(n) in TallyOf(WeekEntries(rows, start)).totals <==>
              exists i :: 0 <= i < |rows| && GetWeekNumber(rows[i].expenseDate, start) == n
  {
    forall n: nat ensures WeekLabel(n) in TallyOf(WeekEntries(rows, start)).totals <==>
                          exists i :: 0 <= i < |rows| && GetWeekNumber(rows[i].expenseDate, start) == n
    {
      if WeekLabel(n) in TallyOf(WeekEntries(rows, start)).totals {
        BucketHasRow(start, rows, n);
      }
      if i :| 0 <= i < |rows| && GetWeekNumber(rows[i].expenseDate, start) == n {
        RowHasBucket(start, rows, i);
      }
    }
  }

  /** The bucket of a week comes from a row in that week. */
  lemma BucketHasRow(start: Date, rows: seq<SpendingRow>, n: nat)
    requires ValidDate(start) && forall i :: 0 <= i < |rows| ==> ValidDate(rows[i].expenseDate)
    requires WeekLabel(n) in TallyOf(WeekEntries(rows, start)).totals
    ensures exists i :: 0 <= i < |rows| && GetWeekNumber(rows[i].expenseDate, start) == n
  {
    var i := KeyIndex(WeekEntries(rows, start), WeekLabel(n));
    WeekLabelInjective(GetWeekNumber(rows[i].expenseDate, start), n);
  }

  /** Different weeks have different labels. */
  lemma WeekLabelInjective(a: nat, b: nat)
    requires WeekLabel(a) == WeekLabel(b)
    ensures a == b
  {
    WeekLabelRoundTrip(a);
    WeekLabelRoundTrip(b);
  }

  /** Every row's week has a bucket. */
  lemma RowHasBucket(start: Date, rows: seq<SpendingRow>, i: nat)
    requires ValidDate(start) && forall i :: 0 <= i < |rows| ==> ValidDate(rows[i].expenseDate)
    requires i < |rows|
    ensures WeekLabel(GetWeekNumber(rows[i].expenseDate, start)) in TallyOf(WeekEntries(rows, start)).totals
  {
    var e := WeekEntries(rows, start);
    TallyKeys(e);
    assert e[i].key == WeekLabel(GetWeekNumber(rows[i].expenseDate, start));
  }

  /** A tally whose order lists each key once. */
  ghost predicate WellOrdered(t: Tally<string>)
  {
    Distinct(t.order) && forall k :: k in t.order <==> k in t.totals
  }

  /** The sorted bucket list of a tally holds each key once with its total. */
  lemma BucketContents(t: Tally<string>)
    requires WellOrdered(t)
    ensures var r := SortByKey(WeekRows(t.order, t.totals), WeekOf);
            |r| == |t.totals| &&
            (forall i :: 0 <= i < |r| ==> r[i].week in t.totals && r[i].amount == t.totals[r[i].week]) &&
            SumOf(r, WeeklyAmount) == SumOf(t.order, TotalOf(t.totals))
  {
    var list := WeekRows(t.order, t.totals);
    var r := SortByKey(list, WeekOf);
    SortByKeyFacts(list, WeekOf);
    SameMembers(r, list);
    OrderCoversTotals(t);
    RowsOfTally(t, r);
    WeekRowsSum(t.order, t.totals);
    SumOfPermutation(r, list, WeeklyAmount);
  }

  /** Rows drawn from a tally's bucket list carry its keys and totals. */
  lemma RowsOfTally(t: Tally<string>, r: seq<WeeklySpending>)
    requires WellOrdered(t)
    requires forall x :: x in r ==> x in WeekRows(t.order, t.totals)
    ensures forall i :: 0 <= i < |r| ==> r[i].week in t.totals && r[i].amount == t.totals[r[i].week]
  {
    var list := WeekRows(t.order, t.totals);
    forall i | 0 <= i < |r| ensures r[i].week in t.totals && r[i].amount == t.totals[r[i].week] {
      assert r[i] in list;
      var j :| 0 <= j < |list| && list[j] == r[i];
      assert t.order[j] in t.order;
    }
  }

  /** Different labels of week numbers name different weeks. */
  lemma LabelsNameDistinctWeeks(t: Tally<string>)
    requires WellOrdered(t)
    requires forall k :: k in t.totals ==> WeekOfLabel(k) >= 0 && WeekLabel(WeekOfLabel(k)) == k
    ensures DistinctBy(WeekRows(t.order, t.totals), WeekOf)
  {
    var list := WeekRows(t.order, t.totals);
    forall i, j | 0 <= i < j < |list| ensures WeekOf(list[i]) != WeekOf(list[j]) {
      var ki, kj := t.order[i], t.order[j];
      assert ki in t.order && kj in t.order;
      assert ki != kj;
      assert WeekLabel(WeekOfLabel(ki)) == ki && WeekLabel(WeekOfLabel(kj)) == kj;
    }
  }

  /** A sequence sorted by a key whose values are pairwise different is
      strictly increasing in it. */
  lemma SortedDistinctIncreasing<T>(s: seq<T>, key: T -> int)
    requires SortedByKey(s, key) && DistinctBy(s, key)
    ensures IncreasingBy(s, key)
  {
  }

  /** When every key is the label of its week number, the sorted bucket
      list has strictly increasing week numbers. */
  lemma BucketOrder(t: Tally<string>)
    requires WellOrdered(t)
    requires forall k :: k in t.totals ==> WeekOfLabel(k) >= 0 && WeekLabel(WeekOfLabel(k)) == k
    ensures IncreasingBy(SortByKey(WeekRows(t.order, t.totals), WeekOf), WeekOf)
  {
    var list := WeekRows(t.order, t.totals);
    var r := SortByKey(list, WeekOf);
    SortByKeyFacts(list, WeekOf);
    LabelsNameDistinctWeeks(t);
    DistinctByPermutation(list, r, WeekOf);
    SortedDistinctIncreasing(r, WeekOf);
  }

  /** The listed buckets are exactly the tally's, each with the sum of its
      rows' amounts; together they add up to every row's amount. */
  lemma WeeklyAmounts(start: Date, rows: seq<SpendingRow>)
    requires ValidDate(start) && forall i :: 0 <= i < |rows| ==> ValidDate(rows[i].expenseDate)
    ensures var r := WeeklyOf(start, Some(rows), None);
            r.Ok? && |r.value| == |TallyOf(WeekEntries(rows, start)).totals| &&
            (forall i :: 0 <= i < |r.value| ==>
               r.value[i].week in TallyOf(WeekEntries(rows, start)).totals &&
               r.value[i].amount == TotalFor(WeekEntries(rows, start), r.value[i].week)) &&
            SumOf(r.value, WeeklyAmount) == SumOf(WeekEntries(rows, start), Amount)
  {
    var e := WeekEntries(rows, start);
    TallyTotals(e);
    TallyOrder(e);
    TallySum(e);
    BucketContents(TallyOf(e));
  }

  /** The buckets are listed by week number, smallest first, each week once. */
  lemma WeeklySorted(start: Date, rows: seq<SpendingRow>)
    requires ValidDate(start) && forall i :: 0 <= i < |rows| ==> ValidDate(rows[i].expenseDate)
    ensures var r := WeeklyOf(start, Some(rows), None);
            r.Ok? && IncreasingBy(r.value, WeekOf)
  {
    var e := WeekEntries(rows, start);
    TallyOrder(e);
    WeekKeysAreLabels(start, rows);
    BucketOrder(TallyOf(e));
  }

  /** A failed query is reported with its message. */
  lemma WeeklyError(start: Date, data: Option<seq<SpendingRow>>, error: Option<string>)
    requires ValidDate(start)
    requires data.Some? ==> forall i :: 0 <= i < |data.value| ==> ValidDate(data.value[i].expenseDate)
    ensures error.Some? <==> WeeklyOf(start, data, error).Err?
    ensures error.Some? ==> WeeklyOf(start, data, error).error == WEEKLY_FAILED + error.value
  {
  }
}
