/** `pages/visualization.py`: the row filter to budget categories, the
    weekly spending chart, today's per-item breakdown and the per-category
    progress bars. */
module Visualization {
  import opened Wrappers
  import opened Strings
  import opened Dates
  import opened Seqs
  import opened Shared
  import opened Dashboard
  import opened TransactionPage

  // ---------------------------------------------------------------------
  // Rows of budget categories

  function LowerKey(e: (string, real)): string { Lower(e.0) }

  /** The lower-cased budget keys other than savings and income. */
  function TrackedKeys(b: Budgets): seq<string> {
    MapSeq(SpendingBudgets(b), LowerKey)
  }

  function InBudget(b: Budgets): Row -> bool {
    (r: Row) => Lower(r.category) in TrackedKeys(b)
  }

  /** The frame every chart starts from. */
  function Kept(rows: seq<Row>, b: Budgets): seq<Row> {
    Filter(rows, InBudget(b))
  }

  /** A row is kept exactly when its category matches, ignoring case, a
      budget key that is not income or savings; categories outside the
      table are dropped. */
  lemma KeptMembers(rows: seq<Row>, b: Budgets, r: Row)
    ensures r in Kept(rows, b) <==>
      r in rows && exists i :: 0 <= i < |b| && !IsRevenueCategory(b[i].0) && Lower(r.category) == Lower(b[i].0)
  {
    FilterMultiset(rows, InBudget(b));
    var ks := TrackedKeys(b);
    var s := SpendingBudgets(b);
    if Lower(r.category) in ks {
      var k :| 0 <= k < |ks| && ks[k] == Lower(r.category);
      var i := FilterIndexFrom(b, IsSpendingEntry, k);
      assert Lower(r.category) == Lower(b[i].0);
    }
    if exists i :: 0 <= i < |b| && !IsRevenueCategory(b[i].0) && Lower(r.category) == Lower(b[i].0) {
      var i :| 0 <= i < |b| && !IsRevenueCategory(b[i].0) && Lower(r.category) == Lower(b[i].0);
      var k := FilterIndexTo(b, IsSpendingEntry, i);
      assert ks[k] == Lower(r.category);
    }
  }

  /** No kept row is income or savings, whatever its letter case. */
  lemma KeptNotRevenue(rows: seq<Row>, b: Budgets)
    ensures forall r :: r in Kept(rows, b) ==> !IsRevenueCategory(r.category)
  {
    forall r | r in Kept(rows, b) ensures !IsRevenueCategory(r.category) {
      KeptMembers(rows, b, r);
    }
  }

  // ---------------------------------------------------------------------
  // The weekly window

  /** A moment as microseconds since the start of day 0 of the ordinal count. */
  function Instant(t: DateTime): int
    requires ValidDate(t.date)
  {
    Ordinal(t.date) * MicrosPerDay + t.micros
  }

  /** `week_start`: this week's Monday at the current time of day. */
  function WeekStartTime(now: DateTime): DateTime
    requires ValidDateTime(now)
  {
    DateTime(WeekStart(now.date), now.micros)
  }

  /** `DATE_dt.between(week_start, now)` as written: the row's midnight
      must lie between two moments that both carry the current time of day. */
  function InWeekAsWritten(now: DateTime): Row -> bool
    requires ValidDateTime(now)
  {
    (r: Row) =>
      var d := DateOf(r);
      d.Some? && Instant(WeekStartTime(now)) <= Instant(DateTime(d.value, 0)) <= Instant(now)
  }

  /** The intended window: every day from this week's Monday to today. */
  function InWeek(now: DateTime): Row -> bool
    requires ValidDateTime(now)
  {
    (r: Row) =>
      var d := DateOf(r);
      d.Some? && Ordinal(WeekStart(now.date)) <= Ordinal(d.value) <= Ordinal(now.date)
  }

  /** A whole day apart on the scaled line. */
  lemma MulGap(x: int, y: int, m: int)
    requires x < y && m > 0
    ensures x * m + m <= y * m
  {
    var k := y - x - 1;
    assert k * m >= 0;
    assert y * m == x * m + m + k * m;
  }

  /** Comparing a midnight with a moment of the same time of day. */
  lemma ScaledCompare(a: int, b: int, u: int, m: int)
    requires m > 0 && 0 <= u < m
    ensures a * m + u <= b * m <==> a < b || (a == b && u == 0)
    ensures b * m <= a * m + u <==> b <= a
  {
    if a < b {
      MulGap(a, b, m);
    } else if a > b {
      MulGap(b, a, m);
    }
  }

  /** As written, a row is in the week when its day is after Monday and no
      later than today, or it is Monday itself and the clock reads exactly
      midnight. */
  lemma InWeekAsWrittenMeaning(now: DateTime, r: Row)
    requires ValidDateTime(now)
    ensures InWeekAsWritten(now)(r) <==>
      DateOf(r).Some? &&
      var o, m, t := Ordinal(DateOf(r).value), Ordinal(WeekStart(now.date)), Ordinal(now.date);
      ((m < o || (m == o && now.micros == 0)) && o <= t)
  {
    if DateOf(r).Some? {
      var o, m, t := Ordinal(DateOf(r).value), Ordinal(WeekStart(now.date)), Ordinal(now.date);
      ScaledCompare(m, o, now.micros, MicrosPerDay);
      ScaledCompare(t, o, now.micros, MicrosPerDay);
    }
  }

  /** The source's window never holds more than the intended one, and they
      differ only on rows dated this week's Monday once the clock is past
      midnight. */
  lemma WeekWindowsAgree(now: DateTime, r: Row)
    requires ValidDateTime(now)
    ensures InWeekAsWritten(now)(r) ==> InWeek(now)(r)
    ensures InWeek(now)(r) && !InWeekAsWritten(now)(r) ==>
      DateOf(r) == Some(WeekStart(now.date)) && now.micros > 0
  {
    InWeekAsWrittenMeaning(now, r);
    if InWeek(now)(r) && !InWeekAsWritten(now)(r) {
      OrdinalInjective(DateOf(r).value, WeekStart(now.date));
    }
  }

  /** Any purchase on Monday drops out of the weekly chart as soon as the
      clock is past midnight. */
  lemma MondayDroppedAfterMidnight(now: DateTime, r: Row)
    requires ValidDateTime(now) && now.micros > 0
    requires DateOf(r) == Some(WeekStart(now.date))
    ensures !InWeekAsWritten(now)(r) && InWeek(now)(r)
  {
    InWeekAsWrittenMeaning(now, r);
  }

  /** Monday 13 October 2025 starts the week of Wednesday 15 October. */
  lemma WednesdayWeekStart()
    ensures ValidDate(Date(2025, 10, 15)) && WeekStart(Date(2025, 10, 15)) == Date(2025, 10, 13)
  {
    var wed, monday := Date(2025, 10, 15), Date(2025, 10, 13);
    MidOctoberOrdinals();
    assert Weekday(wed) == 2;
    OrdinalInjective(WeekStart(wed), monday);
  }

  lemma MidOctoberOrdinals()
    ensures ValidDate(Date(2025, 10, 15)) && Ordinal(Date(2025, 10, 15)) == 739539
    ensures ValidDate(Date(2025, 10, 13)) && Ordinal(Date(2025, 10, 13)) == 739537
  {
  }

  /** The DATE text "10/13/2025" parses to Monday 13 October 2025. */
  lemma MondayTextParses(r: Row)
    requires r.date == UsDate(Date(2025, 10, 13))
    ensures DateOf(r) == Some(Date(2025, 10, 13))
  {
    ParseUsDateRoundTrip(Date(2025, 10, 13));
  }

  /** Wednesday 15 October 2025 at noon: a purchase dated Monday 13 October
      is not in the source's weekly window, though it is in the week. */
  lemma NoonWednesdayDropsMonday(r: Row)
    requires r.date == UsDate(Date(2025, 10, 13))
    ensures ValidDateTime(DateTime(Date(2025, 10, 15), 43_200_000_000))
    ensures !InWeekAsWritten(DateTime(Date(2025, 10, 15), 43_200_000_000))(r)
    ensures InWeek(DateTime(Date(2025, 10, 15), 43_200_000_000))(r)
  {
    WednesdayWeekStart();
    MondayTextParses(r);
    MondayDroppedAfterMidnight(DateTime(Date(2025, 10, 15), 43_200_000_000), r);
  }

  /** The rows of the intended window: their dates are days of this week. */
  lemma InWeekDays(now: DateTime, r: Row)
    requires ValidDateTime(now) && InWeek(now)(r)
    ensures var d := DateOf(r).value;
      && Ordinal(now.date) - 6 <= Ordinal(d) <= Ordinal(now.date)
      && Weekday(d) == Ordinal(d) - Ordinal(WeekStart(now.date))
      && Weekday(d) <= Weekday(now.date)
  {
    WeekDay(now.date, DateOf(r).value);
  }

  // ---------------------------------------------------------------------
  // The daily chart

  /** `week_start <= DATE_dt <= now` over the kept rows, as written and as
      intended. */
  function WeekRowsAsWritten(kept: seq<Row>, now: DateTime): seq<Row>
    requires ValidDateTime(now)
  {
    Filter(kept, InWeekAsWritten(now))
  }

  function WeekRows(kept: seq<Row>, now: DateTime): seq<Row>
    requires ValidDateTime(now)
  {
    Filter(kept, InWeek(now))
  }

  /** `dt.strftime("%a")`; NaN for NaT. */
  function DayAbbrev(d: Option<Date>): Option<string> {
    if d.Some? && ValidDate(d.value) then Some(WeekdayAbbrevs[Weekday(d.value)]) else None
  }

  /** One bar: the date, its day label and the day's spending. */
  datatype DayBar = DayBar(date: Option<Date>, day: Option<string>, amount: real)

  function BarFor(w: seq<Row>): Option<Date> -> DayBar {
    (k: Option<Date>) => DayBar(k, DayAbbrev(k), GroupSum(w, DateOf, k, Amount))
  }

  /** `groupby("DATE_dt")["Amount Spent"].sum()` with a day label per bar;
      None for the "no data" notice. */
  function DailyChart(w: seq<Row>): Option<seq<DayBar>> {
    if w == [] then None else Some(MapSeq(PresentKeys(w, DateOf, AscKey), BarFor(w)))
  }

  /** A window's chart: one bar per date of its rows, each date once, each
      bar that date's total, the bars adding up to the window's total. */
  lemma DailyChartMeaning(w: seq<Row>)
    requires forall i :: 0 <= i < |w| ==> DateOf(w[i]).Some?
    ensures DailyChart(w).None? <==> w == []
    ensures DailyChart(w).Some? ==>
      var bars := DailyChart(w).value;
      && (forall i, j :: 0 <= i < j < |bars| ==> bars[i].date != bars[j].date)
      && (forall k :: 0 <= k < |bars| ==> bars[k].amount == GroupSum(w, DateOf, bars[k].date, Amount))
      && (forall i :: 0 <= i < |w| ==> exists k :: 0 <= k < |bars| && bars[k].date == DateOf(w[i]))
      && Sum(bars, BarAmount) == Sum(w, Amount)
  {
    if w != [] {
      var ks := PresentKeys(w, DateOf, AscKey);
      var bars := MapSeq(ks, BarFor(w));
      PresentKeysMembers(w, DateOf, AscKey);
      forall i | 0 <= i < |w| ensures exists k :: 0 <= k < |bars| && bars[k].date == DateOf(w[i]) {
        assert DateOf(w[i]) in ks;
        var k :| 0 <= k < |ks| && ks[k] == DateOf(w[i]);
        assert bars[k].date == DateOf(w[i]);
      }
      BarsAddUp(w, ks);
      SumOfGroupSums(w, DateOf, ks, Amount);
      SumGroupsCovers(w, DateOf, ks, Amount);
    }
  }

  function BarAmount(b: DayBar): real { b.amount }

  lemma {:induction false} BarsAddUp(w: seq<Row>, ks: seq<Option<Date>>)
    ensures Sum(MapSeq(ks, BarFor(w)), BarAmount) == Sum(GroupSums(w, DateOf, ks, Amount), Id)
  {
    if ks != [] {
      assert MapSeq(ks, BarFor(w))[1..] == MapSeq(ks[1..], BarFor(w));
      assert GroupSums(w, DateOf, ks, Amount)[1..] == GroupSums(w, DateOf, ks[1..], Amount);
      BarsAddUp(w, ks[1..]);
    }
  }

  /** In the intended window the bars' day labels are all different: the
      week never shows two Mondays. */
  lemma WeekBarLabelsDistinct(kept: seq<Row>, now: DateTime)
    requires ValidDateTime(now)
    ensures DailyChart(WeekRows(kept, now)).Some? ==> LabelsDistinct(DailyChart(WeekRows(kept, now)).value)
  {
    WeekKeysDays(kept, now);
    ChartLabelsDistinct(WeekRows(kept, now), Ordinal(WeekStart(now.date)));
  }

  /** No day label is missing and no two bars share one. */
  predicate LabelsDistinct(bars: seq<DayBar>) {
    forall i, j :: 0 <= i < j < |bars| ==> bars[i].day.Some? && bars[i].day != bars[j].day
  }

  /** A valid date whose weekday is its distance from day number `ms`. */
  predicate DaysFrom(k: Option<Date>, ms: int) {
    k.Some? && ValidDate(k.value) && Weekday(k.value) == Ordinal(k.value) - ms
  }

  /** Every key is such a date. */
  predicate AllDaysFrom(ks: seq<Option<Date>>, ms: int) {
    forall k :: k in ks ==> DaysFrom(k, ms)
  }

  /** The date keys of the window's chart are days of this week. */
  lemma WeekKeysDays(kept: seq<Row>, now: DateTime)
    requires ValidDateTime(now)
    ensures AllDaysFrom(PresentKeys(WeekRows(kept, now), DateOf, AscKey), Ordinal(WeekStart(now.date)))
  {
    var w := WeekRows(kept, now);
    PresentKeysMembers(w, DateOf, AscKey);
    forall k | k in PresentKeys(w, DateOf, AscKey) ensures DaysFrom(k, Ordinal(WeekStart(now.date))) {
      var n :| 0 <= n < |w| && DateOf(w[n]) == k;
      var m := FilterIndexFrom(kept, InWeek(now), n);
      InWeekDays(now, kept[m]);
    }
  }

  /** When every date of the rows has its distance from one Monday as its
      weekday, the chart's day labels are all different. */
  lemma ChartLabelsDistinct(w: seq<Row>, ms: int)
    requires AllDaysFrom(PresentKeys(w, DateOf, AscKey), ms)
    ensures DailyChart(w).Some? ==> LabelsDistinct(DailyChart(w).value)
  {
    if w != [] {
      var ks := PresentKeys(w, DateOf, AscKey);
      var bars := MapSeq(ks, BarFor(w));
      assert DailyChart(w) == Some(bars);
      PresentKeysMembers(w, DateOf, AscKey);
      forall i, j | 0 <= i < j < |bars| ensures bars[i].day.Some? && bars[i].day != bars[j].day {
        assert bars[i].day == DayAbbrev(ks[i]) && bars[j].day == DayAbbrev(ks[j]);
        KeyLabelsDiffer(ks, ms, i, j);
      }
    }
  }

  /** Two different such dates get different day labels. */
  lemma KeyLabelsDiffer(ks: seq<Option<Date>>, ms: int, i: int, j: int)
    requires NoDuplicates(ks) && AllDaysFrom(ks, ms)
    requires 0 <= i < j < |ks|
    ensures DayAbbrev(ks[i]).Some? && DayAbbrev(ks[i]) != DayAbbrev(ks[j])
  {
    assert ks[i] in ks && ks[j] in ks;
    var a, b := ks[i].value, ks[j].value;
    if Weekday(a) == Weekday(b) {
      OrdinalInjective(a, b);
    }
    WeekdayAbbrevsDistinct(Weekday(a), Weekday(b));
  }

  lemma WeekdayAbbrevsDistinct(a: int, b: int)
    requires 0 <= a < 7 && 0 <= b < 7
    ensures WeekdayAbbrevs[a] == WeekdayAbbrevs[b] <==> a == b
  {
  }

  // ---------------------------------------------------------------------
  // Today's breakdown

  /** The kept rows whose DATE is today's unpadded text. */
  function TodayKept(kept: seq<Row>, now: DateTime): seq<Row>
    requires ValidDateTime(now)
  {
    Filter(kept, DateIs(TodayString(now)))
  }

  function SliceFor(t: seq<Row>): string -> (string, real) {
    (item: string) => (item, GroupSum(t, ItemOf, item, Amount))
  }

  /** `groupby("ITEM")["Amount Spent"].sum()`: one slice per item; None for
      the "nothing today" notice. */
  function TodayBreakdown(kept: seq<Row>, now: DateTime): Option<seq<(string, real)>>
    requires ValidDateTime(now)
  {
    var t := TodayKept(kept, now);
    var items := Distinct(MapSeq(t, ItemOf));
    if items == [] then None else Some(MapSeq(items, SliceFor(t)))
  }

  /** The notice appears exactly when no kept row is dated today;
      otherwise each item bought today has one slice holding its total, and
      the slices add up to today's total over the kept rows. */
  lemma TodayBreakdownMeaning(rows: seq<Row>, b: Budgets, now: DateTime)
    requires ValidDateTime(now)
    ensures var kept := Kept(rows, b);
      TodayBreakdown(kept, now).None? <==> TodayKept(kept, now) == []
    ensures var kept := Kept(rows, b);
      TodayBreakdown(kept, now).Some? ==>
      var sl := TodayBreakdown(kept, now).value;
      var t := TodayKept(kept, now);
      && (forall i, j :: 0 <= i < j < |sl| ==> sl[i].0 != sl[j].0)
      && (forall k :: 0 <= k < |sl| ==> sl[k].1 == GroupSum(t, ItemOf, sl[k].0, Amount))
      && (forall i :: 0 <= i < |t| ==> exists k :: 0 <= k < |sl| && sl[k].0 == t[i].item)
      && Sum(sl, Total) == TodayTotal(kept, now)
  {
    var kept := Kept(rows, b);
    var t := TodayKept(kept, now);
    var items := Distinct(MapSeq(t, ItemOf));
    if t != [] {
      assert ItemOf(t[0]) in MapSeq(t, ItemOf);
    }
    if items != [] {
      var sl := MapSeq(items, SliceFor(t));
      forall i | 0 <= i < |t| ensures exists k :: 0 <= k < |sl| && sl[k].0 == t[i].item {
        assert ItemOf(t[i]) in MapSeq(t, ItemOf);
        var k :| 0 <= k < |items| && items[k] == t[i].item;
        assert sl[k].0 == t[i].item;
      }
      SlicesAddUp(t, items);
      SumOfGroupSums(t, ItemOf, items, Amount);
      forall i | 0 <= i < |t| ensures ItemOf(t[i]) in items {
        assert ItemOf(t[i]) in MapSeq(t, ItemOf);
      }
      SumGroupsCovers(t, ItemOf, items, Amount);
      TodayKeptIsTodayTotal(rows, b, now);
    }
  }

  lemma {:induction false} SlicesAddUp(t: seq<Row>, items: seq<string>)
    ensures Sum(MapSeq(items, SliceFor(t)), Total) == Sum(GroupSums(t, ItemOf, items, Amount), Id)
  {
    if items != [] {
      assert MapSeq(items, SliceFor(t))[1..] == MapSeq(items[1..], SliceFor(t));
      assert GroupSums(t, ItemOf, items, Amount)[1..] == GroupSums(t, ItemOf, items[1..], Amount);
      SlicesAddUp(t, items[1..]);
    }
  }

  /** Over the kept rows, today's rows add up to `get_today_total_amount`. */
  lemma TodayKeptIsTodayTotal(rows: seq<Row>, b: Budgets, now: DateTime)
    requires ValidDateTime(now)
    ensures Sum(TodayKept(Kept(rows, b), now), Amount) == TodayTotal(Kept(rows, b), now)
  {
    var kept := Kept(rows, b);
    KeptNotRevenue(rows, b);
    forall i | 0 <= i < |kept|
      ensures DateIs(TodayString(now))(kept[i]) == CountsToward(ByDate, TodayString(now))(kept[i])
    {
      assert kept[i] in kept;
    }
    FilterAgree(kept, DateIs(TodayString(now)), CountsToward(ByDate, TodayString(now)));
  }

  // ---------------------------------------------------------------------
  // Category progress

  function CategoryOf(r: Row): string { r.category }

  function InMonth(ml: string): Row -> bool {
    (r: Row) => r.month == ml
  }

  /** `df_month`: the kept rows whose MONTH is this month's "%B %Y". */
  function MonthRows(kept: seq<Row>, now: DateTime): seq<Row>
    requires ValidDateTime(now)
  {
    Filter(kept, InMonth(MonthLabel(now.date.year, now.date.month)))
  }

  /** `cat_month`: each category of the month's rows, spelled as in the
      sheet, with its total. */
  function CategoryTotals(m: seq<Row>): seq<(string, real)> {
    GroupTotals(m, CategoryOf, Distinct(MapSeq(m, CategoryOf)), Amount)
  }

  function SameLetters(cat: string): string -> bool {
    (c: string) => Lower(c) == Lower(cat)
  }

  /** `spent`: the totals of the groups whose category matches `cat`
      ignoring case. */
  function ProgressSpent(totals: seq<(string, real)>, cat: string): real {
    Sum(Filter(totals, EntrySelected(SameLetters(cat))), Total)
  }

  /** Adding up the matching groups is adding up the month's rows of that
      category, ignoring case: grouping loses and repeats nothing. */
  lemma ProgressSpentIsCategorySpent(m: seq<Row>, cat: string)
    ensures ProgressSpent(CategoryTotals(m), cat) == CategorySpent(m, cat)
  {
    SumSelectedGroups(m, CategoryOf, SameLetters(cat), Amount);
    SameLettersIsCategory(cat);
    FilterSameMask(m, KeySelected(CategoryOf, SameLetters(cat)), CategoryIs(cat));
  }

  /** Selecting rows by their category's letters is `CategoryIs`. */
  lemma SameLettersIsCategory(cat: string)
    ensures forall r: Row :: KeySelected(CategoryOf, SameLetters(cat))(r) == CategoryIs(cat)(r)
  {
    forall r: Row ensures KeySelected(CategoryOf, SameLetters(cat))(r) == CategoryIs(cat)(r) {
      assert KeySelected(CategoryOf, SameLetters(cat))(r) == SameLetters(cat)(CategoryOf(r));
      assert CategoryOf(r) == r.category;
    }
  }

  /** One progress line: the label's amounts and percent, and the bar. */
  datatype Progress = Progress(category: string, spent: real, budget: real, percent: real, bar: real)

  function ProgressFor(totals: seq<(string, real)>): ((string, real)) -> Progress {
    (e: (string, real)) =>
      var spent := ProgressSpent(totals, e.0);
      var p := PercentUsed(spent, e.1);
      Progress(e.0, spent, e.1, p, Bar(p))
  }

  /** The loop over the budget table, skipping income and savings. */
  function ProgressLines(kept: seq<Row>, now: DateTime, b: Budgets): seq<Progress>
    requires ValidDateTime(now)
  {
    MapSeq(SpendingBudgets(b), ProgressFor(CategoryTotals(MonthRows(kept, now))))
  }

  /** A line shows the entry's category and budget, the matching groups'
      total, the ratio to a positive budget (0 otherwise) and a bar capped
      at 1. */
  lemma ProgressForShape(totals: seq<(string, real)>, e: (string, real))
    ensures var l := ProgressFor(totals)(e);
      && l.category == e.0 && l.budget == e.1
      && l.spent == ProgressSpent(totals, e.0)
      && (e.1 > 0.0 ==> l.percent * e.1 == l.spent)
      && (e.1 <= 0.0 ==> l.percent == 0.0)
      && l.bar <= 1.0 && (l.percent <= 1.0 ==> l.bar == l.percent)
  {
    var spent := ProgressSpent(totals, e.0);
    var p := PercentUsed(spent, e.1);
    assert ProgressFor(totals)(e) == Progress(e.0, spent, e.1, p, Bar(p));
  }

  /** Over the month's category totals, a line's spending is the month's
      spending in that category, ignoring case. */
  lemma ProgressForMeaning(m: seq<Row>, e: (string, real))
    ensures var l := ProgressFor(CategoryTotals(m))(e);
      && l.category == e.0 && l.budget == e.1
      && l.spent == CategorySpent(m, e.0)
      && (e.1 > 0.0 ==> l.percent * e.1 == l.spent)
      && (e.1 <= 0.0 ==> l.percent == 0.0)
      && l.bar <= 1.0 && (l.percent <= 1.0 ==> l.bar == l.percent)
  {
    ProgressForShape(CategoryTotals(m), e);
    ProgressSpentIsCategorySpent(m, e.0);
  }

  /** One line per non-revenue budget entry, in table order, each showing
      this month's spending in that category ignoring case. */
  lemma ProgressLinesMeaning(kept: seq<Row>, now: DateTime, b: Budgets)
    requires ValidDateTime(now)
    ensures var lines := ProgressLines(kept, now, b);
      var s := SpendingBudgets(b);
      && |lines| == |s|
      && forall k :: 0 <= k < |lines| ==>
        lines[k] == ProgressFor(CategoryTotals(MonthRows(kept, now)))(s[k])
        && lines[k].spent == CategorySpent(MonthRows(kept, now), s[k].0)
  {
    var m := MonthRows(kept, now);
    var s := SpendingBudgets(b);
    forall k | 0 <= k < |s| ensures ProgressFor(CategoryTotals(m))(s[k]).spent == CategorySpent(m, s[k].0) {
      ProgressForMeaning(m, s[k]);
    }
  }

  /** Over the kept rows, the month's rows add up to `get_monthly_total_amount`. */
  lemma MonthRowsIsMonthlyTotal(rows: seq<Row>, b: Budgets, now: DateTime)
    requires ValidDateTime(now)
    ensures Sum(MonthRows(Kept(rows, b), now), Amount) == MonthlyTotal(Kept(rows, b), now)
  {
    var kept := Kept(rows, b);
    var ml := MonthLabel(now.date.year, now.date.month);
    KeptNotRevenue(rows, b);
    forall i | 0 <= i < |kept| ensures InMonth(ml)(kept[i]) == CountsToward(ByMonth, ml)(kept[i]) {
      assert kept[i] in kept;
    }
    FilterAgree(kept, InMonth(ml), CountsToward(ByMonth, ml));
  }
}
