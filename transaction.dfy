/** `pages/Transaction.py`: the monthly budget usage bar, today's
    transactions and the "last time each item was bought" table. */
module TransactionPage {
  import opened Wrappers
  import opened Strings
  import opened Dates
  import opened Seqs
  import opened Shared
  import opened Dashboard

  // ---------------------------------------------------------------------
  // Monthly budget usage

  function BudgetValue(e: (string, real)): real { e.1 }

  function IsRevenueEntry(e: (string, real)): bool { IsRevenueCategory(e.0) }

  /** `total_budget`: the budgets of every entry that is not income or savings. */
  function TotalBudget(b: Budgets): real {
    Sum(SpendingBudgets(b), BudgetValue)
  }

  /** The whole table's budgets split into the spending total and the revenue
      entries' budgets. */
  lemma TotalBudgetSplit(b: Budgets)
    ensures TotalBudget(b) + Sum(Filter(b, IsRevenueEntry), BudgetValue) == Sum(b, BudgetValue)
  {
    FilterSplitSum(b, IsSpendingEntry, IsRevenueEntry, BudgetValue);
  }

  /** With non-negative budgets the total is non-negative. */
  lemma TotalBudgetNonNegative(b: Budgets)
    requires forall i :: 0 <= i < |b| ==> b[i].1 >= 0.0
    ensures TotalBudget(b) >= 0.0
  {
    var s := SpendingBudgets(b);
    forall k | 0 <= k < |s| ensures BudgetValue(s[k]) >= 0.0 {
      var i := FilterIndexFrom(b, IsSpendingEntry, k);
    }
    SumNonNegative(s, BudgetValue);
  }

  /** The shipped table's spending budgets add up to 730000. */
  lemma ShippedTotalBudget()
    ensures TotalBudget(CategoryBudgets) == 730000.0
  {
    ShippedSpendingHead();
    ShippedSpendingTail();
    TotalOfShape(CategoryBudgets);
    ShippedSpendingValues();
  }

  lemma ShippedSpendingValues()
    ensures var b := CategoryBudgets;
      b[0].1 + b[1].1 + b[2].1 + b[3].1 + b[4].1 + b[5].1 + b[6].1 + b[7].1 + b[8].1 + b[10].1 + b[11].1 == 730000.0
  {
  }

  /** The total of a thirteen-entry table whose revenue entries sit at
      positions 9 and 12. */
  lemma TotalOfShape(b: Budgets)
    requires |b| == 13
    requires forall i :: 0 <= i < 9 ==> IsSpendingEntry(b[i])
    requires IsSpendingEntry(b[10]) && IsSpendingEntry(b[11])
    requires !IsSpendingEntry(b[9]) && !IsSpendingEntry(b[12])
    ensures TotalBudget(b) == b[0].1 + b[1].1 + b[2].1 + b[3].1 + b[4].1 + b[5].1 + b[6].1 + b[7].1 + b[8].1 + b[10].1 + b[11].1
  {
    SpendingOfShape(b);
    SumConcat(b[..9], b[10..12], BudgetValue);
    SumOfNine(b[..9]);
    SumOfTwo(b[10..12]);
  }

  lemma SumOfNine(a: Budgets)
    requires |a| == 9
    ensures Sum(a, BudgetValue) == a[0].1 + a[1].1 + a[2].1 + a[3].1 + a[4].1 + a[5].1 + a[6].1 + a[7].1 + a[8].1
  {
    forall k | 0 <= k < 9 ensures Sum(a[k..], BudgetValue) == a[k].1 + Sum(a[k + 1..], BudgetValue) {
      assert a[k..][1..] == a[k + 1..];
    }
    assert a[0..] == a && a[9..] == [];
  }

  lemma SumOfTwo(a: Budgets)
    requires |a| == 2
    ensures Sum(a, BudgetValue) == a[0].1 + a[1].1
  {
    assert a[1..] == [a[1]] && [a[1]][1..] == [];
    assert Sum([a[1]], BudgetValue) == a[1].1 + Sum([], BudgetValue);
  }

  /** `percent_used`: the month's spending over the budget total, 0 unless
      that total is positive. */
  function PercentUsed(spent: real, budget: real): (p: real)
    ensures budget > 0.0 ==> p * budget == spent
    ensures budget <= 0.0 ==> p == 0.0
  {
    if budget > 0.0 then spent / budget else 0.0
  }

  /** The usage panel: the label's amounts and percent, and the bar's fill. */
  datatype Usage = Usage(spent: real, budget: real, percent: real, bar: real)

  function MonthlyUsage(rows: seq<Row>, now: DateTime, b: Budgets): Usage
    requires ValidDateTime(now)
  {
    var spent := MonthlyTotal(rows, now);
    var budget := TotalBudget(b);
    var p := PercentUsed(spent, budget);
    Usage(spent, budget, p, Bar(p))
  }

  /** The label shows this month's non-revenue spending against the budget
      total and the unclamped ratio; the bar is that ratio capped at 1. With
      the shipped table the ratio is the spending over 730000. */
  lemma MonthlyUsageMeaning(rows: seq<Row>, now: DateTime)
    requires ValidDateTime(now)
    ensures var u := MonthlyUsage(rows, now, CategoryBudgets);
      && u.spent == PeriodTotal(rows, ByMonth, MonthLabel(now.date.year, now.date.month))
      && u.budget == 730000.0
      && u.percent * 730000.0 == u.spent
      && u.bar <= 1.0 && (u.percent <= 1.0 ==> u.bar == u.percent)
  {
    ShippedTotalBudget();
  }

  /** A new row moves the usage exactly when it belongs to this month's
      label and is not income or savings. */
  lemma MonthlyUsageAppend(rows: seq<Row>, r: Row, now: DateTime, b: Budgets)
    requires ValidDateTime(now)
    ensures MonthlyUsage(rows + [r], now, b).spent == MonthlyUsage(rows, now, b).spent +
      (if r.month == MonthLabel(now.date.year, now.date.month) && !IsRevenueCategory(r.category) then r.amount else 0.0)
  {
    var ml := MonthLabel(now.date.year, now.date.month);
    PeriodTotalConcat(rows, [r], ByMonth, ml);
    PeriodTotalSingle(r, ByMonth, ml);
  }

  // ---------------------------------------------------------------------
  // Today's transactions

  /** `df_today`: the rows whose DATE is today's unpadded text. */
  function TodayRows(rows: seq<Row>, now: DateTime): seq<Row>
    requires ValidDateTime(now)
  {
    Filter(rows, DateIs(TodayString(now)))
  }

  /** The columns of the today table. */
  datatype TodayLine = TodayLine(time: string, item: string, category: string, qty: int, amount: real)

  function LineOf(r: Row): TodayLine {
    TodayLine(r.time, r.item, r.category, r.qty, r.amount)
  }

  /** The today table, or None for the "no transactions" notice. */
  function TodayTable(rows: seq<Row>, now: DateTime): Option<seq<TodayLine>>
    requires ValidDateTime(now)
  {
    var t := TodayRows(rows, now);
    if t == [] then None else Some(MapSeq(t, LineOf))
  }

  /** `l` shows some row of the snapshot dated `today`. */
  predicate ShowsRowOf(l: TodayLine, rows: seq<Row>, today: string) {
    exists i :: 0 <= i < |rows| && rows[i].date == today && l == LineOf(rows[i])
  }

  /** The notice appears exactly when today's count is 0; otherwise the
      table has that many lines, each one a row dated today, and every row
      dated today is shown. */
  lemma TodayTableMeaning(rows: seq<Row>, now: DateTime)
    requires ValidDateTime(now)
    ensures TodayTable(rows, now).None? <==> TodayCount(rows, now) == 0
    ensures TodayTable(rows, now).Some? ==>
      var lines := TodayTable(rows, now).value;
      && |lines| == TodayCount(rows, now)
      && (forall k :: 0 <= k < |lines| ==> ShowsRowOf(lines[k], rows, TodayString(now)))
      && (forall i :: 0 <= i < |rows| && rows[i].date == TodayString(now) ==>
            exists k :: 0 <= k < |lines| && lines[k] == LineOf(rows[i]))
  {
    var today := TodayString(now);
    var t := TodayRows(rows, now);
    if t != [] {
      var lines := MapSeq(t, LineOf);
      forall k | 0 <= k < |lines| ensures ShowsRowOf(lines[k], rows, today) {
        var i := FilterIndexFrom(rows, DateIs(today), k);
      }
      forall i | 0 <= i < |rows| && rows[i].date == today
        ensures exists k :: 0 <= k < |lines| && lines[k] == LineOf(rows[i])
      {
        var k := FilterIndexTo(rows, DateIs(today), i);
        assert lines[k] == LineOf(rows[i]);
      }
    }
  }

  // ---------------------------------------------------------------------
  // Last time each item was bought

  /** `df_cat`: the rows of the selected category, compared exactly. */
  function CategoryRows(rows: seq<Row>, cat: string): seq<Row> {
    Filter(rows, InCategory(cat))
  }

  function InCategory(cat: string): Row -> bool {
    (r: Row) => r.category == cat
  }

  function ItemOf(r: Row): string { r.item }

  function ItemIs(item: string): Row -> bool {
    (r: Row) => r.item == item
  }

  /** The later of two parsed dates; NaT yields to a date. */
  function Later(a: Option<Date>, b: Option<Date>): Option<Date> {
    if a.None? then b
    else if b.None? then a
    else if Before(a.value, b.value) then b
    else a
  }

  /** `max()` of a date column: the latest date, NaT when every entry is NaT. */
  function Latest(ds: seq<Option<Date>>): (r: Option<Date>)
    ensures r.None? <==> forall i :: 0 <= i < |ds| ==> ds[i].None?
    ensures r.Some? ==> r in ds
    ensures r.Some? ==> forall i :: 0 <= i < |ds| && ds[i].Some? ==> !Before(r.value, ds[i].value)
  {
    if ds == [] then None
    else
      var rest := Latest(ds[1..]);
      assert forall i :: 1 <= i < |ds| ==> ds[i] == ds[1..][i - 1];
      assert rest.Some? ==> rest in ds by {
        if rest.Some? {
          var j :| 0 <= j < |ds[1..]| && ds[1..][j] == rest;
          assert ds[j + 1] == rest;
        }
      }
      Later(ds[0], rest)
  }

  /** One line of the table: the item and the latest date it was bought. */
  datatype Purchase = Purchase(item: string, last: Option<Date>)

  /** The latest parsed date among an item's rows of the category. */
  function ItemLast(catRows: seq<Row>, item: string): Option<Date> {
    Latest(MapSeq(Filter(catRows, ItemIs(item)), DateOf))
  }

  function PurchaseOf(catRows: seq<Row>): string -> Purchase {
    (item: string) => Purchase(item, ItemLast(catRows, item))
  }

  /** `groupby("ITEM")["DATE_dt"].max()`: one line per distinct item, in
      first-seen order (pandas orders the groups by item name). */
  function LastPurchases(rows: seq<Row>, cat: string): seq<Purchase> {
    var c := CategoryRows(rows, cat);
    MapSeq(Distinct(MapSeq(c, ItemOf)), PurchaseOf(c))
  }

  /** An item's date is the date of one of its rows in the category, and no
      such row that parses is later; NaT only when none parses. */
  lemma ItemLastMeaning(rows: seq<Row>, cat: string, item: string)
    ensures var r := ItemLast(CategoryRows(rows, cat), item);
      && (r.Some? ==> exists i :: 0 <= i < |rows| && rows[i].category == cat && rows[i].item == item && DateOf(rows[i]) == r)
      && (forall i :: 0 <= i < |rows| && rows[i].category == cat && rows[i].item == item && DateOf(rows[i]).Some? ==>
            r.Some? && Ordinal(DateOf(rows[i]).value) <= Ordinal(r.value))
  {
    var c := CategoryRows(rows, cat);
    var own := Filter(c, ItemIs(item));
    var ds := MapSeq(own, DateOf);
    var r := Latest(ds);
    if r.Some? {
      var k :| 0 <= k < |ds| && ds[k] == r;
      var j := FilterIndexFrom(c, ItemIs(item), k);
      var i := FilterIndexFrom(rows, InCategory(cat), j);
      assert rows[i].category == cat && rows[i].item == item && DateOf(rows[i]) == r;
    }
    forall i | 0 <= i < |rows| && rows[i].category == cat && rows[i].item == item && DateOf(rows[i]).Some?
      ensures r.Some? && Ordinal(DateOf(rows[i]).value) <= Ordinal(r.value)
    {
      var j := FilterIndexTo(rows, InCategory(cat), i);
      var k := FilterIndexTo(c, ItemIs(item), j);
      assert ds[k] == DateOf(rows[i]);
      var d := DateOf(rows[i]).value;
      if d != r.value {
        OrdinalMonotone(d, r.value);
      }
    }
  }

  /** `i` is a row of the category carrying `item`. */
  predicate BoughtIn(rows: seq<Row>, cat: string, item: string) {
    exists i :: 0 <= i < |rows| && rows[i].category == cat && rows[i].item == item
  }

  /** The table lists each item of the category once, and only those, each
      with its latest date. */
  lemma LastPurchasesMembers(rows: seq<Row>, cat: string)
    ensures var t := LastPurchases(rows, cat);
      && (forall i, j :: 0 <= i < j < |t| ==> t[i].item != t[j].item)
      && (forall k :: 0 <= k < |t| ==> BoughtIn(rows, cat, t[k].item))
      && (forall k :: 0 <= k < |t| ==> t[k].last == ItemLast(CategoryRows(rows, cat), t[k].item))
      && (forall x :: BoughtIn(rows, cat, x) ==> exists k :: 0 <= k < |t| && t[k].item == x)
  {
    var t := LastPurchases(rows, cat);
    forall k | 0 <= k < |t| ensures BoughtIn(rows, cat, t[k].item) {
      LastPurchaseBought(rows, cat, k);
    }
    forall x | BoughtIn(rows, cat, x) ensures exists k :: 0 <= k < |t| && t[k].item == x {
      var k := BoughtListed(rows, cat, x);
    }
  }

  /** Each line's item was bought in the category. */
  lemma LastPurchaseBought(rows: seq<Row>, cat: string, k: int)
    requires 0 <= k < |LastPurchases(rows, cat)|
    ensures BoughtIn(rows, cat, LastPurchases(rows, cat)[k].item)
  {
    var c := CategoryRows(rows, cat);
    var items := MapSeq(c, ItemOf);
    var d := Distinct(items);
    assert LastPurchases(rows, cat)[k].item == d[k];
    assert d[k] in items;
    var j :| 0 <= j < |items| && items[j] == d[k];
    var i := FilterIndexFrom(rows, InCategory(cat), j);
    assert rows[i].item == d[k];
  }

  /** Each item bought in the category has a line. */
  lemma BoughtListed(rows: seq<Row>, cat: string, x: string) returns (k: int)
    requires BoughtIn(rows, cat, x)
    ensures 0 <= k < |LastPurchases(rows, cat)| && LastPurchases(rows, cat)[k].item == x
  {
    var c := CategoryRows(rows, cat);
    var items := MapSeq(c, ItemOf);
    var d := Distinct(items);
    var i :| 0 <= i < |rows| && rows[i].category == cat && rows[i].item == x;
    var j := FilterIndexTo(rows, InCategory(cat), i);
    assert items[j] == x;
    assert x in d;
    k :| 0 <= k < |d| && d[k] == x;
  }

  /** The sort key the table is sorted by as written: the "%B %d" text. NaT
      formats to NaN, which sorts last. Parsed dates are always valid, so
      the other branch is only there to make the function total. */
  function LabelKey(p: Purchase): SortKey {
    match p.last
    case Some(d) => if ValidDate(d) then Present(CodePoints(MonthDayLabel(d))) else Missing
    case None => Missing
  }

  /** The chronological key: (year, month, day). */
  function DateKey(p: Purchase): SortKey {
    match p.last
    case Some(d) => Present(DateParts(d))
    case None => Missing
  }

  /** What the section below the category box shows: nothing at all for a
      blank category (`if selected_cat:` fails, and the sorted options put
      "" first), the "No purchases found" note, or the table. */
  datatype LastBoughtView = NothingDrawn | NoPurchases | Table(lines: seq<Purchase>)

  /** The section as displayed by the source: the table sorted on the label text. */
  function LastBoughtAsWritten(rows: seq<Row>, cat: string): LastBoughtView {
    var t := LastPurchases(rows, cat);
    if cat == "" then NothingDrawn
    else if t == [] then NoPurchases
    else Table(SortDescBy(t, LabelKey))
  }

  /** The section with the table sorted most recent first, as the page
      heading intends. */
  function LastBought(rows: seq<Row>, cat: string): LastBoughtView {
    var t := LastPurchases(rows, cat);
    if cat == "" then NothingDrawn
    else if t == [] then NoPurchases
    else Table(SortDescBy(t, DateKey))
  }

  /** A date whose (year, month, day) sorts no lower is not an earlier day. */
  lemma DatePartsNotBefore(d1: Date, d2: Date)
    requires LexGeq(DateParts(d1), DateParts(d2))
    ensures !Before(d1, d2)
  {
    var a, b := DateParts(d1), DateParts(d2);
    assert a[1..] == [d1.month, d1.day] && b[1..] == [d2.month, d2.day];
    assert a[1..][1..] == [d1.day] && b[1..][1..] == [d2.day];
    if d1.year == d2.year {
      assert LexGeq(a[1..], b[1..]);
      if d1.month == d2.month {
        assert LexGeq([d1.day], [d2.day]);
        assert d1.day >= d2.day;
      } else {
        assert d1.month > d2.month;
      }
    } else {
      assert d1.year > d2.year;
    }
  }

  /** Nothing is drawn exactly for the blank category; otherwise the note
      appears exactly when the category has no rows, and the corrected table
      holds the purchase lines and runs from the most recent purchase back
      to the oldest, undated items last. */
  lemma LastBoughtChronological(rows: seq<Row>, cat: string)
    ensures LastBought(rows, cat).NothingDrawn? <==> cat == ""
    ensures cat != "" ==> (LastBought(rows, cat).NoPurchases? <==> CategoryRows(rows, cat) == [])
    ensures LastBought(rows, cat).Table? ==>
      var s := LastBought(rows, cat).lines;
      && multiset(s) == multiset(LastPurchases(rows, cat))
      && (forall i, j :: 0 <= i < j < |s| && s[j].last.Some? ==>
            s[i].last.Some? && !Before(s[i].last.value, s[j].last.value))
  {
    var c := CategoryRows(rows, cat);
    if c != [] && cat != "" {
      assert ItemOf(c[0]) in MapSeq(c, ItemOf);
      var s := LastBought(rows, cat).lines;
      forall i, j | 0 <= i < j < |s| && s[j].last.Some?
        ensures s[i].last.Some? && !Before(s[i].last.value, s[j].last.value)
      {
        assert KeyGeq(DateKey(s[i]), DateKey(s[j]));
        DatePartsNotBefore(s[i].last.value, s[j].last.value);
      }
    }
  }

  /** The two sort keys only reorder the table: both sections show the same
      outcome and, when a table, the same lines. */
  lemma LastBoughtViewsAgree(rows: seq<Row>, cat: string)
    ensures LastBoughtAsWritten(rows, cat).NothingDrawn? == LastBought(rows, cat).NothingDrawn?
    ensures LastBoughtAsWritten(rows, cat).NoPurchases? == LastBought(rows, cat).NoPurchases?
    ensures LastBoughtAsWritten(rows, cat).Table? ==>
      LastBought(rows, cat).Table? &&
      multiset(LastBoughtAsWritten(rows, cat).lines) == multiset(LastBought(rows, cat).lines)
  {
  }

  // ---------------------------------------------------------------------
  // Sorted by label text: September lands above October

  function RiceRow(): Row {
    Row(UsDate(Date(2025, 9, 30)), 1, "08:00", "rice", "Foodstuff", 1, 5000.0, "29-Sep", "September 2025")
  }

  function MilkRow(): Row {
    Row(UsDate(Date(2025, 10, 1)), 1, "09:00", "milk", "Foodstuff", 1, 1500.0, "29-Oct", "October 2025")
  }

  const Rice: Purchase := Purchase("rice", Some(Date(2025, 9, 30)))
  const Milk: Purchase := Purchase("milk", Some(Date(2025, 10, 1)))

  /** Two rows of the category with different items give one line each, in
      the model's first-seen group order before sorting. */
  lemma TwoItemsTable(r1: Row, r2: Row, cat: string)
    requires r1.category == cat && r2.category == cat && r1.item != r2.item
    ensures LastPurchases([r1, r2], cat) == [Purchase(r1.item, DateOf(r1)), Purchase(r2.item, DateOf(r2))]
  {
    var c := [r1, r2];
    TwoRowsOfCategory(r1, r2, cat);
    assert MapSeq(c, ItemOf) == [r1.item, r2.item];
    DistinctOfTwo(r1.item, r2.item);
    OneRowOfItem(r1, r2, r1.item);
    OneRowOfItem(r2, r1, r2.item);
    assert Filter(c, ItemIs(r2.item)) == [r2] by {
      FilterConcat([r1], [r2], ItemIs(r2.item));
      assert [r1] + [r2] == c;
    }
    assert Filter(c, ItemIs(r1.item)) == [r1] by {
      FilterConcat([r1], [r2], ItemIs(r1.item));
      assert [r1] + [r2] == c;
    }
    LatestOfOne(r1);
    LatestOfOne(r2);
  }

  lemma TwoRowsOfCategory(r1: Row, r2: Row, cat: string)
    requires r1.category == cat && r2.category == cat
    ensures CategoryRows([r1, r2], cat) == [r1, r2]
  {
    assert [r1, r2][1..] == [r2] && [r2][1..] == [];
    assert Filter([r2], InCategory(cat)) == [r2] + Filter([], InCategory(cat));
  }

  lemma DistinctOfTwo(a: string, b: string)
    requires a != b
    ensures Distinct([a, b]) == [a, b]
  {
    assert [a, b][..1] == [a] && [a][..0] == [];
    assert Distinct([a]) == [a];
  }

  /** Of one row with the item and one without, the filter keeps the first. */
  lemma OneRowOfItem(r: Row, other: Row, item: string)
    requires r.item == item && other.item != item
    ensures Filter([r], ItemIs(item)) == [r] && Filter([other], ItemIs(item)) == []
  {
    assert [r][1..] == [] && [other][1..] == [];
  }

  /** The latest date of one row is that row's date. */
  lemma LatestOfOne(r: Row)
    ensures Latest(MapSeq([r], DateOf)) == DateOf(r)
  {
    assert MapSeq([r], DateOf) == [DateOf(r)];
    assert [DateOf(r)][1..] == [];
  }

  /** Rice bought on 30 September and milk on 1 October give two lines. */
  lemma TwoPurchases()
    ensures LastPurchases([RiceRow(), MilkRow()], "Foodstuff") == [Rice, Milk]
  {
    ParseUsDateRoundTrip(Date(2025, 9, 30));
    ParseUsDateRoundTrip(Date(2025, 10, 1));
    TwoItemsTable(RiceRow(), MilkRow(), "Foodstuff");
  }

  /** As written, the September purchase is listed above the October one
      although it is older: "September 30" sorts after "October 01". */
  lemma LabelSortMisorders()
    ensures LastBoughtAsWritten([RiceRow(), MilkRow()], "Foodstuff") == Table([Rice, Milk])
    ensures Ordinal(Rice.last.value) < Ordinal(Milk.last.value)
  {
    TwoPurchases();
    var sep := MonthDayLabel(Date(2025, 9, 30));
    var oct := MonthDayLabel(Date(2025, 10, 1));
    assert sep[0] == 'S' && oct[0] == 'O';
    var a, b := CodePoints(sep), CodePoints(oct);
    assert a[0] == 83 && b[0] == 79;
    assert LexGeq(a, b) && !LexGeq(b, a);
    SortTwo(Rice, Milk, LabelKey);
    OrdinalMonotone(Date(2025, 9, 30), Date(2025, 10, 1));
  }

  /** Sorted by date, October comes first. */
  lemma DateSortOrders()
    ensures LastBought([RiceRow(), MilkRow()], "Foodstuff") == Table([Milk, Rice])
  {
    TwoPurchases();
    var a, b := DateParts(Date(2025, 10, 1)), DateParts(Date(2025, 9, 30));
    assert a[1..] == [10, 1] && b[1..] == [9, 30];
    assert LexGeq(a, b) && !LexGeq(b, a);
    SortTwo(Milk, Rice, DateKey);
  }
}
