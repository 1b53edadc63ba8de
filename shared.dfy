/** `shared.py`: the row snapshot every page reads, the budget table, the
    period totals behind the "Today / This Week / This Month" metrics, the
    count of today's rows, the item-to-category map used to prefill the
    entry form, and the weekday-based purchase recommendation. */
module Shared {
  import opened Wrappers
  import opened Strings
  import opened Dates
  import opened Seqs

  /** One record of "My Spending Sheet", fields in the loader's header order. */
  datatype Row = Row(
    date: string,      // DATE, "M/D/YYYY"
    no: int,           // No
    time: string,      // TIME
    item: string,      // ITEM
    category: string,  // ITEM CATEGORY
    qty: int,          // No of ITEM
    amount: real,      // Amount Spent
    week: string,      // WEEK
    month: string)     // MONTH

  /** The header list passed to `get_all_records`. */
  const Headers: seq<string> := ["DATE", "No", "TIME", "ITEM", "ITEM CATEGORY",
    "No of ITEM", "Amount Spent", "WEEK", "MONTH"]

  /** A cell of a sheet line. */
  datatype Cell = Text(text: string) | Int(n: int) | Num(x: real)

  /** How `get_all_records` turns one sheet line into a record: the i-th cell
      goes under the i-th header. */
  function RecordOf(cells: seq<Cell>): (rec: map<string, Cell>)
    requires |cells| == |Headers|
    ensures forall i :: 0 <= i < |Headers| ==> Headers[i] in rec && rec[Headers[i]] == cells[i]
  {
    map i | 0 <= i < |Headers| :: Headers[i] := cells[i]
  }

  /** The typed view of a record; None when a cell has an unexpected type. */
  function RowOf(rec: map<string, Cell>): Option<Row>
  {
    if forall h :: h in Headers ==> h in rec then
      match (rec["DATE"], rec["No"], rec["TIME"], rec["ITEM"], rec["ITEM CATEGORY"],
             rec["No of ITEM"], rec["Amount Spent"], rec["WEEK"], rec["MONTH"])
      case (Text(d), Int(n), Text(t), Text(it), Text(c), Int(q), Num(a), Text(w), Text(m)) =>
        Some(Row(d, n, t, it, c, q, a, w, m))
      case _ => None
    else None
  }

  /** `category_budgets`, in the dict's insertion order. */
  type Budgets = seq<(string, real)>

  const CategoryBudgets: Budgets := [
    ("Bet", 3000.0), ("Bill", 35000.0), ("Data", 11000.0), ("Food", 40000.0),
    ("Foodstuff", 150000.0), ("Money", 10000.0), ("Object", 50000.0), ("Snacks", 60000.0),
    ("transfer", 300000.0), ("income", 250000.0), ("Airtime", 1000.0),
    ("transport", 70000.0), ("Savings", 400000.0)]

  function Keys(b: Budgets): (ks: seq<string>)
    ensures |ks| == |b| && forall i :: 0 <= i < |b| ==> ks[i] == b[i].0
  {
    if b == [] then [] else [b[0].0] + Keys(b[1..])
  }

  /** "income" and "savings", in any letter case, are revenue, not spending. */
  predicate IsRevenueCategory(c: string) {
    Lower(c) == "savings" || Lower(c) == "income"
  }

  lemma RevenueSavings()
    ensures IsRevenueCategory("Savings") && IsRevenueCategory("SaVinGs")
  {
  }

  lemma RevenueIncome()
    ensures IsRevenueCategory("income") && IsRevenueCategory("INCOME")
  {
  }

  lemma SpendingCategories()
    ensures !IsRevenueCategory("") && !IsRevenueCategory("Food") && !IsRevenueCategory("transfer")
  {
  }

  /** A category whose length is neither six nor seven is not revenue. */
  lemma NotRevenueByLength(c: string)
    requires |c| != 6 && |c| != 7
    ensures !IsRevenueCategory(c)
  {
    assert |Lower(c)| == |c|;
  }

  /** ... nor is one whose first letter rules out "income" and "savings". */
  lemma NotRevenueByFirst(c: string)
    requires c != []
    requires |c| == 6 ==> LowerChar(c[0]) != 'i'
    requires |c| == 7 ==> LowerChar(c[0]) != 's'
    ensures !IsRevenueCategory(c)
  {
    assert Lower(c)[0] == LowerChar(c[0]);
  }

  function IsSpendingEntry(e: (string, real)): bool {
    !IsRevenueCategory(e.0)
  }

  /** The budget entries other than income and savings, in table order. */
  function SpendingBudgets(b: Budgets): seq<(string, real)> {
    Filter(b, IsSpendingEntry)
  }

  /** The first nine shipped keys, Bet to transfer, are spending. */
  lemma ShippedSpendingHead()
    ensures forall i :: 0 <= i < 9 ==> IsSpendingEntry(CategoryBudgets[i])
  {
    var cb := CategoryBudgets;
    forall i | 0 <= i < 9 ensures IsSpendingEntry(cb[i]) {
      if i == 6 {
        assert cb[i].0 == "Object";
        NotRevenueByFirst("Object");
      } else if i == 7 {
        assert cb[i].0 == "Snacks";
        NotRevenueByFirst("Snacks");
      } else {
        assert |cb[i].0| !in {6, 7};
        NotRevenueByLength(cb[i].0);
      }
    }
  }

  /** Airtime and transport are spending; income and Savings are not. */
  lemma ShippedSpendingTail()
    ensures IsSpendingEntry(CategoryBudgets[10]) && IsSpendingEntry(CategoryBudgets[11])
    ensures !IsSpendingEntry(CategoryBudgets[9]) && !IsSpendingEntry(CategoryBudgets[12])
  {
    var cb := CategoryBudgets;
    assert cb[10].0 == "Airtime";
    NotRevenueByFirst("Airtime");
    assert cb[11].0 == "transport";
    NotRevenueByLength("transport");
    assert cb[9].0 == "income";
    RevenueIncome();
    assert cb[12].0 == "Savings";
    RevenueSavings();
  }

  /** The shipped table's spending entries are all but "income" and "Savings". */
  lemma ShippedSpendingBudgets()
    ensures SpendingBudgets(CategoryBudgets) == CategoryBudgets[..9] + CategoryBudgets[10..12]
  {
    ShippedSpendingHead();
    ShippedSpendingTail();
    SpendingOfShape(CategoryBudgets);
  }

  /** A thirteen-entry table whose revenue entries sit at positions 9 and 12. */
  lemma SpendingOfShape(b: Budgets)
    requires |b| == 13
    requires forall i :: 0 <= i < 9 ==> IsSpendingEntry(b[i])
    requires IsSpendingEntry(b[10]) && IsSpendingEntry(b[11])
    requires !IsSpendingEntry(b[9]) && !IsSpendingEntry(b[12])
    ensures SpendingBudgets(b) == b[..9] + b[10..12]
  {
    var h, t := b[..9], b[10..12];
    assert forall i :: 0 <= i < |t| ==> IsSpendingEntry(t[i]) by {
      assert t[0] == b[10] && t[1] == b[11];
    }
    assert b == h + [b[9]] + t + [b[12]];
    FilterDropsTwo(h, b[9], t, b[12], IsSpendingEntry);
  }

  /** The field `get_total_amount_by_period` compares with the period value. */
  datatype PeriodKey = ByDate | ByWeek | ByMonth

  function KeyField(r: Row, k: PeriodKey): string {
    match k
    case ByDate => r.date
    case ByWeek => r.week
    case ByMonth => r.month
  }

  function Amount(r: Row): real { r.amount }

  /** The rows a period total adds up. */
  function CountsToward(k: PeriodKey, v: string): Row -> bool {
    (r: Row) => KeyField(r, k) == v && !IsRevenueCategory(r.category)
  }

  /** `get_total_amount_by_period(key, value)`. */
  function PeriodTotal(rows: seq<Row>, k: PeriodKey, v: string): real {
    Sum(Filter(rows, CountsToward(k, v)), Amount)
  }

  /** A total over two snapshots is the sum of their totals. */
  lemma PeriodTotalConcat(a: seq<Row>, b: seq<Row>, k: PeriodKey, v: string)
    ensures PeriodTotal(a + b, k, v) == PeriodTotal(a, k, v) + PeriodTotal(b, k, v)
  {
    FilterConcat(a, b, CountsToward(k, v));
    SumConcat(Filter(a, CountsToward(k, v)), Filter(b, CountsToward(k, v)), Amount);
  }

  /** One row adds its amount exactly when its key field matches and its
      category is not revenue; a row with an empty category counts. */
  lemma PeriodTotalSingle(r: Row, k: PeriodKey, v: string)
    ensures PeriodTotal([r], k, v) ==
      if KeyField(r, k) == v && !IsRevenueCategory(r.category) then r.amount else 0.0
  {
    var p := CountsToward(k, v);
    assert [r][1..] == [];
    assert Filter([r], p) == (if p(r) then [r] else []) + Filter([], p);
    if p(r) {
      assert Sum([r], Amount) == r.amount + Sum([], Amount);
    }
  }

  /** 0 when no non-revenue row carries the period value. */
  lemma PeriodTotalNoMatch(rows: seq<Row>, k: PeriodKey, v: string)
    requires forall i :: 0 <= i < |rows| && KeyField(rows[i], k) == v ==> IsRevenueCategory(rows[i].category)
    ensures PeriodTotal(rows, k, v) == 0.0
  {
    var f := Filter(rows, CountsToward(k, v));
    FilterMultiset(rows, CountsToward(k, v));
    if f != [] {
      assert false;
    }
  }

  /** Appending income or savings rows, or rows of another period, leaves the
      total unchanged. */
  lemma PeriodTotalIgnores(rows: seq<Row>, extra: seq<Row>, k: PeriodKey, v: string)
    requires forall i :: 0 <= i < |extra| ==> KeyField(extra[i], k) != v || IsRevenueCategory(extra[i].category)
    ensures PeriodTotal(rows + extra, k, v) == PeriodTotal(rows, k, v)
  {
    PeriodTotalConcat(rows, extra, k, v);
    PeriodTotalNoMatch(extra, k, v);
  }

  /** The unpadded "M/D/YYYY" text of today's date. */
  function TodayString(now: DateTime): string
    requires ValidDateTime(now)
  {
    UsDate(now.date)
  }

  function DateIs(s: string): Row -> bool {
    (r: Row) => r.date == s
  }

  /** The number of rows whose DATE is exactly `s`. */
  function CountDate(rows: seq<Row>, s: string): nat {
    |Filter(rows, DateIs(s))|
  }

  lemma CountDateConcat(a: seq<Row>, b: seq<Row>, s: string)
    ensures CountDate(a + b, s) == CountDate(a, s) + CountDate(b, s)
  {
    FilterConcat(a, b, DateIs(s));
  }

  lemma CountDateSingle(r: Row, s: string)
    ensures CountDate([r], s) == if r.date == s then 1 else 0
  {
    assert [r][1..] == [];
  }

  /** `get_today_count()`. */
  function TodayCount(rows: seq<Row>, now: DateTime): nat
    requires ValidDateTime(now)
  {
    CountDate(rows, TodayString(now))
  }

  /** Appending a row adds one to today's count exactly when it is dated today. */
  lemma TodayCountAppend(rows: seq<Row>, r: Row, now: DateTime)
    requires ValidDateTime(now)
    ensures TodayCount(rows + [r], now) == TodayCount(rows, now) + (if r.date == TodayString(now) then 1 else 0)
  {
    CountDateConcat(rows, [r], TodayString(now));
    CountDateSingle(r, TodayString(now));
  }

  /** `get_today_total_amount()`. */
  function TodayTotal(rows: seq<Row>, now: DateTime): real
    requires ValidDateTime(now)
  {
    PeriodTotal(rows, ByDate, TodayString(now))
  }

  /** The WEEK label of `get_weekly_total_amount`: the day number of this
      week's Monday, a dash, and the abbreviated name of today's month. */
  function WeekLabel(now: DateTime): (s: string)
    requires ValidDateTime(now)
  {
    NatToString(WeekStart(now.date).day) + "-" + MonthAbbrevs[now.date.month - 1]
  }

  /** What the label is built from: a Monday no more than six days back. */
  lemma WeekLabelFacts(now: DateTime)
    requires ValidDateTime(now)
    ensures var m := WeekStart(now.date);
      Weekday(m) == 0 && Ordinal(now.date) - 6 <= Ordinal(m) <= Ordinal(now.date)
      && WeekLabel(now) == NatToString(m.day) + "-" + MonthAbbrevs[now.date.month - 1]
  {
  }

  /** Early in a month the Monday may fall in the previous month; the label
      then pairs that Monday's day number with the current month's name. */
  lemma WeekLabelAcrossMonthStart()
    ensures ValidDateTime(DateTime(Date(2025, 10, 1), 0))
    ensures WeekStart(Date(2025, 10, 1)) == Date(2025, 9, 29)
    ensures WeekLabel(DateTime(Date(2025, 10, 1), 0)) == "29-Oct"
  {
    var d := Date(2025, 10, 1);
    assert Ordinal(d) == 739525;
    assert Weekday(d) == 2;
    var m := WeekStart(d);
    assert Ordinal(Date(2025, 9, 29)) == 739523;
    OrdinalInjective(m, Date(2025, 9, 29));
    assert NatToString(29) == "29";
  }

  /** `get_weekly_total_amount()`. */
  function WeeklyTotal(rows: seq<Row>, now: DateTime): real
    requires ValidDateTime(now)
  {
    PeriodTotal(rows, ByWeek, WeekLabel(now))
  }

  /** `get_monthly_total_amount()`: the MONTH column against `now`'s "%B %Y". */
  function MonthlyTotal(rows: seq<Row>, now: DateTime): real
    requires ValidDateTime(now)
  {
    PeriodTotal(rows, ByMonth, MonthLabel(now.date.year, now.date.month))
  }

  /** The map key of an item: trimmed and lower-cased. */
  function ItemKey(item: string): string {
    Lower(Strip(item))
  }

  /** A row enters the map only when both its ITEM and ITEM CATEGORY are non-empty. */
  predicate MapsItem(r: Row) {
    r.item != "" && r.category != ""
  }

  /** `load_item_category_map()`: a left fold over the rows in sheet order,
      so a later row overwrites an earlier one with the same key. */
  function ItemCategoryMap(rows: seq<Row>): (m: map<string, string>)
  {
    if rows == [] then map[]
    else
      var m := ItemCategoryMap(rows[..|rows| - 1]);
      var r := rows[|rows| - 1];
      if MapsItem(r) then m[ItemKey(r.item) := Strip(r.category)] else m
  }

  /** The keys are exactly the item keys of the rows with both an item and a category. */
  lemma ItemCategoryMapKeys(rows: seq<Row>, k: string)
    ensures k in ItemCategoryMap(rows) <==> exists i :: 0 <= i < |rows| && MapsItem(rows[i]) && ItemKey(rows[i].item) == k
  {
    if k in ItemCategoryMap(rows) {
      MapKeyHasRow(rows, k);
    }
    if exists i :: 0 <= i < |rows| && MapsItem(rows[i]) && ItemKey(rows[i].item) == k {
      var i :| 0 <= i < |rows| && MapsItem(rows[i]) && ItemKey(rows[i].item) == k;
      RowKeyInMap(rows, i);
    }
  }

  /** Every key comes from a row with both an item and a category. */
  lemma {:induction false} MapKeyHasRow(rows: seq<Row>, k: string)
    requires k in ItemCategoryMap(rows)
    ensures exists i :: 0 <= i < |rows| && MapsItem(rows[i]) && ItemKey(rows[i].item) == k
  {
    var n := |rows| - 1;
    var init := rows[..n];
    if k in ItemCategoryMap(init) {
      MapKeyHasRow(init, k);
      var i :| 0 <= i < |init| && MapsItem(init[i]) && ItemKey(init[i].item) == k;
      assert rows[i] == init[i];
    } else {
      assert MapsItem(rows[n]) && ItemKey(rows[n].item) == k;
    }
  }

  /** Every row with both an item and a category leaves its key in the map. */
  lemma {:induction false} RowKeyInMap(rows: seq<Row>, i: int)
    requires 0 <= i < |rows| && MapsItem(rows[i])
    ensures ItemKey(rows[i].item) in ItemCategoryMap(rows)
  {
    var n := |rows| - 1;
    if i < n {
      var init := rows[..n];
      assert init[i] == rows[i];
      RowKeyInMap(init, i);
    }
  }

  /** The value of a key is the trimmed category of the LAST row with that key. */
  lemma {:induction false} ItemCategoryMapLastWins(rows: seq<Row>, i: int)
    requires 0 <= i < |rows| && MapsItem(rows[i])
    requires forall j :: i < j < |rows| && MapsItem(rows[j]) ==> ItemKey(rows[j].item) != ItemKey(rows[i].item)
    ensures ItemKey(rows[i].item) in ItemCategoryMap(rows)
    ensures ItemCategoryMap(rows)[ItemKey(rows[i].item)] == Strip(rows[i].category)
  {
    var init := rows[..|rows| - 1];
    if i < |rows| - 1 {
      ItemCategoryMapLastWins(init, i);
    }
  }

  /** Keys ignore letter case: "Milk" and "milk" are one item. */
  lemma ItemKeyIgnoresCase()
    ensures ItemKey("Milk") == ItemKey("milk") == "milk"
  {
    LowerExamples();
    StripUnchanged("Milk");
    StripUnchanged("milk");
  }

  lemma LowerExamples()
    ensures Lower("Milk") == "milk" && Lower("milk") == "milk"
  {
  }

  /** The DataFrame `recommend_items_for_today` receives; it adds the
      DATE_dt and Weekday columns to it in place. */
  class Frame {
    var rows: seq<Row>
    var dateColumn: Option<seq<Option<Date>>>
    var weekdayColumn: Option<seq<Option<string>>>

    constructor (rows: seq<Row>)
      ensures this.rows == rows && dateColumn == None && weekdayColumn == None
    {
      this.rows := rows;
      dateColumn := None;
      weekdayColumn := None;
    }
  }

  /** `pd.to_datetime(df["DATE"], format="%m/%d/%Y", errors="coerce")`. */
  function ParsedDates(rows: seq<Row>): (ds: seq<Option<Date>>)
    ensures |ds| == |rows| && forall i :: 0 <= i < |rows| ==> ds[i] == ParseUsDate(rows[i].date)
  {
    seq(|rows|, i requires 0 <= i < |rows| => ParseUsDate(rows[i].date))
  }

  /** `DATE_dt.dt.day_name()`. */
  function DayNames(ds: seq<Option<Date>>): (ns: seq<Option<string>>)
    ensures |ns| == |ds| && forall i :: 0 <= i < |ds| ==> ns[i] == DayName(ds[i])
  {
    seq(|ds|, i requires 0 <= i < |ds| => DayName(ds[i]))
  }

  /** `df[df["Weekday"] == name]["ITEM"].str.strip()`. */
  function ItemsNamed(rows: seq<Row>, names: seq<Option<string>>, name: string): seq<string>
    requires |names| == |rows|
  {
    if rows == [] then []
    else
      var head := if names[0] == Some(name) then [Strip(rows[0].item)] else [];
      head + ItemsNamed(rows[1..], names[1..], name)
  }

  /** A row's weekday is today's: its DATE parses and falls on the same weekday. */
  predicate OnWeekdayOf(r: Row, today: Date)
    requires ValidDate(today)
  {
    var d := ParseUsDate(r.date);
    d.Some? && Weekday(d.value) == Weekday(today)
  }

  /** The trimmed items of the rows selected by `p`, in sheet order. */
  function ItemsWhere(rows: seq<Row>, p: Row -> bool): seq<string> {
    if rows == [] then []
    else
      var head := if p(rows[0]) then [Strip(rows[0].item)] else [];
      head + ItemsWhere(rows[1..], p)
  }

  lemma {:induction false} ItemsWhereConcat(a: seq<Row>, b: seq<Row>, p: Row -> bool)
    ensures ItemsWhere(a + b, p) == ItemsWhere(a, p) + ItemsWhere(b, p)
  {
    if a == [] {
      assert a + b == b;
    } else {
      assert (a + b)[0] == a[0] && (a + b)[1..] == a[1..] + b;
      var head := if p(a[0]) then [Strip(a[0].item)] else [];
      assert ItemsWhere(a + b, p) == head + ItemsWhere(a[1..] + b, p);
      assert ItemsWhere(a, p) == head + ItemsWhere(a[1..], p);
      ItemsWhereConcat(a[1..], b, p);
      assert head + (ItemsWhere(a[1..], p) + ItemsWhere(b, p)) == (head + ItemsWhere(a[1..], p)) + ItemsWhere(b, p);
    }
  }

  lemma {:induction false} ItemsWhereNone(rows: seq<Row>, p: Row -> bool)
    requires forall i :: 0 <= i < |rows| ==> !p(rows[i])
    ensures ItemsWhere(rows, p) == []
  {
    if rows != [] {
      assert !p(rows[0]);
      ItemsWhereNone(rows[1..], p);
    }
  }

  /** An item is selected exactly when some selected row carries it. */
  lemma {:induction false} ItemsWhereMembers(rows: seq<Row>, p: Row -> bool, x: string)
    ensures x in ItemsWhere(rows, p) <==> exists i :: 0 <= i < |rows| && p(rows[i]) && Strip(rows[i].item) == x
  {
    if rows != [] {
      ItemsWhereMembers(rows[1..], p, x);
      if x in ItemsWhere(rows[1..], p) {
        var i :| 0 <= i < |rows[1..]| && p(rows[1..][i]) && Strip(rows[1..][i].item) == x;
        assert rows[i + 1] == rows[1..][i];
      }
      if exists i :: 0 <= i < |rows| && p(rows[i]) && Strip(rows[i].item) == x {
        var i :| 0 <= i < |rows| && p(rows[i]) && Strip(rows[i].item) == x;
        if i > 0 { assert rows[1..][i - 1] == rows[i]; }
      }
    }
  }

  function OnWeekday(today: Date): Row -> bool
    requires ValidDate(today)
  {
    (r: Row) => OnWeekdayOf(r, today)
  }

  /** The trimmed items of the rows dated on today's weekday, in sheet order. */
  function SameWeekdayItems(rows: seq<Row>, today: Date): seq<string>
    requires ValidDate(today)
  {
    ItemsWhere(rows, OnWeekday(today))
  }

  /** Selecting on the Weekday column by today's day name is selecting the
      rows whose date falls on today's weekday. */
  lemma {:induction false} ItemsNamedIsSameWeekday(rows: seq<Row>, today: Date)
    requires ValidDate(today)
    ensures ItemsNamed(rows, DayNames(ParsedDates(rows)), WeekdayNames[Weekday(today)]) == SameWeekdayItems(rows, today)
  {
    if rows != [] {
      var names := DayNames(ParsedDates(rows));
      assert names[1..] == DayNames(ParsedDates(rows[1..]));
      var d := ParseUsDate(rows[0].date);
      if d.Some? {
        WeekdayNamesDistinct(Weekday(d.value), Weekday(today));
      }
      ItemsNamedIsSameWeekday(rows[1..], today);
    }
  }

  lemma WeekdayNamesDistinct(a: int, b: int)
    requires 0 <= a < 7 && 0 <= b < 7
    ensures WeekdayNames[a] == WeekdayNames[b] <==> a == b
  {
  }

  /** `value_counts()` order: distinct values by non-increasing count. */
  function CountKey(items: seq<string>): string -> SortKey {
    (x: string) => Present([multiset(items)[x]])
  }

  function Ranking(items: seq<string>): seq<string> {
    SortDescBy(Distinct(items), CountKey(items))
  }

  /** `recommend_items_for_today(df, top_n)` on a frame holding `rows`. */
  function RecommendFor(rows: seq<Row>, topN: int, today: Date): seq<string>
    requires ValidDate(today)
  {
    if rows == [] then [] else Head(Ranking(SameWeekdayItems(rows, today)), topN)
  }

  method Recommend(df: Frame, topN: int, now: DateTime) returns (items: seq<string>)
    requires ValidDateTime(now)
    modifies df
    ensures df.rows == old(df.rows)
    ensures old(df.rows) == [] ==> df.dateColumn == old(df.dateColumn) && df.weekdayColumn == old(df.weekdayColumn)
    ensures old(df.rows) != [] ==>
      df.dateColumn == Some(ParsedDates(df.rows)) && df.weekdayColumn == Some(DayNames(ParsedDates(df.rows)))
    ensures items == RecommendFor(df.rows, topN, now.date)
  {
    if df.rows == [] {
      return [];
    }
    var dates := ParsedDates(df.rows);
    df.dateColumn := Some(dates);
    df.weekdayColumn := Some(DayNames(dates));
    var todayName := WeekdayNames[Weekday(now.date)];
    var todays := ItemsNamed(df.rows, df.weekdayColumn.value, todayName);
    ItemsNamedIsSameWeekday(df.rows, now.date);
    items := Head(Ranking(todays), topN);
  }

  lemma LexGeqSingle(a: int, b: int)
    ensures LexGeq([a], [b]) <==> a >= b
  {
    assert [a][1..] == [] && [b][1..] == [];
  }

  /** `value_counts` lists every distinct item once, by non-increasing count. */
  lemma RankingFacts(items: seq<string>)
    ensures var rk := Ranking(items);
      && NoDuplicates(rk)
      && (forall x :: x in rk <==> x in items)
      && (forall i, j :: 0 <= i < j < |rk| ==> multiset(items)[rk[i]] >= multiset(items)[rk[j]])
  {
    var d := Distinct(items);
    var rk := Ranking(items);
    MultisetSameElements(d, rk);
    PermutationKeepsNoDuplicates(d, rk);
    forall i, j | 0 <= i < j < |rk| ensures multiset(items)[rk[i]] >= multiset(items)[rk[j]] {
      assert KeyGeq(CountKey(items)(rk[i]), CountKey(items)(rk[j]));
      LexGeqSingle(multiset(items)[rk[i]], multiset(items)[rk[j]]);
    }
  }

  /** A prefix of a duplicate-free list ordered by non-increasing count keeps
      both properties, and every element past the prefix counts no more than
      any element in it. */
  lemma RankedPrefix(rk: seq<string>, r: seq<string>, items: seq<string>)
    requires |r| <= |rk| && r == rk[..|r|]
    requires NoDuplicates(rk)
    requires forall x :: x in rk <==> x in items
    requires forall i, j :: 0 <= i < j < |rk| ==> multiset(items)[rk[i]] >= multiset(items)[rk[j]]
    ensures NoDuplicates(r)
    ensures forall x :: x in r ==> x in items
    ensures forall i, j :: 0 <= i < j < |r| ==> multiset(items)[r[i]] >= multiset(items)[r[j]]
    ensures forall x, y :: x in items && x !in r && y in r ==> multiset(items)[x] <= multiset(items)[y]
  {
    forall i | 0 <= i < |r| ensures r[i] == rk[i] && r[i] in items {
      assert rk[i] in rk;
    }
    forall x, y | x in items && x !in r && y in r ensures multiset(items)[x] <= multiset(items)[y] {
      var k :| 0 <= k < |rk| && rk[k] == x;
      var i :| 0 <= i < |r| && r[i] == y;
      if k < |r| {
        assert r[k] == x;
      }
    }
  }

  /** The first `n` of a ranking: `n` distinct candidates, or all of them
      when there are fewer (for a negative `n`, all but the last `-n`),
      ordered by non-increasing count, and none left out counted more than
      one kept. */
  lemma TopOfRanking(items: seq<string>, n: int)
    ensures var r, d := Head(Ranking(items), n), |Distinct(items)|;
      && (n >= 0 ==> |r| == if n < d then n else d)
      && (n < 0 ==> |r| == if d + n > 0 then d + n else 0)
      && NoDuplicates(r)
      && (forall x :: x in r ==> x in items)
      && (forall i, j :: 0 <= i < j < |r| ==> multiset(items)[r[i]] >= multiset(items)[r[j]])
      && (forall x, y :: x in items && x !in r && y in r ==> multiset(items)[x] <= multiset(items)[y])
  {
    var rk := Ranking(items);
    RankingFacts(items);
    RankedPrefix(rk, Head(rk, n), items);
  }

  /** A recommendation is `top_n` distinct trimmed items, or every
      distinct item when fewer were bought on today's weekday, each bought
      before on that weekday; an empty sheet recommends nothing. */
  lemma RecommendDrawnFromWeekday(rows: seq<Row>, topN: int, today: Date)
    requires ValidDate(today)
    ensures var r, d := RecommendFor(rows, topN, today), |Distinct(SameWeekdayItems(rows, today))|;
      && (rows == [] ==> r == [])
      && (rows != [] && topN >= 0 ==> |r| == if topN < d then topN else d)
      && NoDuplicates(r)
      && (forall x :: x in r ==> exists i :: 0 <= i < |rows| && OnWeekdayOf(rows[i], today) && Strip(rows[i].item) == x)
  {
    var r := RecommendFor(rows, topN, today);
    if rows != [] {
      var items := SameWeekdayItems(rows, today);
      TopOfRanking(items, topN);
      forall x | x in r
        ensures exists i :: 0 <= i < |rows| && OnWeekdayOf(rows[i], today) && Strip(rows[i].item) == x
      {
        ItemsWhereMembers(rows, OnWeekday(today), x);
        var i :| 0 <= i < |rows| && OnWeekday(today)(rows[i]) && Strip(rows[i].item) == x;
      }
    }
  }

  /** A recommendation is ordered by non-increasing count on today's weekday,
      and no candidate left out was bought more often than one that was kept. */
  lemma RecommendTopByCount(rows: seq<Row>, topN: int, today: Date)
    requires ValidDate(today)
    ensures var r := RecommendFor(rows, topN, today);
      var items := SameWeekdayItems(rows, today);
      && (forall i, j :: 0 <= i < j < |r| ==> multiset(items)[r[i]] >= multiset(items)[r[j]])
      && (forall x, y :: x in items && x !in r && y in r ==> multiset(items)[x] <= multiset(items)[y])
  {
    if rows != [] {
      TopOfRanking(SameWeekdayItems(rows, today), topN);
    }
  }

  /** Rows whose DATE does not parse (NaT has no weekday) never change a recommendation. */
  lemma RecommendIgnoresUnparsedRows(a: seq<Row>, bad: seq<Row>, c: seq<Row>, topN: int, today: Date)
    requires ValidDate(today)
    requires forall i :: 0 <= i < |bad| ==> ParseUsDate(bad[i].date) == None
    ensures RecommendFor(a + bad + c, topN, today) == RecommendFor(a + c, topN, today)
  {
    UnparsedRowsAddNoItems(a, bad, c, today);
    if a + c == [] {
      assert a == [] && c == [];
      assert a + bad + c == bad;
      RankingOfNothing(topN);
    }
  }

  /** Rows whose DATE does not parse contribute no same-weekday item. */
  lemma UnparsedRowsAddNoItems(a: seq<Row>, bad: seq<Row>, c: seq<Row>, today: Date)
    requires ValidDate(today)
    requires forall i :: 0 <= i < |bad| ==> ParseUsDate(bad[i].date) == None
    ensures SameWeekdayItems(a + bad + c, today) == SameWeekdayItems(a + c, today)
    ensures SameWeekdayItems(bad, today) == []
  {
    var p := OnWeekday(today);
    ItemsWhereConcat(a + bad, c, p);
    ItemsWhereConcat(a, bad, p);
    ItemsWhereConcat(a, c, p);
    ItemsWhereNone(bad, p);
  }

  /** No items, no recommendation. */
  lemma RankingOfNothing(topN: int)
    ensures Head(Ranking([]), topN) == []
  {
    var none: seq<string> := [];
    assert Distinct(none) == [];
  }
}
