/** `pages/dashboard.py`: the month and category filter over the row
    snapshot, the revenue/expense split and cash at hand, the running revenue
    balance, the per-category budget tracking and alert loops, and the
    month-long day grid of the daily overview. */
module Dashboard {
  import opened Wrappers
  import opened Strings
  import opened Dates
  import opened Seqs
  import opened Shared

  // ---------------------------------------------------------------------
  // Derived columns and the filter

  datatype TxType = Revenue | Expense

  /** The TransactionType column: income and savings, in any case, are revenue. */
  function TransactionType(category: string): (t: TxType)
    ensures t == Revenue <==> IsRevenueCategory(category)
    ensures t == Expense <==> !IsRevenueCategory(category)
  {
    if IsRevenueCategory(category) then Revenue else Expense
  }

  lemma TransactionTypeExamples()
    ensures TransactionType("Savings") == Revenue && TransactionType("INCOME") == Revenue
    ensures TransactionType("Food") == Expense && TransactionType("") == Expense
  {
    RevenueSavings();
    RevenueIncome();
    SpendingCategories();
  }

  /** The DATE_dt column. */
  function DateOf(r: Row): Option<Date> {
    ParseUsDate(r.date)
  }

  /** The MONTH column as this page recomputes it: "%B %Y" of DATE_dt, NaN
      for a DATE that does not parse. */
  function DerivedMonth(r: Row): (m: Option<string>)
    ensures m.Some? <==> DateOf(r).Some?
  {
    match DateOf(r)
    case Some(d) => Some(MonthLabel(d.year, d.month))
    case None => None
  }

  /** The row mask of the month and category select boxes; the category
      comparison is exact. */
  function Selects(month: string, category: string): Row -> bool {
    (r: Row) => DerivedMonth(r) == Some(month) && (category == "All" || r.category == category)
  }

  /** `filtered_df`. */
  function Filtered(rows: seq<Row>, month: string, category: string): seq<Row> {
    Filter(rows, Selects(month, category))
  }

  /** Two "%B %Y" labels are equal only for the same month of the same year. */
  lemma MonthLabelDetermines(y1: int, m1: int, y2: int, m2: int)
    requires y1 >= 1 && 1 <= m1 <= 12 && y2 >= 1 && 1 <= m2 <= 12
    requires MonthLabel(y1, m1) == MonthLabel(y2, m2)
    ensures y1 == y2 && m1 == m2
  {
    var a1, c1 := MonthName(m1), NatToString(y1);
    var a2, c2 := MonthName(m2), NatToString(y2);
    var s := MonthLabel(y1, m1);
    assert s == a1 + [' '] + c1 && s == a2 + [' '] + c2;
    IndexOfAfterPrefix(a1, ' ', c1);
    IndexOfAfterPrefix(a2, ' ', c2);
    assert a1 == s[..|a1|] && a2 == s[..|a2|];
    assert c1 == s[|a1| + 1..] && c2 == s[|a2| + 1..];
    MonthNumberOfName(m1);
    MonthNumberOfName(m2);
    NatToStringInjective(y1, y2);
  }

  /** With a month label selected, a row is kept exactly when its DATE parses
      to a day of that month and, unless "All" is chosen, its category is the
      selected one; the kept rows stay in sheet order with their multiplicity. */
  lemma FilteredMembers(rows: seq<Row>, y: int, m: int, category: string)
    requires y >= 1 && 1 <= m <= 12
    ensures var f := Filtered(rows, MonthLabel(y, m), category);
      && (forall r :: r in f <==>
            (r in rows && DateOf(r).Some? && DateOf(r).value.year == y
             && DateOf(r).value.month == m && (category == "All" || r.category == category)))
      && (forall r :: multiset(f)[r] == if r in f then multiset(rows)[r] else 0)
  {
    var p := Selects(MonthLabel(y, m), category);
    FilterMultiset(rows, p);
    forall r | DateOf(r).Some?
      ensures DerivedMonth(r) == Some(MonthLabel(y, m)) <==> DateOf(r).value.year == y && DateOf(r).value.month == m
    {
      var d := DateOf(r).value;
      if DerivedMonth(r) == Some(MonthLabel(y, m)) {
        MonthLabelDetermines(d.year, d.month, y, m);
      }
    }
  }

  // ---------------------------------------------------------------------
  // Spending, revenue and cash at hand

  function IsType(t: TxType): Row -> bool {
    (r: Row) => TransactionType(r.category) == t
  }

  /** `spending_df` and `revenue_df`. */
  function SpendingRows(f: seq<Row>): seq<Row> { Filter(f, IsType(Expense)) }
  function RevenueRows(f: seq<Row>): seq<Row> { Filter(f, IsType(Revenue)) }

  function TotalSpent(f: seq<Row>): real { Sum(SpendingRows(f), Amount) }
  function TotalRevenue(f: seq<Row>): real { Sum(RevenueRows(f), Amount) }

  /** `cash_at_hand`. */
  function CashAtHand(f: seq<Row>): real { TotalRevenue(f) - TotalSpent(f) }

  /** Every filtered row is in exactly one of the two frames, so the two
      counts add up to the "Transactions" metric and the two totals to the
      total of all filtered amounts. */
  lemma SpendingRevenuePartition(f: seq<Row>)
    ensures multiset(SpendingRows(f)) + multiset(RevenueRows(f)) == multiset(f)
    ensures |SpendingRows(f)| + |RevenueRows(f)| == |f|
    ensures TotalSpent(f) + TotalRevenue(f) == Sum(f, Amount)
    ensures forall r :: r in SpendingRows(f) <==> r in f && !IsRevenueCategory(r.category)
    ensures forall r :: r in RevenueRows(f) <==> r in f && IsRevenueCategory(r.category)
  {
    var p, q := IsType(Expense), IsType(Revenue);
    assert forall x :: q(x) == !p(x);
    FilterSplit(f, p, q);
    FilterSplitSum(f, p, q, Amount);
    FilterMultiset(f, p);
    FilterMultiset(f, q);
    assert |multiset(SpendingRows(f)) + multiset(RevenueRows(f))| == |multiset(f)|;
  }

  /** A row's contribution to cash at hand: revenue adds, expense subtracts. */
  function Net(r: Row): real {
    if TransactionType(r.category) == Revenue then r.amount else -r.amount
  }

  /** Cash at hand is the sum of the rows' signed amounts. */
  lemma {:induction false} NetIsCash(f: seq<Row>)
    ensures Sum(f, Net) == CashAtHand(f)
  {
    if f != [] {
      NetIsCash(f[1..]);
      var rest := f[1..];
      assert Sum(f, Net) == Net(f[0]) + Sum(rest, Net);
      if TransactionType(f[0].category) == Revenue {
        assert SpendingRows(f) == SpendingRows(rest);
        assert RevenueRows(f) == [f[0]] + RevenueRows(rest);
        SumConcat([f[0]], RevenueRows(rest), Amount);
      } else {
        assert RevenueRows(f) == RevenueRows(rest);
        assert SpendingRows(f) == [f[0]] + SpendingRows(rest);
        SumConcat([f[0]], SpendingRows(rest), Amount);
      }
      assert Sum([f[0]], Amount) == f[0].amount;
    }
  }

  // ---------------------------------------------------------------------
  // The running revenue balance

  /** The sort key that puts dates in ascending order under a descending
      sort: the negated (year, month, day); NaT is missing. */
  function AscKey(d: Option<Date>): SortKey {
    match d
    case Some(x) => Present([-x.year, -x.month, -x.day])
    case None => Missing
  }

  function IsPresent<K>(k: Option<K>): bool { k.Some? }

  /** The group keys `groupby` forms from a key column: the present keys,
      each once, missing keys dropped, sorted under `order`. */
  function PresentKeys<T, K(==,!new)>(s: seq<T>, key: T -> Option<K>, order: Option<K> -> SortKey): seq<Option<K>> {
    SortDescBy(Distinct(Filter(MapSeq(s, key), IsPresent)), order)
  }

  lemma PresentKeysMembers<T, K(!new)>(s: seq<T>, key: T -> Option<K>, order: Option<K> -> SortKey)
    ensures var ks := PresentKeys(s, key, order);
      && NoDuplicates(ks)
      && (forall k :: k in ks <==> k.Some? && exists i :: 0 <= i < |s| && key(s[i]) == k)
  {
    var ds := MapSeq(s, key);
    var present := Filter(ds, IsPresent);
    var d := Distinct(present);
    var ks := PresentKeys(s, key, order);
    FilterMultiset(ds, IsPresent);
    MultisetSameElements(d, ks);
    PermutationKeepsNoDuplicates(d, ks);
    forall k ensures k in ks <==> k.Some? && exists i :: 0 <= i < |s| && key(s[i]) == k {
      assert k in ks <==> k in d;
      assert k in d <==> k in present;
      assert k in present <==> k in ds && k.Some?;
      if k in ds {
        var i :| 0 <= i < |ds| && ds[i] == k;
        assert key(s[i]) == k;
      }
      if exists i :: 0 <= i < |s| && key(s[i]) == k {
        var i :| 0 <= i < |s| && key(s[i]) == k;
        assert ds[i] == k;
      }
    }
  }

  /** The index of `daily_summary`: the parsed dates of the filtered rows,
      each once, ascending; `groupby` drops NaT. */
  function BalanceDates(f: seq<Row>): seq<Option<Date>> {
    PresentKeys(f, DateOf, AscKey)
  }

  /** A date whose negated parts sort no lower than another's is no later;
      distinct dates are then strictly earlier. */
  lemma AscKeyEarlier(d1: Date, d2: Date)
    requires ValidDate(d1) && ValidDate(d2) && d1 != d2
    requires LexGeq([-d1.year, -d1.month, -d1.day], [-d2.year, -d2.month, -d2.day])
    ensures Ordinal(d1) < Ordinal(d2)
  {
    var a, b := [-d1.year, -d1.month, -d1.day], [-d2.year, -d2.month, -d2.day];
    assert a[1..] == [-d1.month, -d1.day] && b[1..] == [-d2.month, -d2.day];
    if d1.year == d2.year {
      assert LexGeq(a[1..], b[1..]);
      if d1.month == d2.month {
        assert a[1..][1..] == [-d1.day] && b[1..][1..] == [-d2.day];
        assert LexGeq([-d1.day], [-d2.day]);
        assert -d1.day > -d2.day;
      } else {
        assert -d1.month > -d2.month;
      }
    } else {
      assert -d1.year > -d2.year;
    }
    OrdinalMonotone(d1, d2);
  }

  /** The balance dates are exactly the dates of the filtered rows that
      parse, each once. */
  lemma BalanceDatesMembers(f: seq<Row>)
    ensures var ks := BalanceDates(f);
      && NoDuplicates(ks)
      && (forall k :: k in ks <==> k.Some? && exists i :: 0 <= i < |f| && DateOf(f[i]) == k)
  {
    PresentKeysMembers(f, DateOf, AscKey);
  }

  /** ... and they are in strictly increasing order. */
  lemma BalanceDatesAscending(f: seq<Row>)
    ensures var ks := BalanceDates(f);
      && (forall i :: 0 <= i < |ks| ==> ks[i].Some? && ValidDate(ks[i].value))
      && (forall i, j :: 0 <= i < j < |ks| ==> Ordinal(ks[i].value) < Ordinal(ks[j].value))
  {
    var ks := BalanceDates(f);
    BalanceDatesMembers(f);
    forall i | 0 <= i < |ks| ensures ks[i].Some? && ValidDate(ks[i].value) {
      assert ks[i] in ks;
    }
    forall i, j | 0 <= i < j < |ks| ensures Ordinal(ks[i].value) < Ordinal(ks[j].value) {
      assert KeyGeq(AscKey(ks[i]), AscKey(ks[j]));
      AscKeyEarlier(ks[i].value, ks[j].value);
    }
  }

  /** One date's value in the Revenue column minus the Expense column. */
  function DayNet(f: seq<Row>, k: Option<Date>): real {
    GroupSum(f, DateOf, k, Net)
  }

  /** The day's net is that day's revenue total minus its expense total
      (each 0 when the column or the cell is missing). */
  lemma {:induction false} DayNetIsRevenueMinusExpense(f: seq<Row>, k: Option<Date>)
    ensures DayNet(f, k) == GroupSum(RevenueRows(f), DateOf, k, Amount) - GroupSum(SpendingRows(f), DateOf, k, Amount)
  {
    if f != [] {
      var rest := f[1..];
      DayNetIsRevenueMinusExpense(rest, k);
      if TransactionType(f[0].category) == Revenue {
        assert SpendingRows(f) == SpendingRows(rest);
        assert RevenueRows(f) == [f[0]] + RevenueRows(rest);
        assert ([f[0]] + RevenueRows(rest))[1..] == RevenueRows(rest);
      } else {
        assert RevenueRows(f) == RevenueRows(rest);
        assert SpendingRows(f) == [f[0]] + SpendingRows(rest);
        assert ([f[0]] + SpendingRows(rest))[1..] == SpendingRows(rest);
      }
    }
  }

  /** The "Revenue Balance" column: the cumulative sum of the daily nets in
      date order. */
  function Balance(f: seq<Row>): (b: seq<real>)
    ensures |b| == |BalanceDates(f)|
  {
    RunningSums(GroupSums(f, DateOf, BalanceDates(f), Net))
  }

  /** The first balance is the first day's net; each later one adds that
      day's net to the one before. */
  lemma BalanceSteps(f: seq<Row>)
    ensures var b, ks := Balance(f), BalanceDates(f);
      && (|b| > 0 ==> b[0] == DayNet(f, ks[0]))
      && (forall i :: 0 < i < |b| ==> b[i] == b[i - 1] + DayNet(f, ks[i]))
  {
    var ks := BalanceDates(f);
    var xs := GroupSums(f, DateOf, ks, Net);
    var b := Balance(f);
    assert b == RunningSums(xs);
    if |b| > 0 {
      assert xs[..1] == [xs[0]] && [xs[0]][1..] == [];
      assert Sum([xs[0]], Id) == xs[0];
    }
    forall i | 0 < i < |b| ensures b[i] == b[i - 1] + DayNet(f, ks[i]) {
      assert xs[..i + 1] == xs[..i] + [xs[i]];
      SumConcat(xs[..i], [xs[i]], Id);
      assert [xs[i]][1..] == [];
    }
  }

  /** When every filtered row has a parsed date, the last balance is the
      cash at hand. */
  lemma BalanceEndsAtCash(f: seq<Row>)
    requires f != []
    requires forall i :: 0 <= i < |f| ==> DateOf(f[i]).Some?
    ensures |Balance(f)| > 0 && Balance(f)[|Balance(f)| - 1] == CashAtHand(f)
  {
    var ks := BalanceDates(f);
    var xs := GroupSums(f, DateOf, ks, Net);
    BalanceDatesMembers(f);
    assert DateOf(f[0]) in ks;
    assert xs[..|xs|] == xs;
    SumOfGroupSums(f, DateOf, ks, Net);
    forall i | 0 <= i < |f| ensures DateOf(f[i]) in ks {
    }
    SumGroupsCovers(f, DateOf, ks, Net);
    NetIsCash(f);
  }

  /** The trend chart as lines 107-115 draw it. Without an Expense row the
      grouped frame has no "Expense" column: on an empty frame the balance
      is the integer 0, which has no `cumsum`, and otherwise `melt` asks for
      the missing column. Either way the page stops with an exception below
      the metrics, and `None` stands for that. */
  function BalanceChartAsWritten(f: seq<Row>): Option<seq<real>> {
    if SpendingRows(f) == [] then None else Some(Balance(f))
  }

  /** The page stops exactly when every filtered row is revenue (an empty
      frame included). */
  lemma BalanceChartStopsIff(f: seq<Row>)
    ensures BalanceChartAsWritten(f).None? <==> forall r :: r in f ==> IsRevenueCategory(r.category)
    ensures BalanceChartAsWritten(f).Some? ==> BalanceChartAsWritten(f).value == Balance(f)
  {
    SpendingRevenuePartition(f);
    if SpendingRows(f) != [] {
      assert SpendingRows(f)[0] in SpendingRows(f);
    }
  }

  /** Picking a revenue category ("income" or "Savings") in the category box
      stops the page whatever the month. */
  lemma RevenueCategoryStopsPage(rows: seq<Row>, month: string, category: string)
    requires IsRevenueCategory(category)
    ensures BalanceChartAsWritten(Filtered(rows, month, category)) == None
  {
    NotRevenueByLength("All");
    var f := Filtered(rows, month, category);
    FilterMultiset(rows, Selects(month, category));
    assert forall r :: r in f ==> r.category == category;
    BalanceChartStopsIff(f);
  }

  // ---------------------------------------------------------------------
  // Budget tracking

  /** The spending rows of one budget category, matched case-insensitively. */
  function CategoryIs(cat: string): Row -> bool {
    (r: Row) => Lower(r.category) == Lower(cat)
  }

  /** `spent` for one budget category. */
  function CategorySpent(spending: seq<Row>, cat: string): real {
    Sum(Filter(spending, CategoryIs(cat)), Amount)
  }

  /** Budget keys that differ only in letter case have the same spent. */
  lemma CategorySpentIgnoresCase(spending: seq<Row>, a: string, b: string)
    requires Lower(a) == Lower(b)
    ensures CategorySpent(spending, a) == CategorySpent(spending, b)
  {
    FilterSameMask(spending, CategoryIs(a), CategoryIs(b));
  }

  /** `spent / budget if budget else 0`. */
  function Percent(spent: real, budget: real): (p: real)
    ensures budget == 0.0 ==> p == 0.0
    ensures budget != 0.0 ==> p * budget == spent
  {
    if budget != 0.0 then spent / budget else 0.0
  }

  /** `min(percent, 1.0)`, the progress bar's fill. */
  function Bar(p: real): (b: real)
    ensures b <= 1.0 && (b == p || b == 1.0)
    ensures p <= 1.0 ==> b == p
  {
    if p <= 1.0 then p else 1.0
  }

  /** One line of the budget tracking panel; the label shows `percent`, the
      bar `bar`. */
  datatype BudgetLine = BudgetLine(category: string, spent: real, budget: real, percent: real, bar: real)

  /** A budget category is shown unless it is revenue or another category is
      selected; the selected-category comparison is exact. */
  predicate Tracked(cat: string, selected: string) {
    !IsRevenueCategory(cat) && (selected == "All" || cat == selected)
  }

  function TrackedEntry(selected: string): ((string, real)) -> bool {
    (e: (string, real)) => Tracked(e.0, selected)
  }

  function LineFor(spending: seq<Row>): ((string, real)) -> BudgetLine {
    (e: (string, real)) =>
      var spent := CategorySpent(spending, e.0);
      var p := Percent(spent, e.1);
      BudgetLine(e.0, spent, e.1, p, Bar(p))
  }

  /** The panel: one line per tracked budget entry, in the table's order. */
  function BudgetLines(budgets: Budgets, spending: seq<Row>, selected: string): seq<BudgetLine> {
    MapSeq(Filter(budgets, TrackedEntry(selected)), LineFor(spending))
  }

  /** The `percent` the tracking loop leaves behind: that of its last line,
      and none when no line was drawn. */
  function LastPercent(lines: seq<BudgetLine>): Option<real> {
    if lines == [] then None else Some(lines[|lines| - 1].percent)
  }

  lemma BudgetLinesSnoc(budgets: Budgets, i: int, spending: seq<Row>, selected: string)
    requires 0 <= i < |budgets|
    ensures BudgetLines(budgets[..i + 1], spending, selected) ==
      BudgetLines(budgets[..i], spending, selected)
      + (if Tracked(budgets[i].0, selected) then [LineFor(spending)(budgets[i])] else [])
  {
    var p := TrackedEntry(selected);
    assert budgets[..i + 1] == budgets[..i] + [budgets[i]];
    FilterConcat(budgets[..i], [budgets[i]], p);
    assert [budgets[i]][1..] == [];
  }

  /** The budget tracking loop: it draws the lines and leaves `percent` set
      to the last one's. */
  method BudgetTracking(budgets: Budgets, spending: seq<Row>, selected: string)
    returns (lines: seq<BudgetLine>, percent: Option<real>)
    ensures lines == BudgetLines(budgets, spending, selected)
    ensures percent == LastPercent(lines)
  {
    lines, percent := [], None;
    var i := 0;
    while i < |budgets|
      invariant 0 <= i <= |budgets|
      invariant lines == BudgetLines(budgets[..i], spending, selected)
      invariant percent == LastPercent(lines)
    {
      var (cat, budget) := budgets[i];
      BudgetLinesSnoc(budgets, i, spending, selected);
      if IsRevenueCategory(cat) {
      } else if selected != "All" && cat != selected {
      } else {
        var spent := CategorySpent(spending, cat);
        var p := Percent(spent, budget);
        lines := lines + [BudgetLine(cat, spent, budget, p, Bar(p))];
        percent := Some(p);
      }
      i := i + 1;
    }
    assert budgets[..|budgets|] == budgets;
  }

  /** A line's percent is its spent over its budget (0 for a zero budget)
      and its bar is that percent capped at 1. */
  lemma LineForMeaning(spending: seq<Row>, e: (string, real))
    ensures var l := LineFor(spending)(e);
      && l.category == e.0 && l.budget == e.1 && l.spent == CategorySpent(spending, e.0)
      && (l.budget == 0.0 ==> l.percent == 0.0)
      && (l.budget != 0.0 ==> l.percent * l.budget == l.spent)
      && l.bar <= 1.0 && (l.percent <= 1.0 ==> l.bar == l.percent)
  {
  }

  /** `l` is the line of some tracked entry of the table. */
  predicate LineOfTable(l: BudgetLine, budgets: Budgets, spending: seq<Row>, selected: string) {
    exists i :: 0 <= i < |budgets| && Tracked(budgets[i].0, selected) && l == LineFor(spending)(budgets[i])
  }

  /** Each line is drawn from a tracked budget entry. */
  lemma BudgetLinesSound(budgets: Budgets, spending: seq<Row>, selected: string)
    ensures var lines := BudgetLines(budgets, spending, selected);
      forall k :: 0 <= k < |lines| ==> LineOfTable(lines[k], budgets, spending, selected)
  {
    var lines := BudgetLines(budgets, spending, selected);
    forall k | 0 <= k < |lines| ensures LineOfTable(lines[k], budgets, spending, selected) {
      var i := FilterIndexFrom(budgets, TrackedEntry(selected), k);
      assert Tracked(budgets[i].0, selected);
    }
  }

  /** Every tracked budget entry has a line. */
  lemma BudgetLinesComplete(budgets: Budgets, spending: seq<Row>, selected: string)
    ensures var lines := BudgetLines(budgets, spending, selected);
      forall i :: 0 <= i < |budgets| && Tracked(budgets[i].0, selected) ==>
        exists k :: 0 <= k < |lines| && lines[k] == LineFor(spending)(budgets[i])
  {
    var lines := BudgetLines(budgets, spending, selected);
    forall i | 0 <= i < |budgets| && Tracked(budgets[i].0, selected)
      ensures exists k :: 0 <= k < |lines| && lines[k] == LineFor(spending)(budgets[i])
    {
      var k := FilterIndexTo(budgets, TrackedEntry(selected), i);
    }
  }

  // ---------------------------------------------------------------------
  // Budget alerts

  datatype Level = Over(excess: real) | Warning(percent: real)

  /** One banner: "<category> over by <excess>" or "<category> at <percent>". */
  datatype Alert = Alert(category: string, level: Level)

  /** The band of one category: over budget by the excess, or a warning
      above 75% of the budget showing that category's own percent. */
  function Band(spent: real, budget: real): Option<Level> {
    if spent > budget then Some(Over(spent - budget))
    else if Percent(spent, budget) > 0.75 then Some(Warning(Percent(spent, budget)))
    else None
  }

  /** Over exactly when spent exceeds the budget; a warning exactly when it
      does not but is more than three quarters of a non-zero budget; and a
      warning shows spent over budget. */
  lemma BandMeaning(spent: real, budget: real)
    ensures Band(spent, budget).Some? && Band(spent, budget).value.Over? <==> spent > budget
    ensures Band(spent, budget).Some? && Band(spent, budget).value.Over? ==> Band(spent, budget).value.excess == spent - budget
    ensures Band(spent, budget).Some? && Band(spent, budget).value.Warning? <==>
      spent <= budget && budget != 0.0 && spent / budget > 0.75
    ensures Band(spent, budget).Some? && Band(spent, budget).value.Warning? ==>
      Band(spent, budget).value.percent * budget == spent
    ensures Band(spent, budget).None? <==> spent <= budget && (budget == 0.0 || spent / budget <= 0.75)
  {
  }

  /** The result of numpy's scalar division, which never raises: a zero
      divisor gives an infinity of the dividend's sign, or NaN for 0/0. */
  datatype Quotient = Finite(x: real) | PosInf | NegInf | NaN

  function NumpyDivide(a: real, b: real): (q: Quotient)
    ensures b != 0.0 ==> q == Finite(a / b)
  {
    if b != 0.0 then Finite(a / b)
    else if a > 0.0 then PosInf
    else if a < 0.0 then NegInf
    else NaN
  }

  /** `q > t` for numpy floats: false for NaN. */
  predicate Exceeds(q: Quotient, t: real) {
    match q
    case Finite(x) => x > t
    case PosInf => true
    case NegInf => false
    case NaN => false
  }

  /** The band as the alert loop writes it: the warning test divides by the
      budget unguarded, and the warning shows `shown`, the `percent` the
      tracking loop left behind. */
  function BandAsWritten(spent: real, budget: real, shown: real): Option<Level> {
    if spent > budget then Some(Over(spent - budget))
    else if Exceeds(NumpyDivide(spent, budget), 0.75) then Some(Warning(shown))
    else None
  }

  /** The unguarded division never changes which banner is raised: with a
      zero budget a positive spent is already over, and 0/0 or a negative
      spent over 0 is not above 0.75. Only the shown percent differs. */
  lemma UnguardedDivisionHarmless(spent: real, budget: real, shown: real)
    ensures BandAsWritten(spent, budget, shown).Some? == Band(spent, budget).Some?
    ensures BandAsWritten(spent, budget, shown).Some? ==>
      BandAsWritten(spent, budget, shown).value.Over? == Band(spent, budget).value.Over?
    ensures BandAsWritten(spent, budget, Percent(spent, budget)) == Band(spent, budget)
  {
  }

  function AlertOf(spending: seq<Row>): ((string, real)) -> seq<Alert> {
    (e: (string, real)) =>
      match Band(CategorySpent(spending, e.0), e.1)
      case Some(level) => [Alert(e.0, level)]
      case None => []
  }

  function AlertOfAsWritten(spending: seq<Row>, shown: real): ((string, real)) -> seq<Alert> {
    (e: (string, real)) =>
      match BandAsWritten(CategorySpent(spending, e.0), e.1, shown)
      case Some(level) => [Alert(e.0, level)]
      case None => []
  }

  /** The alerts list with each warning showing its own category's percent. */
  function Alerts(budgets: Budgets, spending: seq<Row>, selected: string): seq<Alert> {
    Collect(Filter(budgets, TrackedEntry(selected)), AlertOf(spending))
  }

  /** The `percent` left over from the tracking loop. With no tracked entry
      no line is drawn, but then the alert loop reaches no warning either,
      so the value is never shown. */
  function StalePercent(budgets: Budgets, spending: seq<Row>, selected: string): real {
    match LastPercent(BudgetLines(budgets, spending, selected))
    case Some(p) => p
    case None => 0.0
  }

  /** The alerts list as written: every warning shows the stale percent. */
  function AlertsAsWritten(budgets: Budgets, spending: seq<Row>, selected: string): seq<Alert> {
    Collect(Filter(budgets, TrackedEntry(selected)),
      AlertOfAsWritten(spending, StalePercent(budgets, spending, selected)))
  }

  /** Index by index the two lists raise the same banner for the same
      category, and an over-budget banner shows the same excess; only the
      percent a warning shows may differ. */
  predicate SameBanners(a: seq<Alert>, b: seq<Alert>) {
    && |a| == |b|
    && forall i :: 0 <= i < |a| ==>
      && a[i].category == b[i].category
      && a[i].level.Over? == b[i].level.Over?
      && (a[i].level.Over? ==> a[i].level == b[i].level)
  }

  lemma SameBannersConcat(a1: seq<Alert>, b1: seq<Alert>, a2: seq<Alert>, b2: seq<Alert>)
    requires SameBanners(a1, b1) && SameBanners(a2, b2)
    ensures SameBanners(a1 + a2, b1 + b2)
  {
    forall i | |a1| <= i < |a1| + |a2|
      ensures (a1 + a2)[i] == a2[i - |a1|] && (b1 + b2)[i] == b2[i - |a1|]
    {
    }
  }

  /** One budget entry raises the same banner either way. */
  lemma SameBannersOne(spending: seq<Row>, shown: real, e: (string, real))
    ensures SameBanners(AlertOfAsWritten(spending, shown)(e), AlertOf(spending)(e))
  {
    UnguardedDivisionHarmless(CategorySpent(spending, e.0), e.1, shown);
  }

  lemma {:induction false} SameBannersCollect(es: seq<(string, real)>, spending: seq<Row>, shown: real)
    ensures SameBanners(Collect(es, AlertOfAsWritten(spending, shown)), Collect(es, AlertOf(spending)))
  {
    if es != [] {
      SameBannersOne(spending, shown, es[0]);
      SameBannersCollect(es[1..], spending, shown);
      SameBannersConcat(AlertOfAsWritten(spending, shown)(es[0]), AlertOf(spending)(es[0]),
        Collect(es[1..], AlertOfAsWritten(spending, shown)), Collect(es[1..], AlertOf(spending)));
    }
  }

  /** The stale percent changes only what a warning shows: the as-written
      list has the corrected list's length, and at every position the same
      category, the same kind of banner and, when over, the same excess. So
      "All budgets are on track" is shown in the same cases. */
  lemma AlertsAsWrittenMatch(budgets: Budgets, spending: seq<Row>, selected: string)
    ensures SameBanners(AlertsAsWritten(budgets, spending, selected), Alerts(budgets, spending, selected))
    ensures AlertsAsWritten(budgets, spending, selected) == [] <==> Alerts(budgets, spending, selected) == []
  {
    SameBannersCollect(Filter(budgets, TrackedEntry(selected)), spending, StalePercent(budgets, spending, selected));
  }

  lemma AlertsSnoc(budgets: Budgets, i: int, spending: seq<Row>, selected: string)
    requires 0 <= i < |budgets|
    ensures Alerts(budgets[..i + 1], spending, selected) ==
      Alerts(budgets[..i], spending, selected)
      + (if Tracked(budgets[i].0, selected) then AlertOf(spending)(budgets[i]) else [])
  {
    var p := TrackedEntry(selected);
    assert budgets[..i + 1] == budgets[..i] + [budgets[i]];
    FilterConcat(budgets[..i], [budgets[i]], p);
    assert [budgets[i]][1..] == [];
    CollectConcat(Filter(budgets[..i], p), Filter([budgets[i]], p), AlertOf(spending));
    if p(budgets[i]) {
      CollectSingle(budgets[i], AlertOf(spending));
    }
  }

  /** The alert loop with the warning corrected to show the category's own
      percent; `onTrack` is whether the success message is shown. */
  method BudgetAlerts(budgets: Budgets, spending: seq<Row>, selected: string)
    returns (alerts: seq<Alert>, onTrack: bool)
    ensures alerts == Alerts(budgets, spending, selected)
    ensures onTrack <==> alerts == []
  {
    alerts := [];
    var i := 0;
    while i < |budgets|
      invariant 0 <= i <= |budgets|
      invariant alerts == Alerts(budgets[..i], spending, selected)
    {
      var (cat, budget) := budgets[i];
      AlertsSnoc(budgets, i, spending, selected);
      if IsRevenueCategory(cat) {
      } else if selected != "All" && cat != selected {
      } else {
        var spent := CategorySpent(spending, cat);
        if spent > budget {
          alerts := alerts + [Alert(cat, Over(spent - budget))];
        } else if Percent(spent, budget) > 0.75 {
          alerts := alerts + [Alert(cat, Warning(Percent(spent, budget)))];
        }
      }
      i := i + 1;
    }
    assert budgets[..|budgets|] == budgets;
    onTrack := alerts == [];
  }

  /** "All budgets are on track" exactly when no tracked category is over
      its budget or above three quarters of it. */
  lemma AlertsOnTrackIff(budgets: Budgets, spending: seq<Row>, selected: string)
    ensures Alerts(budgets, spending, selected) == [] <==>
      forall i :: 0 <= i < |budgets| && Tracked(budgets[i].0, selected) ==>
        Band(CategorySpent(spending, budgets[i].0), budgets[i].1).None?
  {
    var p := TrackedEntry(selected);
    var es := Filter(budgets, p);
    CollectEmpty(es, AlertOf(spending));
    if Alerts(budgets, spending, selected) == [] {
      forall i | 0 <= i < |budgets| && Tracked(budgets[i].0, selected)
        ensures Band(CategorySpent(spending, budgets[i].0), budgets[i].1).None?
      {
        var k := FilterIndexTo(budgets, p, i);
        assert AlertOf(spending)(es[k]) == [];
      }
    } else {
      var k :| 0 <= k < |es| && AlertOf(spending)(es[k]) != [];
      var i := FilterIndexFrom(budgets, p, k);
      assert Tracked(budgets[i].0, selected);
    }
  }

  /** Each alert is the band of a tracked budget category. */
  lemma AlertsSound(budgets: Budgets, spending: seq<Row>, selected: string, a: Alert)
    requires a in Alerts(budgets, spending, selected)
    ensures exists i :: (0 <= i < |budgets| && Tracked(budgets[i].0, selected) && a.category == budgets[i].0
      && Band(CategorySpent(spending, budgets[i].0), budgets[i].1) == Some(a.level))
  {
    var p := TrackedEntry(selected);
    var es := Filter(budgets, p);
    CollectMembers(es, AlertOf(spending), a);
    var k :| 0 <= k < |es| && a in AlertOf(spending)(es[k]);
    var i := FilterIndexFrom(budgets, p, k);
    AlertOfMember(spending, budgets[i], a);
    assert Tracked(budgets[i].0, selected);
  }

  /** An alert drawn for one budget entry names that entry and its band. */
  lemma AlertOfMember(spending: seq<Row>, e: (string, real), a: Alert)
    requires a in AlertOf(spending)(e)
    ensures a.category == e.0 && Band(CategorySpent(spending, e.0), e.1) == Some(a.level)
  {
  }

  /** One 2,500 bet in a month: the Bet budget is 3,000, so it is at 83%. */
  const BetRow: Row := Row("6/2/2025", 1, "10:00", "Bet slip", "Bet", 1, 2500.0, "2-Jun", "June 2025")

  lemma BetRowSpent()
    ensures CategorySpent([BetRow], "Bet") == 2500.0
    ensures CategorySpent([BetRow], "transport") == 0.0
  {
    assert [BetRow][1..] == [];
    assert Filter([BetRow], CategoryIs("Bet")) == [BetRow];
    assert Sum([BetRow], Amount) == BetRow.amount + Sum([], Amount);
    assert |Lower("Bet")| == 3 && |Lower("transport")| == 9;
    assert Filter([BetRow], CategoryIs("transport")) == [];
  }

  /** When the last entry of a table is skipped and the one before it is
      tracked, the tracking loop's last line is that one's. */
  lemma LastLineBeforeSkipped(b: Budgets, spending: seq<Row>, selected: string)
    requires |b| >= 2 && Tracked(b[|b| - 2].0, selected) && !Tracked(b[|b| - 1].0, selected)
    ensures var lines := BudgetLines(b, spending, selected);
      lines != [] && lines[|lines| - 1] == LineFor(spending)(b[|b| - 2])
  {
    var p := TrackedEntry(selected);
    var n := |b|;
    assert b == b[..n - 2] + [b[n - 2]] + [b[n - 1]];
    FilterConcat(b[..n - 2] + [b[n - 2]], [b[n - 1]], p);
    FilterConcat(b[..n - 2], [b[n - 2]], p);
    assert [b[n - 2]][1..] == [] && [b[n - 1]][1..] == [];
    assert Filter(b, p) == Filter(b[..n - 2], p) + [b[n - 2]];
  }

  /** When the first entry of a table is tracked, the first alert is its
      band, in both versions of the loop. */
  lemma FirstAlertOfFirstEntry(b: Budgets, spending: seq<Row>, selected: string, shown: real)
    requires b != [] && Tracked(b[0].0, selected)
    ensures Alerts(b, spending, selected) == AlertOf(spending)(b[0]) + Alerts(b[1..], spending, selected)
    ensures Collect(Filter(b, TrackedEntry(selected)), AlertOfAsWritten(spending, shown))
      == AlertOfAsWritten(spending, shown)(b[0]) + Collect(Filter(b[1..], TrackedEntry(selected)), AlertOfAsWritten(spending, shown))
  {
    var es := Filter(b, TrackedEntry(selected));
    assert es == [b[0]] + Filter(b[1..], TrackedEntry(selected));
    assert es[0] == b[0] && es[1..] == Filter(b[1..], TrackedEntry(selected));
  }

  /** With "All" selected, the last tracked entry of the shipped table is
      transport (Savings after it is revenue), so the tracking loop leaves
      transport's percent behind. */
  lemma ShippedTableEndsWithTransport(spending: seq<Row>)
    ensures var lines := BudgetLines(CategoryBudgets, spending, "All");
      lines != [] && lines[|lines| - 1] == LineFor(spending)(("transport", 70000.0))
  {
    ShippedSpendingTail();
    ShippedTransport();
    TwelfthOfThirteenLast(CategoryBudgets, spending);
  }

  lemma ShippedTransport()
    ensures |CategoryBudgets| == 13 && CategoryBudgets[11] == ("transport", 70000.0)
  {
  }

  /** A thirteen-entry table whose twelfth entry is spending and whose last
      is not: with "All" selected, the last line is the twelfth entry's. */
  lemma TwelfthOfThirteenLast(b: Budgets, spending: seq<Row>)
    requires |b| == 13 && IsSpendingEntry(b[11]) && !IsSpendingEntry(b[12])
    ensures var lines := BudgetLines(b, spending, "All");
      lines != [] && lines[|lines| - 1] == LineFor(spending)(b[11])
  {
    LastLineBeforeSkipped(b, spending, "All");
  }

  /** After a month with one 2,500 bet, the tracking loop leaves behind
      transport's 0% ... */
  lemma StalePercentIsTransports()
    ensures StalePercent(CategoryBudgets, [BetRow], "All") == 0.0
  {
    BetRowSpent();
    ShippedTableEndsWithTransport([BetRow]);
    assert LineFor([BetRow])(("transport", 70000.0)).percent == Percent(0.0, 70000.0);
  }

  /** ... which the Bet warning then shows as written ... */
  lemma StalePercentShown()
    ensures var a := AlertsAsWritten(CategoryBudgets, [BetRow], "All");
      a != [] && a[0] == Alert("Bet", Warning(0.0))
  {
    BetRowSpent();
    StalePercentIsTransports();
    NotRevenueByLength("Bet");
    assert CategoryBudgets[0] == ("Bet", 3000.0);
    FirstAlertOfFirstEntry(CategoryBudgets, [BetRow], "All", 0.0);
    assert BandAsWritten(2500.0, 3000.0, 0.0) == Some(Warning(0.0));
  }

  /** ... while the corrected loop shows Bet's own 83.3%. */
  lemma OwnPercentShown()
    ensures var a := Alerts(CategoryBudgets, [BetRow], "All");
      a != [] && a[0] == Alert("Bet", Warning(2500.0 / 3000.0))
  {
    NotRevenueByLength("Bet");
    assert CategoryBudgets[0] == ("Bet", 3000.0);
    FirstAlertOfFirstEntry(CategoryBudgets, [BetRow], "All", 0.0);
    BetAlert();
  }

  lemma BetAlert()
    ensures AlertOf([BetRow])(("Bet", 3000.0)) == [Alert("Bet", Warning(2500.0 / 3000.0))]
  {
    BetRowSpent();
    AlertOfBand([BetRow], ("Bet", 3000.0), 2500.0);
    assert Band(2500.0, 3000.0) == Some(Warning(2500.0 / 3000.0));
  }

  /** An entry's alert is its band at the amount spent in its category. */
  lemma AlertOfBand(spending: seq<Row>, e: (string, real), spent: real)
    requires CategorySpent(spending, e.0) == spent
    ensures AlertOf(spending)(e) == if Band(spent, e.1).Some? then [Alert(e.0, Band(spent, e.1).value)] else []
  {
  }

  // ---------------------------------------------------------------------
  // Daily overview

  /** The first day of the month after (y, m). */
  function NextMonthFirst(y: int, m: int): (r: Date)
    requires y >= 1 && 1 <= m <= 12
    ensures ValidDate(r) && r != Date(1, 1, 1)
  {
    if m < 12 then Date(y, m + 1, 1) else Date(y + 1, 1, 1)
  }

  /** The 28th plus four days is always in the next month, after the last
      day of this one. */
  lemma ProbeLandsInNextMonth(y: int, m: int)
    requires y >= 1 && 1 <= m <= 12
    ensures var n, d := NextMonthFirst(y, m), DaysInMonth(y, m);
      && Ordinal(n) == Ordinal(Date(y, m, d)) + 1
      && AddDays(Date(y, m, 28), 4) == Date(n.year, n.month, 32 - d)
  {
    var n, d := NextMonthFirst(y, m), DaysInMonth(y, m);
    if m < 12 {
      DaysBeforeNextMonth(y, m);
    } else {
      DaysBeforeNextYear(y);
    }
    var probe := Date(n.year, n.month, 32 - d);
    assert ValidDate(probe);
    OrdinalInjective(AddDays(Date(y, m, 28), 4), probe);
  }

  /** `month_end`: replace the day with the 28th, add four days, replace the
      day with the 1st, and step back one day. */
  function MonthEnd(y: int, m: int): (r: Date)
    requires y >= 1 && 1 <= m <= 12
    ensures r == Date(y, m, DaysInMonth(y, m))
  {
    var probe := AddDays(Date(y, m, 28), 4);
    ProbeLandsInNextMonth(y, m);
    var first := Date(probe.year, probe.month, 1);
    var r := PrevDay(first);
    OrdinalInjective(r, Date(y, m, DaysInMonth(y, m)));
    r
  }

  /** `pd.date_range(start, end, freq="D")`: every day from `start` through
      `end`, none when `end` is earlier. */
  function DateRange(start: Date, end: Date): (r: seq<Date>)
    requires ValidDate(start) && ValidDate(end)
    ensures |r| == if Ordinal(end) < Ordinal(start) then 0 else Ordinal(end) - Ordinal(start) + 1
    ensures forall i :: 0 <= i < |r| ==> ValidDate(r[i]) && Ordinal(r[i]) == Ordinal(start) + i
  {
    var n := Ordinal(end) - Ordinal(start) + 1;
    if n <= 0 then [] else seq(n, i requires 0 <= i < n => AddDays(start, i))
  }

  /** `all_days`. */
  function MonthDays(y: int, m: int): seq<Date>
    requires y >= 1 && 1 <= m <= 12
  {
    DateRange(Date(y, m, 1), MonthEnd(y, m))
  }

  /** The grid holds the days of the month, from the 1st to the last, in order. */
  lemma MonthDaysAreTheMonth(y: int, m: int)
    requires y >= 1 && 1 <= m <= 12
    ensures |MonthDays(y, m)| == DaysInMonth(y, m)
    ensures forall i :: 0 <= i < DaysInMonth(y, m) ==> MonthDays(y, m)[i] == Date(y, m, i + 1)
  {
    var ds := MonthDays(y, m);
    forall i | 0 <= i < DaysInMonth(y, m) ensures ds[i] == Date(y, m, i + 1) {
      OrdinalInjective(ds[i], Date(y, m, i + 1));
    }
  }

  function DayKey(d: Date): Option<Date> { Some(d) }

  /** The "Amount Spent" of each grid day after the left merge and
      `fillna(0)`: that day's expense total, 0 for a day without one. */
  function DayValues(f: seq<Row>, days: seq<Date>): (v: seq<real>)
    ensures |v| == |days|
  {
    GroupSums(SpendingRows(f), DateOf, MapSeq(days, DayKey), Amount)
  }

  /** `heatmap_df` for the selected month label; None where `strptime`
      would raise. */
  function DailyOverview(f: seq<Row>, selected: string): Option<seq<(Date, real)>> {
    match ParseMonthLabel(selected)
    case None => None
    case Some((y, m)) =>
      var days := MonthDays(y, m);
      var v := DayValues(f, days);
      Some(seq(|days|, i requires 0 <= i < |days| => (days[i], v[i])))
  }

  /** For a month label the grid is that month's days, each with its
      expense total, and a day without an expense shows 0. */
  lemma DailyOverviewMeaning(f: seq<Row>, y: int, m: int)
    requires 1000 <= y <= 9999 && 1 <= m <= 12
    ensures var h := DailyOverview(f, MonthLabel(y, m));
      && h.Some? && |h.value| == DaysInMonth(y, m)
      && (forall i :: 0 <= i < |h.value| ==>
            (h.value[i].0 == Date(y, m, i + 1)
             && h.value[i].1 == GroupSum(SpendingRows(f), DateOf, Some(Date(y, m, i + 1)), Amount)))
      && (forall i :: 0 <= i < |h.value| && (forall j :: 0 <= j < |SpendingRows(f)| ==> DateOf(SpendingRows(f)[j]) != Some(Date(y, m, i + 1)))
            ==> h.value[i].1 == 0.0)
  {
    ParseMonthLabelRoundTrip(y, m);
    MonthDaysAreTheMonth(y, m);
    forall k: Option<Date> | forall j :: 0 <= j < |SpendingRows(f)| ==> DateOf(SpendingRows(f)[j]) != k
      ensures GroupSum(SpendingRows(f), DateOf, k, Amount) == 0.0
    {
      GroupSumEmpty(SpendingRows(f), DateOf, k, Amount);
    }
  }

  /** Within the selected month the grid neither loses nor double-counts an
      expense: its values add up to the month's total spent. */
  lemma DailyOverviewAddsUp(rows: seq<Row>, y: int, m: int, category: string)
    requires y >= 1 && 1 <= m <= 12
    ensures var f := Filtered(rows, MonthLabel(y, m), category);
      Sum(DayValues(f, MonthDays(y, m)), Id) == TotalSpent(f)
  {
    var f := Filtered(rows, MonthLabel(y, m), category);
    var sp := SpendingRows(f);
    var days := MonthDays(y, m);
    var keys := MapSeq(days, DayKey);
    FilteredMembers(rows, y, m, category);
    MonthDaysAreTheMonth(y, m);
    FilterMultiset(f, IsType(Expense));
    forall i, j | 0 <= i < j < |keys| ensures keys[i] != keys[j] {
      assert days[i] == Date(y, m, i + 1) && days[j] == Date(y, m, j + 1);
    }
    forall i | 0 <= i < |sp| ensures DateOf(sp[i]) in keys {
      assert sp[i] in sp;
      var d := DateOf(sp[i]).value;
      assert keys[d.day - 1] == Some(Date(y, m, d.day));
    }
    SumOfGroupSums(sp, DateOf, keys, Amount);
    SumGroupsCovers(sp, DateOf, keys, Amount);
  }
}
