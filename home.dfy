/** `home.py`: the entry form. It checks a submission in a fixed order,
    prefills the category from the item map, builds the row it appends to
    the sheet (DATE, No, WEEK, MONTH), raises the big-purchase alert and
    clears the prefill keys of the session. */
module Home {
  import opened Wrappers
  import opened Strings
  import opened Dates
  import opened Seqs
  import opened Shared

  // ---------------------------------------------------------------------
  // The time field

  /** `re.fullmatch(r"[0-9]{1,2}:[0-9]{2}", t)`. */
  predicate TimeMatches(t: string) {
    if |t| == 4 then IsDigit(t[0]) && t[1] == ':' && IsDigit(t[2]) && IsDigit(t[3])
    else if |t| == 5 then IsDigit(t[0]) && IsDigit(t[1]) && t[2] == ':' && IsDigit(t[3]) && IsDigit(t[4])
    else false
  }

  /** Split at its first colon, a time is accepted exactly when one or two
      digits of hours precede the colon and exactly two digits of minutes
      follow it. */
  lemma TimeMatchesSplit(h: string, m: string)
    requires ':' !in h
    ensures TimeMatches(h + ":" + m) <==> 1 <= |h| <= 2 && |m| == 2 && AllDigits(h) && AllDigits(m)
  {
    var t := h + ":" + m;
    assert t[|h|] == ':';
    assert forall i :: 0 <= i < |h| ==> t[i] == h[i];
    assert forall i :: 0 <= i < |m| ==> t[|h| + 1 + i] == m[i];
    assert |h| == 0 ==> t[0] == ':';
    assert |h| >= 3 ==> t[1] == h[1] && t[2] == h[2];
  }

  /** A text without a colon is never a time. */
  lemma TimeNeedsColon(t: string)
    requires ':' !in t
    ensures !TimeMatches(t)
  {
    if |t| == 4 {
      assert t[1] in t;
    } else if |t| == 5 {
      assert t[2] in t;
    }
  }

  /** Hours and minutes are not range-checked: "99:99" passes. */
  lemma TimeExamples()
    ensures TimeMatches("9:05") && TimeMatches("12:30") && TimeMatches("99:99")
    ensures !TimeMatches("9:5") && !TimeMatches("123:45") && !TimeMatches("12:345")
    ensures !TimeMatches("") && !TimeMatches("ab:cd") && !TimeMatches("1230")
  {
  }

  /** `strftime("%H:%M")`: two zero-padded fields. */
  function ClockText(hour: nat, minute: nat): string
    requires hour < 24 && minute < 60
  {
    PadTwo(hour) + ":" + PadTwo(minute)
  }

  /** The time prefilled from the clock always passes the time check. */
  lemma ClockTextMatches(hour: nat, minute: nat)
    requires hour < 24 && minute < 60
    ensures TimeMatches(ClockText(hour, minute))
  {
    var h := PadTwo(hour);
    var m := PadTwo(minute);
    assert h[0] != ':' && h[1] != ':';
    TimeMatchesSplit(h, m);
  }

  // ---------------------------------------------------------------------
  // The validation chain

  /** The placeholder at the head of the category radio. */
  const Placeholder: string := "Select Category"

  /** What the form holds when "Submit" is pressed. `item` is the item text
      after `.strip()`; `lat`/`lon` are None when no GPS fix was captured. */
  datatype Entry = Entry(
    time: string,
    item: string,
    category: string,
    qty: int,
    amount: real,
    location: string,
    lat: Option<real>,
    lon: Option<real>)

  /** The warnings the submission handler can show instead of saving. */
  datatype Rejection = BadTime | NoCategory | NoItem | NonPositiveAmount | NoLocation | NoCoordinates

  /** Each check on its own. */
  predicate Fails(e: Entry, x: Rejection) {
    match x
    case BadTime => !TimeMatches(e.time)
    case NoCategory => e.category == Placeholder
    case NoItem => e.item == ""
    case NonPositiveAmount => e.amount <= 0.0
    case NoLocation => e.location == ""
    case NoCoordinates => e.lat.None? || e.lon.None?
  }

  /** The position of each check in the `if`/`elif` chain. */
  function Rank(x: Rejection): nat {
    match x
    case BadTime => 0
    case NoCategory => 1
    case NoItem => 2
    case NonPositiveAmount => 3
    case NoLocation => 4
    case NoCoordinates => 5
  }

  /** The submission handler's decision: None saves the row, Some(x) shows
      warning x. */
  function Validate(e: Entry): (r: Option<Rejection>)
    ensures r.Some? ==> Fails(e, r.value)
  {
    if !TimeMatches(e.time) then Some(BadTime)
    else if e.category == Placeholder then Some(NoCategory)
    else if e.item == "" then Some(NoItem)
    else if e.amount <= 0.0 then Some(NonPositiveAmount)
    else if e.location == "" then Some(NoLocation)
    else if e.lat.None? || e.lon.None? then Some(NoCoordinates)
    else None
  }

  /** Nothing is shown exactly when every check passes, and a warning shown
      is a failing check with no failing check before it. */
  lemma ValidateMeaning(e: Entry)
    ensures Validate(e).None? <==> forall x :: !Fails(e, x)
    ensures Validate(e).Some? ==> forall y :: Rank(y) < Rank(Validate(e).value) ==> !Fails(e, y)
  {
    forall x | Validate(e).None? ensures !Fails(e, x) {
      match x
      case BadTime =>
      case NoCategory =>
      case NoItem =>
      case NonPositiveAmount =>
      case NoLocation =>
      case NoCoordinates =>
    }
    if Validate(e).Some? {
      forall y | Rank(y) < Rank(Validate(e).value) ensures !Fails(e, y) {
        match y
        case BadTime =>
        case NoCategory =>
        case NoItem =>
        case NonPositiveAmount =>
        case NoLocation =>
        case NoCoordinates =>
      }
    }
  }

  lemma RankInjective(x: Rejection, y: Rejection)
    requires Rank(x) == Rank(y)
    ensures x == y
  {
  }

  /** Conversely, a failing check with no failing check before it is the one
      reported, whatever fails after it. */
  lemma FirstFailureWins(e: Entry, x: Rejection)
    requires Fails(e, x)
    requires forall y :: Rank(y) < Rank(x) ==> !Fails(e, y)
    ensures Validate(e) == Some(x)
  {
    ValidateMeaning(e);
    var r := Validate(e);
    assert !(Rank(r.value) < Rank(x));
    RankInjective(r.value, x);
  }

  // ---------------------------------------------------------------------
  // The amount

  /** The two ways the form prices a purchase: a manual total, or a unit
      price (both from `number_input` with `min_value=0.0`). */
  datatype Pricing = ManualTotal(total: real) | PerUnit(price: real)

  predicate ValidPricing(p: Pricing) {
    match p
    case ManualTotal(t) => t >= 0.0
    case PerUnit(u) => u >= 0.0
  }

  /** The form's amount for `qty` units (the slider gives 1..10). */
  function EntryAmount(qty: int, p: Pricing): (a: real)
    requires 1 <= qty <= 10 && ValidPricing(p)
    ensures a >= 0.0
    ensures p.ManualTotal? ==> a == p.total
    ensures p.PerUnit? ==> p.price <= a <= 10.0 * p.price
    ensures p.PerUnit? ==> (a == 0.0 <==> p.price == 0.0)
  {
    match p
    case ManualTotal(t) => t
    case PerUnit(u) =>
      var m := qty as real * u;
      ScaleBounds(qty as real, u, m);
      m
  }

  lemma ScaleBounds(q: real, u: real, m: real)
    requires 1.0 <= q <= 10.0 && u >= 0.0 && m == q * u
    ensures u <= m <= 10.0 * u
    ensures m == 0.0 <==> u == 0.0
  {
    assert m - u == (q - 1.0) * u;
    assert 10.0 * u - m == (10.0 - q) * u;
    MulNonNegative(q - 1.0, u);
    MulNonNegative(10.0 - q, u);
    if u > 0.0 {
      MulPositive(q, u);
    }
  }

  lemma MulNonNegative(x: real, y: real)
    requires x >= 0.0 && y >= 0.0
    ensures x * y >= 0.0
  {
  }

  lemma MulPositive(x: real, y: real)
    requires x > 0.0 && y > 0.0
    ensures x * y > 0.0
  {
  }

  /** The quantity scales a unit price exactly. */
  lemma EntryAmountScales(qty: int, u: real)
    requires 1 <= qty < 10 && u >= 0.0
    ensures EntryAmount(qty + 1, PerUnit(u)) == EntryAmount(qty, PerUnit(u)) + u
  {
  }

  /** A zero price (the widget's default) is refused as a non-positive
      amount once the earlier checks pass, whatever the quantity. */
  lemma ZeroPriceRefused(e: Entry, p: Pricing)
    requires 1 <= e.qty <= 10 && ValidPricing(p)
    requires (p.ManualTotal? && p.total == 0.0) || (p.PerUnit? && p.price == 0.0)
    requires e.amount == EntryAmount(e.qty, p)
    requires TimeMatches(e.time) && e.category != Placeholder && e.item != ""
    ensures Validate(e) == Some(NonPositiveAmount)
  {
  }

  // ---------------------------------------------------------------------
  // The category prefill

  /** The radio's options: the placeholder, then the budget categories. */
  const Categories: seq<string> := [Placeholder] + Keys(CategoryBudgets)

  /** `item_map.get(item.lower(), "Select Category")` for the stripped item text. */
  function PredictedCategory(m: map<string, string>, itemText: string): (c: string)
    ensures ItemKey(itemText) in m ==> c == m[ItemKey(itemText)]
    ensures ItemKey(itemText) !in m ==> c == Placeholder
  {
    var key := Lower(Strip(itemText));
    if key in m then m[key] else Placeholder
  }

  /** The radio's initial index: the first position of the prediction among
      the options, or 0 (the placeholder) when it is not one of them. */
  function RadioIndex(c: string): (i: nat)
    ensures i < |Categories|
    ensures c in Categories ==> Categories[i] == c && forall j :: 0 <= j < i ==> Categories[j] != c
    ensures c !in Categories ==> i == 0
  {
    if c in Categories then IndexOf(Categories, c) else 0
  }

  /** An item last bought under a listed budget category is prefilled with
      that category. */
  lemma PrefillFromLastPurchase(rows: seq<Row>, i: int, itemText: string)
    requires 0 <= i < |rows| && MapsItem(rows[i]) && ItemKey(rows[i].item) == ItemKey(itemText)
    requires forall j :: i < j < |rows| && MapsItem(rows[j]) ==> ItemKey(rows[j].item) != ItemKey(itemText)
    requires Strip(rows[i].category) in Categories
    ensures Categories[RadioIndex(PredictedCategory(ItemCategoryMap(rows), itemText))] == Strip(rows[i].category)
  {
    ItemCategoryMapLastWins(rows, i);
    var m := ItemCategoryMap(rows);
    assert ItemKey(itemText) in m && m[ItemKey(itemText)] == Strip(rows[i].category);
    RadioPicks(PredictedCategory(m, itemText));
  }

  /** A listed category puts the radio on itself. */
  lemma RadioPicks(c: string)
    requires c in Categories
    ensures Categories[RadioIndex(c)] == c
  {
  }

  /** An item never bought before, or last bought under a category the
      budget table does not list, leaves the radio on the placeholder. */
  lemma PrefillFallsBack(rows: seq<Row>, itemText: string)
    ensures var c := PredictedCategory(ItemCategoryMap(rows), itemText);
      c !in Categories ==> RadioIndex(c) == 0 && Categories[RadioIndex(c)] == Placeholder
    ensures (forall j :: 0 <= j < |rows| && MapsItem(rows[j]) ==> ItemKey(rows[j].item) != ItemKey(itemText))
      ==> Categories[RadioIndex(PredictedCategory(ItemCategoryMap(rows), itemText))] == Placeholder
  {
    ItemCategoryMapKeys(rows, ItemKey(itemText));
    assert Categories[0] == Placeholder;
  }

  /** A submission left on the placeholder is refused once its time passes. */
  lemma PlaceholderRefused(e: Entry)
    requires TimeMatches(e.time) && e.category == Placeholder
    ensures Validate(e) == Some(NoCategory)
  {
  }

  // ---------------------------------------------------------------------
  // The appended row

  /** The row lines 115-123 build. NO counts TODAY's rows although DATE is
      the selected date, and WEEK and MONTH are taken from the clock. */
  function NewRowAsWritten(rows: seq<Row>, selected: Date, now: DateTime, e: Entry): (r: Row)
    requires ValidDate(selected) && ValidDateTime(now)
    ensures r.date == UsDate(selected) && r.no == TodayCount(rows, now) + 1
    ensures r.week == WeekLabel(now) && r.month == MonthLabel(now.date.year, now.date.month)
  {
    Row(UsDate(selected), TodayCount(rows, now) + 1, e.time, e.item, e.category, e.qty, e.amount,
        WeekLabel(now), MonthLabel(now.date.year, now.date.month))
  }

  /** The row as the sheet's readers need it: NO continues the numbering
      of the selected date, and WEEK and MONTH are the selected date's. */
  function NewRow(rows: seq<Row>, selected: Date, e: Entry): (r: Row)
    requires ValidDate(selected)
  {
    Row(UsDate(selected), CountDate(rows, UsDate(selected)) + 1, e.time, e.item, e.category, e.qty, e.amount,
        WeekLabel(DateTime(selected, 0)), MonthLabel(selected.year, selected.month))
  }

  /** Entered on the day it describes, the row as written is the corrected
      row: both count today's rows and take WEEK and MONTH from today. */
  lemma NewRowOnToday(rows: seq<Row>, now: DateTime, e: Entry)
    requires ValidDateTime(now)
    ensures NewRowAsWritten(rows, now.date, now, e) == NewRow(rows, now.date, e)
  {
  }

  /** The row as written: its DATE parses back to the selected date, while
      its MONTH names the month of the clock (four-digit years). */
  lemma NewRowAsWrittenDescribes(rows: seq<Row>, selected: Date, now: DateTime, e: Entry)
    requires ValidDate(selected) && 1000 <= selected.year <= 9999
    requires ValidDateTime(now) && 1000 <= now.date.year <= 9999
    ensures var r := NewRowAsWritten(rows, selected, now, e);
      && ParseUsDate(r.date) == Some(selected)
      && ParseMonthLabel(r.month) == Some((now.date.year, now.date.month))
      && r.no >= 1
  {
    ParseUsDateRoundTrip(selected);
    ParseMonthLabelRoundTrip(now.date.year, now.date.month);
  }

  /** The rows of date `s` carry No = 1, 2, … in sheet order. */
  predicate NumberedFor(rows: seq<Row>, s: string) {
    var f := Filter(rows, DateIs(s));
    forall i :: 0 <= i < |f| ==> f[i].no == i + 1
  }

  /** Appending the new row keeps every date numbered 1, 2, … */
  lemma NewRowKeepsNumbering(rows: seq<Row>, selected: Date, e: Entry, s: string)
    requires ValidDate(selected) && NumberedFor(rows, s)
    ensures NumberedFor(rows + [NewRow(rows, selected, e)], s)
  {
    var r := NewRow(rows, selected, e);
    FilterConcat(rows, [r], DateIs(s));
    assert [r][1..] == [];
    assert Filter([r], DateIs(s)) == (if r.date == s then [r] else []) + Filter([], DateIs(s));
  }

  /** Under that numbering no two rows of one date share a No. */
  lemma NumberedRowsAreDistinct(rows: seq<Row>, s: string)
    requires NumberedFor(rows, s)
    ensures NoDuplicates(Filter(rows, DateIs(s)))
  {
  }

  /** The row's DATE parses back to the selected date and its MONTH is that
      date's month (four-digit years). */
  lemma NewRowDescribesSelectedDate(rows: seq<Row>, selected: Date, e: Entry)
    requires ValidDate(selected) && 1000 <= selected.year <= 9999
    ensures var r := NewRow(rows, selected, e);
      && ParseUsDate(r.date) == Some(selected)
      && ParseMonthLabel(r.month) == Some((selected.year, selected.month))
      && r.no >= 1
  {
    ParseUsDateRoundTrip(selected);
    ParseMonthLabelRoundTrip(selected.year, selected.month);
  }

  /** A spending row adds its amount to the monthly total of its own month
      and leaves every other month's total alone. */
  lemma NewRowInMonthlyTotal(rows: seq<Row>, selected: Date, e: Entry, now: DateTime)
    requires ValidDate(selected) && 1000 <= selected.year <= 9999
    requires ValidDateTime(now) && 1000 <= now.date.year <= 9999
    ensures MonthlyTotal(rows + [NewRow(rows, selected, e)], now) ==
      MonthlyTotal(rows, now) +
      (if now.date.year == selected.year && now.date.month == selected.month && !IsRevenueCategory(e.category)
       then e.amount else 0.0)
  {
    var r := NewRow(rows, selected, e);
    var v := MonthLabel(now.date.year, now.date.month);
    PeriodTotalConcat(rows, [r], ByMonth, v);
    PeriodTotalSingle(r, ByMonth, v);
    if r.month == v {
      MonthLabelInjective(selected.year, selected.month, now.date.year, now.date.month);
    }
  }

  /** The as-written NO repeats a number of the selected date when that date
      is not today: with one row of 1/1/2025 numbered 1, a form sent on
      1/5/2025 for 1/1/2025 numbers the new row 1 again. */
  lemma NumberAsWrittenRepeats(b: Row, e: Entry)
    requires b.date == "1/1/2025" && b.no == 1
    ensures var r := NewRowAsWritten([b], Date(2025, 1, 1), DateTime(Date(2025, 1, 5), 0), e);
      NumberedFor([b], "1/1/2025") && r.date == "1/1/2025" && r.no == 1
      && !NumberedFor([b] + [r], "1/1/2025")
  {
    var now := DateTime(Date(2025, 1, 5), 0);
    NewYearDays();
    CountDateSingle(b, "1/5/2025");
    var r := NewRowAsWritten([b], Date(2025, 1, 1), now, e);
    SameDateTwice(b, r, "1/1/2025");
  }

  lemma NewYearDays()
    ensures UsDate(Date(2025, 1, 1)) == "1/1/2025"
    ensures TodayString(DateTime(Date(2025, 1, 5), 0)) == "1/5/2025"
  {
    assert NatToString(2025) == "2025";
    assert UsDate(Date(2025, 1, 5)) == "1/5/2025";
  }

  /** Two rows of one date that both carry No 1 break the numbering. */
  lemma SameDateTwice(b: Row, r: Row, s: string)
    requires b.date == s && b.no == 1 && r.date == s && r.no == 1
    ensures NumberedFor([b], s) && !NumberedFor([b] + [r], s)
  {
    assert [b][1..] == [] && [r][1..] == [];
    assert Filter([b], DateIs(s)) == [b] + Filter([], DateIs(s));
    assert Filter([r], DateIs(s)) == [r] + Filter([], DateIs(s));
    FilterConcat([b], [r], DateIs(s));
    assert Filter([b] + [r], DateIs(s)) == [b, r];
    assert Filter([b] + [r], DateIs(s))[1].no != 1 + 1;
  }

  lemma JanuaryAndFebruaryLabels()
    ensures MonthLabel(2025, 1) == "January 2025" && MonthLabel(2025, 2) == "February 2025"
  {
    assert NatToString(2025) == "2025";
  }

  /** The as-written MONTH follows the clock: a purchase of 1/31/2025 sent
      on 2/1/2025 is filed under "February 2025" and is missing from
      January's monthly total. */
  lemma MonthAsWrittenMisfiles()
    ensures var e := Entry("10:00", "Milk", "Food", 1, 700.0, "Shop", Some(6.5), Some(3.4));
      var r := NewRowAsWritten([], Date(2025, 1, 31), DateTime(Date(2025, 2, 1), 0), e);
      r.month == "February 2025" && MonthlyTotal([r], DateTime(Date(2025, 1, 31), 0)) == 0.0
  {
    var e := Entry("10:00", "Milk", "Food", 1, 700.0, "Shop", Some(6.5), Some(3.4));
    FebruaryRowLeavesJanuary(NewRowAsWritten([], Date(2025, 1, 31), DateTime(Date(2025, 2, 1), 0), e));
  }

  /** A row filed under February 2025 adds nothing to January's total. */
  lemma FebruaryRowLeavesJanuary(r: Row)
    requires r.month == MonthLabel(2025, 2)
    ensures r.month == "February 2025" && MonthlyTotal([r], DateTime(Date(2025, 1, 31), 0)) == 0.0
  {
    JanuaryAndFebruaryLabels();
    assert r.month != MonthLabel(2025, 1);
    PeriodTotalSingle(r, ByMonth, MonthLabel(2025, 1));
  }

  /** The cells `append_row` sends, in the loader's header order. */
  function Cells(r: Row): (cs: seq<Cell>)
    ensures |cs| == |Headers|
  {
    [Text(r.date), Int(r.no), Text(r.time), Text(r.item), Text(r.category),
     Int(r.qty), Num(r.amount), Text(r.week), Text(r.month)]
  }

  /** Read back through the header list, the appended cells give the same row. */
  lemma CellsReadBack(r: Row)
    ensures RowOf(RecordOf(Cells(r))) == Some(r)
  {
    var cs := Cells(r);
    var rec := RecordOf(cs);
    assert forall h :: h in Headers ==> h in rec;
    assert rec[Headers[0]] == cs[0] && rec[Headers[1]] == cs[1] && rec[Headers[2]] == cs[2];
    assert rec[Headers[3]] == cs[3] && rec[Headers[4]] == cs[4] && rec[Headers[5]] == cs[5];
    assert rec[Headers[6]] == cs[6] && rec[Headers[7]] == cs[7] && rec[Headers[8]] == cs[8];
  }

  // ---------------------------------------------------------------------
  // The session

  /** A value kept in `st.session_state`. */
  datatype StateValue = Str(text: string) | Real(x: real)

  /** The keys cleared after a successful submission. */
  const PrefillKeys: seq<string> := ["prefill_item", "prefill_time", "manual_amt", "unit_price"]

  lemma LocationNotPrefill()
    ensures "last_location" !in PrefillKeys
  {
    assert "last_location"[0] != "prefill_item"[0] && "last_location"[0] != "prefill_time"[0];
    assert "last_location"[0] != "manual_amt"[0] && "last_location"[0] != "unit_price"[0];
  }

  /** What pressing "Submit" leads to. */
  datatype Outcome = Refused(why: Rejection) | Saved(row: Row, bigPurchase: bool)

  /** `st.session_state.get(key, "")` for a text key. */
  function TextOf(state: map<string, StateValue>, key: string): string {
    if key in state && state[key].Str? then state[key].text else ""
  }

  /** The sheet as this page sees it and the page's session state. */
  class EntrySession {
    var sheet: seq<Row>
    var state: map<string, StateValue>

    constructor (rows: seq<Row>, initial: map<string, StateValue>)
      ensures sheet == rows && state == initial
    {
      sheet := rows;
      state := initial;
    }

    /** Lines 50-53: with "Use Current Time" the clock time (UTC+1, passed
        in as hour and minute) is stored under "prefill_time"; otherwise the
        key is removed. */
    method PrepareTime(useCurrentTime: bool, hour: nat, minute: nat)
      requires hour < 24 && minute < 60
      modifies this
      ensures sheet == old(sheet)
      ensures useCurrentTime ==> state == old(state)["prefill_time" := Str(ClockText(hour, minute))]
      ensures !useCurrentTime ==> state == old(state) - {"prefill_time"}
      ensures useCurrentTime ==> TimeMatches(TextOf(state, "prefill_time"))
      ensures !useCurrentTime ==> TextOf(state, "prefill_time") == ""
    {
      if useCurrentTime {
        state := state["prefill_time" := Str(ClockText(hour, minute))];
        ClockTextMatches(hour, minute);
      } else {
        state := state - {"prefill_time"};
      }
    }

    /** Lines 101-147, with the clock reading `now`. A refused entry changes
        nothing. A saved one appends the row lines 115-123 build, remembers
        the location under "last_location", raises the big-purchase alert
        exactly when the amount reaches 500, and removes the four prefill
        keys, leaving every other key as it was; until the next run of the
        page refills "prefill_time", the item and time prefills read empty. */
    method Submit(e: Entry, selected: Date, now: DateTime) returns (out: Outcome)
      requires ValidDate(selected) && ValidDateTime(now)
      modifies this
      ensures Validate(e).Some? ==> out == Refused(Validate(e).value) && sheet == old(sheet) && state == old(state)
      ensures Validate(e).None? ==> out.Saved? && out.row == NewRowAsWritten(old(sheet), selected, now, e)
      ensures Validate(e).None? ==> sheet == old(sheet) + [out.row]
      ensures Validate(e).None? ==> (out.bigPurchase <==> e.amount >= 500.0)
      ensures Validate(e).None? ==>
        (forall k :: k in state <==> (k in old(state) || k == "last_location") && k !in PrefillKeys)
        && "last_location" in state && state["last_location"] == Str(e.location)
        && (forall k :: k in state && k != "last_location" ==> state[k] == old(state)[k])
      ensures Validate(e).None? ==> TextOf(state, "prefill_item") == "" && TextOf(state, "prefill_time") == ""
    {
      var v := Validate(e);
      if v.Some? {
        return Refused(v.value);
      }
      var row := NewRowAsWritten(sheet, selected, now, e);
      sheet := sheet + [row];
      ghost var before := state;
      state := state["last_location" := Str(e.location)];
      ghost var remembered := state;
      var big := e.amount >= 500.0;
      PopKeys(PrefillKeys);
      SavedState(before, remembered, state, Str(e.location));
      assert "prefill_item" in PrefillKeys && "prefill_time" in PrefillKeys;
      out := Saved(row, big);
    }

    /** Remembering the location, then dropping the prefill keys. */
    static lemma SavedState(before: map<string, StateValue>, remembered: map<string, StateValue>,
                            after: map<string, StateValue>, loc: StateValue)
      requires remembered == before["last_location" := loc]
      requires forall k :: k in after <==> k in remembered && k !in PrefillKeys
      requires forall k :: k in after ==> after[k] == remembered[k]
      ensures forall k :: k in after <==> (k in before || k == "last_location") && k !in PrefillKeys
      ensures "last_location" in after && after["last_location"] == loc
      ensures forall k :: k in after && k != "last_location" ==> after[k] == before[k]
    {
      LocationNotPrefill();
    }

    /** `for k in keys: st.session_state.pop(k, None)`. */
    method PopKeys(keys: seq<string>)
      modifies this
      ensures sheet == old(sheet)
      ensures forall k :: k in state <==> k in old(state) && k !in keys
      ensures forall k :: k in state ==> state[k] == old(state)[k]
    {
      var i := 0;
      while i < |keys|
        invariant 0 <= i <= |keys|
        invariant sheet == old(sheet)
        invariant forall k :: k in state <==> k in old(state) && k !in keys[..i]
        invariant forall k :: k in state ==> state[k] == old(state)[k]
      {
        state := state - {keys[i]};
        assert keys[..i + 1] == keys[..i] + [keys[i]];
        i := i + 1;
      }
      assert keys[..i] == keys;
    }
  }
}
