# Spending tracker — a Dafny model of its bookkeeping core

The spending tracker is a small multi-page web app for one person. Each
purchase is a row in a spreadsheet with nine columns: DATE, No, TIME, ITEM,
ITEM CATEGORY, No of ITEM, Amount Spent, WEEK and MONTH. A constant table
maps thirteen categories to monthly budgets. Two of those categories are
revenue rather than spending: "income" and "Savings".

The pages do the following:
- `home.py` validates and appends new entries.
- `pages/dashboard.py` filters the rows by month and category, and shows
  totals, a running balance, budget bars, budget alerts and a day grid.
- `pages/Transaction.py` shows the monthly budget usage, today's rows and
  when each item was last bought.
- `pages/visualization.py` shows the week's spending per day, today's
  spending per item and the progress of each category.

All of them read the same snapshot of rows through `shared.py`. That file
also holds the budget table, the period totals, today's row count, the
item-to-category map and the weekday-based item recommendation.

The model works on that snapshot, which is a `seq<Row>`. All clock values
are parameters. The `now` parameter is a `DateTime`: a date plus the
microseconds since midnight.

| module | file | models |
|---|---|---|
| `Wrappers` | wrappers.dfy | `Option` |
| `Strings` | strings.dfy | the ASCII part of `str.lower`, `str.strip`, unpadded integer text, Python's string order |
| `Dates` | dates.dfy | Python's calendar: ordinal, `weekday()`, day arithmetic, the "M/D/YYYY" and "%B %Y" formats |
| `Seqs` | seqs.dfy | the pandas idioms: masks, `sum`, `groupby().sum()`, `unique`, `value_counts`, `head`, a descending sort with NaN last |
| `Shared` | shared.dfy | `shared.py` |
| `Dashboard` | dashboard.dfy | `pages/dashboard.py` |
| `Home` | home.dfy | `home.py` |
| `TransactionPage` | transaction.dfy | `pages/Transaction.py` |
| `Visualization` | visualization.dfy | `pages/visualization.py` |

Where the code changes state, the model is imperative:
- **`Shared.Recommend`** adds the two columns to the caller's frame in
  place. The frame is a `Frame` object.
- **`Dashboard.BudgetTracking`** and **`Dashboard.BudgetAlerts`** are the
  two loops over the budget table.
- **`Home.EntrySession`** models a submission. It appends the row the page
  builds, clock readings included, to the sheet and updates the
  session-state map.

Each of these methods is proved against a function, and the properties are
proved about that function. Everything else is functions and lemmas.

Money is `real`. The derived labels are built from fixed English name tables
and unpadded decimal text. These labels are the WEEK label, the MONTH
label, the DATE text and the weekday names.

## Model

| member | source | states |
|---|---|---|
| `Shared.RecordOf` | shared.py:26-28 | a record maps each of the nine header names to the cell in that position |
| `Shared.ShippedSpendingBudgets` | shared.py:8-13 | the spending part of the shipped table is the first nine entries followed by Airtime and transport; income and Savings are the only revenue entries |
| `Shared.RevenueSavings` | shared.py:50 | "Savings" and "SaVinGs" count as revenue whatever their case |
| `Shared.RevenueIncome` | shared.py:50 | "income" and "INCOME" count as revenue |
| `Shared.SpendingCategories` | shared.py:50 | the empty category (a missing ITEM CATEGORY), "Food" and "transfer" are not revenue, so they are counted |
| `Shared.PeriodTotalSingle` | shared.py:49-50 | one row contributes its amount exactly when its key field equals the value and its category is not revenue; otherwise it contributes 0 |
| `Shared.PeriodTotalConcat` | shared.py:47-50 | the period total is additive over concatenation of row lists |
| `Shared.PeriodTotalNoMatch` | shared.py:47-50 | the total is 0 when every matching row is revenue, including when no row matches |
| `Shared.PeriodTotalIgnores` | shared.py:49-50 | appending rows of another period value, or revenue rows, leaves the total unchanged |
| `Shared.CountDateSingle` | shared.py:45 | one row counts 1 exactly when its DATE text equals the string exactly |
| `Shared.CountDateConcat` | shared.py:45 | the date count is additive over concatenation |
| `Shared.TodayCountAppend` | shared.py:43-45 | appending one row raises today's count by 1 exactly when the row's DATE is today's unpadded "M/D/YYYY" |
| `Shared.WeekLabelFacts` | shared.py:55-57 | the week label is the day of this week's Monday, a dash and today's month abbreviation; that Monday is at most six days back |
| `Shared.WeekLabelAcrossMonthStart` | shared.py:56 | on Wednesday 1 October 2025 the label is "29-Oct": Monday's day paired with today's month |
| `Shared.ItemCategoryMapKeys` | shared.py:34-35 | a key is in the map exactly when some row with a non-empty item and category has that trimmed, lower-cased item |
| `Shared.ItemCategoryMapLastWins` | shared.py:34-35 | for a repeated key, the value is the trimmed category of the last such row in sheet order |
| `Shared.ItemKeyIgnoresCase` | shared.py:34 | "Milk" and "milk" are one key, "milk" |
| `Shared.ParsedDates` | shared.py:65 | the DATE_dt column has one entry per row: the `%m/%d/%Y` parse of its DATE, or None |
| `Shared.DayNames` | shared.py:66 | the Weekday column is the day name of each parsed date, or None for an unparsed one |
| `Shared.ItemsNamedIsSameWeekday` | shared.py:66-68 | selecting on the Weekday column by today's day name selects the rows whose date falls on today's weekday |
| `Shared.ItemsWhereMembers` | shared.py:68-69 | an item is among the selected trimmed items exactly when some selected row carries it |
| `Shared.Recommend` | shared.py:62-69 | an empty frame is not changed and gives []; otherwise the method adds the two derived columns in place and returns the weekday recommendation |
| `Shared.RankingFacts` | shared.py:69 | `value_counts` order: the values are distinct, they are exactly the values present, and their counts are non-increasing |
| `Shared.TopOfRanking` | shared.py:69 | `head(n)` keeps exactly n of them, or all when fewer are distinct (all but the last −n for a negative n); no item left out has a higher count than an item kept |
| `Shared.RecommendDrawnFromWeekday` | shared.py:62-69 | an empty sheet gives []; otherwise exactly top_n distinct items, or every distinct item of today's weekday when there are fewer, each the trimmed item of a row dated on today's weekday |
| `Shared.RecommendTopByCount` | shared.py:68-69 | the recommended items are in non-increasing count order; no other item of today's weekday has a higher count than one recommended |
| `Shared.RecommendIgnoresUnparsedRows` | shared.py:65-68 | inserting rows whose DATE does not parse never changes the recommendation |
| `Strings.StripIsSlice` | shared.py:34 | `strip()` removes exactly a leading and a trailing run of whitespace |
| `Strings.NatToStringRoundTrip` | shared.py:44 | the unpadded decimal text of a number reads back as that number |
| `Dates.WeekStart` | shared.py:56 | this week's Monday: weekday 0, `weekday()` days before the date |
| `Dates.ParseUsDateRoundTrip` | shared.py:65 | the "M/D/YYYY" text written for a date with a four-digit year parses back under `%m/%d/%Y` to that date |
| `Dates.ParseUsDateOfParts` | shared.py:65 | month and day of one or two digits and a four-digit year parse exactly when they form a real date |
| `Dates.UsDateInjective` | home.py:115 | distinct dates get distinct DATE texts |
| `Dates.ParseMonthLabelRoundTrip` | pages/dashboard.py:186 | `strptime("%B %Y")` reads a month label back to its year and month |
| `Dates.MonthLabelInjective` | pages/dashboard.py:59 | distinct months get distinct MONTH labels |
| `Dates.DaysInMonth` | pages/dashboard.py:187 | 28 to 31 days; 29 exactly for February of a leap year |
| `Dates.OrdinalMonotone` | pages/Transaction.py:62 | the calendar order of dates is the order of their ordinals |
| `Dates.WeekDay` | pages/visualization.py:18-19 | a date between this week's Monday and today is within six days of today, and its weekday is its distance from that Monday |
| `Dashboard.TransactionType` | pages/dashboard.py:60-62 | "Revenue" exactly when the category lower-cases to income or savings, otherwise "Expense" |
| `Dashboard.TransactionTypeExamples` | pages/dashboard.py:60-62 | "Savings" and "INCOME" are revenue; "Food" and "" are expenses |
| `Dashboard.DerivedMonth` | pages/dashboard.py:59 | the derived MONTH exists exactly when DATE parses |
| `Dashboard.FilteredMembers` | pages/dashboard.py:82-85 | a row is kept exactly when its parsed date is in the selected month and, unless "All" is chosen, its category equals the selected one; each kept row keeps its multiplicity |
| `Dashboard.SpendingRevenuePartition` | pages/dashboard.py:87-98 | the spending and revenue rows partition the filtered rows, so their counts and totals add up |
| `Dashboard.NetIsCash` | pages/dashboard.py:96-98 | cash at hand is the sum over rows of revenue minus expense |
| `Dashboard.BalanceDatesMembers` | pages/dashboard.py:107 | the balance dates are the distinct parsed dates of the filtered rows; rows with no date are dropped |
| `Dashboard.BalanceDatesAscending` | pages/dashboard.py:107 | the balance dates are in strictly increasing calendar order |
| `Dashboard.DayNetIsRevenueMinusExpense` | pages/dashboard.py:107-108 | each day's step is that day's revenue total minus its expense total, with 0 for a missing side |
| `Dashboard.BalanceSteps` | pages/dashboard.py:108 | the balance starts at the first day's step and adds each later day's step |
| `Dashboard.BalanceEndsAtCash` | pages/dashboard.py:98-108 | when every row has a date, the last balance equals cash at hand |
| `Dashboard.BalanceChartStopsIff` | pages/dashboard.py:107-115 | as written, the trend chart stops the page exactly when every filtered row is revenue, an empty frame included; otherwise it draws the balance |
| `Dashboard.RevenueCategoryStopsPage` | pages/dashboard.py:85-115 | as written, choosing a revenue category such as "income" or "Savings" stops the page in every month |
| `Dashboard.CategorySpentIgnoresCase` | pages/dashboard.py:151 | spent depends on the category only through its lower-case form |
| `Dashboard.Percent` | pages/dashboard.py:152 | 0 for a zero budget, otherwise the quotient of spent by budget |
| `Dashboard.Bar` | pages/dashboard.py:157 | the bar value is at most 1 and equals the percent when the percent is at most 1 |
| `Dashboard.BudgetTracking` | pages/dashboard.py:145-157 | the loop yields the tracked lines in table order, and the percent it leaves behind is the last line's |
| `Dashboard.BudgetLinesSnoc` | pages/dashboard.py:145-149 | one more table entry adds its line exactly when that entry is tracked |
| `Dashboard.LineForMeaning` | pages/dashboard.py:151-157 | a line carries its category, budget and case-insensitive spent, the guarded percent and the clamped bar |
| `Dashboard.BudgetLinesSound` | pages/dashboard.py:145-151 | every line is the line of a tracked table entry |
| `Dashboard.BudgetLinesComplete` | pages/dashboard.py:145-151 | every tracked table entry has a line |
| `Dashboard.BandMeaning` | pages/dashboard.py:169-172 | over by spent − budget exactly when spent exceeds the budget; a warning exactly when it does not but spent/budget > 0.75 for a non-zero budget |
| `Dashboard.NumpyDivide` | pages/dashboard.py:171 | an unguarded quotient is finite for a non-zero budget |
| `Dashboard.UnguardedDivisionHarmless` | pages/dashboard.py:169-171 | the unguarded division never changes which banner is raised |
| `Dashboard.BudgetAlerts` | pages/dashboard.py:161-178 | the loop, with each warning corrected to show its own category's percent, builds the corrected alerts in table order; "all on track" is shown exactly when there is none |
| `Dashboard.AlertsAsWrittenMatch` | pages/dashboard.py:161-178 | the as-written alerts match the corrected ones index by index: same length, same category, same kind of banner and the same excess when over; only a warning's shown percent differs, so "all on track" is shown in the same cases |
| `Dashboard.AlertsSnoc` | pages/dashboard.py:162-172 | one more table entry appends its alert exactly when it is tracked and banded |
| `Dashboard.AlertsOnTrackIff` | pages/dashboard.py:174-178 | no alert exactly when every tracked category is within its band |
| `Dashboard.AlertsSound` | pages/dashboard.py:162-172 | each alert names a tracked category and carries that category's band |
| `Dashboard.StalePercentShown` | pages/dashboard.py:172 | as written, a Bet spend of 2,500 against 3,000 is reported "at 0.0%" (transport's leftover percent) |
| `Dashboard.OwnPercentShown` | pages/dashboard.py:172 | with each category's own percent, the same alert shows 2500/3000 |
| `Dashboard.ShippedTableEndsWithTransport` | pages/dashboard.py:145-152 | with "All" selected, the tracking loop's last line is always transport's |
| `Dashboard.ProbeLandsInNextMonth` | pages/dashboard.py:187 | day 28 plus four days lands in the next month, and its first day is one day after the month's last day |
| `Dashboard.MonthEnd` | pages/dashboard.py:187 | `month_end` is the last day of the month |
| `Dashboard.DateRange` | pages/dashboard.py:188 | `date_range` lists every day from start to end, one per ordinal, and is empty when end precedes start |
| `Dashboard.MonthDaysAreTheMonth` | pages/dashboard.py:186-188 | the grid is days 1 to the month's length, in order |
| `Dashboard.DailyOverviewMeaning` | pages/dashboard.py:182-189 | each grid day carries that day's expense total, and 0 when it has no expense |
| `Dashboard.DailyOverviewAddsUp` | pages/dashboard.py:182-189 | the grid's values add up to the month's total spent |
| `Home.TimeMatchesSplit` | home.py:102 | a time matches exactly when it is one or two digits, a colon and two digits |
| `Home.TimeNeedsColon` | home.py:102 | a time without a colon never matches |
| `Home.TimeExamples` | home.py:102 | "9:05", "12:30" and "99:99" pass; "9:5", "123:45", "12:345", "", "ab:cd" and "1230" fail |
| `Home.ClockTextMatches` | home.py:51 | the prefilled `%H:%M` time always matches the time pattern |
| `Home.Validate` | home.py:101-113 | a reported rejection is a rule the entry breaks |
| `Home.ValidateMeaning` | home.py:101-113 | the entry is saved exactly when it breaks no rule; it breaks no rule earlier in the chain than the reported one |
| `Home.FirstFailureWins` | home.py:101-113 | the first rule broken in the chain is the one reported |
| `Home.EntryAmount` | home.py:70-78 | a manual total is taken as entered; a per-unit amount lies between one and ten unit prices and is 0 exactly when the price is 0 |
| `Home.EntryAmountScales` | home.py:78 | one more unit adds one unit price |
| `Home.ZeroPriceRefused` | home.py:108 | a zero price or total is refused as a non-positive amount once the earlier rules hold |
| `Home.PredictedCategory` | home.py:66 | the map's category for the trimmed, lower-cased item, else "Select Category" |
| `Home.RadioIndex` | home.py:67-68 | the first position of the prediction among the options, or 0 when it is absent |
| `Home.PrefillFromLastPurchase` | home.py:62-68 | an item last bought under a listed category is prefilled with that category |
| `Home.PrefillFallsBack` | home.py:66-68 | an unknown item, or a category missing from the options, leaves the radio on the placeholder |
| `Home.PlaceholderRefused` | home.py:104-105 | a valid time with the placeholder still chosen is refused for its category |
| `Home.NewRowKeepsNumbering` | home.py:115-116 | the appended row continues the No sequence 1, 2, … of its DATE |
| `Home.NumberedRowsAreDistinct` | home.py:116 | rows of one date numbered that way are all distinct |
| `Home.NewRowAsWrittenDescribes` | home.py:115-122 | in the row as written, DATE parses back to the selected date, MONTH reads back to the clock's month, and No ≥ 1 |
| `Home.NewRowOnToday` | home.py:115-122 | for an entry dated today, the row as written is the corrected row |
| `Home.NewRowDescribesSelectedDate` | home.py:115-122 | in the corrected row, DATE parses back to the selected date, MONTH reads back to that date's month, and No ≥ 1 |
| `Home.NewRowInMonthlyTotal` | home.py:122 | the corrected row adds its amount to the monthly total exactly when the selected date is in the current month and the category is not revenue |
| `Home.NumberAsWrittenRepeats` | home.py:116 | as written, an entry for 1/1/2025 made on 1/5/2025 gets No 1 again, breaking that date's numbering |
| `Home.MonthAsWrittenMisfiles` | home.py:121-122 | as written, an entry dated 31 January made on 1 February is filed under "February 2025" and is missing from January's total |
| `Home.CellsReadBack` | home.py:119-123 | the appended cells are in the loader's header order: cell i lands under header i, so each field goes to its own column |
| `Home.LocationNotPrefill` | home.py:127 | "last_location" is not one of the cleared keys |
| `Home.EntrySession.PrepareTime` | home.py:50-53 | "prefill_time" is set to the clock time, which matches the time pattern, or removed |
| `Home.EntrySession.Submit` | home.py:101-147 | a refused entry changes nothing; a saved one appends the row lines 115-123 build (No, WEEK and MONTH read from the clock), remembers the location, alerts exactly when the amount is at least 500 and removes only the four prefill keys, so the item and time prefills read empty until the next run sets the time again |
| `Home.EntrySession.PopKeys` | home.py:146-147 | the listed keys are gone and every other key keeps its value |
| `TransactionPage.TotalBudgetSplit` | pages/Transaction.py:32 | the total budget and the revenue budgets add up to the whole table |
| `TransactionPage.TotalBudgetNonNegative` | pages/Transaction.py:32 | the total budget of non-negative budgets is non-negative |
| `TransactionPage.ShippedTotalBudget` | pages/Transaction.py:32 | the shipped total budget is 730,000 |
| `TransactionPage.PercentUsed` | pages/Transaction.py:33 | the quotient for a positive budget, else 0 |
| `TransactionPage.MonthlyUsageMeaning` | pages/Transaction.py:31-35 | the month's spent is the monthly period total and its budget is 730,000; the percent is their quotient and the bar is clamped to 1 |
| `TransactionPage.MonthlyUsageAppend` | pages/Transaction.py:31 | a new row raises the usage exactly by its amount when it is a spending row of this month |
| `TransactionPage.TodayTableMeaning` | pages/Transaction.py:40-50 | the table is absent exactly when no row is today's; otherwise it has one line per row of today, each showing such a row, and every row of today is shown |
| `TransactionPage.Latest` | pages/Transaction.py:62 | the latest parsed date, or None when no date parsed |
| `TransactionPage.ItemLastMeaning` | pages/Transaction.py:61-62 | an item's last date is one of its rows' dates and is no earlier than any of them |
| `TransactionPage.LastPurchasesMembers` | pages/Transaction.py:61-62 | one purchase per distinct item bought in the category, each with that item's last date |
| `TransactionPage.LastBoughtChronological` | pages/Transaction.py:60-72 | nothing is drawn exactly for the blank category; otherwise the note appears exactly when the category has no rows, and the intended table is a permutation of the purchases, sorted most recent first with unparsed dates last |
| `TransactionPage.LastBoughtViewsAgree` | pages/Transaction.py:60-72 | the section as written shows the same outcome as the intended one and, when a table, the same lines in another order |
| `TransactionPage.LabelSortMisorders` | pages/Transaction.py:63-68 | as written, rice bought on 30 September is listed above milk bought on 1 October |
| `TransactionPage.DateSortOrders` | pages/Transaction.py:68 | sorting on the date lists milk first |
| `Visualization.KeptMembers` | pages/visualization.py:13 | a row is kept exactly when its lower-cased category is a lower-cased non-revenue budget key |
| `Visualization.KeptNotRevenue` | pages/visualization.py:13 | no kept row is revenue |
| `Visualization.InWeekAsWrittenMeaning` | pages/visualization.py:18-19 | as written, a row is in the week when its date is after Monday or is Monday at midnight, and it is not after today |
| `Visualization.WeekWindowsAgree` | pages/visualization.py:18-19 | the intended window from Monday's midnight contains the window as written; they differ only on Monday's rows after midnight |
| `Visualization.NoonWednesdayDropsMonday` | pages/visualization.py:18-19 | at noon on Wednesday 15 October 2025, a row dated Monday 13 October is dropped as written and kept as intended |
| `Visualization.InWeekDays` | pages/visualization.py:18-19 | a row in the intended window falls between this week's Monday and today |
| `Visualization.DailyChartMeaning` | pages/visualization.py:20-22 | one bar per distinct date carrying that date's sum; every row has its bar; the bars add up to the rows' total |
| `Visualization.WeekBarLabelsDistinct` | pages/visualization.py:22 | the weekday labels of the week's bars are distinct |
| `Visualization.TodayBreakdownMeaning` | pages/visualization.py:33-36 | one slice per distinct item of today's kept rows, carrying that item's sum; the slices add up to today's total |
| `Visualization.ProgressSpentIsCategorySpent` | pages/visualization.py:47-52 | spent from the per-category totals equals the case-insensitive sum over the month's rows |
| `Visualization.ProgressForMeaning` | pages/visualization.py:52-55 | a progress line carries the month's spent for its category, the guarded percent and the clamped bar |
| `Visualization.ProgressLinesMeaning` | pages/visualization.py:49-55 | one line per spending budget entry, in table order |
| `Visualization.MonthRowsIsMonthlyTotal` | pages/visualization.py:46 | the month's kept rows add up to the monthly period total over the kept rows |

## Left out

- Google Sheets access is not modelled. This covers authentication, `get_all_records`, `append_row`, the metadata sheet and its save and load calls, and the last-location lookup that depends on it (home.py:84-89). The snapshot is an input sequence, and the append is the `sheet` field of `Home.EntrySession`.
- The ten-minute and one-hour caches, `refresh_data` and `st.rerun` are library behaviour and are not modelled.
- Widgets, CSS, Altair charts, geolocation capture and the audio tag are presentation only. The model keeps only the values they display.
- The clock, the UTC+1 offset and the locale are parameters: `now`, the hour and minute of the prefilled time, and fixed English name tables.
- Floating-point arithmetic and number formatting are left out. Amounts are `real`, so no rounding or `:,.0f` text is modelled.
- NaN amounts are not modelled. `pd.to_numeric(..., errors="coerce")` can produce one, and a pandas sum skips it. Every modelled amount is a number. In `shared.py:49`, `float("")` would raise on a blank "Amount Spent". The model follows the code: a row's amount is always a number, and an unparsable cell is outside the model.
- Dates before year 1000 and after year 9999 are not modelled. The round trips of the DATE text and MONTH label are proved only for four-digit years, because `%Y` reads exactly four digits. pandas' Timestamp range is not modelled either.
- The item groups of `TransactionPage.LastPurchases` and `Visualization.TodayBreakdown` are in first-seen order, while pandas' `groupby("ITEM")` orders them by item name. No contract depends on that order: the Last Bought table is sorted afterwards, and the breakdown is stated per item.
- gspread's `get_all_records` turns a stored number such as `700.0` back into the integer `700`; the model's cells keep one numeric kind, so `Home.CellsReadBack` states the column order, not the Python type read back.
- TransactionPage.TodayTable, TransactionPage.MonthlyUsage, Visualization.DailyChart, Visualization.TodayBreakdown and the Dashboard members: an empty sheet (`rows == []`) is modelled as a snapshot with no rows, so the pages show their "no data" notices and a spent of 0. As written, `get_all_records` then returns `[]`, `pd.DataFrame([])` has no columns, and pages/Transaction.py:17, pages/visualization.py:11 and pages/dashboard.py:57 each raise KeyError before any section is drawn. Every property is still stated for every non-empty snapshot.
- `value_counts`, `sort_values` and `groupby` tie orders are promised by nothing. For `Ranking` and the sorts, the model states only non-increasing counts and order, never a particular tie order.
- The order of the dashboard's menu options (pages/dashboard.py:65-66) and the category breakdown chart (pages/dashboard.py:130-141) are not modelled. These are display orderings of values that are modelled elsewhere.
- The dashboard's Transactions metric, `len(filtered_df)` (pages/dashboard.py:103), appears only as `|Filtered(...)|` in `Dashboard.SpendingRevenuePartition`.
- The category menu of the Last Bought table (pages/Transaction.py:57-58) is a parameter, `cat`. A blank category is among its options and sorts first, so it is the default whenever some row has no category; `TransactionPage.LastBought` then draws nothing.
- Strings.Lower: maps only the ASCII letters A to Z. Python's `str.lower` also lower-cases other letters, such as "É", and the Kelvin sign U+212A lower-cases to an ASCII "k". So a category or item with such letters may compare differently in the model. The shipped budget keys are all ASCII, but a sheet cell need not be.
- Dates.ParseUsDate: does not accept a day padded with a space, such as "6/ 5/2025", which `%d` in `strptime` accepts. The page writes unpadded DATE text, so only hand-edited cells are affected.
- home.py:3-8 imports `Meta_Sheet`, `save_transaction_metadata` and `load_transaction_metadata`, which the `shared.py` of this repository does not define. As written, the entry page would stop at that import. The model treats these names as the metadata sheet's I/O, which is left out above.
- Dashboard.BudgetTracking, Dashboard.BudgetAlerts and Dashboard.DailyOverview: model the sections as the page would draw them if it got past the trend chart. When the chart stops the page (`Dashboard.BalanceChartStopsIff`), none of them, and not the category breakdown either, is drawn.
- The outer merge with the metadata sheet's LOCATION column on the entry page (home.py:151-170) is not modelled: it is another read of the metadata sheet.

## Findings

| source | as written | input that shows it | evidently intended | confidence | as-written member | corrected member |
|---|---|---|---|---|---|---|
| pages/dashboard.py:172 | the warning banner prints `percent`, the variable left by the budget-tracking loop, which is always the last tracked category's percent | the shipped table with "All" selected and one 2,500 Bet row: the Bet warning says "at 0.0%" | each warning shows its own category's spent/budget | not executed | `Dashboard.StalePercentShown` | `Dashboard.OwnPercentShown` |
| home.py:115-116 | No counts today's rows although DATE is the selected date | a row for 1/1/2025 with No 1, and another entry for 1/1/2025 made on 1/5/2025: it gets No 1 again | No continues the numbering of the selected date | not executed | `Home.NumberAsWrittenRepeats` | `Home.NewRowKeepsNumbering` |
| home.py:121-122 | WEEK and MONTH are taken from the clock, not from the selected date | an entry dated 31 January 2025 made on 1 February 2025 is filed under "February 2025" and is missing from January's total | WEEK and MONTH describe the selected date | not executed | `Home.MonthAsWrittenMisfiles` | `Home.NewRowInMonthlyTotal` |
| pages/Transaction.py:63-68 | "Last Bought" is sorted on its "%B %d" text, so months compare alphabetically | rice on 30 September 2025 and milk on 1 October 2025: "September 30" sorts above "October 01" | most recent purchase first | not executed | `TransactionPage.LabelSortMisorders` | `TransactionPage.LastBoughtChronological` |
| pages/dashboard.py:107-115 | with no Expense row in the filtered frame, `daily_summary.get("Expense", 0)` is the integer 0: an empty frame makes the balance an integer, which has no `cumsum`, and otherwise `melt` asks for the missing "Expense" column | the category "income" selected in any month | the balance line drawn with 0 for the missing side, and the rest of the page drawn | not executed | `Dashboard.RevenueCategoryStopsPage` | `Dashboard.BalanceEndsAtCash` |
| pages/visualization.py:18-19 | `week_start` keeps the current time of day, while DATE_dt is at midnight, so rows dated Monday drop out after midnight | at noon on Wednesday 15 October 2025, a row dated Monday 13 October 2025 is not in the week | the week starts at Monday's midnight | not executed | `Visualization.NoonWednesdayDropsMonday` | `Visualization.WeekWindowsAgree` |
