/** The calendar the source relies on through Python's `datetime`: proleptic
    Gregorian dates, Python's day ordinal (1 January of year 1 is day 1),
    `weekday()` with Monday as 0, day arithmetic, the English month and day
    names `strftime` prints under the C locale, and the two date formats
    the sheet stores: the unpadded "M/D/YYYY" text written by the entry page
    and the "%B %Y" month label. */
module Dates {
  import opened Wrappers
  import opened Strings

  datatype Date = Date(year: int, month: int, day: int)

  /** `datetime.now()`: a date and the time of day in microseconds. */
  datatype DateTime = DateTime(date: Date, micros: int)

  const MicrosPerDay: int := 86_400_000_000

  predicate IsLeapYear(y: int) {
    y % 4 == 0 && (y % 100 != 0 || y % 400 == 0)
  }

  function DaysInMonth(y: int, m: int): (n: int)
    requires 1 <= m <= 12
    ensures 28 <= n <= 31
    ensures n == 29 <==> m == 2 && IsLeapYear(y)
  {
    if m == 2 then (if IsLeapYear(y) then 29 else 28)
    else if m == 4 || m == 6 || m == 9 || m == 11 then 30
    else 31
  }

  predicate ValidDate(d: Date) {
    d.year >= 1 && 1 <= d.month <= 12 && 1 <= d.day <= DaysInMonth(d.year, d.month)
  }

  predicate ValidDateTime(t: DateTime) {
    ValidDate(t.date) && 0 <= t.micros < MicrosPerDay
  }

  function DaysInYear(y: int): int {
    if IsLeapYear(y) then 366 else 365
  }

  /** Days before 1 January of year `y` (Python's `_days_before_year`). */
  function DaysBeforeYear(y: int): int
    requires y >= 1
  {
    var k := y - 1;
    k * 365 + k / 4 - k / 100 + k / 400
  }

  lemma DaysBeforeNextYear(y: int)
    requires y >= 1
    ensures DaysBeforeYear(y + 1) == DaysBeforeYear(y) + DaysInYear(y)
  {
    var k := y - 1;
    assert (k + 1) / 4 - k / 4 == if y % 4 == 0 then 1 else 0;
    assert (k + 1) / 100 - k / 100 == if y % 100 == 0 then 1 else 0;
    assert (k + 1) / 400 - k / 400 == if y % 400 == 0 then 1 else 0;
  }

  /** Days in year `y` before the first of month `m` (Python's `_days_before_month`). */
  function DaysBeforeMonth(y: int, m: int): int
    requires 1 <= m <= 12
  {
    [0, 31, 59, 90, 120, 151, 181, 212, 243, 273, 304, 334][m - 1]
      + (if m > 2 && IsLeapYear(y) then 1 else 0)
  }

  lemma DaysBeforeNextMonth(y: int, m: int)
    requires 1 <= m < 12
    ensures DaysBeforeMonth(y, m + 1) == DaysBeforeMonth(y, m) + DaysInMonth(y, m)
  {
  }

  /** `date.toordinal()`. */
  function Ordinal(d: Date): (n: int)
    requires ValidDate(d)
    ensures n >= 1
  {
    DaysBeforeYear(d.year) + DaysBeforeMonth(d.year, d.month) + d.day
  }

  /** `date.weekday()`: Monday is 0, Sunday is 6. */
  function Weekday(d: Date): (w: int)
    requires ValidDate(d)
    ensures 0 <= w < 7
  {
    (Ordinal(d) + 6) % 7
  }

  function NextDay(d: Date): (r: Date)
    requires ValidDate(d)
    ensures ValidDate(r) && Ordinal(r) == Ordinal(d) + 1
  {
    if d.day < DaysInMonth(d.year, d.month) then Date(d.year, d.month, d.day + 1)
    else if d.month < 12 then
      DaysBeforeNextMonth(d.year, d.month);
      Date(d.year, d.month + 1, 1)
    else
      DaysBeforeNextYear(d.year);
      Date(d.year + 1, 1, 1)
  }

  function PrevDay(d: Date): (r: Date)
    requires ValidDate(d) && d != Date(1, 1, 1)
    ensures ValidDate(r) && Ordinal(r) == Ordinal(d) - 1
  {
    if d.day > 1 then Date(d.year, d.month, d.day - 1)
    else if d.month > 1 then
      DaysBeforeNextMonth(d.year, d.month - 1);
      Date(d.year, d.month - 1, DaysInMonth(d.year, d.month - 1))
    else
      DaysBeforeNextYear(d.year - 1);
      Date(d.year - 1, 12, 31)
  }

  /** `d + timedelta(days=k)`. */
  function AddDays(d: Date, k: nat): (r: Date)
    requires ValidDate(d)
    ensures ValidDate(r) && Ordinal(r) == Ordinal(d) + k
    decreases k
  {
    if k == 0 then d else AddDays(NextDay(d), k - 1)
  }

  /** `d - timedelta(days=k)`; the result stays at or after 1 January of year 1. */
  function SubDays(d: Date, k: nat): (r: Date)
    requires ValidDate(d) && k < Ordinal(d)
    ensures ValidDate(r) && Ordinal(r) == Ordinal(d) - k
    decreases k
  {
    if k == 0 then d
    else
      SubDays(PrevDay(d), k - 1)
  }

  /** The Monday that starts `d`'s week: `d - timedelta(days=d.weekday())`. */
  function WeekStart(d: Date): (r: Date)
    requires ValidDate(d)
    ensures ValidDate(r) && Weekday(r) == 0
    ensures Ordinal(r) == Ordinal(d) - Weekday(d)
  {
    WeekdayBelowOrdinal(d);
    var r := SubDays(d, Weekday(d));
    MondayOf(d, r);
    r
  }

  lemma WeekdayBelowOrdinal(d: Date)
    requires ValidDate(d)
    ensures Weekday(d) < Ordinal(d)
  {
    MondayArithmetic(Ordinal(d));
  }

  /** Going back by the weekday lands on a Monday. */
  lemma MondayOf(d: Date, r: Date)
    requires ValidDate(d) && ValidDate(r) && Ordinal(r) == Ordinal(d) - Weekday(d)
    ensures Weekday(r) == 0
  {
    MondayArithmetic(Ordinal(d));
  }

  lemma MondayArithmetic(o: int)
    requires o >= 1
    ensures (o + 6) % 7 < o
    ensures (o - (o + 6) % 7 + 6) % 7 == 0
  {
    var q, w := (o + 6) / 7, (o + 6) % 7;
    assert o + 6 == 7 * q + w;
    assert o - w + 6 == 7 * q;
  }

  /** `strftime("%B")`, `strftime("%b")`, `strftime("%A")`, `strftime("%a")`. */
  const MonthNames: seq<string> := ["January", "February", "March", "April", "May", "June",
    "July", "August", "September", "October", "November", "December"]
  const MonthAbbrevs: seq<string> := ["Jan", "Feb", "Mar", "Apr", "May", "Jun",
    "Jul", "Aug", "Sep", "Oct", "Nov", "Dec"]
  const WeekdayNames: seq<string> := ["Monday", "Tuesday", "Wednesday", "Thursday",
    "Friday", "Saturday", "Sunday"]
  const WeekdayAbbrevs: seq<string> := ["Mon", "Tue", "Wed", "Thu", "Fri", "Sat", "Sun"]

  function MonthName(m: int): (r: string)
    requires 1 <= m <= 12
    ensures ' ' !in r && r != []
  {
    MonthNames[m - 1]
  }

  /** The month number whose full name is `name`, if any. */
  function MonthNumber(name: string): (r: Option<int>)
    ensures r.Some? ==> 1 <= r.value <= 12 && MonthName(r.value) == name
  {
    if name == "January" then Some(1) else if name == "February" then Some(2)
    else if name == "March" then Some(3) else if name == "April" then Some(4)
    else if name == "May" then Some(5) else if name == "June" then Some(6)
    else if name == "July" then Some(7) else if name == "August" then Some(8)
    else if name == "September" then Some(9) else if name == "October" then Some(10)
    else if name == "November" then Some(11) else if name == "December" then Some(12)
    else None
  }

  lemma MonthNumberOfName(m: int)
    requires 1 <= m <= 12
    ensures MonthNumber(MonthName(m)) == Some(m)
  {
  }

  /** `dt.day_name()`, which is NaN for NaT. */
  function DayName(d: Option<Date>): Option<string>
  {
    if d.Some? && ValidDate(d.value) then Some(WeekdayNames[Weekday(d.value)]) else None
  }

  /** The DATE text the entry page writes: f"{d.month}/{d.day}/{d.year}". */
  function UsDate(d: Date): string
    requires ValidDate(d)
  {
    NatToString(d.month) + "/" + NatToString(d.day) + "/" + NatToString(d.year)
  }

  /** `strftime("%B %Y")`. */
  function MonthLabel(y: int, m: int): string
    requires y >= 1 && 1 <= m <= 12
  {
    MonthName(m) + " " + NatToString(y)
  }

  /** `strftime("%B %d")`. */
  function MonthDayLabel(d: Date): string
    requires ValidDate(d)
  {
    MonthName(d.month) + " " + PadTwo(d.day)
  }

  /** `pd.to_datetime(s, format="%m/%d/%Y", errors="coerce")`: one or two
      digits of month, one or two of day, four of year, then a calendar check;
      anything else is NaT. */
  function ParseUsDate(s: string): (r: Option<Date>)
    ensures r.Some? ==> ValidDate(r.value) && r.value.year <= 9999
  {
    var i := IndexOf(s, '/');
    if i == |s| then None
    else
      var rest := s[i + 1..];
      var j := IndexOf(rest, '/');
      if j == |rest| then None
      else
        var ms, ds, ys := s[..i], rest[..j], rest[j + 1..];
        if 1 <= |ms| <= 2 && AllDigits(ms) && 1 <= |ds| <= 2 && AllDigits(ds)
           && |ys| == 4 && AllDigits(ys)
        then
          var d := Date(DigitsValue(ys), DigitsValue(ms), DigitsValue(ds));
          if ValidDate(d) then
            assert DigitsValue(ys) <= 9999 by { FourDigitsBound(ys); }
            Some(d)
          else None
        else None
  }

  lemma FourDigitsBound(s: string)
    requires |s| == 4 && AllDigits(s)
    ensures DigitsValue(s) <= 9999
  {
    var s3 := s[..3];
    var s2 := s3[..2];
    var s1 := s2[..1];
    assert s1[..0] == [];
    assert DigitsValue(s1) <= 9;
    assert DigitsValue(s2) <= 99;
    assert DigitsValue(s3) <= 999;
  }

  lemma UsDateParts(d: Date)
    requires ValidDate(d)
    ensures UsDate(d) == NatToString(d.month) + ['/'] + (NatToString(d.day) + ['/'] + NatToString(d.year))
  {
  }

  lemma NoSlashInDigits(s: string)
    requires AllDigits(s)
    ensures '/' !in s && ' ' !in s
  {
  }

  /** Month, day and four-digit year joined by slashes are read back
      field by field. */
  lemma ParseUsDateOfParts(a: string, b: string, c: string)
    requires AllDigits(a) && AllDigits(b) && AllDigits(c)
    requires 1 <= |a| <= 2 && 1 <= |b| <= 2 && |c| == 4
    ensures var d := Date(DigitsValue(c), DigitsValue(a), DigitsValue(b));
      ParseUsDate(a + ['/'] + (b + ['/'] + c)) == if ValidDate(d) then Some(d) else None
  {
    var s := a + ['/'] + (b + ['/'] + c);
    NoSlashInDigits(a);
    NoSlashInDigits(b);
    IndexOfAfterPrefix(a, '/', b + ['/'] + c);
    var rest := s[|a| + 1..];
    assert rest == b + ['/'] + c;
    IndexOfAfterPrefix(b, '/', c);
    assert s[..|a|] == a;
    assert rest[..|b|] == b && rest[|b| + 1..] == c;
  }

  /** The DATE text the entry page writes is read back as the same date. */
  lemma ParseUsDateRoundTrip(d: Date)
    requires ValidDate(d) && 1000 <= d.year <= 9999
    ensures ParseUsDate(UsDate(d)) == Some(d)
  {
    UsDateParts(d);
    NatToStringLength(d.month);
    NatToStringLength(d.day);
    NatToStringLength(d.year);
    NatToStringRoundTrip(d.month);
    NatToStringRoundTrip(d.day);
    NatToStringRoundTrip(d.year);
    ParseUsDateOfParts(NatToString(d.month), NatToString(d.day), NatToString(d.year));
  }

  /** The UsDate text determines the date. */
  lemma UsDateInjective(d1: Date, d2: Date)
    requires ValidDate(d1) && 1000 <= d1.year <= 9999
    requires ValidDate(d2) && 1000 <= d2.year <= 9999
    requires UsDate(d1) == UsDate(d2)
    ensures d1 == d2
  {
    ParseUsDateRoundTrip(d1);
    ParseUsDateRoundTrip(d2);
  }

  /** `datetime.strptime(s, "%B %Y")` as (year, month). */
  function ParseMonthLabel(s: string): (r: Option<(int, int)>)
    ensures r.Some? ==> 1 <= r.value.0 <= 9999 && 1 <= r.value.1 <= 12
  {
    var i := IndexOf(s, ' ');
    if i == |s| then None
    else
      var name, ys := s[..i], s[i + 1..];
      var m := MonthNumber(name);
      if m.Some? && |ys| == 4 && AllDigits(ys) && DigitsValue(ys) >= 1 then
        FourDigitsBound(ys);
        Some((DigitsValue(ys), m.value))
      else None
  }

  lemma ParseMonthLabelRoundTrip(y: int, m: int)
    requires 1000 <= y <= 9999 && 1 <= m <= 12
    ensures ParseMonthLabel(MonthLabel(y, m)) == Some((y, m))
  {
    var a, c := MonthName(m), NatToString(y);
    var s := MonthLabel(y, m);
    IndexOfAfterPrefix(a, ' ', c);
    assert s[..|a|] == a && s[|a| + 1..] == c;
    MonthNumberOfName(m);
    NatToStringLength(y);
    NatToStringRoundTrip(y);
  }

  /** Two months with the same "%B %Y" label are the same month. */
  lemma MonthLabelInjective(y1: int, m1: int, y2: int, m2: int)
    requires 1000 <= y1 <= 9999 && 1 <= m1 <= 12
    requires 1000 <= y2 <= 9999 && 1 <= m2 <= 12
    requires MonthLabel(y1, m1) == MonthLabel(y2, m2)
    ensures y1 == y2 && m1 == m2
  {
    ParseMonthLabelRoundTrip(y1, m1);
    ParseMonthLabelRoundTrip(y2, m2);
  }

  lemma {:induction false} DaysBeforeYearMonotone(y1: int, y2: int)
    requires 1 <= y1 <= y2
    ensures DaysBeforeYear(y1) <= DaysBeforeYear(y2)
    decreases y2 - y1
  {
    if y1 < y2 {
      DaysBeforeNextYear(y1);
      DaysBeforeYearMonotone(y1 + 1, y2);
    }
  }

  /** `d1` is an earlier calendar day than `d2`: Timestamp comparison. */
  predicate Before(d1: Date, d2: Date) {
    d1.year < d2.year || (d1.year == d2.year && (d1.month < d2.month || (d1.month == d2.month && d1.day < d2.day)))
  }

  /** Later dates have larger ordinals. */
  lemma OrdinalMonotone(d1: Date, d2: Date)
    requires ValidDate(d1) && ValidDate(d2)
    requires Before(d1, d2)
    ensures Ordinal(d1) < Ordinal(d2)
  {
    if d1.year < d2.year {
      DaysBeforeNextYear(d1.year);
      DaysBeforeYearMonotone(d1.year + 1, d2.year);
      assert Ordinal(d1) <= DaysBeforeYear(d1.year) + DaysInYear(d1.year);
    } else if d1.month < d2.month {
      DaysBeforeNextMonth(d1.year, d1.month);
      assert DaysBeforeMonth(d1.year, d1.month + 1) <= DaysBeforeMonth(d1.year, d2.month);
    }
  }

  lemma OrdinalInjective(d1: Date, d2: Date)
    requires ValidDate(d1) && ValidDate(d2) && Ordinal(d1) == Ordinal(d2)
    ensures d1 == d2
  {
    if d1 != d2 {
      if d1.year < d2.year || (d1.year == d2.year && (d1.month < d2.month || (d1.month == d2.month && d1.day < d2.day))) {
        OrdinalMonotone(d1, d2);
      } else {
        OrdinalMonotone(d2, d1);
      }
    }
  }

  /** Sort key for dates: (year, month, day) compared lexicographically. */
  function DateParts(d: Date): seq<int> {
    [d.year, d.month, d.day]
  }

  /** Day numbers counted on from a Monday: the weekday formula gives the
      offset, for any day up to six on. */
  lemma WeekdayOffset(m: int, o: int)
    requires (m + 6) % 7 == 0 && m <= o < m + 7
    ensures (o + 6) % 7 == o - m
  {
    var q := (m + 6) / 7;
    assert m + 6 == 7 * q;
    assert o + 6 == 7 * q + (o - m);
  }

  /** The weekday of a day at most six days after a Monday is its distance
      from that Monday. */
  lemma WeekdayFromMonday(ms: Date, d: Date)
    requires ValidDate(ms) && ValidDate(d) && Weekday(ms) == 0
    requires Ordinal(ms) <= Ordinal(d) < Ordinal(ms) + 7
    ensures Weekday(d) == Ordinal(d) - Ordinal(ms)
  {
    WeekdayOffset(Ordinal(ms), Ordinal(d));
  }

  /** A day from this week's Monday to today lies no more than six days
      back, its weekday is its offset from Monday, and that weekday is no
      later than today's. */
  lemma WeekDay(today: Date, d: Date)
    requires ValidDate(today) && ValidDate(d)
    requires Ordinal(WeekStart(today)) <= Ordinal(d) <= Ordinal(today)
    ensures Ordinal(today) - 6 <= Ordinal(d)
    ensures Weekday(d) == Ordinal(d) - Ordinal(WeekStart(today))
    ensures Weekday(d) <= Weekday(today)
  {
    WeekdayFromMonday(WeekStart(today), d);
  }
}
