/**
 * The proleptic Gregorian calendar as Python's `calendar` and `datetime`
 * modules apply it to the dates handled by the series code: month lengths
 * (`calendar.monthrange`), the next day, day ordinals (`date.toordinal`),
 * one-year steps, day ranges, and the three strftime formats the code uses.
 */
module Calendar {
  import opened Wrappers
  import opened Text

  datatype CivilDate = CivilDate(year: int, month: int, day: int)

  /** The Gregorian leap rule, as `calendar.isleap`. */
  predicate IsLeap(y: int) { y % 4 == 0 && (y % 100 != 0 || y % 400 == 0) }

  /** `calendar.monthrange(y, m)[1]`: the number of days of month `m` of year `y`. */
  function DaysInMonth(y: int, m: int): (n: int)
    requires 1 <= m <= 12
    ensures 28 <= n <= 31
    ensures n == 29 <==> m == 2 && IsLeap(y)
    ensures n == 28 <==> m == 2 && !IsLeap(y)
    ensures n == 30 <==> m in {4, 6, 9, 11}
  {
    if m == 2 then (if IsLeap(y) then 29 else 28)
    else if m == 4 || m == 6 || m == 9 || m == 11 then 30
    else 31
  }

  /** 2020 is a leap year: its February has 29 days. */
  lemma LeapYear2020()
    ensures IsLeap(2020) && DaysInMonth(2020, 2) == 29 && DaysInMonth(2020, 1) == 31
  {
  }

  ghost predicate ValidDate(d: CivilDate)
  {
    d.year >= 1 && 1 <= d.month <= 12 && 1 <= d.day <= DaysInMonth(d.year, d.month)
  }

  /** A calendar day that exists (years start at 1, as in `datetime.MINYEAR`). */
  type Date = d: CivilDate | ValidDate(d) witness CivilDate(2000, 1, 1)

  /** The day after `d`. */
  function NextDay(d: Date): Date
  {
    if d.day < DaysInMonth(d.year, d.month) then CivilDate(d.year, d.month, d.day + 1)
    else if d.month < 12 then CivilDate(d.year, d.month + 1, 1)
    else CivilDate(d.year + 1, 1, 1)
  }

  /** `d + timedelta(days=n)`; `pd.date_range(d, periods=k, freq="D")[n]`. */
  function AddDays(d: Date, n: nat): Date
    decreases n
  {
    if n == 0 then d else NextDay(AddDays(d, n - 1))
  }

  /** Sort key of a date: comparing keys compares dates lexicographically by (year, month, day). */
  function Key(d: CivilDate): int { d.year * 10000 + d.month * 100 + d.day }

  lemma KeyIsLexicographic(a: Date, b: Date)
    ensures Key(a) < Key(b) <==>
      (a.year < b.year || (a.year == b.year && (a.month < b.month || (a.month == b.month && a.day < b.day))))
    ensures Key(a) == Key(b) <==> a == b
  {
  }

  lemma NextDayIsLater(d: Date)
    ensures Key(d) < Key(NextDay(d))
  {
  }

  /** In a month that starts on day 1, the i-th day after the start is day i + 1 of that month. */
  lemma {:induction false} DaysOfMonth(start: Date, i: nat)
    requires start.day == 1 && i < DaysInMonth(start.year, start.month)
    ensures AddDays(start, i) == CivilDate(start.year, start.month, 1 + i)
  {
    if i > 0 {
      DaysOfMonth(start, i - 1);
    }
  }

  /** Stepping forward by more days gives a strictly later date. */
  lemma {:induction false} AddDaysIncreasing(d: Date, i: nat, j: nat)
    requires i < j
    ensures Key(AddDays(d, i)) < Key(AddDays(d, j))
    decreases j
  {
    NextDayIsLater(AddDays(d, j - 1));
    if i < j - 1 {
      AddDaysIncreasing(d, i, j - 1);
    }
  }

  function YearLength(y: int): int { if IsLeap(y) then 366 else 365 }

  /** Days of the years before `y`. */
  function DaysBeforeYear(y: int): int
    requires y >= 1
  {
    var p := y - 1;
    365 * p + p / 4 - p / 100 + p / 400
  }

  /** Days of the months of year `y` before month `m`. */
  function DaysBeforeMonth(y: int, m: int): int
    requires 1 <= m <= 12
  {
    [0, 31, 59, 90, 120, 151, 181, 212, 243, 273, 304, 334][m - 1]
      + (if m > 2 && IsLeap(y) then 1 else 0)
  }

  /** `date.toordinal()`: 1 for 1 January of year 1, one more for each following day. */
  function Ordinal(d: Date): int
  {
    DaysBeforeYear(d.year) + DaysBeforeMonth(d.year, d.month) + d.day
  }

  lemma DivStep(p: nat, k: nat)
    requires k == 4 || k == 100 || k == 400
    ensures (p + 1) / k - p / k == if (p + 1) % k == 0 then 1 else 0
  {
    if k == 4 {
      assert (p + 1) / 4 - p / 4 == if (p + 1) % 4 == 0 then 1 else 0;
    } else if k == 100 {
      assert (p + 1) / 100 - p / 100 == if (p + 1) % 100 == 0 then 1 else 0;
    } else {
      assert (p + 1) / 400 - p / 400 == if (p + 1) % 400 == 0 then 1 else 0;
    }
  }

  lemma YearStep(y: int)
    requires y >= 1
    ensures DaysBeforeYear(y + 1) == DaysBeforeYear(y) + YearLength(y)
  {
    var p := y - 1;
    DivStep(p, 4);
    DivStep(p, 100);
    DivStep(p, 400);
    var a, b, c := (p + 1) / 4 - p / 4, (p + 1) / 100 - p / 100, (p + 1) / 400 - p / 400;
    assert DaysBeforeYear(y + 1) == DaysBeforeYear(y) + 365 + a - b + c;
    DividesChain(y);
  }

  /** What divides by 400 divides by 100, and what divides by 100 divides by 4. */
  lemma DividesChain(y: int)
    ensures y % 400 == 0 ==> y % 100 == 0
    ensures y % 100 == 0 ==> y % 4 == 0
  {
    if y % 400 == 0 {
      var q := y / 400;
      assert y == 100 * (4 * q);
    }
    if y % 100 == 0 {
      var q := y / 100;
      assert y == 4 * (25 * q);
    }
  }

  lemma OrdinalNextDay(d: Date)
    ensures Ordinal(NextDay(d)) == Ordinal(d) + 1
  {
    if d.day == DaysInMonth(d.year, d.month) && d.month == 12 {
      YearStep(d.year);
    }
  }

  lemma {:induction false} OrdinalAddDays(d: Date, n: nat)
    ensures Ordinal(AddDays(d, n)) == Ordinal(d) + n
  {
    if n > 0 {
      OrdinalAddDays(d, n - 1);
      OrdinalNextDay(AddDays(d, n - 1));
    }
  }

  lemma {:induction false} DaysBeforeYearMonotone(a: int, b: int)
    requires 1 <= a <= b
    ensures DaysBeforeYear(a) + YearLength(a) <= DaysBeforeYear(b) || a == b
    decreases b - a
  {
    if a < b {
      YearStep(a);
      if a + 1 < b {
        DaysBeforeYearMonotone(a + 1, b);
      }
    }
  }

  lemma MonthsFitInYear(y: int, m: int, m': int)
    requires 1 <= m <= m' <= 12
    ensures DaysBeforeMonth(y, m) + DaysInMonth(y, m) <= DaysBeforeMonth(y, m') || m == m'
    ensures DaysBeforeMonth(y, m) + DaysInMonth(y, m) <= YearLength(y)
  {
  }

  /** Ordinals follow the calendar order, so distinct dates have distinct ordinals. */
  lemma OrdinalMonotone(a: Date, b: Date)
    requires Key(a) < Key(b)
    ensures Ordinal(a) < Ordinal(b)
  {
    KeyIsLexicographic(a, b);
    MonthsFitInYear(a.year, a.month, 12);
    if a.year < b.year {
      DaysBeforeYearMonotone(a.year, b.year);
    } else if a.month < b.month {
      MonthsFitInYear(a.year, a.month, b.month);
    }
  }

  lemma OrdinalInjective(a: Date, b: Date)
    requires Ordinal(a) == Ordinal(b)
    ensures a == b
  {
    KeyIsLexicographic(a, b);
    if Key(a) < Key(b) {
      OrdinalMonotone(a, b);
    } else if Key(b) < Key(a) {
      OrdinalMonotone(b, a);
    }
  }

  /** `(b - a).days` for two dates. */
  function DaysBetween(a: Date, b: Date): int { Ordinal(b) - Ordinal(a) }

  /**
   * `d.add(years=1)`: the same month and day one year later; 29 February
   * becomes 28 February when the next year is not a leap year.
   */
  function AddYear(d: Date): (r: Date)
    ensures r.year == d.year + 1 && r.month == d.month
    ensures r.day == d.day || (d.month == 2 && d.day == 29 && r.day == 28 && !IsLeap(d.year + 1))
  {
    var y := d.year + 1;
    var n := DaysInMonth(y, d.month);
    CivilDate(y, d.month, if d.day <= n then d.day else n)
  }

  /** One year later is 365 or 366 days later, so in particular at least 360. */
  lemma AddYearSpan(d: Date)
    ensures 365 <= DaysBetween(d, AddYear(d)) <= 366
  {
    YearStep(d.year);
  }

  /** `pd.date_range(start, periods=n, freq="D")`: `n` consecutive days from `start`. */
  function DateRange(start: Date, n: nat): (r: seq<Date>)
    ensures |r| == n
  {
    seq(n, i requires 0 <= i => AddDays(start, i))
  }

  /**
   * A date range steps one day at a time with strictly increasing dates;
   * started on the first of a month and no longer than the month, it holds
   * the days 1, 2, … of that month.
   */
  lemma DateRangeFacts(start: Date, n: nat)
    ensures forall i | 0 <= i < n - 1 :: DateRange(start, n)[i + 1] == NextDay(DateRange(start, n)[i])
    ensures forall i, j | 0 <= i < j < n :: Key(DateRange(start, n)[i]) < Key(DateRange(start, n)[j])
    ensures start.day == 1 && n <= DaysInMonth(start.year, start.month) ==>
      forall i | 0 <= i < n :: DateRange(start, n)[i] == CivilDate(start.year, start.month, i + 1)
  {
    DateRangeIncreasing(start, n);
    if start.day == 1 && n <= DaysInMonth(start.year, start.month) {
      DateRangeInMonth(start, n);
    }
  }

  lemma DateRangeIncreasing(start: Date, n: nat)
    ensures forall i, j | 0 <= i < j < n :: Key(DateRange(start, n)[i]) < Key(DateRange(start, n)[j])
  {
    var r := DateRange(start, n);
    forall i, j | 0 <= i < j < n ensures Key(r[i]) < Key(r[j]) {
      AddDaysIncreasing(start, i, j);
    }
  }

  lemma DateRangeInMonth(start: Date, n: nat)
    requires start.day == 1 && n <= DaysInMonth(start.year, start.month)
    ensures forall i | 0 <= i < n :: DateRange(start, n)[i] == CivilDate(start.year, start.month, i + 1)
  {
    var r := DateRange(start, n);
    forall i | 0 <= i < n ensures r[i] == CivilDate(start.year, start.month, i + 1) {
      DaysOfMonth(start, i);
    }
  }

  /** `timeless.period(start, end, freq="days")`: every day from `start` to `end`, both included. */
  function Period(start: Date, end: Date): seq<Date>
  {
    var n := Ordinal(end) - Ordinal(start) + 1;
    DateRange(start, if n > 0 then n else 0)
  }

  /** A period starts at `start`, steps one day at a time and ends exactly at `end`. */
  lemma PeriodDays(start: Date, end: Date)
    ensures |Period(start, end)| == if Key(start) <= Key(end) then DaysBetween(start, end) + 1 else 0
    ensures Period(start, end) != [] ==> Period(start, end)[0] == start
    ensures Period(start, end) != [] ==> Period(start, end)[|Period(start, end)| - 1] == end
    ensures forall i | 0 <= i < |Period(start, end)| - 1 ::
      Period(start, end)[i + 1] == NextDay(Period(start, end)[i])
    ensures forall i, j | 0 <= i < j < |Period(start, end)| ::
      Key(Period(start, end)[i]) < Key(Period(start, end)[j])
  {
    PeriodEnds(start, end);
    var n := Ordinal(end) - Ordinal(start) + 1;
    DateRangeIncreasing(start, if n > 0 then n else 0);
  }

  lemma PeriodEnds(start: Date, end: Date)
    ensures |Period(start, end)| == if Key(start) <= Key(end) then DaysBetween(start, end) + 1 else 0
    ensures Period(start, end) != [] ==> Period(start, end)[0] == start
    ensures Period(start, end) != [] ==> Period(start, end)[|Period(start, end)| - 1] == end
  {
    var p := Period(start, end);
    KeyIsLexicographic(start, end);
    if Key(start) < Key(end) {
      OrdinalMonotone(start, end);
    } else if Key(end) < Key(start) {
      OrdinalMonotone(end, start);
    }
    if p != [] {
      var last := |p| - 1;
      OrdinalAddDays(start, last);
      OrdinalInjective(p[last], end);
    }
  }

  /** Builds a date from its parts when they name a day that exists. */
  function MakeDate(y: int, m: int, d: int): (r: Option<Date>)
    ensures r.Some? <==> ValidDate(CivilDate(y, m, d))
    ensures r.Some? ==> r.value == CivilDate(y, m, d)
  {
    if y >= 1 && 1 <= m <= 12 && 1 <= d <= DaysInMonth(y, m) then Some(CivilDate(y, m, d)) else None
  }

  /** strftime `"%d/%m/%Y"`, as sent to the ANA series endpoint. */
  function DayFirst(d: Date): string
  {
    Join([Padded(d.day, 2), Padded(d.month, 2), Padded(d.year, 4)], '/')
  }

  /** strftime `"%Y-%m-%d"`, the extended calendar-date format of ISO 8601, as sent to INMET. */
  function IsoExtended(d: Date): string
  {
    Join([Padded(d.year, 4), Padded(d.month, 2), Padded(d.day, 2)], '-')
  }

  /**
   * strftime `"%Y%m%d"`: the basic calendar-date format of ISO 8601:2004,
   * section 4.1.2.2 (the year padded to at least four digits).
   */
  function IsoBasic(d: Date): string
  {
    Padded(d.year, 4) + Padded(d.month, 2) + Padded(d.day, 2)
  }

  /** Reads a `"dd/mm/YYYY"` text back. */
  function ParseDayFirst(s: string): Option<Date>
  {
    var parts := Split(s, '/');
    if |parts| == 3 && AllDigits(parts[0]) && AllDigits(parts[1]) && AllDigits(parts[2])
    then MakeDate(ValueOf(parts[2]), ValueOf(parts[1]), ValueOf(parts[0]))
    else None
  }

  /** Reads a `"YYYY-mm-dd"` text back. */
  function ParseIsoExtended(s: string): Option<Date>
  {
    var parts := Split(s, '-');
    if |parts| == 3 && AllDigits(parts[0]) && AllDigits(parts[1]) && AllDigits(parts[2])
    then MakeDate(ValueOf(parts[0]), ValueOf(parts[1]), ValueOf(parts[2]))
    else None
  }

  /** Reads a `"YYYYmmdd"` text back: the last four digits are month and day. */
  function ParseIsoBasic(s: string): Option<Date>
  {
    if |s| >= 8 && AllDigits(s)
    then MakeDate(ValueOf(s[..|s| - 4]), ValueOf(s[|s| - 4..|s| - 2]), ValueOf(s[|s| - 2..]))
    else None
  }

  lemma NoSeparatorInDigits(s: string, c: char)
    requires AllDigits(s) && !IsDigit(c)
    ensures c !in s
  {
  }

  lemma DayFirstRoundTrip(d: Date)
    ensures ParseDayFirst(DayFirst(d)) == Some(d)
  {
    var parts := [Padded(d.day, 2), Padded(d.month, 2), Padded(d.year, 4)];
    NoSeparatorInDigits(parts[0], '/');
    NoSeparatorInDigits(parts[1], '/');
    NoSeparatorInDigits(parts[2], '/');
    SplitJoin(parts, '/');
    ValueOfPadded(d.day, 2);
    ValueOfPadded(d.month, 2);
    ValueOfPadded(d.year, 4);
  }

  lemma IsoExtendedRoundTrip(d: Date)
    ensures ParseIsoExtended(IsoExtended(d)) == Some(d)
  {
    var parts := [Padded(d.year, 4), Padded(d.month, 2), Padded(d.day, 2)];
    NoSeparatorInDigits(parts[0], '-');
    NoSeparatorInDigits(parts[1], '-');
    NoSeparatorInDigits(parts[2], '-');
    SplitJoin(parts, '-');
    ValueOfPadded(d.day, 2);
    ValueOfPadded(d.month, 2);
    ValueOfPadded(d.year, 4);
  }

  lemma IsoBasicRoundTrip(d: Date)
    ensures |IsoBasic(d)| >= 8
    ensures ParseIsoBasic(IsoBasic(d)) == Some(d)
  {
    var y, m, dd := Padded(d.year, 4), Padded(d.month, 2), Padded(d.day, 2);
    assert Pow10(2) == 100;
    PaddedWidth(d.month, 2);
    PaddedWidth(d.day, 2);
    BasicPieces(y, m, dd);
    ValueOfPadded(d.day, 2);
    ValueOfPadded(d.month, 2);
    ValueOfPadded(d.year, 4);
  }

  /** A text ending in two two-character fields splits back into its three pieces. */
  lemma BasicPieces(y: string, m: string, dd: string)
    requires |m| == 2 && |dd| == 2
    ensures var s := y + m + dd;
      s[..|s| - 4] == y && s[|s| - 4..|s| - 2] == m && s[|s| - 2..] == dd
  {
  }

  /** Distinct dates have distinct basic-format texts. */
  lemma IsoBasicInjective(a: Date, b: Date)
    requires IsoBasic(a) == IsoBasic(b)
    ensures a == b
  {
    IsoBasicRoundTrip(a);
    IsoBasicRoundTrip(b);
  }
}
