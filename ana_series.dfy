/**
 * The ANA `HidroSerieHistorica` series: each `<SerieHistorica>` record
 * describes one month and is expanded into one row per day of that month,
 * read from the fields `Chuva01`…, `Vazao01`… or `Cota01`…; the months are
 * then concatenated, sorted by date and coerced to numbers.
 *
 * Four copies of this code exist (nuvem/ANA/api.py, chuvisco/ANA/api.py,
 * chuvisco/ANA.py, src/ANA.py); `Copy` names them and the operations below
 * take the copy whose behaviour they reproduce.
 */
module AnaSeries {
  import opened Wrappers
  import opened Text
  import opened Calendar
  import opened Numeric
  import opened Sorting
  import opened Series
  import opened Query

  /** The copy of the ANA client being modelled. */
  datatype Copy =
    | Nuvem            // nuvem/ANA/api.py
    | ChuviscoPackage  // chuvisco/ANA/api.py
    | ChuviscoModule   // chuvisco/ANA.py
    | Src              // src/ANA.py

  /**
   * A parsed `<SerieHistorica>` element: the text of each child element by
   * tag. A tag that is not a key has no child element (`find` returns
   * `None`); a key mapped to `None` is a child element without text.
   */
  type Record = map<string, Option<string>>

  /** `record.find(tag).text`. */
  function Find(rec: Record, tag: string): (r: Result<Option<string>, Error>)
    ensures r.Success? <==> tag in rec
    ensures r.Success? ==> r.value == rec[tag]
    ensures r.Failure? ==> r.error == MissingElement(tag)
  {
    if tag in rec then Success(rec[tag]) else Failure(MissingElement(tag))
  }

  // ---------------------------------------------------------------------
  // Day fields
  // ---------------------------------------------------------------------

  /** `prefix + "{:02}".format(day)`: the field holding the value of one day. */
  function DayTag(prefix: string, day: nat): string
  {
    prefix + Padded(day, 2)
  }

  /** Two days of one month never share a field name. */
  lemma DayTagInjective(prefix: string, a: nat, b: nat)
    requires DayTag(prefix, a) == DayTag(prefix, b)
    ensures a == b
  {
    assert Padded(a, 2) == DayTag(prefix, a)[|prefix|..];
    assert Padded(b, 2) == DayTag(prefix, b)[|prefix|..];
    ValueOfPadded(a, 2);
    ValueOfPadded(b, 2);
  }

  /** The seventh day of a rain month is read from `Chuva07`, the last of a long month from `Vazao31`. */
  lemma DayTagExamples()
    ensures DayTag("Chuva", 7) == "Chuva07"
    ensures DayTag("Cota", 1) == "Cota01"
    ensures DayTag("Vazao", 31) == "Vazao31"
  {
    assert Decimal(7) == "7";
    assert Decimal(1) == "1";
    assert Decimal(3) == "3";
    assert Decimal(31) == Decimal(3) + [DigitChar(1)];
    assert Padded(7, 2) == "07";
    assert Padded(1, 2) == "01";
    assert Padded(31, 2) == "31";
  }

  /** What an absent day field becomes: an AttributeError (rain, discharge) or NaN (stage). */
  datatype Absent = Raise | AsNaN

  /** The text of a day field, NaN when the field is absent. */
  function DayValue(rec: Record, tag: string): Option<string>
  {
    if tag in rec then rec[tag] else None
  }

  /** The first day in `from..n` whose field is absent. */
  function FirstAbsentDay(rec: Record, prefix: string, from: nat, n: nat): (r: Option<nat>)
    ensures r.None? <==> forall d | from <= d <= n :: DayTag(prefix, d) in rec
    ensures r.Some? ==> (from <= r.value <= n && DayTag(prefix, r.value) !in rec &&
      forall d | from <= d < r.value :: DayTag(prefix, d) in rec)
    decreases n + 1 - from
  {
    if from > n then None
    else if DayTag(prefix, from) !in rec then Some(from)
    else FirstAbsentDay(rec, prefix, from + 1, n)
  }

  /** A month that lacks the field of day `k` but has those of the days before it fails at day `k`. */
  lemma FirstAbsentDayIs(rec: Record, prefix: string, k: nat, n: nat)
    requires 1 <= k <= n
    requires forall d | 1 <= d < k :: DayTag(prefix, d) in rec
    requires DayTag(prefix, k) !in rec
    ensures FirstAbsentDay(rec, prefix, 1, n) == Some(k)
  {
  }

  /** The texts of days 1..n, NaN where a field is absent. */
  function Cells(rec: Record, prefix: string, n: nat): seq<Option<string>>
  {
    seq(n, i requires 0 <= i < n => DayValue(rec, DayTag(prefix, i + 1)))
  }

  /**
   * The daily rows of a month whose record starts on `start`: as many rows
   * as `calendar.monthrange` gives days, dated consecutively from `start`,
   * day `i + 1` read from its field.
   */
  function MonthRows(rec: Record, start: Date, prefix: string, absent: Absent): Result<seq<Row<Option<string>>>, Error>
  {
    DayRows(rec, DateRange(start, DaysInMonth(start.year, start.month)), prefix, absent)
  }

  /** The rows of the days `days`, day `i + 1` read from its field. */
  function DayRows(rec: Record, days: seq<Date>, prefix: string, absent: Absent): Result<seq<Row<Option<string>>>, Error>
  {
    var missing := FirstAbsentDay(rec, prefix, 1, |days|);
    if absent == Raise && missing.Some? then Failure(MissingElement(DayTag(prefix, missing.value)))
    else Success(Indexed(days, Cells(rec, prefix, |days|)))
  }

  /** The day loop of one month record: `datas.append(...)`, `dados.append(...)`. */
  method ExpandMonth(rec: Record, start: Date, prefix: string, absent: Absent)
    returns (r: Result<seq<Row<Option<string>>>, Error>)
    ensures r == MonthRows(rec, start, prefix, absent)
  {
    var n := DaysInMonth(start.year, start.month);
    r := ExpandDays(rec, DateRange(start, n), prefix, absent);
  }

  method ExpandDays(rec: Record, days: seq<Date>, prefix: string, absent: Absent)
    returns (r: Result<seq<Row<Option<string>>>, Error>)
    ensures r == DayRows(rec, days, prefix, absent)
  {
    var n := |days|;
    var dates: seq<Date> := [];
    var values: seq<Option<string>> := [];
    var i := 0;
    while i < n
      invariant 0 <= i <= n
      invariant dates == days[..i]
      invariant values == Cells(rec, prefix, i)
      invariant absent == Raise ==> FirstAbsentDay(rec, prefix, 1, i).None?
    {
      dates := dates + [days[i]];
      var tag := DayTag(prefix, i + 1);
      var value: Option<string>;
      if tag in rec {
        value := rec[tag];
      } else if absent == AsNaN {
        value := None;
      } else {
        FirstAbsentDayIs(rec, prefix, i + 1, n);
        return Failure(MissingElement(tag));
      }
      CellsStep(rec, prefix, i);
      FirstAbsentDayStep(rec, prefix, i);
      values := values + [value];
      assert days[..i + 1] == days[..i] + [days[i]];
      i := i + 1;
    }
    assert days[..n] == days;
    return Success(Indexed(dates, values));
  }

  lemma CellsStep(rec: Record, prefix: string, i: nat)
    ensures Cells(rec, prefix, i + 1) == Cells(rec, prefix, i) + [DayValue(rec, DayTag(prefix, i + 1))]
  {
  }

  lemma FirstAbsentDayStep(rec: Record, prefix: string, i: nat)
    ensures FirstAbsentDay(rec, prefix, 1, i).None? && DayTag(prefix, i + 1) in rec ==>
      FirstAbsentDay(rec, prefix, 1, i + 1).None?
  {
  }

  /**
   * A month fails only when a day field is absent and absence raises; the
   * error then names the first absent field.
   */
  lemma MonthRowsOutcome(rec: Record, start: Date, prefix: string, absent: Absent)
    ensures var n := DaysInMonth(start.year, start.month);
      MonthRows(rec, start, prefix, absent).Success? <==>
        absent == AsNaN || forall d | 1 <= d <= n :: DayTag(prefix, d) in rec
    ensures var n := DaysInMonth(start.year, start.month);
      MonthRows(rec, start, prefix, absent).Failure? ==>
        exists d | 1 <= d <= n :: DayTag(prefix, d) !in rec &&
          MonthRows(rec, start, prefix, absent).error == MissingElement(DayTag(prefix, d)) &&
          forall e | 1 <= e < d :: DayTag(prefix, e) in rec
  {
  }

  /**
   * A month expands to exactly `monthrange(y, m)` rows, 28 to 31 of them,
   * on consecutive days starting at the record's date; day `i + 1` is read
   * from its own field, NaN when that field is absent.
   */
  lemma MonthRowsDays(rec: Record, start: Date, prefix: string, absent: Absent)
    requires MonthRows(rec, start, prefix, absent).Success?
    ensures var n := DaysInMonth(start.year, start.month);
      var rows := MonthRows(rec, start, prefix, absent).value;
      |rows| == n && 28 <= |rows| <= 31 &&
      forall i | 0 <= i < n :: rows[i].0 == AddDays(start, i) && rows[i].1 == DayValue(rec, DayTag(prefix, i + 1))
  {
    DayRowsFacts(rec, DateRange(start, DaysInMonth(start.year, start.month)), prefix, absent);
  }

  /**
   * The rows of a month step one day at a time with strictly increasing
   * dates; when the record's date is the first of the month they are dated
   * y-m-1 … y-m-n.
   */
  lemma MonthRowsDated(rec: Record, start: Date, prefix: string, absent: Absent)
    requires MonthRows(rec, start, prefix, absent).Success?
    ensures var n := DaysInMonth(start.year, start.month);
      var rows := MonthRows(rec, start, prefix, absent).value;
      |rows| == n &&
      (forall i | 0 <= i < n - 1 :: rows[i + 1].0 == NextDay(rows[i].0)) &&
      (forall i, j | 0 <= i < j < n :: Key(rows[i].0) < Key(rows[j].0)) &&
      (start.day == 1 ==> forall i | 0 <= i < n :: rows[i].0 == CivilDate(start.year, start.month, i + 1))
  {
    var n := DaysInMonth(start.year, start.month);
    DayRowsFacts(rec, DateRange(start, n), prefix, absent);
    DateRangeFacts(start, n);
  }

  lemma DayRowsFacts(rec: Record, days: seq<Date>, prefix: string, absent: Absent)
    requires DayRows(rec, days, prefix, absent).Success?
    ensures |DayRows(rec, days, prefix, absent).value| == |days|
    ensures forall i | 0 <= i < |days| ::
      DayRows(rec, days, prefix, absent).value[i] == (days[i], DayValue(rec, DayTag(prefix, i + 1)))
  {
  }

  /** A leap-year February gives 29 rows, a common-year February 28. */
  lemma FebruaryRows(rec: Record, start: Date, prefix: string)
    requires start.month == 2
    requires MonthRows(rec, start, prefix, AsNaN).Success?
    ensures |MonthRows(rec, start, prefix, AsNaN).value| == if IsLeap(start.year) then 29 else 28
  {
    MonthRowsDays(rec, start, prefix, AsNaN);
  }

  lemma {:induction false} FirstAbsentDayAgree(rec: Record, other: Record, prefix: string, from: nat, n: nat)
    requires forall d | from <= d <= n :: DayTag(prefix, d) in rec <==> DayTag(prefix, d) in other
    ensures FirstAbsentDay(rec, prefix, from, n) == FirstAbsentDay(other, prefix, from, n)
    decreases n + 1 - from
  {
    if from <= n {
      FirstAbsentDayAgree(rec, other, prefix, from + 1, n);
    }
  }

  /** Fields for days past the end of the month are never read: records that agree on days 1..n expand alike. */
  lemma MonthRowsReadsOnlyItsDays(rec: Record, other: Record, start: Date, prefix: string, absent: Absent)
    requires forall d | 1 <= d <= DaysInMonth(start.year, start.month) ::
      DayTag(prefix, d) in rec <==> DayTag(prefix, d) in other
    requires forall d | 1 <= d <= DaysInMonth(start.year, start.month) && DayTag(prefix, d) in rec ::
      rec[DayTag(prefix, d)] == other[DayTag(prefix, d)]
    ensures MonthRows(rec, start, prefix, absent) == MonthRows(other, start, prefix, absent)
  {
    var n := DaysInMonth(start.year, start.month);
    FirstAbsentDayAgree(rec, other, prefix, 1, n);
    assert Cells(rec, prefix, n) == Cells(other, prefix, n) by {
      forall i | 0 <= i < n ensures Cells(rec, prefix, n)[i] == Cells(other, prefix, n)[i] {
      }
    }
  }

  // ---------------------------------------------------------------------
  // Month records
  // ---------------------------------------------------------------------

  /**
   * `pd.to_datetime(text, dayfirst=True)` on the `DataHora` texts: the date
   * before the first space, written `dd/mm/YYYY` or `YYYY-mm-dd`.
   */
  function ParseDataHora(t: string): Option<Date>
  {
    var day := Split(t, ' ')[0];
    if ParseDayFirst(day).Some? then ParseDayFirst(day) else ParseIsoExtended(day)
  }

  /** The digits of a date and its separators leave no room for `c`. */
  lemma DateTextsExclude(d: Date, c: char)
    requires !IsDigit(c)
    ensures c != '/' ==> c !in DayFirst(d)
    ensures c != '-' ==> c !in IsoExtended(d)
  {
    var y, m, dd := Padded(d.year, 4), Padded(d.month, 2), Padded(d.day, 2);
    NoSeparatorInDigits(y, c);
    NoSeparatorInDigits(m, c);
    NoSeparatorInDigits(dd, c);
    var a, b := [dd, m, y], [y, m, dd];
    if c != '/' {
      JoinExcludes(a, '/', c);
    }
    if c != '-' {
      JoinExcludes(b, '-', c);
    }
  }

  /** A `DataHora` written either way, with or without a time after a space, reads back as its date. */
  lemma ParseDataHoraRoundTrip(d: Date, time: string)
    ensures ParseDataHora(DayFirst(d)) == Some(d)
    ensures ParseDataHora(IsoExtended(d) + " " + time) == Some(d)
  {
    DateTextsExclude(d, ' ');
    DateTextsExclude(d, '/');
    var a := DayFirst(d);
    SplitPrefix(a, "", ' ');
    assert a + "" == a;
    DayFirstRoundTrip(d);
    var s := IsoExtended(d);
    SplitPrefix(s, " " + time, ' ');
    assert s + " " + time == s + (" " + time);
    assert Split(" " + time, ' ')[0] == "";
    assert s + "" == s;
    IsoExtendedRoundTrip(d);
    SplitPrefix(s, "", '/');
  }

  /** The first day of a month record: its `DataHora` field. */
  function StartOf(rec: Record): (r: Result<Date, Error>)
    ensures r.Success? <==> "DataHora" in rec && rec["DataHora"].Some? && ParseDataHora(rec["DataHora"].value).Some?
    ensures r.Success? ==> r.value == ParseDataHora(rec["DataHora"].value).value
  {
    match Find(rec, "DataHora")
    case Failure(e) => Failure(e)
    case Success(None) => Failure(NoText("DataHora"))
    case Success(Some(t)) =>
      match ParseDataHora(t)
      case None => Failure(NotADate(t))
      case Some(d) => Success(d)
  }

  /** The fields read from every record of a kind before its days, in the code's order, and its day fields. */
  datatype Layout = Layout(header: seq<string>, prefix: string, absent: Absent)

  /** The texts of the header fields, failing at the first absent one. */
  function ReadTags(rec: Record, tags: seq<string>): (r: Result<seq<Option<string>>, Error>)
    ensures r.Success? <==> forall i | 0 <= i < |tags| :: tags[i] in rec
    ensures r.Success? ==> |r.value| == |tags| && forall i | 0 <= i < |tags| :: r.value[i] == rec[tags[i]]
    ensures r.Failure? ==> exists i | 0 <= i < |tags| ::
      tags[i] !in rec && r.error == MissingElement(tags[i]) && forall j | 0 <= j < i :: tags[j] in rec
  {
    if tags == [] then Success([])
    else
      match Find(rec, tags[0])
      case Failure(e) => Failure(e)
      case Success(t) =>
        match ReadTags(rec, tags[1..])
        case Failure(e) =>
          assert forall i | 0 <= i < |tags[1..]| :: tags[1..][i] == tags[i + 1];
          Failure(e)
        case Success(ts) =>
          assert forall i | 0 <= i < |tags[1..]| :: tags[1..][i] == tags[i + 1];
          Success([t] + ts)
  }

  /** One month: its header texts and its daily rows. */
  datatype Month = Month(header: seq<Option<string>>, days: seq<Row<Option<string>>>)

  /** Reads one record: the header fields, then `DataHora`, then the days. */
  function ReadMonth(rec: Record, layout: Layout): Result<Month, Error>
  {
    match ReadTags(rec, layout.header)
    case Failure(e) => Failure(e)
    case Success(h) =>
      match StartOf(rec)
      case Failure(e) => Failure(e)
      case Success(start) =>
        match MonthRows(rec, start, layout.prefix, layout.absent)
        case Failure(e) => Failure(e)
        case Success(days) => Success(Month(h, days))
  }

  /** The outcome of reading each record on its own. */
  function Reads(months: seq<Record>, layout: Layout): (rs: seq<Result<Month, Error>>)
    ensures |rs| == |months|
  {
    seq(|months|, i requires 0 <= i < |months| => ReadMonth(months[i], layout))
  }

  /** Reads the records in document order. */
  function Collect(months: seq<Record>, layout: Layout): Result<seq<Month>, Error>
  {
    Sequence(Reads(months, layout))
  }

  /**
   * Collecting succeeds exactly when every record reads, and then gives one
   * month per record, in order; otherwise the first record that fails
   * decides the error.
   */
  lemma CollectFacts(months: seq<Record>, layout: Layout)
    ensures Collect(months, layout).Success? <==> forall i | 0 <= i < |months| :: ReadMonth(months[i], layout).Success?
    ensures Collect(months, layout).Success? ==>
      |Collect(months, layout).value| == |months| &&
      forall i | 0 <= i < |months| :: Collect(months, layout).value[i] == ReadMonth(months[i], layout).value
    ensures Collect(months, layout).Failure? ==> exists i | 0 <= i < |months| ::
      ReadMonth(months[i], layout).Failure? && Collect(months, layout).error == ReadMonth(months[i], layout).error &&
      forall j | 0 <= j < i :: ReadMonth(months[j], layout).Success?
  {
    var rs := Reads(months, layout);
    SequenceFacts(rs);
    assert forall i | 0 <= i < |months| :: rs[i] == ReadMonth(months[i], layout);
  }

  /** The body of the month loop: the header fields, `DataHora`, then the day loop. */
  method ReadMonthRecord(rec: Record, layout: Layout) returns (r: Result<Month, Error>)
    ensures r == ReadMonth(rec, layout)
  {
    var header := ReadTags(rec, layout.header);
    if header.Failure? {
      return Failure(header.error);
    }
    var start := StartOf(rec);
    if start.Failure? {
      return Failure(start.error);
    }
    var days := ExpandMonth(rec, start.value, layout.prefix, layout.absent);
    if days.Failure? {
      return Failure(days.error);
    }
    return Success(Month(header.value, days.value));
  }

  /** The month loop: `df_mes.append(...)` for every `<SerieHistorica>` element. */
  method CollectMonths(months: seq<Record>, layout: Layout) returns (r: Result<seq<Month>, Error>)
    ensures r == Collect(months, layout)
  {
    ghost var rs := Reads(months, layout);
    var collected: seq<Month> := [];
    var i := 0;
    assert rs[0..] == rs;
    assert Sequence(rs).Success? ==> [] + Sequence(rs).value == Sequence(rs).value;
    while i < |months|
      invariant 0 <= i <= |months|
      invariant Sequence(rs) == Prepend(collected, Sequence(rs[i..]))
    {
      var month := ReadMonthRecord(months[i], layout);
      assert rs[i] == month;
      if month.Failure? {
        SequenceFrom(rs, i);
        return Failure(month.error);
      }
      SequenceStep(rs, collected, i);
      collected := collected + [month.value];
      i := i + 1;
    }
    assert rs[i..] == [];
    assert collected + [] == collected;
    return Success(collected);
  }

  // ---------------------------------------------------------------------
  // Numeric coercion
  // ---------------------------------------------------------------------

  /** A cell `pd.to_numeric` accepts: no text (NaN) or a number. */
  predicate NumericText(t: Option<string>)
  {
    t.None? || ParseNumber(t.value).Some?
  }

  /** The number in a cell; NaN for a cell without text. */
  function NumberOf(t: Option<string>): Option<real>
  {
    match t
    case None => None
    case Some(s) => ParseNumber(s)
  }

  /** `pd.to_numeric` on a column: every cell converted, or ValueError at the first cell that is not a number. */
  function ToNumbers(texts: seq<Option<string>>): (r: Result<seq<Option<real>>, Error>)
    ensures r.Success? <==> forall i | 0 <= i < |texts| :: NumericText(texts[i])
    ensures r.Success? ==> |r.value| == |texts| && forall i | 0 <= i < |texts| :: r.value[i] == NumberOf(texts[i])
    ensures r.Failure? ==> exists i | 0 <= i < |texts| ::
      !NumericText(texts[i]) && r.error == NotNumeric(texts[i].value)
  {
    if texts == [] then Success([])
    else
      assert forall i | 0 <= i < |texts[1..]| :: texts[1..][i] == texts[i + 1];
      match ToNumber(texts[0])
      case Failure(e) => Failure(e)
      case Success(v) =>
        match ToNumbers(texts[1..])
        case Failure(e) => Failure(e)
        case Success(vs) => Success([v] + vs)
  }

  ghost predicate AllNumeric(rows: seq<Row<Option<string>>>)
  {
    forall i | 0 <= i < |rows| :: NumericText(rows[i].1)
  }

  /** Whether every cell is numeric does not depend on the order of the rows. */
  lemma AllNumericPermutation(a: seq<Row<Option<string>>>, b: seq<Row<Option<string>>>)
    requires multiset(a) == multiset(b)
    ensures AllNumeric(a) <==> AllNumeric(b)
  {
    if AllNumeric(a) {
      forall i | 0 <= i < |b| ensures NumericText(b[i].1) {
        assert b[i] in multiset(a);
        var k :| 0 <= k < |a| && a[k] == b[i];
      }
    }
    if AllNumeric(b) {
      forall i | 0 <= i < |a| ensures NumericText(a[i].1) {
        assert a[i] in multiset(b);
        var k :| 0 <= k < |b| && b[k] == a[i];
      }
    }
  }

  /** The days of all months, in record order. */
  function DaysOf(ms: seq<Month>): seq<seq<Row<Option<string>>>>
  {
    seq(|ms|, i requires 0 <= i < |ms| => ms[i].days)
  }

  /** The daily rows of all months, concatenated, sorted by date. */
  function SortedDays(ms: seq<Month>): seq<Row<Option<string>>>
  {
    SortByDate(Concat(DaysOf(ms)))
  }

  /** Coercing the sorted rows is sorting the coerced rows. */
  lemma CoerceSorted(rows: seq<Row<Option<string>>>)
    requires AllNumeric(rows)
    ensures ToNumbers(Values(SortByDate(rows))).Success?
    ensures WithValues(SortByDate(rows), ToNumbers(Values(SortByDate(rows))).value) == SortByDate(MapValues(rows, NumberOf))
  {
    var s := SortByDate(rows);
    SortByDateFacts(rows);
    AllNumericPermutation(rows, s);
    SortMapValues(rows, NumberOf);
  }

  // ---------------------------------------------------------------------
  // Rain: obter_chuva
  // ---------------------------------------------------------------------

  /** Rain records: `NivelConsistencia` is read first; an absent `ChuvaNN` raises. */
  const RainLayout := Layout(["NivelConsistencia"], "Chuva", Raise)

  /** A one-column frame named after the station. */
  datatype Frame = Frame(column: string, rows: seq<Row<Option<real>>>)

  /**
   * The `try` block of `obter_chuva`: concatenate, sort, coerce and, in the
   * nuvem copy, drop repeated dates; no months or a value that is not a
   * number (both ValueError) give the empty frame.
   */
  function RainTable(column: string, ms: seq<Month>, dedup: bool): Frame
  {
    if ms == [] then Frame(column, [])
    else
      var rows := SortedDays(ms);
      match ToNumbers(Values(rows))
      case Failure(_) => Frame(column, [])
      case Success(nums) =>
        var numeric := WithValues(rows, nums);
        Frame(column, if dedup then DropDuplicateDates(numeric) else numeric)
  }

  /** No month records, or any value that is not a number, gives the empty frame with only the station column. */
  lemma RainTableEmpty(column: string, ms: seq<Month>, dedup: bool)
    requires ms == [] || !AllNumeric(Concat(DaysOf(ms)))
    ensures RainTable(column, ms, dedup) == Frame(column, [])
  {
    if ms != [] {
      var rows := Concat(DaysOf(ms));
      SortByDateFacts(rows);
      AllNumericPermutation(rows, SortByDate(rows));
      assert !AllNumeric(SortedDays(ms));
      assert ToNumbers(Values(SortedDays(ms))).Failure? by {
        var t := Values(SortedDays(ms));
        var k :| 0 <= k < |SortedDays(ms)| && !NumericText(SortedDays(ms)[k].1);
        assert t[k] == SortedDays(ms)[k].1;
      }
    }
  }

  /**
   * Otherwise the frame holds the coerced daily rows sorted by date: a
   * permutation of them, ascending; with `dedup` (the nuvem copy) each date
   * once, strictly increasing, the row kept for a date being the first one
   * after sorting.
   */
  lemma RainTableRows(column: string, ms: seq<Month>, dedup: bool)
    requires ms != [] && AllNumeric(Concat(DaysOf(ms)))
    ensures var numeric := MapValues(Concat(DaysOf(ms)), NumberOf);
      var rows := RainTable(column, ms, dedup).rows;
      RainTable(column, ms, dedup).column == column &&
      (!dedup ==> rows == SortByDate(numeric) && DatesAscending(rows) && multiset(rows) == multiset(numeric)) &&
      (dedup ==> (rows == DropDuplicateDates(SortByDate(numeric)) && DatesIncreasing(rows) &&
        Dates(rows) == Dates(numeric) &&
        forall k | 0 <= k < |rows| ::
          rows[k].0 in Dates(SortByDate(numeric)) && rows[k] == First(SortByDate(numeric), rows[k].0)))
  {
    var all := Concat(DaysOf(ms));
    var numeric := MapValues(all, NumberOf);
    CoerceSorted(all);
    SortByDateFacts(numeric);
    if dedup {
      DropDuplicateDatesIncreasing(SortByDate(numeric));
      DropDuplicateDatesFacts(SortByDate(numeric));
      SortKeepsDates(numeric);
    }
  }

  /** What `obter_chuva` returns for the month records of one response. */
  function Rain(copy: Copy, column: string, months: seq<Record>): Result<Frame, Error>
  {
    match Collect(months, RainLayout)
    case Failure(e) => Failure(e)
    case Success(ms) => Success(RainTable(column, ms, copy == Nuvem))
  }

  /** The nuvem copy's frame is named after the station and has each date once, in increasing order. */
  lemma NuvemRainIncreasing(column: string, months: seq<Record>)
    requires Rain(Nuvem, column, months).Success?
    ensures Rain(Nuvem, column, months).value.column == column
    ensures DatesIncreasing(Rain(Nuvem, column, months).value.rows)
  {
    var ms := Collect(months, RainLayout).value;
    if ms == [] || !AllNumeric(Concat(DaysOf(ms))) {
      RainTableEmpty(column, ms, true);
    } else {
      RainTableRows(column, ms, true);
    }
  }

  /**
   * `obter_chuva` after the request: the month loop, then the `try` block.
   * An absent field or an unreadable `DataHora` escapes; otherwise the
   * frame is named after the station and sorted, with strictly increasing
   * dates in the nuvem copy.
   */
  method RainSeries(copy: Copy, column: string, months: seq<Record>) returns (r: Result<Frame, Error>)
    requires copy != Src
    ensures r.Failure? <==> exists i | 0 <= i < |months| :: ReadMonth(months[i], RainLayout).Failure?
    ensures r.Success? ==> r.value.column == column && DatesAscending(r.value.rows)
    ensures r.Success? && copy == Nuvem ==> DatesIncreasing(r.value.rows)
    ensures months == [] ==> r == Success(Frame(column, []))
    ensures r == Rain(copy, column, months)
  {
    var collected := CollectMonths(months, RainLayout);
    CollectFacts(months, RainLayout);
    if collected.Failure? {
      return Failure(collected.error);
    }
    var table := RainTable(column, collected.value, copy == Nuvem);
    var ms := collected.value;
    if ms == [] || !AllNumeric(Concat(DaysOf(ms))) {
      RainTableEmpty(column, ms, copy == Nuvem);
    } else {
      RainTableRows(column, ms, copy == Nuvem);
      if copy == Nuvem {
        var rows := table.rows;
        assert DatesAscending(rows) by {
          forall i, j | 0 <= i < j < |rows| ensures Key(rows[i].0) <= Key(rows[j].0) {
            assert Key(rows[i].0) < Key(rows[j].0);
          }
        }
      }
    }
    return Success(table);
  }

  // ---------------------------------------------------------------------
  // Discharge: obter_vazoes, obter_serie_vazoes
  // ---------------------------------------------------------------------

  /** Discharge records: the monthly fields are read first; an absent `VazaoNN` raises. */
  const DischargeLayout := Layout(["NivelConsistencia", "Maxima", "Minima", "Media"], "Vazao", Raise)

  /** A discharge row before coercion: the day's text and its month's columns. */
  datatype Flow = Flow(vazoes: Option<string>, maxima: Option<string>, minima: Option<string>,
                       media: Option<string>, consistencia: Option<string>)

  /** A discharge row of the result: the coerced day value and its month's columns, as text. */
  datatype Discharge = Discharge(vazoes: Option<real>, maxima: Option<string>, minima: Option<string>,
                                 media: Option<string>, consistencia: Option<string>)

  function At(h: seq<Option<string>>, i: nat): Option<string>
  {
    if i < |h| then h[i] else None
  }

  /** `df.assign(maxima=..., minima=..., media=..., consistencia=...)`: the month's columns on every day. */
  function Assign(m: Month): seq<Row<Flow>>
  {
    seq(|m.days|, i requires 0 <= i < |m.days| =>
      (m.days[i].0, Flow(m.days[i].1, At(m.header, 1), At(m.header, 2), At(m.header, 3), At(m.header, 0))))
  }

  /** After the month loop: concatenate (none raises), sort, coerce `vazoes` (a non-number raises). */
  function DischargeTable(ms: seq<Month>): Result<seq<Row<Discharge>>, Error>
  {
    if ms == [] then Failure(NothingToConcatenate)
    else
      DischargeRows(SortByDate(Concat(Assigned(ms))))
  }

  /** The daily rows of each month, month by month. */
  function Assigned(ms: seq<Month>): (r: seq<seq<Row<Flow>>>)
    ensures |r| == |ms| && forall i | 0 <= i < |ms| :: r[i] == Assign(ms[i])
  {
    seq(|ms|, i requires 0 <= i < |ms| => Assign(ms[i]))
  }

  /** `pd.to_numeric` on the `vazoes` column only; the monthly columns pass through. */
  function DischargeRows(rows: seq<Row<Flow>>): Result<seq<Row<Discharge>>, Error>
  {
    match ToNumbers(seq(|rows|, i requires 0 <= i < |rows| => rows[i].1.vazoes))
    case Failure(e) => Failure(e)
    case Success(nums) =>
      Success(seq(|rows|, i requires 0 <= i < |rows| =>
        (rows[i].0, Discharge(nums[i], rows[i].1.maxima, rows[i].1.minima, rows[i].1.media, rows[i].1.consistencia))))
  }

  lemma DischargeRowsFacts(rows: seq<Row<Flow>>)
    ensures DischargeRows(rows).Success? <==> FlowsNumeric(rows)
    ensures DischargeRows(rows).Success? ==>
      var out := DischargeRows(rows).value;
      |out| == |rows| &&
      forall i | 0 <= i < |out| ::
        out[i].0 == rows[i].0 && out[i].1.vazoes == NumberOf(rows[i].1.vazoes) &&
        out[i].1.maxima == rows[i].1.maxima && out[i].1.minima == rows[i].1.minima &&
        out[i].1.media == rows[i].1.media && out[i].1.consistencia == rows[i].1.consistencia
  {
    var texts := seq(|rows|, i requires 0 <= i < |rows| => rows[i].1.vazoes);
    assert forall i | 0 <= i < |rows| :: texts[i] == rows[i].1.vazoes;
  }

  /** Every day of a month carries that month's `Maxima`, `Minima`, `Media` and `NivelConsistencia` unchanged. */
  lemma AssignCarriesMonth(rec: Record, m: Month)
    requires ReadMonth(rec, DischargeLayout) == Success(m)
    ensures |Assign(m)| == |m.days|
    ensures forall i | 0 <= i < |m.days| ::
      Assign(m)[i].0 == m.days[i].0 && Assign(m)[i].1.vazoes == m.days[i].1 &&
      Assign(m)[i].1.maxima == rec["Maxima"] && Assign(m)[i].1.minima == rec["Minima"] &&
      Assign(m)[i].1.media == rec["Media"] && Assign(m)[i].1.consistencia == rec["NivelConsistencia"]
  {
    ReadMonthHeader(rec, DischargeLayout, m);
    var tags := DischargeLayout.header;
    assert tags[0] == "NivelConsistencia" && tags[1] == "Maxima" && tags[2] == "Minima" && tags[3] == "Media";
  }

  lemma ReadMonthDays(rec: Record, layout: Layout, m: Month)
    requires ReadMonth(rec, layout) == Success(m)
    ensures StartOf(rec).Success?
    ensures MonthRows(rec, StartOf(rec).value, layout.prefix, layout.absent) == Success(m.days)
  {
  }

  lemma ReadMonthHeader(rec: Record, layout: Layout, m: Month)
    requires ReadMonth(rec, layout) == Success(m)
    ensures |m.header| == |layout.header|
    ensures forall i | 0 <= i < |layout.header| :: m.header[i] == rec[layout.header[i]]
  {
  }

  /**
   * The discharge frame is the month rows sorted by date, only `vazoes`
   * coerced and the monthly columns passed through; it fails on no months
   * and on a value that is not a number.
   */
  lemma DischargeTableFacts(ms: seq<Month>)
    ensures ms == [] ==> DischargeTable(ms) == Failure(NothingToConcatenate)
    ensures ms != [] ==> (DischargeTable(ms).Success? <==> FlowsNumeric(Concat(Assigned(ms))))
    ensures multiset(SortByDate(Concat(Assigned(ms)))) == multiset(Concat(Assigned(ms)))
    ensures DischargeTable(ms).Success? ==>
      var rows := SortByDate(Concat(Assigned(ms)));
      var out := DischargeTable(ms).value;
      |out| == |rows| &&
      forall i | 0 <= i < |out| ::
        out[i].0 == rows[i].0 && out[i].1.vazoes == NumberOf(rows[i].1.vazoes) &&
        out[i].1.maxima == rows[i].1.maxima && out[i].1.minima == rows[i].1.minima &&
        out[i].1.media == rows[i].1.media && out[i].1.consistencia == rows[i].1.consistencia
    ensures DischargeTable(ms).Success? ==>
      forall i, j | 0 <= i < j < |DischargeTable(ms).value| ::
        Key(DischargeTable(ms).value[i].0) <= Key(DischargeTable(ms).value[j].0)
  {
    var raw := Concat(Assigned(ms));
    var rows := SortByDate(raw);
    SortByDateFacts(raw);
    if ms != [] {
      FlowsNumericPermutation(raw, rows);
      DischargeRowsFacts(rows);
    }
  }

  /** Every `vazoes` cell is a number. */
  predicate FlowsNumeric(rows: seq<Row<Flow>>)
  {
    forall i | 0 <= i < |rows| :: NumericText(rows[i].1.vazoes)
  }

  lemma FlowsNumericPermutation(a: seq<Row<Flow>>, b: seq<Row<Flow>>)
    requires multiset(a) == multiset(b)
    ensures FlowsNumeric(a) <==> FlowsNumeric(b)
  {
    if FlowsNumeric(a) {
      forall i | 0 <= i < |b| ensures NumericText(b[i].1.vazoes) {
        assert b[i] in multiset(a);
        var k :| 0 <= k < |a| && a[k] == b[i];
      }
    }
    if FlowsNumeric(b) {
      forall i | 0 <= i < |a| ensures NumericText(a[i].1.vazoes) {
        assert a[i] in multiset(b);
        var k :| 0 <= k < |b| && b[k] == a[i];
      }
    }
  }

  /**
   * `obter_vazoes` / `obter_serie_vazoes` after the request. The
   * chuvisco/ANA/api.py copy reads `self.url_base`, which its class never
   * defines, so it fails before any request.
   */
  method DischargeSeries(copy: Copy, months: seq<Record>) returns (r: Result<seq<Row<Discharge>>, Error>)
    ensures copy == ChuviscoPackage ==> r == Failure(UndefinedName("url_base"))
    ensures copy != ChuviscoPackage && months == [] ==> r == Failure(NothingToConcatenate)
    ensures copy != ChuviscoPackage && (exists i | 0 <= i < |months| :: ReadMonth(months[i], DischargeLayout).Failure?) ==> r.Failure?
    ensures r.Success? ==> (copy != ChuviscoPackage && Collect(months, DischargeLayout).Success? &&
      r == DischargeTable(Collect(months, DischargeLayout).value))
    ensures copy != ChuviscoPackage && Collect(months, DischargeLayout).Success? ==>
      r == DischargeTable(Collect(months, DischargeLayout).value)
    ensures copy != ChuviscoPackage && Collect(months, DischargeLayout).Failure? ==>
      r == Failure(Collect(months, DischargeLayout).error)
    ensures r.Success? ==> forall i, j | 0 <= i < j < |r.value| :: Key(r.value[i].0) <= Key(r.value[j].0)
  {
    if copy == ChuviscoPackage {
      return Failure(UndefinedName("url_base"));
    }
    var collected := CollectMonths(months, DischargeLayout);
    CollectFacts(months, DischargeLayout);
    if collected.Failure? {
      return Failure(collected.error);
    }
    DischargeTableFacts(collected.value);
    r := DischargeTable(collected.value);
  }

  /** A February 2020 record (a leap year) gives 29 discharge days, a January one 31. */
  lemma DischargeMonthLength(rec: Record, m: Month)
    requires ReadMonth(rec, DischargeLayout) == Success(m)
    requires StartOf(rec).value.year == 2020
    ensures StartOf(rec).value.month == 2 ==> |m.days| == 29
    ensures StartOf(rec).value.month == 1 ==> |m.days| == 31
  {
    ReadMonthDays(rec, DischargeLayout, m);
    MonthRowsCount(rec, StartOf(rec).value, "Vazao", Raise);
    LeapYear2020();
  }

  lemma MonthRowsCount(rec: Record, start: Date, prefix: string, absent: Absent)
    requires MonthRows(rec, start, prefix, absent).Success?
    ensures |MonthRows(rec, start, prefix, absent).value| == DaysInMonth(start.year, start.month)
  {
    MonthRowsDays(rec, start, prefix, absent);
  }

  // ---------------------------------------------------------------------
  // Stage: obter_cotas
  // ---------------------------------------------------------------------

  /** Stage records: src/ANA.py first reads `EstacaoCodigo`; an absent `CotaNN` is NaN. */
  function StageLayout(copy: Copy): Layout
  {
    Layout(if copy == Src then ["EstacaoCodigo"] else [], "Cota", AsNaN)
  }

  /** `serie.cota / 100`: centimetres to metres; NaN stays NaN. */
  function Centi(v: Option<real>): (r: Option<real>)
    ensures r.None? <==> v.None?
    ensures r.Some? ==> r.value * 100.0 == v.value
  {
    match v
    case None => None
    case Some(x) => Some(x / 100.0)
  }

  /** After the month loop: concatenate (none raises), sort, coerce (a non-number raises), divide by 100. */
  function StageTable(ms: seq<Month>): Result<seq<Row<Option<real>>>, Error>
  {
    if ms == [] then Failure(NothingToConcatenate)
    else
      var rows := SortedDays(ms);
      match ToNumbers(Values(rows))
      case Failure(e) => Failure(e)
      case Success(nums) => Success(WithValues(rows, seq(|nums|, i requires 0 <= i < |nums| => Centi(nums[i]))))
  }

  /**
   * The stage frame is the sorted daily rows with every value the raw number
   * divided by 100 and NaN kept; it fails on no months and on a value that
   * is not a number.
   */
  lemma StageTableFacts(ms: seq<Month>)
    ensures ms == [] ==> StageTable(ms) == Failure(NothingToConcatenate)
    ensures ms != [] ==> (StageTable(ms).Success? <==> AllNumeric(Concat(DaysOf(ms))))
    ensures StageTable(ms).Success? ==>
      var out := StageTable(ms).value;
      var rows := SortedDays(ms);
      |out| == |rows| && DatesAscending(out) &&
      multiset(rows) == multiset(Concat(DaysOf(ms))) &&
      forall i | 0 <= i < |out| :: out[i].0 == rows[i].0 && out[i].1 == Centi(NumberOf(rows[i].1))
  {
    if ms != [] {
      var all := Concat(DaysOf(ms));
      var rows := SortedDays(ms);
      SortByDateFacts(all);
      AllNumericPermutation(all, rows);
      var texts := Values(rows);
      var t := ToNumbers(texts);
      if t.Success? {
        var cents := seq(|t.value|, i requires 0 <= i < |t.value| => Centi(t.value[i]));
        var out := WithValues(rows, cents);
        assert StageTable(ms) == Success(out);
        forall i | 0 <= i < |out| ensures out[i].0 == rows[i].0 && out[i].1 == Centi(NumberOf(rows[i].1)) {
          assert texts[i] == rows[i].1;
        }
        assert DatesAscending(out) by {
          forall i, j | 0 <= i < j < |out| ensures Key(out[i].0) <= Key(out[j].0) {
            assert out[i].0 == rows[i].0 && out[j].0 == rows[j].0;
          }
        }
      }
    }
  }

  /** `obter_cotas` after the request; the chuvisco/ANA/api.py copy fails on `self.url_base`. */
  method StageSeries(copy: Copy, months: seq<Record>) returns (r: Result<seq<Row<Option<real>>>, Error>)
    ensures copy == ChuviscoPackage ==> r == Failure(UndefinedName("url_base"))
    ensures copy != ChuviscoPackage && months == [] ==> r == Failure(NothingToConcatenate)
    ensures copy != ChuviscoPackage && (exists i | 0 <= i < |months| :: ReadMonth(months[i], StageLayout(copy)).Failure?) ==> r.Failure?
    ensures r.Success? ==> (copy != ChuviscoPackage && Collect(months, StageLayout(copy)).Success? &&
      r == StageTable(Collect(months, StageLayout(copy)).value))
    ensures copy != ChuviscoPackage && Collect(months, StageLayout(copy)).Success? ==>
      r == StageTable(Collect(months, StageLayout(copy)).value)
    ensures copy != ChuviscoPackage && Collect(months, StageLayout(copy)).Failure? ==>
      r == Failure(Collect(months, StageLayout(copy)).error)
    ensures r.Success? ==> DatesAscending(r.value)
  {
    if copy == ChuviscoPackage {
      return Failure(UndefinedName("url_base"));
    }
    var collected := CollectMonths(months, StageLayout(copy));
    CollectFacts(months, StageLayout(copy));
    if collected.Failure? {
      return Failure(collected.error);
    }
    StageTableFacts(collected.value);
    r := StageTable(collected.value);
  }

  /** A raw `Cota` text of 350 becomes 3.5 metres. */
  lemma StageExample()
    ensures Centi(NumberOf(Some("350"))) == Some(3.5)
  {
    StageText350();
  }

  // ---------------------------------------------------------------------
  // Requests
  // ---------------------------------------------------------------------

  /** The data-kind code of the series endpoint. */
  datatype Kind = Cota | Chuva | Vazao

  function KindCode(k: Kind): string
  {
    match k
    case Cota => "1"
    case Chuva => "2"
    case Vazao => "3"
  }

  /** The query of a `HidroSerieHistorica` request, in the code's parameter order. */
  function SeriesQuery(codigo: string, inicio: string, fim: string, kind: Kind, consistencia: string): seq<Param>
  {
    [("CodEstacao", codigo), ("dataInicio", inicio), ("dataFim", fim),
     ("tipoDados", KindCode(kind)), ("nivelConsistencia", consistencia)]
  }

  function SeriesUrl(base: string, q: seq<Param>): string
  {
    base + "/HidroSerieHistorica?" + Encode(q)
  }

  /** The rain request of nuvem/ANA/api.py and chuvisco/ANA/api.py: dates as `dd/mm/YYYY`, consistency 2 or 1. */
  function RainQuery(codigo: string, inicio: Date, fim: Date, consistido: bool): seq<Param>
  {
    SeriesQuery(codigo, DayFirst(inicio), DayFirst(fim), Chuva, if consistido then "2" else "1")
  }

  /** The rain request of chuvisco/ANA.py: the dates and the consistency level are passed through. */
  function ModuleRainQuery(codigo: string, inicio: string, fim: string, consistencia: nat): seq<Param>
  {
    SeriesQuery(codigo, inicio, fim, Chuva, Decimal(consistencia))
  }

  /** Discharge and stage requests: dates passed through, no consistency level. */
  function FlowQuery(codigo: string, inicio: string, fim: string): seq<Param>
  {
    SeriesQuery(codigo, inicio, fim, Vazao, "")
  }

  function StageQuery(codigo: string, inicio: string, fim: string): seq<Param>
  {
    SeriesQuery(codigo, inicio, fim, Cota, "")
  }

  /** The five parameter names are distinct, so each is found at its own position. */
  lemma SeriesQueryLookup(codigo: string, inicio: string, fim: string, kind: Kind, consistencia: string)
    ensures var q := SeriesQuery(codigo, inicio, fim, kind, consistencia);
      Lookup(q, "CodEstacao") == Some(codigo) && Lookup(q, "dataInicio") == Some(inicio) &&
      Lookup(q, "dataFim") == Some(fim) && Lookup(q, "tipoDados") == Some(KindCode(kind)) &&
      Lookup(q, "nivelConsistencia") == Some(consistencia)
  {
    var q := SeriesQuery(codigo, inicio, fim, kind, consistencia);
    assert q[0].0 == "CodEstacao" && q[1].0 == "dataInicio" && q[2].0 == "dataFim" &&
      q[3].0 == "tipoDados" && q[4].0 == "nivelConsistencia";
    assert |q[0].0| == 10 && |q[1].0| == 10 && |q[2].0| == 7 && |q[3].0| == 9 && |q[4].0| == 17;
    assert q[0].0[0] == 'C' && q[1].0[0] == 'd';
    LookupAt(q, 0);
    LookupAt(q, 1);
    LookupAt(q, 2);
    forall j | 0 <= j < 3 ensures q[j].0 != q[3].0 {
      if j == 0 {} else if j == 1 {} else {}
    }
    forall j | 0 <= j < 4 ensures q[j].0 != q[4].0 {
      if j == 0 {} else if j == 1 {} else if j == 2 {} else {}
    }
    LookupAt(q, 3);
    LookupAt(q, 4);
  }

  lemma SeriesKeysPlain(codigo: string, inicio: string, fim: string, kind: Kind, consistencia: string)
    ensures forall i | 0 <= i < 5 :: Plain(SeriesQuery(codigo, inicio, fim, kind, consistencia)[i].0)
  {
    var q := SeriesQuery(codigo, inicio, fim, kind, consistencia);
    forall i | 0 <= i < 5 ensures Plain(q[i].0) {
      KeyIsPlain(q[i].0);
    }
  }

  lemma DateTextsArePlain(d: Date)
    ensures Plain(DayFirst(d))
  {
    DateTextsExclude(d, '&');
    DateTextsExclude(d, '=');
  }

  /** A nuvem rain URL reads back as its own parameter list. */
  lemma RainQueryEncodes(codigo: string, inicio: Date, fim: Date, consistido: bool)
    requires Plain(codigo)
    ensures Parse(Encode(RainQuery(codigo, inicio, fim, consistido))) == RainQuery(codigo, inicio, fim, consistido)
  {
    DateTextsArePlain(inicio);
    DateTextsArePlain(fim);
    var q := RainQuery(codigo, inicio, fim, consistido);
    SeriesKeysPlain(codigo, DayFirst(inicio), DayFirst(fim), Chuva, if consistido then "2" else "1");
    assert forall i | 0 <= i < |q| :: Plain(q[i].1);
    ParseEncode(q);
  }

  /**
   * The server reads from a nuvem rain request data kind 2, consistency 2
   * exactly when `consistido` (1 otherwise), and the two dates, which parse
   * back as `dd/mm/YYYY`.
   */
  lemma RainQueryReadsBack(codigo: string, inicio: Date, fim: Date, consistido: bool)
    ensures var q := RainQuery(codigo, inicio, fim, consistido);
      Lookup(q, "CodEstacao") == Some(codigo) &&
      Lookup(q, "tipoDados") == Some("2") &&
      (Lookup(q, "nivelConsistencia") == Some("2") <==> consistido) &&
      Lookup(q, "nivelConsistencia") == Some(if consistido then "2" else "1") &&
      Lookup(q, "dataInicio").Some? && ParseDayFirst(Lookup(q, "dataInicio").value) == Some(inicio) &&
      Lookup(q, "dataFim").Some? && ParseDayFirst(Lookup(q, "dataFim").value) == Some(fim)
  {
    SeriesQueryLookup(codigo, DayFirst(inicio), DayFirst(fim), Chuva, if consistido then "2" else "1");
    DayFirstRoundTrip(inicio);
    DayFirstRoundTrip(fim);
  }

  /** chuvisco/ANA.py sends its default consistency level 2 as the text "2". */
  lemma ModuleRainDefault(codigo: string, inicio: string, fim: string)
    ensures Lookup(ModuleRainQuery(codigo, inicio, fim, 2), "nivelConsistencia") == Some("2")
    ensures Lookup(ModuleRainQuery(codigo, inicio, fim, 2), "tipoDados") == Some("2")
  {
    assert Decimal(2) == "2";
    SeriesQueryLookup(codigo, inicio, fim, Chuva, "2");
  }

  /**
   * `obter_chuva` of nuvem/ANA/api.py and chuvisco/ANA/api.py up to the
   * request: both dates default to `None`, and `None.format` raises before
   * anything is sent; with both dates the request reads back as
   * `RainQueryReadsBack` states.
   */
  function RainRequest(codigo: string, inicio: Option<Date>, fim: Option<Date>, consistido: bool)
    : (r: Result<seq<Param>, Error>)
    ensures r.Success? <==> inicio.Some? && fim.Some?
    ensures r.Failure? ==> r.error == NoneAttribute("format")
    ensures r.Success? ==>
      Lookup(r.value, "tipoDados") == Some("2") &&
      Lookup(r.value, "dataInicio").Some? && ParseDayFirst(Lookup(r.value, "dataInicio").value) == inicio &&
      Lookup(r.value, "dataFim").Some? && ParseDayFirst(Lookup(r.value, "dataFim").value) == fim
  {
    if inicio.None? || fim.None? then Failure(NoneAttribute("format"))
    else
      RainQueryReadsBack(codigo, inicio.value, fim.value, consistido);
      Success(RainQuery(codigo, inicio.value, fim.value, consistido))
  }

  /** A call that leaves the dates at their defaults raises AttributeError. */
  lemma RainRequestDefaults(codigo: string, consistido: bool, d: Date)
    ensures RainRequest(codigo, None, None, consistido) == Failure(NoneAttribute("format"))
    ensures RainRequest(codigo, Some(d), None, consistido).Failure?
    ensures RainRequest(codigo, None, Some(d), consistido).Failure?
  {
  }

  /** Discharge asks for data kind 3, stage for kind 1, both with an empty consistency level. */
  lemma FlowAndStageQueries(codigo: string, inicio: string, fim: string)
    ensures Lookup(FlowQuery(codigo, inicio, fim), "tipoDados") == Some("3")
    ensures Lookup(StageQuery(codigo, inicio, fim), "tipoDados") == Some("1")
    ensures Lookup(FlowQuery(codigo, inicio, fim), "nivelConsistencia") == Some("")
    ensures Lookup(StageQuery(codigo, inicio, fim), "nivelConsistencia") == Some("")
  {
    SeriesQueryLookup(codigo, inicio, fim, Vazao, "");
    SeriesQueryLookup(codigo, inicio, fim, Cota, "");
  }
}
