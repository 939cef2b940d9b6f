/**
 * The INMET client of nuvem/INMET/api.py: the station inventory, the data
 * URL of one station and period, the rain column of one response, and
 * `obter_chuva_no_contorno`, which pages each selected station's period in
 * one-year windows, concatenates the windows, drops repeated dates and
 * joins the stations column-wise.
 */
module Inmet {
  import opened Wrappers
  import opened Text
  import opened Calendar
  import opened Series
  import opened AnaSeries
  import opened AnaInventory
  import opened AnaContour

  /** `config.url_base` of nuvem/INMET/config.py. */
  const UrlBase := "https://apitempo.inmet.gov.br"

  /** `config.arg_chuva`: the rain field of a data response. */
  const ArgChuva := "CHUVA"

  /** One object of a JSON response: the value of each key, `None` for `null`; an absent key is no key. */
  type Json = map<string, Option<string>>

  // ---------------------------------------------------------------------
  // URLs
  // ---------------------------------------------------------------------

  /** The inventory URL of `inventario`: the path ends in `T` for telemetric stations, `M` otherwise. */
  function InventoryUrl(telemetrica: bool): (url: string)
    ensures |url| == |UrlBase| + 11 && url[..|url| - 1] == UrlBase + "/estacoes/"
    ensures url[|url| - 1] == 'T' <==> telemetrica
    ensures url[|url| - 1] == 'M' <==> !telemetrica
  {
    var path := UrlBase + "/estacoes/";
    var tipo := if telemetrica then "T" else "M";
    assert |tipo| == 1 && |path| == |UrlBase| + 10;
    assert (path + tipo)[..|path|] == path;
    path + tipo
  }

  /** The path segment of the frequency: none for hourly data (`"H"`), `diaria/` for any other value. */
  function FreqPath(freq: string): string
  {
    if freq == "H" then "" else "diaria/"
  }

  /** The last part of a data URL: the two dates as `"%Y-%m-%d"` and the station. */
  function PeriodPath(inicio: Date, fim: Date, codigo: string): string
  {
    IsoExtended(inicio) + "/" + IsoExtended(fim) + "/" + codigo
  }

  /** The data endpoint of `obter_dados`. */
  const DataBase := UrlBase + "/estacao/"

  /** The data URL of `obter_dados`. */
  function DataUrl(inicio: Date, fim: Date, codigo: string, freq: string): string
  {
    DataBase + FreqPath(freq) + PeriodPath(inicio, fim, codigo)
  }

  /** What a data URL asks for: daily or hourly data, the two dates and the station. */
  datatype DataRequest = DataRequest(daily: bool, inicio: Date, fim: Date, codigo: string)

  /** Reads a data URL back into its request. */
  function ParseDataUrl(url: string): Option<DataRequest>
  {
    if |url| < |DataBase| || url[..|DataBase|] != DataBase then None
    else
      var p := Split(url[|DataBase|..], '/');
      var daily := |p| == 4 && p[0] == "diaria";
      if |p| == 3 || daily then
        var k := if daily then 1 else 0;
        match (ParseIsoExtended(p[k]), ParseIsoExtended(p[k + 1]))
        case (Some(a), Some(b)) => Some(DataRequest(daily, a, b, p[k + 2]))
        case _ => None
      else None
  }

  lemma PeriodPathSplit(inicio: Date, fim: Date, codigo: string)
    requires '/' !in codigo
    ensures Split(PeriodPath(inicio, fim, codigo), '/') == [IsoExtended(inicio), IsoExtended(fim), codigo]
  {
    var a, b := IsoExtended(inicio), IsoExtended(fim);
    DateTextsExclude(inicio, '/');
    DateTextsExclude(fim, '/');
    SplitPrefix(codigo, "", '/');
    assert codigo + "" == codigo;
    SplitCons(b, codigo, '/');
    assert a + "/" + b + "/" + codigo == a + "/" + (b + "/" + codigo);
    SplitCons(a, b + "/" + codigo, '/');
  }

  /** The data URL names both dates, the station and the frequency: it reads back to the request it was built from. */
  lemma DataUrlRoundTrip(inicio: Date, fim: Date, codigo: string, freq: string)
    requires '/' !in codigo
    ensures ParseDataUrl(DataUrl(inicio, fim, codigo, freq)) == Some(DataRequest(freq != "H", inicio, fim, codigo))
  {
    DataUrlPieces(inicio, fim, codigo, freq);
    IsoExtendedRoundTrip(inicio);
    IsoExtendedRoundTrip(fim);
  }

  /** A data URL is the data path followed by slash-separated pieces. */
  lemma DataUrlPieces(inicio: Date, fim: Date, codigo: string, freq: string)
    requires '/' !in codigo
    ensures |DataUrl(inicio, fim, codigo, freq)| >= |DataBase|
    ensures DataUrl(inicio, fim, codigo, freq)[..|DataBase|] == DataBase
    ensures Split(DataUrl(inicio, fim, codigo, freq)[|DataBase|..], '/') ==
      (if freq == "H" then [] else ["diaria"]) + [IsoExtended(inicio), IsoExtended(fim), codigo]
  {
    var dates := PeriodPath(inicio, fim, codigo);
    var rest := FreqPath(freq) + dates;
    var url := DataUrl(inicio, fim, codigo, freq);
    assert url == DataBase + rest;
    assert url[..|DataBase|] == DataBase && url[|DataBase|..] == rest;
    PeriodPathSplit(inicio, fim, codigo);
    FreqPathSplit(freq, dates);
  }

  lemma FreqPathSplit(freq: string, dates: string)
    ensures Split(FreqPath(freq) + dates, '/') == (if freq == "H" then [] else ["diaria"]) + Split(dates, '/')
  {
    if freq != "H" {
      assert FreqPath(freq) + dates == "diaria" + "/" + dates;
      SplitCons("diaria", dates, '/');
    } else {
      assert FreqPath(freq) + dates == dates;
    }
  }

  // ---------------------------------------------------------------------
  // Responses as frames
  // ---------------------------------------------------------------------

  /** The frame built from the objects has the column `key` when some object has that key. */
  predicate HasColumn(objs: seq<Json>, key: string)
  {
    exists i | 0 <= i < |objs| :: key in objs[i]
  }

  /** The cell of an object in column `key`; NaN where the object lacks the key. */
  function CellOf(o: Json, key: string): Option<string>
  {
    if key in o then o[key] else None
  }

  function ColumnOf(objs: seq<Json>, key: string): (col: seq<Option<string>>)
    ensures |col| == |objs|
  {
    seq(|objs|, i requires 0 <= i < |objs| => CellOf(objs[i], key))
  }

  /**
   * The index of one observation: `pd.to_datetime` of its `DT_MEDICAO`,
   * a calendar date; a null or unreadable date is refused.
   */
  function DateOf(o: Json): Result<Date, Error>
  {
    match CellOf(o, "DT_MEDICAO")
    case None => Failure(NotADate(""))
    case Some(t) =>
      match ParseIsoExtended(t)
      case None => Failure(NotADate(t))
      case Some(d) => Success(d)
  }

  function DateReads(objs: seq<Json>): (rs: seq<Result<Date, Error>>)
    ensures |rs| == |objs|
  {
    seq(|objs|, i requires 0 <= i < |objs| => DateOf(objs[i]))
  }

  /**
   * `obter_chuva` on one response: `obter_dados` renames the columns,
   * coerces `latitude` then `longitude` (KeyError when absent, ValueError
   * when not numeric), indexes by `data`, and `obter_chuva` selects the
   * rain column renamed to the station code.
   */
  function ReadWindow(objs: seq<Json>, codigo: string): Result<seq<Row<Option<string>>>, Error>
  {
    if !HasColumn(objs, "VL_LATITUDE") then Failure(MissingColumn("latitude"))
    else if ToNumbers(ColumnOf(objs, "VL_LATITUDE")).Failure? then Failure(ToNumbers(ColumnOf(objs, "VL_LATITUDE")).error)
    else if !HasColumn(objs, "VL_LONGITUDE") then Failure(MissingColumn("longitude"))
    else if ToNumbers(ColumnOf(objs, "VL_LONGITUDE")).Failure? then Failure(ToNumbers(ColumnOf(objs, "VL_LONGITUDE")).error)
    else if !HasColumn(objs, "DT_MEDICAO") then Failure(MissingColumn("data"))
    else
      SequenceFacts(DateReads(objs));
      match Sequence(DateReads(objs))
      case Failure(e) => Failure(e)
      case Success(ds) =>
        if !HasColumn(objs, ArgChuva) then Failure(MissingColumn(codigo))
        else Success(seq(|objs|, i requires 0 <= i < |objs| && |ds| == |objs| => (ds[i], CellOf(objs[i], ArgChuva))))
  }

  /** `obter_chuva`: the request for one station and period, and the rain column of its response. */
  method ObterChuva(inicio: Date, fim: Date, codigo: string, freq: string, responses: string -> seq<Json>)
    returns (r: Result<seq<Row<Option<string>>>, Error>)
    ensures r == WindowRead(codigo, (inicio, fim), freq, responses)
  {
    var resposta := responses(DataUrl(inicio, fim, codigo, freq));
    r := ReadWindow(resposta, codigo);
  }

  /** The coordinate, date and rain columns a readable response has. */
  predicate Readable(objs: seq<Json>)
  {
    HasColumn(objs, "VL_LATITUDE") && HasColumn(objs, "VL_LONGITUDE") &&
    HasColumn(objs, "DT_MEDICAO") && HasColumn(objs, ArgChuva) &&
    (forall i | 0 <= i < |objs| ::
      NumericText(CellOf(objs[i], "VL_LATITUDE")) && NumericText(CellOf(objs[i], "VL_LONGITUDE")) &&
      DateOf(objs[i]).Success?)
  }

  /**
   * A response reads exactly when it has the four columns, numeric
   * coordinates and a date in every object; it then gives one row per
   * object, in response order, dated by `DT_MEDICAO` and holding `CHUVA`
   * (NaN where absent). An empty response has no columns at all.
   */
  lemma ReadWindowFacts(objs: seq<Json>, codigo: string)
    ensures ReadWindow(objs, codigo).Success? <==> Readable(objs)
    ensures ReadWindow(objs, codigo).Success? ==>
      var rows := ReadWindow(objs, codigo).value;
      |rows| == |objs| &&
      forall i | 0 <= i < |objs| :: rows[i] == (DateOf(objs[i]).value, CellOf(objs[i], ArgChuva))
    ensures objs == [] ==> ReadWindow(objs, codigo) == Failure(MissingColumn("latitude"))
  {
    ColumnNumeric(objs, "VL_LATITUDE");
    ColumnNumeric(objs, "VL_LONGITUDE");
    DatesRead(objs);
  }

  lemma ColumnNumeric(objs: seq<Json>, key: string)
    ensures ToNumbers(ColumnOf(objs, key)).Success? <==>
      forall i | 0 <= i < |objs| :: NumericText(CellOf(objs[i], key))
  {
    var col := ColumnOf(objs, key);
    assert forall i | 0 <= i < |objs| :: col[i] == CellOf(objs[i], key);
  }

  lemma DatesRead(objs: seq<Json>)
    ensures Sequence(DateReads(objs)).Success? <==> forall i | 0 <= i < |objs| :: DateOf(objs[i]).Success?
    ensures Sequence(DateReads(objs)).Success? ==>
      |Sequence(DateReads(objs)).value| == |objs| &&
      forall i | 0 <= i < |objs| :: Sequence(DateReads(objs)).value[i] == DateOf(objs[i]).value
  {
    SequenceFacts(DateReads(objs));
    assert forall i | 0 <= i < |objs| :: DateReads(objs)[i] == DateOf(objs[i]);
  }

  // ---------------------------------------------------------------------
  // One-year windows
  // ---------------------------------------------------------------------

  /** `math.ceil(days / 360)`: the number of one-year windows requested. */
  function WindowCount(inicio: Date, fim: Date): (n: int)
    ensures 360 * n - 360 < DaysBetween(inicio, fim) <= 360 * n
    ensures n <= 0 <==> DaysBetween(inicio, fim) <= 0
  {
    -((-DaysBetween(inicio, fim)) / 360)
  }

  /**
   * The `k` windows requested from `start` on, in request order: each runs
   * from its start to `add(years=1)` of it, and the next starts there.
   */
  function WindowsFrom(start: Date, k: nat): (ws: seq<(Date, Date)>)
    ensures |ws| == k
    decreases k
  {
    if k == 0 then [] else [(start, AddYear(start))] + WindowsFrom(AddYear(start), k - 1)
  }

  /**
   * The windows start at `data_inicial`, each ends one year after it
   * starts (365 or 366 days), and each next one starts where the previous
   * one ended.
   */
  lemma {:induction false} WindowsContiguous(start: Date, k: nat)
    ensures k > 0 ==> WindowsFrom(start, k)[0].0 == start
    ensures forall i | 0 <= i < k :: WindowsFrom(start, k)[i].1 == AddYear(WindowsFrom(start, k)[i].0)
    ensures forall i | 0 <= i < k - 1 :: WindowsFrom(start, k)[i + 1].0 == WindowsFrom(start, k)[i].1
    decreases k
  {
    if k > 0 {
      var ws := WindowsFrom(start, k);
      var rest := WindowsFrom(AddYear(start), k - 1);
      WindowsContiguous(AddYear(start), k - 1);
      assert forall i | 1 <= i < k :: ws[i] == rest[i - 1];
    }
  }

  /** Each window spans 365 or 366 days, so `k` windows from `start` end between `365 * k` and `366 * k` days later. */
  lemma {:induction false} WindowsSpan(start: Date, k: nat)
    requires k > 0
    ensures forall i | 0 <= i < k :: 365 <= DaysBetween(WindowsFrom(start, k)[i].0, WindowsFrom(start, k)[i].1) <= 366
    ensures 365 * k <= DaysBetween(start, WindowsFrom(start, k)[k - 1].1) <= 366 * k
    decreases k
  {
    var ws := WindowsFrom(start, k);
    AddYearSpan(start);
    if k > 1 {
      var rest := WindowsFrom(AddYear(start), k - 1);
      WindowsSpan(AddYear(start), k - 1);
      assert forall i | 1 <= i < k :: ws[i] == rest[i - 1];
    }
  }

  /**
   * Counting a year as 360 days never falls short: when any window is
   * requested, the last one ends on or after `data_final`.
   */
  lemma WindowsCover(inicio: Date, fim: Date)
    requires WindowCount(inicio, fim) > 0
    ensures DaysBetween(fim, WindowsFrom(inicio, WindowCount(inicio, fim))[WindowCount(inicio, fim) - 1].1) >= 0
  {
    WindowsSpan(inicio, WindowCount(inicio, fim));
  }

  /** A period of 366 days asks for two windows, the second one wholly after `data_final`. */
  lemma WindowsOvershoot()
    ensures var inicio, fim: Date := CivilDate(2020, 1, 1), CivilDate(2021, 1, 1);
      DaysBetween(inicio, fim) == 366 && WindowCount(inicio, fim) == 2 &&
      WindowsFrom(inicio, 2) == [(inicio, fim), (fim, CivilDate(2022, 1, 1))]
  {
    var inicio, fim: Date := CivilDate(2020, 1, 1), CivilDate(2021, 1, 1);
    YearStep(2020);
    assert DaysBetween(inicio, fim) == 366;
  }

  // ---------------------------------------------------------------------
  // One station
  // ---------------------------------------------------------------------

  /** The windows requested for `n`: `range(1, n + 1)` is empty when `n` is zero or negative. */
  function Requested(n: int): nat
  {
    if n > 0 then n else 0
  }

  /** The rain column of one station in one window. */
  function WindowRead(posto: string, w: (Date, Date), freq: string, responses: string -> seq<Json>)
    : Result<seq<Row<Option<string>>>, Error>
  {
    ReadWindow(responses(DataUrl(w.0, w.1, posto, freq)), posto)
  }

  /** The rain column of each window of one station, in request order. */
  function WindowReads(posto: string, ws: seq<(Date, Date)>, freq: string, responses: string -> seq<Json>)
    : (rs: seq<Result<seq<Row<Option<string>>>, Error>>)
    ensures |rs| == |ws|
  {
    seq(|ws|, k requires 0 <= k < |ws| => WindowRead(posto, ws[k], freq, responses))
  }

  /**
   * `chuva_posto` of one station: the windows concatenated in order with
   * repeated dates dropped, the first kept; no windows makes the concat raise.
   */
  function StationColumn(posto: string, inicio: Date, n: int, freq: string, responses: string -> seq<Json>)
    : Result<(string, seq<Row<Option<string>>>), Error>
  {
    match Sequence(WindowReads(posto, WindowsFrom(inicio, Requested(n)), freq, responses))
    case Failure(e) => Failure(e)
    case Success(anos) =>
      if anos == [] then Failure(NothingToConcatenate)
      else Success((posto, DropDuplicateDates(Concat(anos))))
  }

  /** The first window from `start` is read first; the others are the windows from one year later. */
  lemma WindowReadsStep(posto: string, start: Date, k: nat, freq: string, responses: string -> seq<Json>)
    requires k > 0
    ensures WindowRead(posto, (start, AddYear(start)), freq, responses).Failure? ==>
      Sequence(WindowReads(posto, WindowsFrom(start, k), freq, responses)) ==
        Failure(WindowRead(posto, (start, AddYear(start)), freq, responses).error)
    ensures WindowRead(posto, (start, AddYear(start)), freq, responses).Success? ==>
      Sequence(WindowReads(posto, WindowsFrom(start, k), freq, responses)) ==
        Prepend([WindowRead(posto, (start, AddYear(start)), freq, responses).value],
          Sequence(WindowReads(posto, WindowsFrom(AddYear(start), k - 1), freq, responses)))
  {
    var rs := WindowReads(posto, WindowsFrom(start, k), freq, responses);
    assert rs[1..] == WindowReads(posto, WindowsFrom(AddYear(start), k - 1), freq, responses);
    SequenceFrom(rs, 0);
    assert rs[0..] == rs;
  }

  /** The inner loop of `obter_chuva_no_contorno`, advancing `data_inicial_apoio` a year at a time. */
  method StationRain(posto: string, inicio: Date, n: int, freq: string, responses: string -> seq<Json>)
    returns (r: Result<(string, seq<Row<Option<string>>>), Error>)
    ensures r == StationColumn(posto, inicio, n, freq, responses)
  {
    var count := Requested(n);
    ghost var all := Sequence(WindowReads(posto, WindowsFrom(inicio, count), freq, responses));
    var apoio := inicio;
    var anos: seq<seq<Row<Option<string>>>> := [];
    var i := 0;
    assert all.Success? ==> [] + all.value == all.value;
    while i < count
      invariant 0 <= i <= count
      invariant all == Prepend(anos, Sequence(WindowReads(posto, WindowsFrom(apoio, count - i), freq, responses)))
    {
      var final_apoio := AddYear(apoio);
      var chuva_ano := ObterChuva(apoio, final_apoio, posto, freq, responses);
      WindowReadsStep(posto, apoio, count - i, freq, responses);
      if chuva_ano.Failure? {
        return Failure(chuva_ano.error);
      }
      var ano := chuva_ano.value;
      PrependTwice(anos, [ano], Sequence(WindowReads(posto, WindowsFrom(final_apoio, count - i - 1), freq, responses)));
      anos := anos + [ano];
      apoio := final_apoio;
      i := i + 1;
    }
    assert anos + [] == anos;
    if anos == [] {
      return Failure(NothingToConcatenate);
    }
    var chuva_posto := Concat(anos);
    chuva_posto := DropDuplicateDates(chuva_posto);
    return Success((posto, chuva_posto));
  }

  /**
   * The windows concatenated and de-duplicated: each date of any window
   * once, the row kept for a date being the first row with that date in
   * the earliest window that has it.
   */
  lemma KeptRows<T>(anos: seq<seq<Row<T>>>)
    ensures var rows := DropDuplicateDates(Concat(anos));
      DatesDistinct(rows) &&
      (forall d :: d in Dates(rows) <==> exists w | 0 <= w < |anos| :: d in Dates(anos[w])) &&
      forall k | 0 <= k < |rows| :: exists w | 0 <= w < |anos| ::
        rows[k].0 in Dates(anos[w]) && (forall v | 0 <= v < w :: rows[k].0 !in Dates(anos[v])) &&
        rows[k] == First(anos[w], rows[k].0)
  {
    var all := Concat(anos);
    var rows := DropDuplicateDates(all);
    DropDuplicateDatesFacts(all);
    forall d ensures d in Dates(rows) <==> exists w | 0 <= w < |anos| :: d in Dates(anos[w]) {
      DatesConcat(anos, d);
    }
    forall k | 0 <= k < |rows|
      ensures exists w | 0 <= w < |anos| ::
        rows[k].0 in Dates(anos[w]) && (forall v | 0 <= v < w :: rows[k].0 !in Dates(anos[v])) &&
        rows[k] == First(anos[w], rows[k].0)
    {
      assert rows[k] == First(all, rows[k].0);
      FirstConcat(anos, rows[k].0);
    }
  }

  /**
   * When every window reads, the station column is named after the
   * station and is the windows' rows, in request order, with repeated
   * dates dropped as `KeptRows` states: a boundary day shared by two
   * consecutive windows comes from the earlier one.
   */
  lemma StationColumnFacts(posto: string, inicio: Date, n: int, freq: string, responses: string -> seq<Json>)
    requires StationColumn(posto, inicio, n, freq, responses).Success?
    ensures var ws := WindowReads(posto, WindowsFrom(inicio, Requested(n)), freq, responses);
      Sequence(ws).Success? && 0 < Requested(n) == |Sequence(ws).value| &&
      (forall w | 0 <= w < Requested(n) :: ws[w].Success? && Sequence(ws).value[w] == ws[w].value) &&
      StationColumn(posto, inicio, n, freq, responses).value ==
        (posto, DropDuplicateDates(Concat(Sequence(ws).value)))
  {
    SequenceFacts(WindowReads(posto, WindowsFrom(inicio, Requested(n)), freq, responses));
  }

  /** An empty or reversed period requests no window, so the station's concat raises. */
  lemma EmptyPeriodRaises(posto: string, inicio: Date, fim: Date, freq: string, responses: string -> seq<Json>)
    requires DaysBetween(inicio, fim) <= 0
    ensures StationColumn(posto, inicio, WindowCount(inicio, fim), freq, responses) == Failure(NothingToConcatenate)
  {
    assert WindowReads(posto, WindowsFrom(inicio, 0), freq, responses) == [];
  }

  // ---------------------------------------------------------------------
  // Inventory and contour
  // ---------------------------------------------------------------------

  /**
   * `inventario` on one response: `set_index("codigo")` (KeyError without
   * `CD_ESTACAO`), then `latitude` and `longitude` coerced. The model keeps
   * the two coordinate columns, the only ones the contour code reads.
   */
  function InventoryOf(objs: seq<Json>): (r: Result<Inventory, Error>)
    ensures r.Success? ==> r.value.columns == ["latitude", "longitude"] && Rectangular(r.value)
    ensures r.Success? ==> (|r.value.stations| == |objs| &&
      forall i | 0 <= i < |objs| :: r.value.stations[i].codigo == CellOf(objs[i], "CD_ESTACAO"))
    ensures r.Success? ==> forall i | 0 <= i < |objs| ::
      r.value.stations[i].cells ==
        [Number(NumberOf(CellOf(objs[i], "VL_LATITUDE"))), Number(NumberOf(CellOf(objs[i], "VL_LONGITUDE")))]
    ensures r.Success? <==>
      HasColumn(objs, "CD_ESTACAO") && HasColumn(objs, "VL_LATITUDE") && HasColumn(objs, "VL_LONGITUDE") &&
      (forall i | 0 <= i < |objs| :: NumericText(CellOf(objs[i], "VL_LATITUDE"))) &&
      (forall i | 0 <= i < |objs| :: NumericText(CellOf(objs[i], "VL_LONGITUDE")))
    ensures !HasColumn(objs, "CD_ESTACAO") ==> r == Failure(MissingColumn("codigo"))
    ensures HasColumn(objs, "CD_ESTACAO") && !HasColumn(objs, "VL_LATITUDE") ==> r == Failure(MissingColumn("latitude"))
    ensures (HasColumn(objs, "CD_ESTACAO") && HasColumn(objs, "VL_LATITUDE") &&
      (forall i | 0 <= i < |objs| :: NumericText(CellOf(objs[i], "VL_LATITUDE"))) &&
      !HasColumn(objs, "VL_LONGITUDE")) ==> r == Failure(MissingColumn("longitude"))
  {
    if !HasColumn(objs, "CD_ESTACAO") then Failure(MissingColumn("codigo"))
    else if !HasColumn(objs, "VL_LATITUDE") then Failure(MissingColumn("latitude"))
    else
      assert forall i | 0 <= i < |objs| :: ColumnOf(objs, "VL_LATITUDE")[i] == CellOf(objs[i], "VL_LATITUDE");
      assert forall i | 0 <= i < |objs| :: ColumnOf(objs, "VL_LONGITUDE")[i] == CellOf(objs[i], "VL_LONGITUDE");
      match ToNumbers(ColumnOf(objs, "VL_LATITUDE"))
      case Failure(e) => Failure(e)
      case Success(lat) =>
        if !HasColumn(objs, "VL_LONGITUDE") then Failure(MissingColumn("longitude"))
        else
          match ToNumbers(ColumnOf(objs, "VL_LONGITUDE"))
          case Failure(e) => Failure(e)
          case Success(lon) =>
            Success(Inventory(["latitude", "longitude"], seq(|objs|, i requires 0 <= i < |objs| =>
              Station(CellOf(objs[i], "CD_ESTACAO"), [Number(lat[i]), Number(lon[i])]))))
  }

  /** The inventory of one kind of station, fetched from its URL. */
  function FetchInventory(telemetrica: bool, responses: string -> seq<Json>): Result<Inventory, Error>
  {
    InventoryOf(responses(InventoryUrl(telemetrica)))
  }

  /**
   * The inventory of `obter_chuva_no_contorno`: the supplied one; with
   * both flags the telemetric one is fetched first and the result is the
   * conventional stations followed by the telemetric ones; with neither
   * flag `inventario_inmet` is never bound.
   */
  function ContourInventory(supplied: Option<Inventory>, telemetrica: bool, convencional: bool,
                            responses: string -> seq<Json>): (r: Result<Inventory, Error>)
    requires supplied.Some? ==> Rectangular(supplied.value)
    ensures r.Success? ==> Rectangular(r.value)
  {
    if supplied.Some? then Success(supplied.value)
    else if telemetrica && convencional then
      match FetchInventory(true, responses)
      case Failure(e) => Failure(e)
      case Success(tele) =>
        match FetchInventory(false, responses)
        case Failure(e) => Failure(e)
        case Success(conv) => Success(Inventory(conv.columns, conv.stations + tele.stations))
    else if telemetrica then FetchInventory(true, responses)
    else if convencional then FetchInventory(false, responses)
    else Failure(UndefinedName("inventario_inmet"))
  }

  /** The inventory cases of `obter_chuva_no_contorno`. */
  lemma ContourInventoryCases(supplied: Option<Inventory>, telemetrica: bool, convencional: bool,
                              responses: string -> seq<Json>)
    requires supplied.Some? ==> Rectangular(supplied.value)
    ensures supplied.Some? ==> ContourInventory(supplied, telemetrica, convencional, responses) == Success(supplied.value)
    ensures supplied.None? && !telemetrica && !convencional ==>
      ContourInventory(supplied, telemetrica, convencional, responses) == Failure(UndefinedName("inventario_inmet"))
    ensures supplied.None? && telemetrica && convencional ==>
      (ContourInventory(supplied, telemetrica, convencional, responses).Success? <==>
        FetchInventory(true, responses).Success? && FetchInventory(false, responses).Success?)
    ensures (supplied.None? && telemetrica && convencional &&
      ContourInventory(supplied, telemetrica, convencional, responses).Success?) ==>
      ContourInventory(supplied, telemetrica, convencional, responses).value.stations ==
        FetchInventory(false, responses).value.stations + FetchInventory(true, responses).value.stations
  {
  }

  function StationColumns(codes: seq<string>, inicio: Date, n: int, freq: string, responses: string -> seq<Json>)
    : (rs: seq<Result<(string, seq<Row<Option<string>>>), Error>>)
    ensures |rs| == |codes|
  {
    seq(|codes|, i requires 0 <= i < |codes| => StationColumn(codes[i], inicio, n, freq, responses))
  }

  /**
   * The whole call: the inventory, the stations inside the contour (the
   * spatial test is `inside`), one column per station, joined on the union
   * of their dates.
   */
  function ContourRain(inicio: Date, fim: Date, supplied: Option<Inventory>, telemetrica: bool, convencional: bool,
                       freq: string, inside: (Cell, Cell) -> bool, responses: string -> seq<Json>)
    : Result<Wide<string>, Error>
    requires supplied.Some? ==> Rectangular(supplied.value)
  {
    match ContourInventory(supplied, telemetrica, convencional, responses)
    case Failure(e) => Failure(e)
    case Success(inv) =>
      match Selection(inv, inside)
      case Failure(e) => Failure(e)
      case Success(codes) =>
        match Sequence(StationColumns(codes, inicio, WindowCount(inicio, fim), freq, responses))
        case Failure(e) => Failure(e)
        case Success(columns) => JoinColumns(columns)
  }

  /** The outer loop of `obter_chuva_no_contorno`, appending to `lista_chuva_postos`. */
  method StationLoop(codes: seq<string>, inicio: Date, n: int, freq: string, responses: string -> seq<Json>)
    returns (r: Result<seq<(string, seq<Row<Option<string>>>)>, Error>)
    ensures r == Sequence(StationColumns(codes, inicio, n, freq, responses))
  {
    ghost var rs := StationColumns(codes, inicio, n, freq, responses);
    var lista: seq<(string, seq<Row<Option<string>>>)> := [];
    var i := 0;
    assert rs[0..] == rs;
    assert Sequence(rs).Success? ==> [] + Sequence(rs).value == Sequence(rs).value;
    while i < |codes|
      invariant 0 <= i <= |codes|
      invariant Sequence(rs) == Prepend(lista, Sequence(rs[i..]))
    {
      var chuva_posto := StationRain(codes[i], inicio, n, freq, responses);
      assert rs[i] == chuva_posto;
      if chuva_posto.Failure? {
        SequenceFrom(rs, i);
        return Failure(chuva_posto.error);
      }
      var column := chuva_posto.value;
      SequenceStep(rs, lista, i);
      lista := lista + [column];
      i := i + 1;
    }
    assert rs[i..] == [];
    assert lista + [] == lista;
    return Success(lista);
  }

  /** `obter_chuva_no_contorno`. */
  method RainInContour(inicio: Date, fim: Date, supplied: Option<Inventory>, telemetrica: bool, convencional: bool,
                       freq: string, inside: (Cell, Cell) -> bool, responses: string -> seq<Json>)
    returns (r: Result<Wide<string>, Error>)
    requires supplied.Some? ==> Rectangular(supplied.value)
    ensures r == ContourRain(inicio, fim, supplied, telemetrica, convencional, freq, inside, responses)
  {
    var inventario := ContourInventory(supplied, telemetrica, convencional, responses);
    if inventario.Failure? {
      return Failure(inventario.error);
    }
    var selecao := Selection(inventario.value, inside);
    if selecao.Failure? {
      return Failure(selecao.error);
    }
    var quantidade_de_anos := WindowCount(inicio, fim);
    var lista := StationLoop(selecao.value, inicio, quantidade_de_anos, freq, responses);
    if lista.Failure? {
      return Failure(lista.error);
    }
    return JoinColumns(lista.value);
  }

  /**
   * An empty or reversed period makes the call raise the concat error,
   * whether or not some station lies inside the contour.
   */
  lemma EmptyPeriodContour(inicio: Date, fim: Date, supplied: Option<Inventory>, telemetrica: bool,
                           convencional: bool, freq: string, inside: (Cell, Cell) -> bool, responses: string -> seq<Json>)
    requires supplied.Some? ==> Rectangular(supplied.value)
    requires DaysBetween(inicio, fim) <= 0
    requires ContourInventory(supplied, telemetrica, convencional, responses).Success?
    requires Selection(ContourInventory(supplied, telemetrica, convencional, responses).value, inside).Success?
    ensures ContourRain(inicio, fim, supplied, telemetrica, convencional, freq, inside, responses) ==
      Failure(NothingToConcatenate)
  {
    var inv := ContourInventory(supplied, telemetrica, convencional, responses).value;
    var codes := Selection(inv, inside).value;
    var rs := StationColumns(codes, inicio, WindowCount(inicio, fim), freq, responses);
    SequenceFacts(rs);
    forall i | 0 <= i < |codes| ensures rs[i] == Failure(NothingToConcatenate) {
      EmptyPeriodRaises(codes[i], inicio, fim, freq, responses);
    }
  }
}
