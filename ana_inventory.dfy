/**
 * The ANA `HidroInventario` station inventory: the `telemetrica` argument
 * computed from the two user flags, the request URL, the loop that turns
 * each `<Table>` element into one row indexed by the station code, and the
 * coercion of the coordinate columns to numbers.
 */
module AnaInventory {
  import opened Wrappers
  import opened Text
  import opened Numeric
  import opened Query
  import opened AnaSeries

  // ---------------------------------------------------------------------
  // Web-service arguments
  // ---------------------------------------------------------------------

  /** A `Union[str, int]` argument as the code hands it to the web service. */
  datatype Arg = Str(s: string) | Num(n: int)

  /** The argument's text inside an f-string. */
  function Render(a: Arg): string
  {
    match a
    case Str(s) => s
    case Num(n) => if n < 0 then "-" + Decimal(-n) else Decimal(n)
  }

  /** Python truthiness: a non-empty text or a non-zero number. */
  predicate Truthy(a: Arg)
  {
    match a
    case Str(s) => s != ""
    case Num(n) => n != 0
  }

  /** nuvem/ANA/config.py. */
  const ArgPlu: Arg := Num(2)
  const ArgFlu: Arg := Num(1)
  const ArgTelemetria: Arg := Num(1)
  const ArgConvencional: Arg := Num(0)
  const ArgTeleEConvencionais: Arg := Str("")
  const UrlBase: string := "http://telemetriaws1.ana.gov.br/ServiceANA.asmx"

  /**
   * The station kinds the service returns for a `telemetrica` argument, as
   * (telemetric, conventional): 1 telemetric stations, 0 conventional ones,
   * the empty text both; any other argument is not documented.
   */
  function Selects(a: Arg): Option<(bool, bool)>
  {
    if a == Num(1) then Some((true, false))
    else if a == Num(0) then Some((false, true))
    else if a == Str("") then Some((true, true))
    else None
  }

  /**
   * `obter_tipo_medicao`: the argument that asks the service for exactly
   * the kinds requested. Asking for neither kind keeps the default, the
   * empty text, which asks for both.
   */
  function MeasurementArg(telemetrica: bool, convencional: bool): (r: Arg)
    ensures telemetrica || convencional ==> Selects(r) == Some((telemetrica, convencional))
    ensures !telemetrica && !convencional ==> r == Str("") && Selects(r) == Some((true, true))
  {
    var medicao := Str("");
    if telemetrica && convencional then ArgTeleEConvencionais
    else if telemetrica && !convencional then ArgTelemetria
    else if !telemetrica && convencional then ArgConvencional
    else medicao
  }

  /** The query of a `HidroInventario` request, in the code's parameter order. */
  function InventoryQuery(codigo: string, tipo: Arg, telemetrica: Arg): seq<Param>
  {
    [("codEstDE", codigo), ("codEstATE", ""), ("tpEst", Render(tipo)), ("nmEst", ""), ("nmRio", ""),
     ("codSubBacia", ""), ("codBacia", ""), ("nmMunicipio", ""), ("nmEstado", ""), ("sgResp", ""),
     ("sgOper", ""), ("telemetrica", Render(telemetrica))]
  }

  function InventoryUrl(base: string, q: seq<Param>): string
  {
    base + "/HidroInventario?" + Encode(q)
  }

  /** `obter_inventario` of nuvem/ANA/utils.py: the flags become the `telemetrica` argument. */
  function FlagsQuery(codigo: string, tipo: Arg, telemetrica: bool, convencional: bool): seq<Param>
  {
    InventoryQuery(codigo, tipo, MeasurementArg(telemetrica, convencional))
  }

  /** The three arguments sit under their own names; every other parameter is empty. */
  lemma InventoryQueryLookup(codigo: string, tipo: Arg, telemetrica: Arg)
    ensures var q := InventoryQuery(codigo, tipo, telemetrica);
      |q| == 12 &&
      Lookup(q, "codEstDE") == Some(codigo) && Lookup(q, "tpEst") == Some(Render(tipo)) &&
      Lookup(q, "telemetrica") == Some(Render(telemetrica)) &&
      forall i | 0 <= i < 12 && i != 0 && i != 2 && i != 11 :: q[i].1 == ""
  {
    var q := InventoryQuery(codigo, tipo, telemetrica);
    assert q[0].0 == "codEstDE" && q[2].0 == "tpEst" && q[11].0 == "telemetrica";
    assert "codEstDE"[0] == 'c' && "tpEst"[0] == 't' && "codEstATE"[6] == 'A' && "codEstDE"[6] == 'D';
    assert "telemetrica"[0] == 't' && "telemetrica"[1] == 'e' && |"telemetrica"| == 11;
    forall j | 0 <= j < 11 ensures q[j].0 != "telemetrica" {
      if j < 5 {
        if j == 0 {} else if j == 1 {} else if j == 2 {} else if j == 3 {} else {}
      } else {
        if j == 5 {} else if j == 6 {} else if j == 7 {} else if j == 8 {} else if j == 9 {} else {}
      }
    }
    LookupAt(q, 0);
    LookupAt(q, 2);
    LookupAt(q, 11);
    InventoryQueryBlanks(codigo, tipo, telemetrica);
  }

  lemma InventoryQueryBlanks(codigo: string, tipo: Arg, telemetrica: Arg)
    ensures var q := InventoryQuery(codigo, tipo, telemetrica);
      forall i | 0 <= i < 12 && i != 0 && i != 2 && i != 11 :: q[i].1 == ""
  {
    var q := InventoryQuery(codigo, tipo, telemetrica);
    forall i | 0 <= i < 12 && i != 0 && i != 2 && i != 11 ensures q[i].1 == "" {
      if i < 6 {
        if i == 1 {} else if i == 3 {} else if i == 4 {} else {}
      } else {
        if i == 6 {} else if i == 7 {} else if i == 8 {} else if i == 9 {} else {}
      }
    }
  }

  /** A decimal argument needs no escaping. */
  lemma RenderIsPlain(a: Arg)
    requires a.Num? || Plain(a.s)
    ensures Plain(Render(a))
  {
    if a.Num? {
      var n := a.n;
      if n < 0 {
        DigitsArePlain(Decimal(-n));
        assert Render(a) == "-" + Decimal(-n);
      } else {
        DigitsArePlain(Decimal(n));
      }
    }
  }

  /** With a code free of `&` and `=`, the service reads the inventory request back as sent. */
  lemma InventoryQueryReadsBack(codigo: string, tipo: Arg, telemetrica: Arg)
    requires Plain(codigo) && (tipo.Num? || Plain(tipo.s)) && (telemetrica.Num? || Plain(telemetrica.s))
    ensures Parse(Encode(InventoryQuery(codigo, tipo, telemetrica))) == InventoryQuery(codigo, tipo, telemetrica)
  {
    RenderIsPlain(tipo);
    RenderIsPlain(telemetrica);
    var q := InventoryQuery(codigo, tipo, telemetrica);
    InventoryKeysPlain(codigo, tipo, telemetrica);
    ParseEncode(q);
  }

  lemma InventoryKeysPlain(codigo: string, tipo: Arg, telemetrica: Arg)
    ensures forall i | 0 <= i < |InventoryQuery(codigo, tipo, telemetrica)| ::
      Plain(InventoryQuery(codigo, tipo, telemetrica)[i].0)
  {
    var q := InventoryQuery(codigo, tipo, telemetrica);
    forall i | 0 <= i < |q| ensures Plain(q[i].0) {
      KeyIsPlain(q[i].0);
    }
  }

  /**
   * The chuvisco/ANA.py `inventario` called with its defaults (`codigo=""`,
   * `tipoest=""`, `telemetrica=1`) sends an empty code and station type and
   * `telemetrica=1`, and keeps the telemetry period columns.
   */
  lemma ModuleInventoryDefaults()
    ensures var q := InventoryQuery("", Str(""), Num(1));
      Lookup(q, "codEstDE") == Some("") && Lookup(q, "tpEst") == Some("") &&
      Lookup(q, "telemetrica") == Some("1")
    ensures var columns := WithoutCode(Names(ModuleFields(Num(1))));
      "inicio_telemetria" in columns && "fim_telemetria" in columns && |columns| == 13
  {
    assert Render(Num(1)) == "1" by { assert Decimal(1) == "1"; }
    assert Render(Str("")) == "";
    InventoryQueryLookup("", Str(""), Num(1));
    assert Truthy(Num(1));
    TelemetryColumnsKept(Num(1));
  }

  /** The rain-gauge inventory of nuvem asks for station type 2 and the kinds requested. */
  lemma PluQuery(codigo: string, telemetrica: bool, convencional: bool)
    ensures var q := FlagsQuery(codigo, ArgPlu, telemetrica, convencional);
      Lookup(q, "tpEst") == Some("2") &&
      Lookup(q, "telemetrica") == Some(if telemetrica && !convencional then "1"
                                       else if convencional && !telemetrica then "0"
                                       else "")
  {
    assert Decimal(2) == "2" && Decimal(1) == "1" && Decimal(0) == "0";
    InventoryQueryLookup(codigo, ArgPlu, MeasurementArg(telemetrica, convencional));
  }

  // ---------------------------------------------------------------------
  // Inventory rows
  // ---------------------------------------------------------------------

  /** An inventory column and the `<Table>` child element it is read from. */
  type Field = (string, string)

  /** The columns of `processar_inventario`, in the order of its dictionary. */
  const InventoryFields: seq<Field> := [
    ("latitude", "Latitude"), ("longitude", "Longitude"), ("altitude", "Altitude"),
    ("codigo", "Codigo"), ("nome", "Nome"), ("estado", "nmEstado"), ("municipio", "nmMunicipio"),
    ("responsavel", "ResponsavelSigla"), ("ultima_att", "UltimaAtualizacao"), ("tipo", "TipoEstacao"),
    ("data_ins", "DataIns"), ("data_alt", "DataAlt"),
    ("inicio_telemetria", "PeriodoTelemetricaInicio"), ("fim_telemetria", "PeriodoTelemetricaFim")]

  /** The columns of the chuvisco/ANA.py inventory: the telemetry period only for a truthy `telemetrica`. */
  function ModuleFields(telemetrica: Arg): seq<Field>
  {
    InventoryFields[..12] + if Truthy(telemetrica) then InventoryFields[12..] else []
  }

  /** Position of `codigo` in both dictionaries. */
  const CodePosition: nat := 3

  function Tags(fields: seq<Field>): (r: seq<string>)
    ensures |r| == |fields| && forall i | 0 <= i < |fields| :: r[i] == fields[i].1
  {
    seq(|fields|, i requires 0 <= i < |fields| => fields[i].1)
  }

  function Names(fields: seq<Field>): (r: seq<string>)
    ensures |r| == |fields| && forall i | 0 <= i < |fields| :: r[i] == fields[i].0
  {
    seq(|fields|, i requires 0 <= i < |fields| => fields[i].0)
  }

  /** `set_index("codigo")`: the code column leaves the columns. */
  function WithoutCode<T>(s: seq<T>): (r: seq<T>)
    requires |s| > CodePosition
    ensures |r| == |s| - 1
    ensures forall j | 0 <= j < |r| :: r[j] == if j < CodePosition then s[j] else s[j + 1]
  {
    s[..CodePosition] + s[CodePosition + 1..]
  }

  /** A frame cell: a text as read from XML, or a number after `pd.to_numeric` (`None` is NaN in both). */
  datatype Cell = Text(text: Option<string>) | Number(number: Option<real>)

  /** One inventory row: its index (the station code) and its cells, column by column. */
  datatype Station = Station(codigo: Option<string>, cells: seq<Cell>)

  datatype Inventory = Inventory(columns: seq<string>, stations: seq<Station>)

  /** Every row has one cell per column, as in any data frame. */
  predicate Rectangular(inv: Inventory)
  {
    forall i | 0 <= i < |inv.stations| :: |inv.stations[i].cells| == |inv.columns|
  }

  function TextCells(texts: seq<Option<string>>): (r: seq<Cell>)
    ensures |r| == |texts| && forall i | 0 <= i < |texts| :: r[i] == Text(texts[i])
  {
    seq(|texts|, i requires 0 <= i < |texts| => Text(texts[i]))
  }

  /**
   * One `<Table>` element: every field read in dictionary order (an absent
   * element raises), the code becoming the index and the rest the cells.
   */
  function StationOf(table: Record, fields: seq<Field>): (r: Result<Station, Error>)
    requires |fields| > CodePosition
    ensures r.Success? <==> forall i | 0 <= i < |fields| :: fields[i].1 in table
    ensures r.Success? ==>
      r.value.codigo == table[fields[CodePosition].1] &&
      |r.value.cells| == |fields| - 1 &&
      forall j | 0 <= j < |fields| - 1 :: r.value.cells[j] == Text(table[WithoutCode(Tags(fields))[j]])
    ensures r.Failure? ==> exists i | 0 <= i < |fields| ::
      fields[i].1 !in table && r.error == MissingElement(fields[i].1) &&
      forall k | 0 <= k < i :: fields[k].1 in table
  {
    match ReadTags(table, Tags(fields))
    case Failure(e) => Failure(e)
    case Success(texts) => Success(Station(texts[CodePosition], TextCells(WithoutCode(texts))))
  }

  function StationsOf(tables: seq<Record>, fields: seq<Field>): (rs: seq<Result<Station, Error>>)
    requires |fields| > CodePosition
    ensures |rs| == |tables|
  {
    seq(|tables|, i requires 0 <= i < |tables| => StationOf(tables[i], fields))
  }

  /** The inventory the loop and `pd.concat(estacoes)` build; no `<Table>` at all raises. */
  function InventoryOf(tables: seq<Record>, fields: seq<Field>): (r: Result<Inventory, Error>)
    requires |fields| > CodePosition
    ensures r.Success? ==> Rectangular(r.value)
  {
    SequenceFacts(StationsOf(tables, fields));
    match Sequence(StationsOf(tables, fields))
    case Failure(e) => Failure(e)
    case Success(stations) =>
      if tables == [] then Failure(NothingToConcatenate)
      else Success(Inventory(WithoutCode(Names(fields)), stations))
  }

  /** `processar_inventario`: one row per `<Table>` element, then `pd.concat`. */
  method ProcessInventory(tables: seq<Record>, fields: seq<Field>) returns (r: Result<Inventory, Error>)
    requires |fields| > CodePosition
    ensures r == InventoryOf(tables, fields)
  {
    ghost var rs := StationsOf(tables, fields);
    var estacoes: seq<Station> := [];
    var i := 0;
    assert rs[0..] == rs;
    assert Sequence(rs).Success? ==> [] + Sequence(rs).value == Sequence(rs).value;
    while i < |tables|
      invariant 0 <= i <= |tables|
      invariant Sequence(rs) == Prepend(estacoes, Sequence(rs[i..]))
    {
      var station := StationOf(tables[i], fields);
      assert rs[i] == station;
      if station.Failure? {
        SequenceFrom(rs, i);
        return Failure(station.error);
      }
      SequenceStep(rs, estacoes, i);
      estacoes := estacoes + [station.value];
      i := i + 1;
    }
    assert rs[i..] == [];
    assert estacoes + [] == estacoes;
    if estacoes == [] {
      return Failure(NothingToConcatenate);
    }
    return Success(Inventory(WithoutCode(Names(fields)), estacoes));
  }

  /**
   * The inventory has exactly one row per `<Table>` element, in document
   * order, indexed by its `Codigo` text, one cell per remaining field; it
   * fails when there is no element or at the first element lacking a field.
   */
  lemma InventoryOfFacts(tables: seq<Record>, fields: seq<Field>)
    requires |fields| > CodePosition
    ensures InventoryOf(tables, fields).Success? <==>
      tables != [] && forall i | 0 <= i < |tables| :: StationOf(tables[i], fields).Success?
    ensures tables == [] ==> InventoryOf(tables, fields) == Failure(NothingToConcatenate)
    ensures InventoryOf(tables, fields).Success? ==>
      var inv := InventoryOf(tables, fields).value;
      inv.columns == WithoutCode(Names(fields)) && Rectangular(inv) &&
      |inv.stations| == |tables| &&
      forall i | 0 <= i < |tables| :: inv.stations[i] == StationOf(tables[i], fields).value &&
        inv.stations[i].codigo == tables[i][fields[CodePosition].1]
    ensures InventoryOf(tables, fields).Failure? && tables != [] ==> exists i | 0 <= i < |tables| ::
      StationOf(tables[i], fields).Failure? && InventoryOf(tables, fields).error == StationOf(tables[i], fields).error
  {
    var rs := StationsOf(tables, fields);
    SequenceFacts(rs);
    assert forall i | 0 <= i < |tables| :: rs[i] == StationOf(tables[i], fields);
  }

  /** The nuvem inventory has the code as index and these 13 columns. */
  lemma InventoryColumns()
    ensures WithoutCode(Names(InventoryFields)) ==
      ["latitude", "longitude", "altitude", "nome", "estado", "municipio", "responsavel",
       "ultima_att", "tipo", "data_ins", "data_alt", "inicio_telemetria", "fim_telemetria"]
    ensures |WithoutCode(Names(InventoryFields))| == 13
  {
  }

  /**
   * chuvisco/ANA.py: the telemetry-period columns are there exactly when
   * `telemetrica` is truthy, so `""` and 0 omit them and a `<Table>`
   * without those elements then still reads.
   */
  lemma ModuleTelemetryColumns(telemetrica: Arg)
    ensures var columns := WithoutCode(Names(ModuleFields(telemetrica)));
      ("inicio_telemetria" in columns <==> Truthy(telemetrica)) &&
      ("fim_telemetria" in columns <==> Truthy(telemetrica)) &&
      |columns| == if Truthy(telemetrica) then 13 else 11
    ensures !Truthy(telemetrica) ==> ("PeriodoTelemetricaInicio" !in Tags(ModuleFields(telemetrica)) &&
      "PeriodoTelemetricaFim" !in Tags(ModuleFields(telemetrica)))
  {
    if Truthy(telemetrica) {
      TelemetryColumnsKept(telemetrica);
    } else {
      TelemetryColumnsDropped(telemetrica);
    }
  }

  lemma TelemetryColumnsKept(telemetrica: Arg)
    requires Truthy(telemetrica)
    ensures var columns := WithoutCode(Names(ModuleFields(telemetrica)));
      "inicio_telemetria" in columns && "fim_telemetria" in columns && |columns| == 13
  {
    assert ModuleFields(telemetrica) == InventoryFields;
    InventoryColumns();
  }

  lemma TelemetryColumnsDropped(telemetrica: Arg)
    requires !Truthy(telemetrica)
    ensures var columns := WithoutCode(Names(ModuleFields(telemetrica)));
      "inicio_telemetria" !in columns && "fim_telemetria" !in columns && |columns| == 11
    ensures "PeriodoTelemetricaInicio" !in Tags(ModuleFields(telemetrica)) &&
      "PeriodoTelemetricaFim" !in Tags(ModuleFields(telemetrica))
  {
    BaseFields(telemetrica);
  }

  lemma BaseFields(telemetrica: Arg)
    requires !Truthy(telemetrica)
    ensures WithoutCode(Names(ModuleFields(telemetrica))) ==
      ["latitude", "longitude", "altitude", "nome", "estado", "municipio",
       "responsavel", "ultima_att", "tipo", "data_ins", "data_alt"]
    ensures Tags(ModuleFields(telemetrica)) ==
      ["Latitude", "Longitude", "Altitude", "Codigo", "Nome", "nmEstado",
       "nmMunicipio", "ResponsavelSigla", "UltimaAtualizacao", "TipoEstacao", "DataIns", "DataAlt"]
  {
    assert ModuleFields(telemetrica) == InventoryFields[..12] == [
      ("latitude", "Latitude"), ("longitude", "Longitude"), ("altitude", "Altitude"),
      ("codigo", "Codigo"), ("nome", "Nome"), ("estado", "nmEstado"), ("municipio", "nmMunicipio"),
      ("responsavel", "ResponsavelSigla"), ("ultima_att", "UltimaAtualizacao"), ("tipo", "TipoEstacao"),
      ("data_ins", "DataIns"), ("data_alt", "DataAlt")];
  }

  // ---------------------------------------------------------------------
  // Coordinates: inventario_plu / inventario_flu
  // ---------------------------------------------------------------------

  /** The position of the first column called `name`. */
  function ColumnIndex(columns: seq<string>, name: string): (r: Option<nat>)
    ensures r.Some? <==> name in columns
    ensures r.Some? ==> (r.value < |columns| && columns[r.value] == name &&
      forall k | 0 <= k < r.value :: columns[k] != name)
  {
    if columns == [] then None
    else if columns[0] == name then Some(0)
    else
      match ColumnIndex(columns[1..], name)
      case None => None
      case Some(k) => Some(k + 1)
  }

  /** `pd.to_numeric` on one cell: a text is read, a number stays. */
  function ToCell(c: Cell): (r: Result<Cell, Error>)
    ensures c.Number? ==> r == Success(c)
    ensures c.Text? ==> (r.Success? <==> NumericText(c.text))
    ensures c.Text? && r.Success? ==> r.value == Number(NumberOf(c.text))
  {
    match c
    case Number(_) => Success(c)
    case Text(t) =>
      match ToNumber(t)
      case Failure(e) => Failure(e)
      case Success(v) => Success(Number(v))
  }

  function Coerced(s: Station, k: nat): Result<Station, Error>
    requires k < |s.cells|
  {
    match ToCell(s.cells[k])
    case Failure(e) => Failure(e)
    case Success(c) => Success(Station(s.codigo, s.cells[k := c]))
  }

  /** `inventario[name] = pd.to_numeric(inventario[name])`. */
  function CoerceColumn(inv: Inventory, name: string): (r: Result<Inventory, Error>)
    requires Rectangular(inv)
    ensures r.Success? ==> r.value.columns == inv.columns && Rectangular(r.value)
  {
    match ColumnIndex(inv.columns, name)
    case None => Failure(MissingColumn(name))
    case Some(k) =>
      var stations := inv.stations;
      SequenceFacts(seq(|stations|, i requires 0 <= i < |stations| => Coerced(stations[i], k)));
      match Sequence(seq(|stations|, i requires 0 <= i < |stations| => Coerced(stations[i], k)))
      case Failure(e) => Failure(e)
      case Success(ss) => Success(Inventory(inv.columns, ss))
  }

  /**
   * Coercing a column fails when there is no such column or when a cell of
   * it is neither a number nor a numeric text; otherwise only that column
   * changes, each cell to its number, and the rows and their codes stay.
   */
  lemma CoerceColumnFacts(inv: Inventory, name: string)
    requires Rectangular(inv)
    ensures name !in inv.columns ==> CoerceColumn(inv, name) == Failure(MissingColumn(name))
    ensures name in inv.columns ==>
      var k := ColumnIndex(inv.columns, name).value;
      (CoerceColumn(inv, name).Success? <==>
        forall i | 0 <= i < |inv.stations| :: ToCell(inv.stations[i].cells[k]).Success?)
    ensures CoerceColumn(inv, name).Success? ==>
      var k := ColumnIndex(inv.columns, name).value;
      var out := CoerceColumn(inv, name).value;
      out.columns == inv.columns && Rectangular(out) && |out.stations| == |inv.stations| &&
      forall i | 0 <= i < |inv.stations| ::
        out.stations[i].codigo == inv.stations[i].codigo &&
        out.stations[i].cells == inv.stations[i].cells[k := ToCell(inv.stations[i].cells[k]).value]
  {
    if name in inv.columns {
      var k := ColumnIndex(inv.columns, name).value;
      var stations := inv.stations;
      var rs := seq(|stations|, i requires 0 <= i < |stations| => Coerced(stations[i], k));
      SequenceFacts(rs);
      if Sequence(rs).Success? {
        var out := Inventory(inv.columns, Sequence(rs).value);
        forall i | 0 <= i < |stations|
          ensures Coerced(stations[i], k).Success? && out.stations[i] == Coerced(stations[i], k).value
          ensures out.stations[i].codigo == stations[i].codigo
          ensures out.stations[i].cells == stations[i].cells[k := ToCell(stations[i].cells[k]).value]
        {
          assert rs[i] == Coerced(stations[i], k);
        }
      }
    }
  }

  /** `for coordenada in ["latitude", "longitude"]`: both coordinate columns become numbers. */
  function Located(inv: Inventory): Result<Inventory, Error>
    requires Rectangular(inv)
  {
    match CoerceColumn(inv, "latitude")
    case Failure(e) => Failure(e)
    case Success(withLatitude) => CoerceColumn(withLatitude, "longitude")
  }

  /**
   * `inventario_plu`/`inventario_flu` (nuvem/ANA/api.py and
   * chuvisco/ANA/api.py): the processed inventory with numeric coordinates.
   */
  function PluInventory(tables: seq<Record>): Result<Inventory, Error>
  {
    match InventoryOf(tables, InventoryFields)
    case Failure(e) => Failure(e)
    case Success(inv) => Located(inv)
  }

  /**
   * Coordinates in the first two columns: the inventory is located exactly
   * when both cells of every row coerce, and then those two cells become
   * numbers and nothing else changes.
   */
  lemma LocatedFacts(inv: Inventory)
    requires Rectangular(inv)
    requires |inv.columns| >= 2 && inv.columns[0] == "latitude" && inv.columns[1] == "longitude"
    ensures Located(inv).Success? <==>
      forall i | 0 <= i < |inv.stations| ::
        ToCell(inv.stations[i].cells[0]).Success? && ToCell(inv.stations[i].cells[1]).Success?
    ensures Located(inv).Success? ==>
      var out := Located(inv).value;
      out.columns == inv.columns && |out.stations| == |inv.stations| &&
      forall i | 0 <= i < |inv.stations| ::
        out.stations[i].codigo == inv.stations[i].codigo &&
        |out.stations[i].cells| == |inv.stations[i].cells| &&
        out.stations[i].cells[0] == ToCell(inv.stations[i].cells[0]).value &&
        out.stations[i].cells[1] == ToCell(inv.stations[i].cells[1]).value &&
        forall j | 2 <= j < |inv.stations[i].cells| :: out.stations[i].cells[j] == inv.stations[i].cells[j]
  {
    assert ColumnIndex(inv.columns, "latitude") == Some(0);
    CoerceColumnFacts(inv, "latitude");
    var lat := CoerceColumn(inv, "latitude");
    if lat.Success? {
      assert ColumnIndex(lat.value.columns, "longitude") == Some(1);
      CoerceColumnFacts(lat.value, "longitude");
      if Located(inv).Success? {
        var out := Located(inv).value;
        forall i | 0 <= i < |inv.stations|
          ensures out.stations[i].cells[0] == ToCell(inv.stations[i].cells[0]).value
          ensures out.stations[i].cells[1] == ToCell(inv.stations[i].cells[1]).value
          ensures forall j | 2 <= j < |inv.stations[i].cells| :: out.stations[i].cells[j] == inv.stations[i].cells[j]
        {
          var cells := inv.stations[i].cells;
          assert lat.value.stations[i].cells[1] == cells[1];
          UpdateFirstTwo(cells, ToCell(cells[0]).value, ToCell(cells[1]).value);
        }
      }
    }
  }

  /** What the processed nuvem inventory holds in its first two cells and its index. */
  lemma InventoryCells(tables: seq<Record>)
    requires InventoryOf(tables, InventoryFields).Success?
    ensures forall i | 0 <= i < |tables| ::
      "Latitude" in tables[i] && "Longitude" in tables[i] && "Codigo" in tables[i]
    ensures var inv := InventoryOf(tables, InventoryFields).value;
      Rectangular(inv) && inv.columns[0] == "latitude" && inv.columns[1] == "longitude" &&
      |inv.columns| == 13 && |inv.stations| == |tables| &&
      forall i | 0 <= i < |tables| ::
        inv.stations[i].codigo == tables[i]["Codigo"] &&
        inv.stations[i].cells[0] == Text(tables[i]["Latitude"]) &&
        inv.stations[i].cells[1] == Text(tables[i]["Longitude"])
  {
    InventoryOfFacts(tables, InventoryFields);
    InventoryColumns();
    var tags := Tags(InventoryFields);
    assert tags[0] == "Latitude" && tags[1] == "Longitude" && tags[CodePosition] == "Codigo";
    assert WithoutCode(tags)[0] == "Latitude" && WithoutCode(tags)[1] == "Longitude";
  }

  /**
   * For a processed inventory, the coordinates become numbers exactly when
   * every `Latitude` and `Longitude` text is numeric.
   */
  lemma PluInventorySucceeds(tables: seq<Record>)
    requires InventoryOf(tables, InventoryFields).Success?
    ensures forall i | 0 <= i < |tables| :: "Latitude" in tables[i] && "Longitude" in tables[i]
    ensures PluInventory(tables).Success? <==>
      forall i | 0 <= i < |tables| :: NumericText(tables[i]["Latitude"]) && NumericText(tables[i]["Longitude"])
  {
    var inv := InventoryOf(tables, InventoryFields).value;
    InventoryCells(tables);
    assert PluInventory(tables) == Located(inv);
    LocatedFacts(inv);
  }

  /** The coordinates are the numbers of the `Latitude` and `Longitude` texts, and the codes are kept. */
  lemma PluInventoryCells(tables: seq<Record>)
    requires InventoryOf(tables, InventoryFields).Success?
    requires PluInventory(tables).Success?
    ensures forall i | 0 <= i < |tables| :: "Latitude" in tables[i] && "Longitude" in tables[i] && "Codigo" in tables[i]
    ensures var inv := InventoryOf(tables, InventoryFields).value;
      var out := PluInventory(tables).value;
      out.columns == inv.columns && |out.stations| == |tables| &&
      forall i | 0 <= i < |tables| ::
        out.stations[i].codigo == tables[i]["Codigo"] && |out.stations[i].cells| == 13 &&
        out.stations[i].cells[0] == Number(NumberOf(tables[i]["Latitude"])) &&
        out.stations[i].cells[1] == Number(NumberOf(tables[i]["Longitude"]))
  {
    var inv := InventoryOf(tables, InventoryFields).value;
    InventoryCells(tables);
    assert PluInventory(tables) == Located(inv);
    LocatedFacts(inv);
    var out := Located(inv).value;
    forall i | 0 <= i < |tables|
      ensures out.stations[i].codigo == tables[i]["Codigo"] && |out.stations[i].cells| == 13
      ensures out.stations[i].cells[0] == Number(NumberOf(tables[i]["Latitude"]))
      ensures out.stations[i].cells[1] == Number(NumberOf(tables[i]["Longitude"]))
    {
      var c0, c1 := inv.stations[i].cells[0], inv.stations[i].cells[1];
      assert c0 == Text(tables[i]["Latitude"]) && c1 == Text(tables[i]["Longitude"]);
      assert out.stations[i].cells[0] == ToCell(c0).value;
      assert out.stations[i].cells[1] == ToCell(c1).value;
    }
  }

  lemma UpdateFirstTwo<T>(s: seq<T>, a: T, b: T)
    requires |s| >= 2
    ensures s[0 := a][1 := b][0] == a && s[0 := a][1 := b][1] == b
    ensures forall j | 2 <= j < |s| :: s[0 := a][1 := b][j] == s[j]
  {
  }
}
