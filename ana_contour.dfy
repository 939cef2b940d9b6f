/**
 * `obter_chuva_no_contorno` of nuvem/ANA/api.py: the rain-gauge inventory
 * (the one supplied, or the one fetched), the stations inside the contour,
 * one rain series per station, de-duplicated, joined column-wise.
 */
module AnaContour {
  import opened Wrappers
  import opened Calendar
  import opened Series
  import opened AnaSeries
  import opened AnaInventory

  /** A station code as the index value the loop hands to `obter_chuva`. */
  function Label(c: Option<string>): string
  {
    match c
    case None => "None"
    case Some(s) => s
  }

  /**
   * The codes of the stations, in inventory order, whose coordinate cells
   * `inside` accepts; `inside` stands for the point-in-contour test of the
   * spatial join, which is not part of this model (nor are the rows the
   * right join adds for a polygon without stations or for a station in
   * several polygons).
   */
  function Inside(stations: seq<Station>, a: nat, b: nat, inside: (Cell, Cell) -> bool): (codes: seq<string>)
    requires forall i | 0 <= i < |stations| :: a < |stations[i].cells| && b < |stations[i].cells|
    ensures |codes| <= |stations|
    ensures forall c | c in codes :: exists i | 0 <= i < |stations| ::
      c == Label(stations[i].codigo) && inside(stations[i].cells[a], stations[i].cells[b])
    ensures forall i | 0 <= i < |stations| && inside(stations[i].cells[a], stations[i].cells[b]) ::
      Label(stations[i].codigo) in codes
    ensures |codes| == |stations| <==>
      forall i | 0 <= i < |stations| :: inside(stations[i].cells[a], stations[i].cells[b])
  {
    if stations == [] then []
    else
      var rest := Inside(stations[1..], a, b, inside);
      assert forall i | 0 <= i < |stations[1..]| :: stations[1..][i] == stations[i + 1];
      if inside(stations[0].cells[a], stations[0].cells[b]) then [Label(stations[0].codigo)] + rest else rest
  }

  /**
   * The selection keeps inventory order: selecting from two consecutive
   * parts of the inventory gives the first part's codes, then the second's.
   */
  lemma {:induction false} InsideConcat(s: seq<Station>, t: seq<Station>, a: nat, b: nat, inside: (Cell, Cell) -> bool)
    requires forall i | 0 <= i < |s| :: a < |s[i].cells| && b < |s[i].cells|
    requires forall i | 0 <= i < |t| :: a < |t[i].cells| && b < |t[i].cells|
    ensures forall i | 0 <= i < |s + t| :: a < |(s + t)[i].cells| && b < |(s + t)[i].cells|
    ensures Inside(s + t, a, b, inside) == Inside(s, a, b, inside) + Inside(t, a, b, inside)
    decreases |s|
  {
    assert forall i | 0 <= i < |s + t| :: (s + t)[i] == if i < |s| then s[i] else t[i - |s|];
    if s == [] {
      assert s + t == t;
    } else {
      assert (s + t)[1..] == s[1..] + t;
      assert forall i | 0 <= i < |s[1..]| :: s[1..][i] == s[i + 1];
      InsideConcat(s[1..], t, a, b, inside);
    }
  }

  /** One station is selected exactly when the contour test accepts its coordinates. */
  lemma InsideOne(x: Station, a: nat, b: nat, inside: (Cell, Cell) -> bool)
    requires a < |x.cells| && b < |x.cells|
    ensures Inside([x], a, b, inside) == if inside(x.cells[a], x.cells[b]) then [Label(x.codigo)] else []
  {
    assert [x][1..] == [];
  }

  /** `inventario_ana[["latitude", "longitude"]]` (a missing column raises KeyError), then the spatial selection. */
  function Selection(inv: Inventory, inside: (Cell, Cell) -> bool): Result<seq<string>, Error>
    requires Rectangular(inv)
  {
    match ColumnIndex(inv.columns, "latitude")
    case None => Failure(MissingColumn("latitude"))
    case Some(a) =>
      match ColumnIndex(inv.columns, "longitude")
      case None => Failure(MissingColumn("longitude"))
      case Some(b) => Success(Inside(inv.stations, a, b, inside))
  }

  /** The supplied inventory when there is one, otherwise `inventario_plu` on the fetched `<Table>` records. */
  function ContourInventory(supplied: Option<Inventory>, fetched: seq<Record>): (r: Result<Inventory, Error>)
    requires supplied.Some? ==> Rectangular(supplied.value)
    ensures r.Success? ==> Rectangular(r.value)
  {
    match supplied
    case Some(inv) => Success(inv)
    case None =>
      match PluInventory(fetched)
      case Failure(e) => Failure(e)
      case Success(inv) => Success(inv)
  }

  /** One station's column: `obter_chuva`, then `duplicated(keep="first")` once more. */
  function StationColumn(code: string, months: seq<Record>): Result<(string, seq<Row<Option<real>>>), Error>
  {
    match Rain(Nuvem, code, months)
    case Failure(e) => Failure(e)
    case Success(f) => Success((f.column, DropDuplicateDates(f.rows)))
  }

  /** A station's rain series, as the loop body fetches it. */
  method StationSeries(code: string, months: seq<Record>) returns (r: Result<(string, seq<Row<Option<real>>>), Error>)
    ensures r == StationColumn(code, months)
  {
    var chuva := RainSeries(Nuvem, code, months);
    if chuva.Failure? {
      return Failure(chuva.error);
    }
    var rows := DropDuplicateDates(chuva.value.rows);
    return Success((chuva.value.column, rows));
  }

  /** The second de-duplication changes nothing: the column is the station's rain series as `obter_chuva` returns it. */
  lemma StationColumnFacts(code: string, months: seq<Record>)
    requires StationColumn(code, months).Success?
    ensures Rain(Nuvem, code, months).Success?
    ensures StationColumn(code, months).value.0 == code
    ensures StationColumn(code, months).value.1 == Rain(Nuvem, code, months).value.rows
    ensures DatesIncreasing(StationColumn(code, months).value.1)
  {
    NuvemRainIncreasing(code, months);
    var rows := Rain(Nuvem, code, months).value.rows;
    assert DatesDistinct(rows) by {
      forall i, j | 0 <= i < j < |rows| ensures rows[i].0 != rows[j].0 {
        assert Key(rows[i].0) < Key(rows[j].0);
      }
    }
    DropDuplicateDatesDistinct(rows);
  }

  function StationColumns(codes: seq<string>, responses: string -> seq<Record>): (rs: seq<Result<(string, seq<Row<Option<real>>>), Error>>)
    ensures |rs| == |codes|
  {
    seq(|codes|, i requires 0 <= i < |codes| => StationColumn(codes[i], responses(codes[i])))
  }

  /**
   * The whole call, with the month records of each station's response
   * given by `responses`: the first error raised escapes, and no station
   * inside the contour makes the final `pd.concat` raise.
   */
  function ContourRain(supplied: Option<Inventory>, fetched: seq<Record>, inside: (Cell, Cell) -> bool,
                       responses: string -> seq<Record>): Result<Wide<real>, Error>
    requires supplied.Some? ==> Rectangular(supplied.value)
  {
    match ContourInventory(supplied, fetched)
    case Failure(e) => Failure(e)
    case Success(inv) =>
      match Selection(inv, inside)
      case Failure(e) => Failure(e)
      case Success(codes) =>
        match Sequence(StationColumns(codes, responses))
        case Failure(e) => Failure(e)
        case Success(columns) => JoinColumns(columns)
  }

  /** The station loop of `obter_chuva_no_contorno`, appending to `lista_chuva_postos`. */
  method StationLoop(codes: seq<string>, responses: string -> seq<Record>)
    returns (r: Result<seq<(string, seq<Row<Option<real>>>)>, Error>)
    ensures r == Sequence(StationColumns(codes, responses))
  {
    ghost var rs := StationColumns(codes, responses);
    var lista: seq<(string, seq<Row<Option<real>>>)> := [];
    var i := 0;
    assert rs[0..] == rs;
    assert Sequence(rs).Success? ==> [] + Sequence(rs).value == Sequence(rs).value;
    while i < |codes|
      invariant 0 <= i <= |codes|
      invariant Sequence(rs) == Prepend(lista, Sequence(rs[i..]))
    {
      var chuva := StationSeries(codes[i], responses(codes[i]));
      assert rs[i] == chuva;
      if chuva.Failure? {
        SequenceFrom(rs, i);
        return Failure(chuva.error);
      }
      var column := chuva.value;
      SequenceStep(rs, lista, i);
      lista := lista + [column];
      i := i + 1;
    }
    assert rs[i..] == [];
    assert lista + [] == lista;
    return Success(lista);
  }

  /** `obter_chuva_no_contorno`: the inventory, the selection, the station loop, the column join. */
  method RainInContour(supplied: Option<Inventory>, fetched: seq<Record>, inside: (Cell, Cell) -> bool,
                       responses: string -> seq<Record>) returns (r: Result<Wide<real>, Error>)
    requires supplied.Some? ==> Rectangular(supplied.value)
    ensures r == ContourRain(supplied, fetched, inside, responses)
  {
    var inventario := ContourInventory(supplied, fetched);
    if inventario.Failure? {
      return Failure(inventario.error);
    }
    var selecao := Selection(inventario.value, inside);
    if selecao.Failure? {
      return Failure(selecao.error);
    }
    var lista := StationLoop(selecao.value, responses);
    if lista.Failure? {
      return Failure(lista.error);
    }
    return JoinColumns(lista.value);
  }

  /** A supplied inventory is used as it is: the fetched records then play no part. */
  lemma SuppliedInventoryWins(inv: Inventory, fetched: seq<Record>, other: seq<Record>,
                              inside: (Cell, Cell) -> bool, responses: string -> seq<Record>)
    requires Rectangular(inv)
    ensures ContourRain(Some(inv), fetched, inside, responses) == ContourRain(Some(inv), other, inside, responses)
    ensures ContourInventory(Some(inv), fetched) == Success(inv)
  {
  }

  /** An empty selection makes the final concat raise. */
  lemma EmptySelectionRaises(supplied: Option<Inventory>, fetched: seq<Record>, inside: (Cell, Cell) -> bool,
                             responses: string -> seq<Record>)
    requires supplied.Some? ==> Rectangular(supplied.value)
    requires ContourInventory(supplied, fetched).Success?
    requires Selection(ContourInventory(supplied, fetched).value, inside) == Success([])
    ensures ContourRain(supplied, fetched, inside, responses) == Failure(NothingToConcatenate)
  {
    assert StationColumns([], responses) == [];
  }

  /**
   * When every station's series reads, the result has one column per
   * selected station, named by its code and in selection order; each
   * column is that station's rain series with strictly increasing dates.
   */
  lemma ContourColumns(codes: seq<string>, responses: string -> seq<Record>)
    requires Sequence(StationColumns(codes, responses)).Success?
    ensures var columns := Sequence(StationColumns(codes, responses)).value;
      |columns| == |codes| &&
      forall c | 0 <= c < |codes| ::
        Rain(Nuvem, codes[c], responses(codes[c])).Success? &&
        columns[c].0 == codes[c] &&
        columns[c].1 == Rain(Nuvem, codes[c], responses(codes[c])).value.rows &&
        DatesIncreasing(columns[c].1)
  {
    var rs := StationColumns(codes, responses);
    SequenceFacts(rs);
    forall c | 0 <= c < |codes|
      ensures Rain(Nuvem, codes[c], responses(codes[c])).Success?
      ensures Sequence(rs).value[c].0 == codes[c]
      ensures Sequence(rs).value[c].1 == Rain(Nuvem, codes[c], responses(codes[c])).value.rows
      ensures DatesIncreasing(Sequence(rs).value[c].1)
    {
      assert rs[c] == StationColumn(codes[c], responses(codes[c]));
      StationColumnFacts(codes[c], responses(codes[c]));
    }
  }
}
