/**
 * The response of a basin to a rain event by discrete convolution of the
 * unit hydrograph (`convolucao`).
 *
 * The unit hydrograph is the list of its `m` ordinates; the rain is `n`
 * blocks. The working frame starts as an m-by-m table of NaN with one column
 * per ordinate; column `j` receives P_i·U_j in row j+i for every effective
 * rain block P_i, a missing row being appended when the write falls one row
 * past the end. All-NaN columns are then dropped, Q is the NaN-skipping row
 * sum and the effective rain is put next to it.
 */
module Calculos {
  import opened Wrappers
  import opened Text

  type Cell = Option<real>
  type Grid = seq<seq<Cell>>

  /** The rain blocks are given in millimetres and the ordinates per 10 mm. */
  const Multiplo: real := 10.0

  /** The effective rain: every block divided by `multiplo`. */
  function Effective(chuva: seq<real>): (p: seq<real>)
    ensures |p| == |chuva|
    ensures forall i | 0 <= i < |chuva| :: p[i] * Multiplo == chuva[i]
  {
    seq(|chuva|, i requires 0 <= i < |chuva| => chuva[i] / Multiplo)
  }

  // ---------------------------------------------------------------------
  // The working frame while the loops run
  // ---------------------------------------------------------------------

  /** The number of rows once column `j` has received its first `i` blocks. */
  function RowsAfter(m: nat, n: nat, j: nat, i: nat): nat
  {
    if j == 0 then Max(m, i) else Max(m, Max(j - 1 + n, j + i))
  }

  /** Whether the cell in row `k`, column `c` holds a product at that point. */
  predicate Written(n: nat, j: nat, i: nat, k: int, c: int)
  {
    0 <= k - c < n && (c < j || (c == j && k - c < i))
  }

  /** `chuva_efetiva[ix_chuva] * vazao`. */
  function Times(x: real, y: real): real { x * y }

  /** The cell in row `k`, column `c` at that point: P_(k-c)·U_c once written, NaN before. */
  function CellAt(p: seq<real>, u: seq<real>, j: nat, i: nat, k: int, c: int): Cell
    requires 0 <= c < |u|
  {
    if Written(|p|, j, i, k, c) then Some(Times(p[k - c], u[c])) else None
  }

  /** The frame once column `j` has received its first `i` blocks. */
  function Partial(p: seq<real>, u: seq<real>, j: nat, i: nat): Grid
  {
    seq(RowsAfter(|u|, |p|, j, i), k => seq(|u|, c requires 0 <= c < |u| => CellAt(p, u, j, i, k, c)))
  }

  predicate Rectangular(g: Grid, width: nat)
  {
    forall k | 0 <= k < |g| :: |g[k]| == width
  }

  /**
   * `secao_vazoes.iloc[r, c] = v`, and on IndexError one NaN row appended
   * before the write is tried again.
   */
  function Assign(g: Grid, r: nat, c: nat, v: real, width: nat): (h: Grid)
    requires Rectangular(g, width) && r <= |g| && c < width
    ensures Rectangular(h, width)
  {
    var g' := if r < |g| then g else g + [seq(width, _ => None)];
    g'[r := g'[r][c := Some(v)]]
  }

  lemma PartialStart(p: seq<real>, u: seq<real>)
    ensures Partial(p, u, 0, 0) == seq(|u|, _ => seq(|u|, _ => None))
  {
    var g, e := Partial(p, u, 0, 0), seq(|u|, _ => seq(|u|, _ => None));
    forall k | 0 <= k < |u| ensures g[k] == e[k] {
      assert forall c | 0 <= c < |u| :: g[k][c] == None;
    }
  }

  /** The write of block `i` into column `j` lands at most one row past the end. */
  lemma PartialShape(p: seq<real>, u: seq<real>, j: nat, i: nat)
    ensures Rectangular(Partial(p, u, j, i), |u|)
    ensures j + i <= |Partial(p, u, j, i)|
  {
  }

  /** Block `i` of column `j` writes exactly one cell: row j+i of column `j`. */
  lemma CellStep(p: seq<real>, u: seq<real>, j: nat, i: nat, k: int, c: int)
    requires i < |p| && 0 <= c < |u|
    ensures CellAt(p, u, j, i + 1, k, c) ==
      if k == j + i && c == j then Some(Times(p[i], u[j])) else CellAt(p, u, j, i, k, c)
  {
  }

  /** Writing block `i` of column `j` — appending a row when needed — gives the next frame. */
  lemma PartialStep(p: seq<real>, u: seq<real>, j: nat, i: nat)
    requires j < |u| && i < |p|
    ensures Rectangular(Partial(p, u, j, i), |u|) && j + i <= |Partial(p, u, j, i)|
    ensures Partial(p, u, j, i + 1) == Assign(Partial(p, u, j, i), j + i, j, Times(p[i], u[j]), |u|)
  {
    var g := Partial(p, u, j, i);
    var next := Partial(p, u, j, i + 1);
    PartialShape(p, u, j, i);
    var a := Assign(g, j + i, j, Times(p[i], u[j]), |u|);
    assert |next| == |a|;
    forall k | 0 <= k < |a| ensures next[k] == a[k] {
      forall c | 0 <= c < |u| ensures next[k][c] == a[k][c] {
        assert next[k][c] == CellAt(p, u, j, i + 1, k, c);
        CellStep(p, u, j, i, k, c);
        if k < |g| {
          assert g[k][c] == CellAt(p, u, j, i, k, c);
        } else if k != j + i || c != j {
          assert j > 0 ==> j - 1 + |p| <= j + i;
          assert !Written(|p|, j, i, k, c);
        }
      }
    }
  }

  /** A column that has received every block hands over to the next column. */
  lemma ColumnDone(p: seq<real>, u: seq<real>, j: nat)
    requires j < |u|
    ensures Partial(p, u, j, |p|) == Partial(p, u, j + 1, 0)
  {
    var g, h := Partial(p, u, j, |p|), Partial(p, u, j + 1, 0);
    assert |g| == |h|;
    forall k | 0 <= k < |g| ensures g[k] == h[k] {
      assert forall c | 0 <= c < |u| :: Written(|p|, j, |p|, k, c) == Written(|p|, j + 1, 0, k, c);
    }
  }

  // ---------------------------------------------------------------------
  // After the loops: dropna, Q and the rain column
  // ---------------------------------------------------------------------

  predicate HasValue(g: Grid, c: nat)
  {
    exists k | 0 <= k < |g| :: c < |g[k]| && g[k][c].Some?
  }

  /** `dropna(axis=1, how="all")`: the positions of the columns holding some value. */
  function KeptColumns(g: Grid, width: nat, c: nat): (cs: seq<nat>)
    ensures forall t | 0 <= t < |cs| :: c <= cs[t] < width
    decreases width - c
  {
    if c >= width then []
    else (if HasValue(g, c) then [c] else []) + KeptColumns(g, width, c + 1)
  }

  function Sum(lo: int, hi: int, f: int -> real): real
    decreases hi - lo
  {
    if lo >= hi then 0.0 else f(lo) + Sum(lo + 1, hi, f)
  }

  function ValueOr0(x: Cell): real { if x.Some? then x.value else 0.0 }

  /** `sum(axis=1)`: NaN cells are skipped. */
  function RowSum(row: seq<Cell>): real
  {
    Sum(0, |row|, c => if 0 <= c < |row| then ValueOr0(row[c]) else 0.0)
  }

  /** The result frame: the kept ordinate columns, Q, and the effective rain. */
  datatype Section = Section(ordinates: seq<real>, cells: Grid, q: seq<real>, chuva: seq<Cell>)

  /** The steps after the loops on a finished frame `g` of width |u|. */
  function Finish(p: seq<real>, u: seq<real>, g: Grid): Section
    requires Rectangular(g, |u|)
  {
    var kept := KeptColumns(g, |u|, 0);
    var cells := seq(|g|, k requires 0 <= k < |g| => seq(|kept|, t requires 0 <= t < |kept| => g[k][kept[t]]));
    Section(
      seq(|kept|, t requires 0 <= t < |kept| => u[kept[t]]),
      cells,
      seq(|g|, k requires 0 <= k < |g| => RowSum(cells[k])),
      seq(|g|, k => if 0 <= k < |p| then Some(p[k]) else None))
  }

  /**
   * `convolucao` with the rain list as input. With no ordinates the list of
   * columns is empty and `pd.concat` raises.
   */
  function Response(chuva: seq<real>, u: seq<real>): Result<Section, Error>
  {
    if |u| == 0 then Failure(NothingToConcatenate)
    else
      var p := Effective(chuva);
      PartialShape(p, u, |u|, 0);
      Success(Finish(p, u, Partial(p, u, |u|, 0)))
  }

  /** `convolucao`: the nested loops fill the frame, then the frame is finished. */
  method Convolucao(chuva: seq<real>, vazoes: seq<real>) returns (r: Result<Section, Error>)
    ensures r == Response(chuva, vazoes)
  {
    var chuva_efetiva := Effective(chuva);
    var m := |vazoes|;
    if m == 0 {
      return Failure(NothingToConcatenate);
    }
    var secao_vazoes: Grid := seq(m, _ => seq(m, _ => None));
    PartialStart(chuva_efetiva, vazoes);
    var inicio := 0;
    var ix_vazao := 0;
    while ix_vazao < m
      invariant 0 <= ix_vazao <= m && inicio == ix_vazao
      invariant secao_vazoes == Partial(chuva_efetiva, vazoes, ix_vazao, 0)
    {
      var vazao := vazoes[ix_vazao];
      var ix_chuva := 0;
      while ix_chuva < |chuva_efetiva|
        invariant 0 <= ix_chuva <= |chuva_efetiva|
        invariant secao_vazoes == Partial(chuva_efetiva, vazoes, ix_vazao, ix_chuva)
      {
        PartialStep(chuva_efetiva, vazoes, ix_vazao, ix_chuva);
        ghost var before := secao_vazoes;
        var linha := inicio + ix_chuva;
        if linha >= |secao_vazoes| {
          secao_vazoes := secao_vazoes + [seq(m, _ => None)];
        }
        secao_vazoes := secao_vazoes[linha := secao_vazoes[linha][ix_vazao := Some(Times(chuva_efetiva[ix_chuva], vazao))]];
        assert secao_vazoes == Assign(before, linha, ix_vazao, Times(chuva_efetiva[ix_chuva], vazao), m);
        ix_chuva := ix_chuva + 1;
      }
      ColumnDone(chuva_efetiva, vazoes, ix_vazao);
      inicio := inicio + 1;
      ix_vazao := ix_vazao + 1;
    }
    PartialShape(chuva_efetiva, vazoes, m, 0);
    r := Success(Finish(chuva_efetiva, vazoes, secao_vazoes));
  }

  // ---------------------------------------------------------------------
  // What the result is
  // ---------------------------------------------------------------------

  /** The product of rain block `i` with the ordinate that meets it at interval `k`, zero when there is none. */
  function Term(p: seq<real>, u: seq<real>, k: int, i: int): real
  {
    if 0 <= i < |p| && 0 <= k - i < |u| then Times(p[i], u[k - i]) else 0.0
  }

  /** The discrete convolution Q_k = Σ_{i+j=k} P_i·U_j, summed over the rain blocks. */
  function Convolution(p: seq<real>, u: seq<real>, k: int): real
  {
    Sum(0, |p|, i => Term(p, u, k, i))
  }

  function Larger(a: int, b: int): int { if a < b then b else a }

  function Smaller(a: int, b: int): int { if a < b then a else b }

  lemma {:induction false} SumExt(lo: int, hi: int, f: int -> real, g: int -> real)
    requires forall x | lo <= x < hi :: f(x) == g(x)
    ensures Sum(lo, hi, f) == Sum(lo, hi, g)
    decreases hi - lo
  {
    if lo < hi {
      SumExt(lo + 1, hi, f, g);
    }
  }

  lemma {:induction false} SumLast(lo: int, hi: int, f: int -> real)
    requires lo < hi
    ensures Sum(lo, hi, f) == Sum(lo, hi - 1, f) + f(hi - 1)
    decreases hi - lo
  {
    if lo + 1 < hi {
      SumLast(lo + 1, hi, f);
    }
  }

  /** Summing f(k - x) for x in [lo, hi) is summing f over (k - hi, k - lo]. */
  lemma {:induction false} SumReflect(lo: int, hi: int, k: int, f: int -> real, g: int -> real)
    requires forall x | lo <= x < hi :: g(x) == f(k - x)
    ensures Sum(lo, hi, g) == Sum(k - hi + 1, k - lo + 1, f)
    decreases hi - lo
  {
    if lo < hi {
      SumReflect(lo + 1, hi, k, f, g);
      SumLast(k - hi + 1, k - lo + 1, f);
    }
  }

  /** Terms that vanish outside [a, b) can be left out of a sum. */
  lemma {:induction false} SumWindow(lo: int, hi: int, a: int, b: int, f: int -> real)
    requires forall x | lo <= x < hi && !(a <= x < b) :: f(x) == 0.0
    ensures Sum(lo, hi, f) == Sum(Larger(lo, a), Smaller(hi, b), f)
    decreases hi - lo
  {
    if lo < hi {
      SumWindow(lo + 1, hi, a, b, f);
    }
  }

  /** The rows of the finished frame are the rows the loops leave, every column holding a value once it rained. */
  lemma FinishedFrame(p: seq<real>, u: seq<real>)
    requires |u| > 0
    ensures |Partial(p, u, |u|, 0)| == if |p| == 0 then |u| else |u| + |p| - 1
    ensures |p| > 0 ==> KeptColumns(Partial(p, u, |u|, 0), |u|, 0) == seq(|u|, t => t)
    ensures |p| == 0 ==> KeptColumns(Partial(p, u, |u|, 0), |u|, 0) == []
  {
    var g := Partial(p, u, |u|, 0);
    PartialShape(p, u, |u|, 0);
    if |p| > 0 {
      forall c | 0 <= c < |u| ensures HasValue(g, c) {
        assert g[c][c] == CellAt(p, u, |u|, 0, c, c);
      }
      KeptAll(g, |u|, 0);
    } else {
      forall c | 0 <= c < |u| ensures !HasValue(g, c) {
        forall k | 0 <= k < |g| ensures g[k][c].None? {
          assert g[k][c] == CellAt(p, u, |u|, 0, k, c);
        }
      }
      KeptNone(g, |u|, 0);
    }
  }

  lemma {:induction false} KeptAll(g: Grid, width: nat, c: nat)
    requires c <= width
    requires forall c' | c <= c' < width :: HasValue(g, c')
    ensures KeptColumns(g, width, c) == seq(width - c, t => c + t)
    decreases width - c
  {
    if c < width {
      KeptAll(g, width, c + 1);
    }
  }

  lemma {:induction false} KeptNone(g: Grid, width: nat, c: nat)
    requires forall c' | c <= c' < width :: !HasValue(g, c')
    ensures KeptColumns(g, width, c) == []
    decreases width - c
  {
    if c < width {
      KeptNone(g, width, c + 1);
    }
  }

  /**
   * `convolucao` fails only for an empty unit hydrograph. Otherwise the
   * frame has m + n - 1 rows (m without rain, when every column is dropped
   * as all-NaN); cell (k, c) of ordinate U_c holds P_(k-c)·U_c when
   * 0 <= k - c < n and is NaN elsewhere; the rain column holds the
   * effective rain in its first n rows.
   */
  lemma ResponseShape(chuva: seq<real>, u: seq<real>)
    ensures Response(chuva, u).Failure? <==> |u| == 0
    ensures Response(chuva, u).Success? ==>
      var s, p, n := Response(chuva, u).value, Effective(chuva), |chuva|;
      |s.cells| == (if n == 0 then |u| else |u| + n - 1) &&
      s.ordinates == (if n == 0 then [] else u) &&
      (forall k | 0 <= k < |s.cells| :: |s.cells[k]| == |s.ordinates|) &&
      (forall k, c | 0 <= k < |s.cells| && 0 <= c < |s.ordinates| ::
        s.cells[k][c] == if 0 <= k - c < n then Some(Times(p[k - c], u[c])) else None) &&
      |s.chuva| == |s.cells| &&
      (forall k | 0 <= k < |s.chuva| :: s.chuva[k] == if k < n then Some(p[k]) else None)
  {
    if |u| > 0 {
      var p := Effective(chuva);
      FinishedFrame(p, u);
      PartialShape(p, u, |u|, 0);
      ResponseCells(chuva, u);
    }
  }

  lemma ResponseCells(chuva: seq<real>, u: seq<real>)
    requires |u| > 0
    ensures var s, p := Response(chuva, u).value, Effective(chuva);
      s.ordinates == (if |p| == 0 then [] else u) &&
      (forall k | 0 <= k < |s.cells| :: |s.cells[k]| == |s.ordinates|) &&
      forall k, c | 0 <= k < |s.cells| && 0 <= c < |s.ordinates| ::
        s.cells[k][c] == if 0 <= k - c < |p| then Some(Times(p[k - c], u[c])) else None
  {
    var p := Effective(chuva);
    var g := Partial(p, u, |u|, 0);
    FinishedFrame(p, u);
    PartialShape(p, u, |u|, 0);
    var s := Response(chuva, u).value;
    if |p| > 0 {
      assert s.ordinates == u;
    }
    forall k, c | 0 <= k < |s.cells| && 0 <= c < |s.ordinates|
      ensures s.cells[k][c] == if 0 <= k - c < |p| then Some(Times(p[k - c], u[c])) else None
    {
      FinishedCell(chuva, u, k, c);
    }
  }

  /** With rain, cell (k, c) of the finished frame is the frame's own cell (k, c). */
  lemma FinishedCell(chuva: seq<real>, u: seq<real>, k: nat, c: nat)
    requires |u| > 0 && |Effective(chuva)| > 0
    requires k < |Response(chuva, u).value.cells| && c < |u|
    ensures var s, p := Response(chuva, u).value, Effective(chuva);
      |s.cells[k]| == |u| &&
      s.cells[k][c] == if 0 <= k - c < |p| then Some(Times(p[k - c], u[c])) else None
  {
    var p := Effective(chuva);
    FinishedFrame(p, u);
    PartialShape(p, u, |u|, 0);
    var g := Partial(p, u, |u|, 0);
    assert g[k][c] == CellAt(p, u, |u|, 0, k, c);
  }

  /** Row `k` of the finished frame sums to the convolution at `k`. */
  lemma RowIsConvolution(p: seq<real>, u: seq<real>, k: nat)
    requires k < |Partial(p, u, |u|, 0)|
    ensures RowSum(Partial(p, u, |u|, 0)[k]) == Convolution(p, u, k)
  {
    var row := Partial(p, u, |u|, 0)[k];
    var f := i => Term(p, u, k, i);
    var cellValue := c => if 0 <= c < |row| then ValueOr0(row[c]) else 0.0;
    forall c | 0 <= c < |u| ensures cellValue(c) == f(k - c) {
      assert row[c] == CellAt(p, u, |u|, 0, k, c);
    }
    SumReflect(0, |u|, k, f, cellValue);
    SumWindow(k - |u| + 1, k + 1, 0, |p|, f);
    SumWindow(0, |p|, k - |u| + 1, k + 1, f);
  }

  /** Q at every interval is the discrete convolution of the effective rain with the unit hydrograph. */
  lemma ResponseIsConvolution(chuva: seq<real>, u: seq<real>)
    requires |u| > 0
    ensures Response(chuva, u).Success?
    ensures |Response(chuva, u).value.q| == if |chuva| == 0 then |u| else |u| + |chuva| - 1
    ensures forall k | 0 <= k < |Response(chuva, u).value.q| ::
      Response(chuva, u).value.q[k] == Convolution(Effective(chuva), u, k)
  {
    var p := Effective(chuva);
    var g := Partial(p, u, |u|, 0);
    var s := Response(chuva, u).value;
    FinishedFrame(p, u);
    PartialShape(p, u, |u|, 0);
    forall k | 0 <= k < |s.q| ensures s.q[k] == Convolution(p, u, k) {
      RowIsConvolution(p, u, k);
      if |p| > 0 {
        assert s.cells[k] == g[k];
      } else {
        assert Convolution(p, u, k) == 0.0;
      }
    }
  }

  // ---------------------------------------------------------------------
  // The documented example
  // ---------------------------------------------------------------------

  const ExampleHydrograph: seq<real> := [0.5, 2.0, 4.0, 7.0, 5.0, 3.0, 1.8, 1.5, 1.0]
  const ExampleRain: seq<real> := [20.0, 25.0, 10.0]

  lemma ExampleConvolution()
    ensures Effective(ExampleRain) == [2.0, 2.5, 1.0]
    ensures seq(11, k => Convolution([2.0, 2.5, 1.0], ExampleHydrograph, k)) ==
      [1.0, 5.25, 13.5, 26.0, 31.5, 25.5, 16.1, 10.5, 7.55, 4.0, 1.0]
  {
    var p := [2.0, 2.5, 1.0];
    assert Effective(ExampleRain) == p;
    forall k | 0 <= k < 11
      ensures Convolution(p, ExampleHydrograph, k) == Sum(0, 3, i => Term(p, ExampleHydrograph, k, i))
    {
    }
  }

  /**
   * The documented example: 11 intervals, and the peak of 31.5 in the fifth.
   */
  lemma ExampleResponse()
    ensures Response(ExampleRain, ExampleHydrograph).Success?
    ensures |Response(ExampleRain, ExampleHydrograph).value.q| == 11
    ensures Response(ExampleRain, ExampleHydrograph).value.q[4] == 31.5
    ensures forall k | 0 <= k < 11 :: Response(ExampleRain, ExampleHydrograph).value.q[k] <= 31.5
  {
    ResponseIsConvolution(ExampleRain, ExampleHydrograph);
    ExampleConvolution();
    var q := Response(ExampleRain, ExampleHydrograph).value.q;
    var expected := [1.0, 5.25, 13.5, 26.0, 31.5, 25.5, 16.1, 10.5, 7.55, 4.0, 1.0];
    forall k | 0 <= k < 11 ensures q[k] == expected[k] {
      assert q[k] == Convolution([2.0, 2.5, 1.0], ExampleHydrograph, k);
      assert seq(11, k => Convolution([2.0, 2.5, 1.0], ExampleHydrograph, k))[k] == expected[k];
    }
  }

  // ---------------------------------------------------------------------
  // The file as written
  // ---------------------------------------------------------------------

  /**
   * `convolucao` as the file spells it: the annotation `List[float]` names
   * `List`, which the file never imports, so the definition itself raises
   * NameError (and past it the body reads the undefined `chuvas`).
   */
  function ConvolucaoAsWritten(chuva: seq<real>, vazoes: seq<real>): (r: Result<Section, Error>)
    ensures r.Failure? && r.error.UndefinedName?
  {
    Failure(UndefinedName("List"))
  }

  /** The documented example, which the model answers, gets no answer from the file as written. */
  lemma ExampleAsWrittenFails()
    ensures ConvolucaoAsWritten(ExampleRain, ExampleHydrograph) != Response(ExampleRain, ExampleHydrograph)
  {
    ExampleResponse();
  }
}
