/**
 * Date-indexed frames and the pandas operations the nuvem functions apply
 * to them: `pd.concat` along the rows, `sort_index`, `index.duplicated(keep=
 * "first")` and `pd.concat(axis=1)` of single-column frames.
 */
module Series {
  import opened Wrappers
  import opened Calendar
  import opened Sorting

  /** One row of a frame indexed by date. */
  type Row<V> = (Date, V)

  function DateKey<V>(r: Row<V>): int { Key(r.0) }

  ghost predicate DatesAscending<V>(rows: seq<Row<V>>)
  {
    forall i, j | 0 <= i < j < |rows| :: Key(rows[i].0) <= Key(rows[j].0)
  }

  ghost predicate DatesIncreasing<V>(rows: seq<Row<V>>)
  {
    forall i, j | 0 <= i < j < |rows| :: Key(rows[i].0) < Key(rows[j].0)
  }

  ghost predicate DatesDistinct<V>(rows: seq<Row<V>>)
  {
    forall i, j | 0 <= i < j < |rows| :: rows[i].0 != rows[j].0
  }

  /** The index of a frame, as a set. */
  function Dates<V>(rows: seq<Row<V>>): set<Date>
  {
    set i | 0 <= i < |rows| :: rows[i].0
  }

  /** `sort_index()`, modelled by the stable sort on the date. */
  function SortByDate<V>(rows: seq<Row<V>>): seq<Row<V>>
  {
    SortByKey(rows, DateKey)
  }

  /** Sorting by date orders the index and keeps every row. */
  lemma SortByDateFacts<V>(rows: seq<Row<V>>)
    ensures DatesAscending(SortByDate(rows))
    ensures multiset(SortByDate(rows)) == multiset(rows)
    ensures |SortByDate(rows)| == |rows|
  {
    SortIsSorted(rows, DateKey);
    SortIsPermutation(rows, DateKey);
    var s := SortByDate(rows);
    assert SortedBy(s, DateKey);
    forall i, j | 0 <= i < j < |s| ensures Key(s[i].0) <= Key(s[j].0) {
      assert DateKey(s[i]) <= DateKey(s[j]);
    }
  }

  /** `pd.concat(parts)` along the rows, for a non-empty list of frames. */
  function Concat<T>(parts: seq<seq<T>>): seq<T>
  {
    if parts == [] then [] else Concat(parts[..|parts| - 1]) + parts[|parts| - 1]
  }

  /** Applies `f` to every value and keeps the index. */
  function MapValues<A, B>(rows: seq<Row<A>>, f: A -> B): seq<Row<B>>
  {
    seq(|rows|, i requires 0 <= i < |rows| => (rows[i].0, f(rows[i].1)))
  }

  /** `pd.DataFrame({column: values}, index=dates)`. */
  function Indexed<V>(dates: seq<Date>, values: seq<V>): seq<Row<V>>
    requires |dates| == |values|
  {
    seq(|values|, i requires 0 <= i < |values| => (dates[i], values[i]))
  }

  /** The value column of a frame. */
  function Values<V>(rows: seq<Row<V>>): (vs: seq<V>)
    ensures |vs| == |rows|
  {
    seq(|rows|, i requires 0 <= i < |rows| => rows[i].1)
  }

  /** Replaces the value column of a frame by `vs`, row by row. */
  function WithValues<A, B>(rows: seq<Row<A>>, vs: seq<B>): seq<Row<B>>
    requires |vs| == |rows|
  {
    seq(|rows|, i requires 0 <= i < |rows| => (rows[i].0, vs[i]))
  }

  lemma {:induction false} InsertMapValues<A, B>(x: Row<A>, rows: seq<Row<A>>, f: A -> B)
    ensures Insert((x.0, f(x.1)), MapValues(rows, f), DateKey) == MapValues(Insert(x, rows, DateKey), f)
    decreases |rows|
  {
    var m := MapValues(rows, f);
    if rows != [] {
      assert m[0] == (rows[0].0, f(rows[0].1));
      if Key(x.0) > Key(rows[0].0) {
        assert m[1..] == MapValues(rows[1..], f);
        InsertMapValues(x, rows[1..], f);
      }
    }
  }

  /** Changing the values does not change where sorting by date puts a row. */
  lemma {:induction false} SortMapValues<A, B>(rows: seq<Row<A>>, f: A -> B)
    ensures SortByDate(MapValues(rows, f)) == MapValues(SortByDate(rows), f)
    decreases |rows|
  {
    if rows != [] {
      var m := MapValues(rows, f);
      assert m[1..] == MapValues(rows[1..], f);
      SortMapValues(rows[1..], f);
      InsertMapValues(rows[0], SortByKey(rows[1..], DateKey), f);
    }
  }

  lemma DatesTail<V>(rows: seq<Row<V>>, d: Date)
    requires rows != [] && d in Dates(rows) && rows[0].0 != d
    ensures d in Dates(rows[1..])
  {
    var i :| 0 <= i < |rows| && rows[i].0 == d;
    assert rows[1..][i - 1] == rows[i];
  }

  /** The first row whose date is `d`. */
  function First<V>(rows: seq<Row<V>>, d: Date): Row<V>
    requires d in Dates(rows)
  {
    if rows[0].0 == d then rows[0]
    else
      DatesTail(rows, d);
      First(rows[1..], d)
  }

  /** The first row with date `d` carries `d` and is a row of the frame. */
  lemma {:induction false} FirstIsFirst<V>(rows: seq<Row<V>>, d: Date)
    requires d in Dates(rows)
    ensures First(rows, d).0 == d
    ensures exists i | 0 <= i < |rows| :: rows[i] == First(rows, d) && forall j | 0 <= j < i :: rows[j].0 != d
    decreases |rows|
  {
    if rows[0].0 != d {
      DatesTail(rows, d);
      FirstIsFirst(rows[1..], d);
      var i :| 0 <= i < |rows[1..]| && rows[1..][i] == First(rows[1..], d) && forall j | 0 <= j < i :: rows[1..][j].0 != d;
      assert rows[i + 1] == First(rows, d);
      forall j | 0 <= j < i + 1 ensures rows[j].0 != d {
        if j > 0 { assert rows[j] == rows[1..][j - 1]; }
      }
    }
  }

  /** In a concatenation, the first row with a date comes from the earlier frame when that frame has the date. */
  lemma {:induction false} FirstAppend<V>(a: seq<Row<V>>, b: seq<Row<V>>, d: Date)
    requires d in Dates(a) || d in Dates(b)
    ensures d in Dates(a + b)
    ensures d in Dates(a) ==> First(a + b, d) == First(a, d)
    ensures d !in Dates(a) ==> First(a + b, d) == First(b, d)
    decreases |a|
  {
    if d in Dates(a) {
      var i :| 0 <= i < |a| && a[i].0 == d;
      assert (a + b)[i] == a[i];
    } else {
      var i :| 0 <= i < |b| && b[i].0 == d;
      assert (a + b)[|a| + i] == b[i];
    }
    if a != [] {
      assert (a + b)[0] == a[0];
      if a[0].0 != d {
        assert (a + b)[1..] == a[1..] + b;
        if d in Dates(a) { DatesTail(a, d); }
        else {
          forall k | 0 <= k < |a[1..]| ensures a[1..][k].0 != d {
            assert a[1..][k] == a[k + 1];
          }
        }
        FirstAppend(a[1..], b, d);
      }
    } else {
      assert a + b == b;
    }
  }

  lemma DatesAppend<V>(a: seq<Row<V>>, b: seq<Row<V>>)
    ensures Dates(a + b) == Dates(a) + Dates(b)
  {
    forall d | d in Dates(a + b) ensures d in Dates(a) + Dates(b) {
      var i :| 0 <= i < |a + b| && (a + b)[i].0 == d;
      if i >= |a| { assert b[i - |a|] == (a + b)[i]; }
    }
    forall d | d in Dates(a) + Dates(b) ensures d in Dates(a + b) {
      if d in Dates(a) {
        var i :| 0 <= i < |a| && a[i].0 == d;
        assert (a + b)[i] == a[i];
      } else {
        var i :| 0 <= i < |b| && b[i].0 == d;
        assert (a + b)[|a| + i] == b[i];
      }
    }
  }

  /** `frame.loc[~frame.index.duplicated(keep="first")]`. */
  function DropDuplicateDates<V>(rows: seq<Row<V>>): seq<Row<V>>
  {
    if rows == [] then []
    else
      var init := rows[..|rows| - 1];
      var last := rows[|rows| - 1];
      if last.0 in Dates(init) then DropDuplicateDates(init) else DropDuplicateDates(init) + [last]
  }

  /**
   * Dropping repeated dates keeps every date, leaves each date once, and the
   * row it keeps for a date is the first row with that date.
   */
  lemma {:induction false} DropDuplicateDatesFacts<V>(rows: seq<Row<V>>)
    ensures Dates(DropDuplicateDates(rows)) == Dates(rows)
    ensures DatesDistinct(DropDuplicateDates(rows))
    ensures forall k | 0 <= k < |DropDuplicateDates(rows)| ::
      DropDuplicateDates(rows)[k].0 in Dates(rows) &&
      DropDuplicateDates(rows)[k] == First(rows, DropDuplicateDates(rows)[k].0)
    ensures |DropDuplicateDates(rows)| <= |rows|
    decreases |rows|
  {
    if rows != [] {
      var init := rows[..|rows| - 1];
      var last := rows[|rows| - 1];
      assert rows == init + [last];
      DropDuplicateDatesFacts(init);
      DatesAppend(init, [last]);
      assert Dates([last]) == {last.0};
      var r := DropDuplicateDates(rows);
      var ri := DropDuplicateDates(init);
      forall k | 0 <= k < |ri| ensures ri[k] == First(rows, ri[k].0) {
        FirstAppend(init, [last], ri[k].0);
      }
      if last.0 !in Dates(init) {
        assert r == ri + [last];
        DatesAppend(ri, [last]);
        FirstAppend(init, [last], last.0);
        assert First([last], last.0) == last;
        forall i, j | 0 <= i < j < |r| ensures r[i].0 != r[j].0 {
          if j == |r| - 1 {
            assert r[i] == ri[i] && ri[i].0 in Dates(ri);
          } else {
            assert r[i] == ri[i] && r[j] == ri[j];
          }
        }
        forall k | 0 <= k < |r| ensures r[k].0 in Dates(rows) && r[k] == First(rows, r[k].0) {
          if k < |ri| { assert r[k] == ri[k]; }
        }
      }
    }
  }

  /** On a frame sorted by date, dropping repeated dates leaves strictly increasing dates. */
  lemma {:induction false} DropDuplicateDatesIncreasing<V>(rows: seq<Row<V>>)
    requires DatesAscending(rows)
    ensures DatesIncreasing(DropDuplicateDates(rows))
    decreases |rows|
  {
    if rows != [] {
      var init := rows[..|rows| - 1];
      var last := rows[|rows| - 1];
      DropDuplicateDatesIncreasing(init);
      DropDuplicateDatesFacts(init);
      var r := DropDuplicateDates(rows);
      var ri := DropDuplicateDates(init);
      if last.0 !in Dates(init) {
        forall i, j | 0 <= i < j < |r| ensures Key(r[i].0) < Key(r[j].0) {
          if j == |r| - 1 {
            assert r[i] == ri[i] && ri[i].0 in Dates(ri);
            var k :| 0 <= k < |init| && init[k].0 == ri[i].0;
            assert rows[k] == init[k];
            KeyIsLexicographic(ri[i].0, last.0);
          } else {
            assert r[i] == ri[i] && r[j] == ri[j];
          }
        }
      }
    }
  }

  /** A frame whose dates are already distinct is unchanged, so dropping repeated dates is idempotent. */
  lemma {:induction false} DropDuplicateDatesDistinct<V>(rows: seq<Row<V>>)
    requires DatesDistinct(rows)
    ensures DropDuplicateDates(rows) == rows
    decreases |rows|
  {
    if rows != [] {
      var init := rows[..|rows| - 1];
      var last := rows[|rows| - 1];
      assert DatesDistinct(init) by {
        forall i, j | 0 <= i < j < |init| ensures init[i].0 != init[j].0 {
          assert init[i] == rows[i] && init[j] == rows[j];
        }
      }
      DropDuplicateDatesDistinct(init);
      forall k | 0 <= k < |init| ensures init[k].0 != last.0 {
        assert init[k] == rows[k];
      }
      assert init + [last] == rows;
    }
  }

  lemma DropDuplicateDatesIdempotent<V>(rows: seq<Row<V>>)
    ensures DropDuplicateDates(DropDuplicateDates(rows)) == DropDuplicateDates(rows)
  {
    DropDuplicateDatesFacts(rows);
    DropDuplicateDatesDistinct(DropDuplicateDates(rows));
  }

  /** A frame's value on date `d`, or NaN when the frame has no row for `d`. */
  function ValueOn<W>(rows: seq<Row<Option<W>>>, d: Date): Option<W>
  {
    if d in Dates(rows) then First(rows, d).1 else None
  }

  /** The union of all frames' dates, sorted and without repetition. */
  function UnionIndex<W>(frames: seq<(string, seq<Row<Option<W>>>)>): (index: seq<Date>)
  {
    IndexOf(DropDuplicateDates(SortByDate(Concat(Columns(frames)))))
  }

  /** A wide frame: one column per station, one row per date of the union index. */
  datatype Wide<W> = Wide(columns: seq<string>, index: seq<Date>, cells: seq<seq<Option<W>>>)

  /**
   * `pd.concat(frames, axis=1)`: an outer join on the sorted union of the
   * indexes, NaN where a frame has no row; an empty list raises ValueError.
   */
  function JoinColumns<W>(frames: seq<(string, seq<Row<Option<W>>>)>): Result<Wide<W>, Error>
  {
    if frames == [] then Failure(NothingToConcatenate)
    else
      var index := UnionIndex(frames);
      Success(Wide(
        seq(|frames|, c requires 0 <= c < |frames| => frames[c].0),
        index,
        seq(|index|, r requires 0 <= r < |index| =>
          seq(|frames|, c requires 0 <= c < |frames| => ValueOn(frames[c].1, index[r])))))
  }

  lemma {:induction false} DatesConcat<T>(parts: seq<seq<Row<T>>>, d: Date)
    ensures d in Dates(Concat(parts)) <==> exists c | 0 <= c < |parts| :: d in Dates(parts[c])
    decreases |parts|
  {
    if parts != [] {
      var init := parts[..|parts| - 1];
      DatesConcat(init, d);
      DatesAppend(Concat(init), parts[|parts| - 1]);
      if d in Dates(Concat(parts)) && d !in Dates(parts[|parts| - 1]) {
        var c :| 0 <= c < |init| && d in Dates(init[c]);
        assert parts[c] == init[c];
      }
      if exists c | 0 <= c < |parts| :: d in Dates(parts[c]) {
        var c :| 0 <= c < |parts| && d in Dates(parts[c]);
        if c < |init| { assert init[c] == parts[c]; }
      }
    }
  }

  /**
   * In a concatenation, the first row with a date is the first row with
   * that date in the earliest frame that has it.
   */
  lemma {:induction false} FirstConcat<T>(parts: seq<seq<Row<T>>>, d: Date)
    requires d in Dates(Concat(parts))
    ensures exists w | 0 <= w < |parts| ::
      d in Dates(parts[w]) && (forall v | 0 <= v < w :: d !in Dates(parts[v])) &&
      First(Concat(parts), d) == First(parts[w], d)
    decreases |parts|
  {
    var init := parts[..|parts| - 1];
    var last := parts[|parts| - 1];
    DatesAppend(Concat(init), last);
    FirstAppend(Concat(init), last, d);
    if d in Dates(Concat(init)) {
      FirstConcat(init, d);
      var w :| 0 <= w < |init| && d in Dates(init[w]) &&
        (forall v | 0 <= v < w :: d !in Dates(init[v])) && First(Concat(init), d) == First(init[w], d);
      assert parts[w] == init[w];
      forall v | 0 <= v < w ensures d !in Dates(parts[v]) {
        assert parts[v] == init[v];
      }
    } else {
      DatesConcat(init, d);
      forall v | 0 <= v < |parts| - 1 ensures d !in Dates(parts[v]) {
        assert parts[v] == init[v];
      }
    }
  }

  /** Sorting keeps the set of dates. */
  lemma SortKeepsDates<V>(rows: seq<Row<V>>)
    ensures Dates(SortByDate(rows)) == Dates(rows)
  {
    var sorted := SortByDate(rows);
    SortByDateFacts(rows);
    forall d | d in Dates(rows) ensures d in Dates(sorted) {
      var i :| 0 <= i < |rows| && rows[i].0 == d;
      assert rows[i] in multiset(sorted);
      var k :| 0 <= k < |sorted| && sorted[k] == rows[i];
    }
    forall d | d in Dates(sorted) ensures d in Dates(rows) {
      var i :| 0 <= i < |sorted| && sorted[i].0 == d;
      assert sorted[i] in multiset(rows);
      var k :| 0 <= k < |rows| && rows[k] == sorted[i];
    }
  }

  /** The index of a frame, as a sequence. */
  function IndexOf<V>(rows: seq<Row<V>>): (index: seq<Date>)
    ensures |index| == |rows|
    ensures forall d :: d in index <==> d in Dates(rows)
  {
    var index := seq(|rows|, i requires 0 <= i < |rows| => rows[i].0);
    assert forall d :: d in index <==> d in Dates(rows) by {
      forall d ensures d in index <==> d in Dates(rows) {
        if d in index {
          var i :| 0 <= i < |index| && index[i] == d;
          assert rows[i].0 == d;
        }
        if d in Dates(rows) {
          var i :| 0 <= i < |rows| && rows[i].0 == d;
          assert index[i] == d;
        }
      }
    }
    index
  }

  function Columns<W>(frames: seq<(string, seq<Row<Option<W>>>)>): seq<seq<Row<Option<W>>>>
  {
    seq(|frames|, c requires 0 <= c < |frames| => frames[c].1)
  }

  /** The joined index holds exactly the dates of some frame. */
  lemma UnionIndexDates<W>(frames: seq<(string, seq<Row<Option<W>>>)>, d: Date)
    ensures d in UnionIndex(frames) <==> exists c | 0 <= c < |frames| :: d in Dates(frames[c].1)
  {
    var parts := Columns(frames);
    var sorted := SortByDate(Concat(parts));
    SortKeepsDates(Concat(parts));
    DropDuplicateDatesFacts(sorted);
    DatesConcat(parts, d);
    if exists c | 0 <= c < |frames| :: d in Dates(frames[c].1) {
      var c :| 0 <= c < |frames| && d in Dates(frames[c].1);
      assert parts[c] == frames[c].1;
    }
  }

  /** The joined index is strictly increasing. */
  lemma UnionIndexIncreasing<W>(frames: seq<(string, seq<Row<Option<W>>>)>)
    ensures forall i, j | 0 <= i < j < |UnionIndex(frames)| :: Key(UnionIndex(frames)[i]) < Key(UnionIndex(frames)[j])
  {
    var sorted := SortByDate(Concat(Columns(frames)));
    SortByDateFacts(Concat(Columns(frames)));
    DropDuplicateDatesIncreasing(sorted);
  }

  /**
   * The join has one column per frame, in order; its index is the sorted
   * union of the frames' dates; each cell is that frame's value on that
   * date, or NaN when the frame has no row for it. No frames raises.
   */
  lemma JoinColumnsFacts<W>(frames: seq<(string, seq<Row<Option<W>>>)>)
    ensures frames == [] <==> JoinColumns(frames) == Failure(NothingToConcatenate)
    ensures JoinColumns(frames).Success? ==>
      var w := JoinColumns(frames).value;
      |w.columns| == |frames| &&
      (forall c | 0 <= c < |frames| :: w.columns[c] == frames[c].0) &&
      (forall i, j | 0 <= i < j < |w.index| :: Key(w.index[i]) < Key(w.index[j])) &&
      (forall d :: d in w.index <==> exists c | 0 <= c < |frames| :: d in Dates(frames[c].1)) &&
      |w.cells| == |w.index| &&
      forall r, c | 0 <= r < |w.index| && 0 <= c < |frames| ::
        |w.cells[r]| == |frames| &&
        (w.index[r] in Dates(frames[c].1) ==> w.cells[r][c] == First(frames[c].1, w.index[r]).1) &&
        (w.index[r] !in Dates(frames[c].1) ==> w.cells[r][c].None?)
  {
    if frames != [] {
      UnionIndexIncreasing(frames);
      forall d ensures d in UnionIndex(frames) <==> exists c | 0 <= c < |frames| :: d in Dates(frames[c].1) {
        UnionIndexDates(frames, d);
      }
    }
  }
}
