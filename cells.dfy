/**
 * Spreadsheet data as the workbook reader hands it to the importer: cell
 * values, rows keyed by column label, and sheets. Also Python's truthiness
 * and `str()` on cell values, which the import loops use to decide skips and
 * to build identifiers.
 */
module Cells {
  import opened Wrappers
  import opened PyText

  /** One cell, as pandas materialises it. */
  datatype RawValue =
    | Missing                 // Python None, and a lookup of a label the row lacks
    | NaN                     // a blank cell: float('nan') or pandas NaT
    | Int(i: int)
    | Float(r: real)          // a finite float
    | Str(s: string)
    | DateTime(text: string)  // a pandas Timestamp, carried as its str() text

  /** A row: column label to cell value. */
  type Row = map<string, RawValue>

  /** One sheet: its name, its ordered column labels and its rows in order. */
  datatype Sheet = Sheet(name: string, header: seq<string>, rows: seq<Row>)

  /** pandas' `DataFrame.empty`: no columns or no rows. */
  predicate IsEmpty(sh: Sheet) {
    |sh.header| == 0 || |sh.rows| == 0
  }

  /** pandas' `pd.isna` on a scalar. */
  predicate IsNa(v: RawValue) {
    v.Missing? || v.NaN?
  }

  /** Python's `bool(v)`: None, zero and the empty string are false; a NaN
      float, like every other object, is true. */
  predicate Truthy(v: RawValue) {
    match v
    case Missing => false
    case NaN => true
    case Int(i) => i != 0
    case Float(r) => r != 0.0
    case Str(s) => s != ""
    case DateTime(_) => true
  }

  /** The library behaviour the importer calls but that is not modelled:
      `floatRepr` is Python's `str()` of a float (`123.0` renders as "123.0"),
      `parseDate` is `pd.to_datetime(v)` followed by `int(dt.timestamp() * 1000)`,
      None where that raises. */
  datatype Library = Library(floatRepr: real -> string, parseDate: RawValue -> Option<int>)

  /** Python's `str(v)`. */
  function PyStr(v: RawValue, lib: Library): string {
    match v
    case Missing => "None"
    case NaN => "nan"
    case Int(i) => IntToDecimal(i)
    case Float(r) => lib.floatRepr(r)
    case Str(s) => s
    case DateTime(t) => t
  }

  /** The positions `j` of the rows for which `keep(rows[j], j)` holds, in
      order: which rows of a sheet an import loop turns into records. */
  function Positions(rows: seq<Row>, keep: (Row, nat) -> bool): seq<nat> {
    if rows == [] then []
    else
      var n := |rows| - 1;
      Positions(rows[..n], keep) + (if keep(rows[n], n) then [n] else [])
  }

  /** A position is listed exactly when its row is kept, and the positions
      increase, so records come out in row order. */
  lemma PositionsExact(rows: seq<Row>, keep: (Row, nat) -> bool)
    ensures forall k :: 0 <= k < |Positions(rows, keep)| ==>
      Positions(rows, keep)[k] < |rows| && keep(rows[Positions(rows, keep)[k]], Positions(rows, keep)[k])
    ensures forall k, l :: 0 <= k < l < |Positions(rows, keep)| ==> Positions(rows, keep)[k] < Positions(rows, keep)[l]
    ensures forall j :: 0 <= j < |rows| && keep(rows[j], j) ==> j in Positions(rows, keep)
  {
    PositionsSound(rows, keep);
    PositionsComplete(rows, keep);
  }

  /** Every listed position is a row position whose row is kept, and the
      positions increase. */
  lemma {:induction false} PositionsSound(rows: seq<Row>, keep: (Row, nat) -> bool)
    ensures forall k :: 0 <= k < |Positions(rows, keep)| ==>
      Positions(rows, keep)[k] < |rows| && keep(rows[Positions(rows, keep)[k]], Positions(rows, keep)[k])
    ensures forall k, l :: 0 <= k < l < |Positions(rows, keep)| ==> Positions(rows, keep)[k] < Positions(rows, keep)[l]
  {
    if rows != [] {
      var n := |rows| - 1;
      var init := rows[..n];
      var ps := Positions(rows, keep);
      var prev := Positions(init, keep);
      PositionsSound(init, keep);
      assert ps == prev + (if keep(rows[n], n) then [n] else []);
      forall k | 0 <= k < |ps| ensures ps[k] < |rows| && keep(rows[ps[k]], ps[k]) {
        if k < |prev| {
          assert ps[k] == prev[k] && rows[prev[k]] == init[prev[k]];
        }
      }
      forall k, l | 0 <= k < l < |ps| ensures ps[k] < ps[l] {
        if l < |prev| {
          assert ps[k] == prev[k] && ps[l] == prev[l];
        } else {
          assert ps[k] == prev[k] < |init|;
        }
      }
    }
  }

  /** Every kept row has its position listed. */
  lemma {:induction false} PositionsComplete(rows: seq<Row>, keep: (Row, nat) -> bool)
    ensures forall j :: 0 <= j < |rows| && keep(rows[j], j) ==> j in Positions(rows, keep)
  {
    if rows != [] {
      var n := |rows| - 1;
      var init := rows[..n];
      PositionsComplete(init, keep);
      assert Positions(rows, keep) == Positions(init, keep) + (if keep(rows[n], n) then [n] else []);
      forall j | 0 <= j < n && keep(rows[j], j) ensures j in Positions(rows, keep) {
        assert rows[j] == init[j];
      }
    }
  }

  /** Every row is either kept or skipped. */
  lemma {:induction false} PositionsSplit(rows: seq<Row>, keep: (Row, nat) -> bool)
    ensures |Positions(rows, keep)| + |Positions(rows, (r: Row, j: nat) => !keep(r, j))| == |rows|
  {
    if rows != [] {
      PositionsSplit(rows[..|rows| - 1], keep);
    }
  }

  /** The records `build` makes from the rows of `rows`, each given with its
      position, in order, the rows it skips (None) left out: the shape of an
      import loop that appends at most one record per row. */
  function RowsMap<R>(rows: seq<Row>, build: (Row, nat) -> Option<R>): seq<R> {
    if rows == [] then []
    else
      var n := |rows| - 1;
      RowsMap(rows[..n], build) + (match build(rows[n], n) case Some(y) => [y] case None => [])
  }

  /** One more row extends the records by what `build` makes of it. */
  lemma RowsMapStep<R>(rows: seq<Row>, build: (Row, nat) -> Option<R>, i: nat)
    requires i < |rows|
    ensures RowsMap(rows[..i + 1], build)
      == RowsMap(rows[..i], build) + (match build(rows[i], i) case Some(y) => [y] case None => [])
  {
    assert rows[..i + 1][..i] == rows[..i] && rows[..i + 1][i] == rows[i];
  }

  /** The k-th record is the one built from the row at the k-th kept
      position, when `keep` says which rows `build` keeps. */
  lemma {:induction false} RowsMapAtPositions<R>(rows: seq<Row>, build: (Row, nat) -> Option<R>, keep: (Row, nat) -> bool)
    requires forall r: Row, j: nat :: keep(r, j) == build(r, j).Some?
    ensures |RowsMap(rows, build)| == |Positions(rows, keep)|
    ensures forall k :: 0 <= k < |Positions(rows, keep)| ==>
      Positions(rows, keep)[k] < |rows|
      && build(rows[Positions(rows, keep)[k]], Positions(rows, keep)[k]) == Some(RowsMap(rows, build)[k])
  {
    if rows != [] {
      var n := |rows| - 1;
      var init := rows[..n];
      var out := RowsMap(rows, build);
      var prev := RowsMap(init, build);
      var ps := Positions(rows, keep);
      var prevPs := Positions(init, keep);
      RowsMapAtPositions(init, build, keep);
      if keep(rows[n], n) {
        assert out == prev + [build(rows[n], n).value];
        assert ps == prevPs + [n];
      } else {
        assert out == prev && ps == prevPs;
      }
      forall k | 0 <= k < |prevPs|
        ensures ps[k] < |rows| && build(rows[ps[k]], ps[k]) == Some(out[k])
      {
        assert ps[k] == prevPs[k] && out[k] == prev[k];
        assert rows[prevPs[k]] == init[prevPs[k]];
      }
    }
  }

  /** When `build` keeps every row, there is one record per row, the k-th
      built from row k. */
  lemma {:induction false} RowsMapEvery<R>(rows: seq<Row>, build: (Row, nat) -> Option<R>)
    requires forall j :: 0 <= j < |rows| ==> build(rows[j], j).Some?
    ensures |RowsMap(rows, build)| == |rows|
    ensures forall k :: 0 <= k < |rows| ==> build(rows[k], k) == Some(RowsMap(rows, build)[k])
  {
    if rows != [] {
      var n := |rows| - 1;
      var init := rows[..n];
      var out := RowsMap(rows, build);
      var prev := RowsMap(init, build);
      assert forall j :: 0 <= j < n ==> init[j] == rows[j];
      RowsMapEvery(init, build);
      assert out == prev + [build(rows[n], n).value];
      forall k | 0 <= k < n ensures build(rows[k], k) == Some(out[k]) {
        assert out[k] == prev[k] && rows[k] == init[k];
      }
    }
  }
}
