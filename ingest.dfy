/**
 * What `columns_from_file` computes once the CSV reader has split the file
 * into a header record and data records (src/data.rs:49-89 and, without the
 * missing-value tokens, src/main.rs:84-120). Both loops check the header
 * count, then walk the records in order and each record's cells in order,
 * and stop at the first problem; these functions state that walk as values,
 * and the lemmas below say declaratively which error is reported and what a
 * successful load contains.
 */
module Ingest {
  import opened Wrappers
  import opened Floats

  /**
   * Why a load failed. Row and column numbers are 1-based, as in the
   * messages "we need at least 2 CSV columns", "row {} has {} entries but
   * should have {}" and "cannot parse column {} in row {}".
   */
  datatype LoadError =
    | TooFewColumns
    | RowLength(row: nat, got: nat, expected: nat)
    | Unparseable(column: nat, row: nat)

  /** A column as the loader hands it on: its name, one cell per row, and the running extrema. */
  datatype ColumnData = ColumnData(name: string, data: seq<Cell>, min: Extended, max: Extended)

  /** How the text of one cell becomes a value; `None` when it cannot be read. */
  type Reader = string -> Option<Cell>

  /** Every cell of `cells` can be read. */
  predicate CellsReadable(cells: seq<string>, read: Reader)
  {
    forall j :: 0 <= j < |cells| ==> read(cells[j]).Some?
  }

  /** Every record has `m` cells and every cell can be read. */
  predicate RowsReadable(rows: seq<seq<string>>, m: nat, read: Reader)
  {
    forall i :: 0 <= i < |rows| ==> |rows[i]| == m && CellsReadable(rows[i], read)
  }

  /** Reading the cells of record `row` (0-based) left to right, stopping at the first unreadable one. */
  function ReadCells(cells: seq<string>, row: nat, read: Reader): (r: Result<seq<Cell>, LoadError>)
    ensures r.Ok? ==> |r.value| == |cells|
  {
    if cells == [] then Ok([])
    else
      match ReadCells(cells[..|cells| - 1], row, read)
      case Err(e) => Err(e)
      case Ok(vs) =>
        match read(cells[|cells| - 1])
        case None => Err(Unparseable(|cells|, row + 1))
        case Some(v) => Ok(vs + [v])
  }

  /** Reading the records in order, each checked for width before its cells are read. */
  function ReadRows(rows: seq<seq<string>>, m: nat, read: Reader): (r: Result<seq<seq<Cell>>, LoadError>)
    ensures r.Ok? ==> |r.value| == |rows| && forall i :: 0 <= i < |rows| ==> |r.value[i]| == m
  {
    if rows == [] then Ok([])
    else
      var i := |rows| - 1;
      match ReadRows(rows[..i], m, read)
      case Err(e) => Err(e)
      case Ok(t) =>
        if |rows[i]| != m then Err(RowLength(i + 1, |rows[i]|, m))
        else
          match ReadCells(rows[i], i, read)
          case Err(e) => Err(e)
          case Ok(vs) => Ok(t + [vs])
  }

  /** Column `j` of a table of read cells. */
  function ColumnOf(t: seq<seq<Cell>>, j: nat): (c: seq<Cell>)
    requires forall r :: 0 <= r < |t| ==> j < |t[r]|
    ensures |c| == |t| && forall r :: 0 <= r < |t| ==> c[r] == t[r][j]
  {
    seq(|t|, r requires 0 <= r < |t| => t[r][j])
  }

  /** A column holding `data` in row order, with the extrema that pushing those cells one by one leaves. */
  function MakeColumn(name: string, data: seq<Cell>): ColumnData
  {
    ColumnData(name, data, Lowest(data), Highest(data))
  }

  /** Appending a record to a table appends its `j`-th cell to column `j`. */
  lemma ColumnOfAppend(t: seq<seq<Cell>>, row: seq<Cell>, j: nat)
    requires forall r :: 0 <= r < |t| ==> j < |t[r]|
    requires j < |row|
    ensures ColumnOf(t + [row], j) == ColumnOf(t, j) + [row[j]]
  {
    assert forall r :: 0 <= r < |t| ==> (t + [row])[r] == t[r];
  }

  /**
   * Reading one record further, the records before it read into `table`: a
   * record of the wrong width is reported with its 1-based number, otherwise
   * its cells are read and, when they all can be, appended to the table.
   */
  lemma ReadRowsNext(rows: seq<seq<string>>, i: nat, m: nat, read: Reader, table: seq<seq<Cell>>)
    requires i < |rows| && ReadRows(rows[..i], m, read) == Ok(table)
    ensures |rows[i]| != m ==> ReadRows(rows[..i + 1], m, read) == Err(RowLength(i + 1, |rows[i]|, m))
    ensures |rows[i]| == m && ReadCells(rows[i], i, read).Err? ==>
      ReadRows(rows[..i + 1], m, read) == Err(ReadCells(rows[i], i, read).error)
    ensures |rows[i]| == m && ReadCells(rows[i], i, read).Ok? ==>
      ReadRows(rows[..i + 1], m, read) == Ok(table + [ReadCells(rows[i], i, read).value])
  {
    assert rows[..i + 1][..i] == rows[..i] && rows[..i + 1][i] == rows[i];
  }

  /**
   * The outcome of loading `rows` under `headers`; a successful load has one
   * column per header, named after it, with one cell per record.
   */
  function Load(headers: seq<string>, rows: seq<seq<string>>, read: Reader): (r: Result<seq<ColumnData>, LoadError>)
    ensures r.Ok? ==> |r.value| == |headers| && forall j :: 0 <= j < |headers| ==>
      r.value[j].name == headers[j] && |r.value[j].data| == |rows|
  {
    if |headers| < 2 then Err(TooFewColumns)
    else
      match ReadRows(rows, |headers|, read)
      case Err(e) => Err(e)
      case Ok(t) => Ok(seq(|headers|, j requires 0 <= j < |headers| => MakeColumn(headers[j], ColumnOf(t, j))))
  }

  /** Reading a record's cells succeeds exactly when every cell is readable, and then yields what the reader gives. */
  lemma {:induction false} ReadCellsOk(cells: seq<string>, row: nat, read: Reader)
    ensures ReadCells(cells, row, read).Ok? <==> CellsReadable(cells, read)
    ensures ReadCells(cells, row, read).Ok? ==>
      forall j :: 0 <= j < |cells| ==> read(cells[j]) == Some(ReadCells(cells, row, read).value[j])
  {
    if cells != [] {
      var p := cells[..|cells| - 1];
      ReadCellsOk(p, row, read);
      assert forall j :: 0 <= j < |p| ==> cells[j] == p[j];
    }
  }

  /** A failed record read names the first unreadable cell (1-based) of that record. */
  lemma {:induction false} ReadCellsErr(cells: seq<string>, row: nat, read: Reader)
    requires ReadCells(cells, row, read).Err?
    ensures var e := ReadCells(cells, row, read).error;
      && e.Unparseable? && e.row == row + 1
      && 1 <= e.column <= |cells|
      && read(cells[e.column - 1]).None?
      && CellsReadable(cells[..e.column - 1], read)
  {
    var p := cells[..|cells| - 1];
    if ReadCells(p, row, read).Err? {
      ReadCellsErr(p, row, read);
      var c := ReadCells(p, row, read).error.column;
      assert cells[..c - 1] == p[..c - 1];
    } else {
      ReadCellsOk(p, row, read);
      assert cells[..|cells| - 1] == p;
    }
  }

  /** Reading the records succeeds exactly when every record has `m` readable cells, and then yields what the reader gives. */
  lemma {:induction false} ReadRowsOk(rows: seq<seq<string>>, m: nat, read: Reader)
    ensures ReadRows(rows, m, read).Ok? <==> RowsReadable(rows, m, read)
    ensures ReadRows(rows, m, read).Ok? ==>
      forall i, j :: 0 <= i < |rows| && 0 <= j < m ==> read(rows[i][j]) == Some(ReadRows(rows, m, read).value[i][j])
  {
    if rows != [] {
      var i := |rows| - 1;
      var p := rows[..i];
      ReadRowsOk(p, m, read);
      ReadCellsOk(rows[i], i, read);
      assert forall k :: 0 <= k < |p| ==> rows[k] == p[k];
    }
  }

  /** A failed read of the records names the first offending record, and within it the first offending cell. */
  lemma {:induction false} ReadRowsErr(rows: seq<seq<string>>, m: nat, read: Reader)
    requires ReadRows(rows, m, read).Err?
    ensures var e := ReadRows(rows, m, read).error;
      match e
      case TooFewColumns => false
      case RowLength(r, got, expected) =>
        && 1 <= r <= |rows| && got == |rows[r - 1]| && expected == m && got != m
        && RowsReadable(rows[..r - 1], m, read)
      case Unparseable(c, r) =>
        && 1 <= r <= |rows| && |rows[r - 1]| == m
        && 1 <= c <= m && read(rows[r - 1][c - 1]).None?
        && CellsReadable(rows[r - 1][..c - 1], read)
        && RowsReadable(rows[..r - 1], m, read)
  {
    var i := |rows| - 1;
    var p := rows[..i];
    if ReadRows(p, m, read).Err? {
      ReadRowsErr(p, m, read);
      var r := ReadRows(p, m, read).error.row;
      assert rows[..r - 1] == p[..r - 1];
      assert rows[r - 1] == p[r - 1];
    } else {
      ReadRowsOk(p, m, read);
      if |rows[i]| == m {
        ReadCellsErr(rows[i], i, read);
      }
    }
  }

  /** Once the first `k` cells of a record fail to read, reading the whole record fails with the same error. */
  lemma {:induction false} ReadCellsStopsAtError(cells: seq<string>, k: nat, row: nat, read: Reader)
    requires k <= |cells| && ReadCells(cells[..k], row, read).Err?
    ensures ReadCells(cells, row, read) == ReadCells(cells[..k], row, read)
  {
    if k == |cells| {
      assert cells[..k] == cells;
    } else {
      var p := cells[..|cells| - 1];
      assert p[..k] == cells[..k];
      ReadCellsStopsAtError(p, k, row, read);
    }
  }

  /** Once the first `k` records fail to read, reading all records fails with the same error. */
  lemma {:induction false} ReadRowsStopsAtError(rows: seq<seq<string>>, k: nat, m: nat, read: Reader)
    requires k <= |rows| && ReadRows(rows[..k], m, read).Err?
    ensures ReadRows(rows, m, read) == ReadRows(rows[..k], m, read)
  {
    if k == |rows| {
      assert rows[..k] == rows;
    } else {
      var p := rows[..|rows| - 1];
      assert p[..k] == rows[..k];
      ReadRowsStopsAtError(p, k, m, read);
    }
  }

  /** A table with fewer than two headers is refused before any record is looked at. */
  lemma RefusesFewHeaders(headers: seq<string>, rows: seq<seq<string>>, read: Reader)
    requires |headers| < 2
    ensures Load(headers, rows, read) == Err(TooFewColumns)
  {
  }

  /** A load succeeds exactly when there are at least two headers and every record has one readable cell per header. */
  lemma LoadSucceedsIff(headers: seq<string>, rows: seq<seq<string>>, read: Reader)
    ensures Load(headers, rows, read).Ok? <==> |headers| >= 2 && RowsReadable(rows, |headers|, read)
  {
    ReadRowsOk(rows, |headers|, read);
  }

  /**
   * The error a failed load reports is the first problem in reading order:
   * too few headers before anything else; otherwise a record of the wrong
   * width or an unreadable cell, with every earlier record, and every
   * earlier cell of the same record, in order.
   */
  lemma LoadReportsFirstOffender(headers: seq<string>, rows: seq<seq<string>>, read: Reader)
    requires Load(headers, rows, read).Err?
    ensures var m := |headers|;
      match Load(headers, rows, read).error
      case TooFewColumns => m < 2
      case RowLength(r, got, expected) =>
        && m >= 2 && 1 <= r <= |rows| && got == |rows[r - 1]| && expected == m && got != m
        && RowsReadable(rows[..r - 1], m, read)
      case Unparseable(c, r) =>
        && m >= 2 && 1 <= r <= |rows| && |rows[r - 1]| == m
        && 1 <= c <= m && read(rows[r - 1][c - 1]).None?
        && CellsReadable(rows[r - 1][..c - 1], read)
        && RowsReadable(rows[..r - 1], m, read)
  {
    if |headers| >= 2 {
      ReadRowsErr(rows, |headers|, read);
    }
  }

  /**
   * A successful load has one column per header, named after it and in
   * header order; each column has one cell per record, in record order,
   * holding what the reader made of that record's cell; and its extrema are
   * those of its cells.
   */
  lemma LoadContents(headers: seq<string>, rows: seq<seq<string>>, read: Reader)
    requires Load(headers, rows, read).Ok?
    ensures RowsReadable(rows, |headers|, read)
    ensures var cols := Load(headers, rows, read).value;
      && |cols| == |headers|
      && (forall j :: 0 <= j < |cols| ==>
            && cols[j].name == headers[j] && |cols[j].data| == |rows|
            && cols[j].min == Lowest(cols[j].data) && cols[j].max == Highest(cols[j].data))
      && (forall i, j :: 0 <= i < |rows| && 0 <= j < |cols| ==> read(rows[i][j]) == Some(cols[j].data[i]))
  {
    ReadRowsOk(rows, |headers|, read);
  }
}
