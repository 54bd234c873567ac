/**
 * Data ingestion for the 3D viewer (src/data.rs): columns with running
 * extrema, the missing-value tokens, the row-and-cell validation loop of
 * `columns_from_file`, and zipping three columns into points.
 */
module Data {
  import opened Wrappers
  import opened Floats
  import opened Ingest

  /** One vertex: the cells of three columns at the same row (`position: [f32; 3]`). */
  datatype Point = Point(x: Cell, y: Cell, z: Cell)

  /** A column being filled row by row; `push` updates the data and the extrema in place. */
  class Column {
    const name: string
    var data: seq<Cell>
    var min: Extended
    var max: Extended

    /** The extrema are those of the cells pushed so far. */
    ghost predicate Valid()
      reads this
    {
      min == Lowest(data) && max == Highest(data)
    }

    /** The column's current contents as a value. */
    function Snapshot(): ColumnData
      reads this
    {
      ColumnData(name, data, min, max)
    }

    /** An empty column: no cells, minimum +inf and maximum -inf. */
    constructor (name: string)
      ensures this.name == name && data == []
      ensures min == PosInf && max == NegInf
      ensures Valid()
    {
      this.name := name;
      data := [];
      min := PosInf;
      max := NegInf;
    }

    /**
     * Appends one cell. Earlier cells are kept; a missing cell leaves both
     * extrema alone; afterwards, once any number has been pushed, the
     * minimum and maximum are the least and greatest number pushed.
     */
    method Push(v: Cell)
      requires Valid()
      modifies this
      ensures Valid()
      ensures data == old(data) + [v]
      ensures v.Missing? ==> min == old(min) && max == old(max)
      ensures AllMissing(data) <==> min == PosInf && max == NegInf
      ensures !AllMissing(data) ==>
        min.Finite? && max.Finite? && IsLeast(data, min.value) && IsGreatest(data, max.value)
    {
      data := data + [v];
      min := MinCell(min, v);
      max := MaxCell(max, v);
      assert data[..|data| - 1] == old(data);
      LowestIsLeast(data);
      HighestIsGreatest(data);
    }
  }

  /** ASCII lower-casing of one character. */
  function LowerChar(c: char): char
  {
    if 'A' <= c <= 'Z' then (c as int + 32) as char else c
  }

  /** Lower-casing of a string, character by character. */
  function ToLower(s: string): (r: string)
    ensures |r| == |s| && forall i :: 0 <= i < |s| ==> r[i] == LowerChar(s[i])
  {
    seq(|s|, i requires 0 <= i < |s| => LowerChar(s[i]))
  }

  /** Lower-casing leaves no upper-case ASCII letter, so doing it twice is doing it once. */
  lemma ToLowerLowers(s: string)
    ensures forall i :: 0 <= i < |s| ==> !('A' <= ToLower(s)[i] <= 'Z')
    ensures ToLower(ToLower(s)) == ToLower(s)
  {
  }

  /** Whether a cell's text is a missing-value token: "?" or "na" in any letter case. */
  function IsNaString(s: string): (r: bool)
    ensures r <==> s == "?" || (|s| == 2 && s[0] in "nN" && s[1] in "aA")
  {
    var lower := ToLower(s);
    if lower == "?" then
      assert |s| == 1 && lower[0] == LowerChar(s[0]);
      true
    else if lower == "na" then
      assert |s| == 2 && lower[0] == LowerChar(s[0]) && lower[1] == LowerChar(s[1]);
      true
    else
      assert s == "?" ==> lower == "?";
      assert |s| == 2 && s[0] in "nN" && s[1] in "aA" ==> lower == "na";
      false
  }

  /** The tokens "NA", "Na", "nA", "na" and "?" mark missing cells; "nan", "N/A" and the empty cell do not. */
  lemma NaTokens()
    ensures IsNaString("NA") && IsNaString("Na") && IsNaString("nA") && IsNaString("na") && IsNaString("?")
    ensures !IsNaString("nan") && !IsNaString("N/A") && !IsNaString("")
  {
  }

  /** How data.rs reads a cell: a missing-value token is NaN, anything else goes to the f32 parser. */
  function ReadCell(parse: string -> Option<Cell>): (read: Reader)
    ensures read("NA") == Some(Missing) && read("?") == Some(Missing)
    ensures forall s :: !IsNaString(s) ==> read(s) == parse(s)
    ensures forall s :: parse(s).Some? ==> read(s).Some?
  {
    NaTokens();
    s => if IsNaString(s) then Some(Missing) else parse(s)
  }

  /** All objects in `cs` are different. */
  ghost predicate Distinct(cs: seq<Column>)
  {
    forall j, k :: 0 <= j < k < |cs| ==> cs[j] != cs[k]
  }

  /** `headers.iter().map(Column::new).collect()`: one fresh, empty column per header, in order. */
  method NewColumns(headers: seq<string>) returns (columns: seq<Column>)
    ensures |columns| == |headers| && Distinct(columns)
    ensures forall j :: 0 <= j < |columns| ==>
      fresh(columns[j]) && columns[j].Valid() && columns[j].name == headers[j] && columns[j].data == []
  {
    columns := [];
    while |columns| < |headers|
      invariant |columns| <= |headers| && Distinct(columns)
      invariant forall j :: 0 <= j < |columns| ==>
        fresh(columns[j]) && columns[j].Valid() && columns[j].name == headers[j] && columns[j].data == []
    {
      var c := new Column(headers[|columns|]);
      columns := columns + [c];
    }
  }

  /**
   * The inner loop of `columns_from_file` for record `i`, whose width has
   * been checked: reads its cells left to right and pushes each into its
   * column. Reports the error `ReadCells` gives, or none; when there is none,
   * column `k` has gained exactly the value read from cell `k`.
   */
  method PushRecord(columns: seq<Column>, row: seq<string>, i: nat, parse: string -> Option<Cell>)
    returns (err: Option<LoadError>)
    requires |row| == |columns| && Distinct(columns)
    requires forall k :: 0 <= k < |columns| ==> columns[k].Valid()
    modifies set k | 0 <= k < |columns| :: columns[k]
    ensures err.Some? <==> ReadCells(row, i, ReadCell(parse)).Err?
    ensures err.Some? ==> err.value == ReadCells(row, i, ReadCell(parse)).error
    ensures forall k :: 0 <= k < |columns| ==> columns[k].Valid()
    ensures err.None? ==> forall k :: 0 <= k < |columns| ==>
      columns[k].data == old(columns[k].data) + [ReadCells(row, i, ReadCell(parse)).value[k]]
  {
    ghost var read := ReadCell(parse);
    ghost var cells: seq<Cell> := [];
    var j := 0;
    while j < |row|
      invariant 0 <= j <= |row|
      invariant ReadCells(row[..j], i, read) == Ok(cells)
      invariant forall k :: 0 <= k < |columns| ==>
        && columns[k].Valid()
        && columns[k].data == old(columns[k].data) + (if k < j then [cells[k]] else [])
    {
      var cell := row[j];
      assert row[..j + 1][..j] == row[..j] && row[..j + 1][j] == cell;
      var got := if IsNaString(cell) then Some(Missing) else parse(cell);
      assert got == read(cell);
      var value: Cell;
      match got {
        case None =>
          ReadCellsStopsAtError(row, j + 1, i, read);
          return Some(Unparseable(j + 1, i + 1));
        case Some(v) =>
          value := v;
      }
      assert ReadCells(row[..j + 1], i, read) == Ok(cells + [value]);
      columns[j].Push(value);
      cells := cells + [value];
      forall k | 0 <= k < |columns|
        ensures columns[k].Valid()
        ensures columns[k].data == old(columns[k].data) + (if k <= j then [cells[k]] else [])
      {
        if k < j {
          assert columns[k] != columns[j];
        } else if k > j {
          assert columns[j] != columns[k];
        }
      }
      j := j + 1;
    }
    assert row[..|row|] == row;
    return None;
  }

  /**
   * Record `i` of `columns_from_file`, the records before it having been read
   * into `table`: the width check, then its cells pushed into the columns.
   * Reports the error reading one record further gives, or none; when there is
   * none, the columns hold the table grown by that record.
   */
  method PushRow(columns: seq<Column>, rows: seq<seq<string>>, i: nat, parse: string -> Option<Cell>, ghost table: seq<seq<Cell>>)
    returns (err: Option<LoadError>, ghost next: seq<seq<Cell>>)
    requires i < |rows| && Distinct(columns)
    requires ReadRows(rows[..i], |columns|, ReadCell(parse)) == Ok(table)
    requires forall j :: 0 <= j < |columns| ==> columns[j].Valid() && columns[j].data == ColumnOf(table, j)
    modifies set k | 0 <= k < |columns| :: columns[k]
    ensures err.Some? ==> ReadRows(rows[..i + 1], |columns|, ReadCell(parse)) == Err(err.value)
    ensures err.None? ==> ReadRows(rows[..i + 1], |columns|, ReadCell(parse)) == Ok(next)
    ensures forall j :: 0 <= j < |columns| ==> columns[j].Valid()
    ensures err.None? ==> forall j :: 0 <= j < |columns| ==> columns[j].data == ColumnOf(next, j)
  {
    next := table;
    var row := rows[i];
    ReadRowsNext(rows, i, |columns|, ReadCell(parse), table);
    if |row| != |columns| {
      return Some(RowLength(i + 1, |row|, |columns|)), next;
    }
    err := PushRecord(columns, row, i, parse);
    if err.Some? {
      return;
    }
    ghost var cells := ReadCells(row, i, ReadCell(parse)).value;
    next := table + [cells];
    forall k | 0 <= k < |columns|
      ensures columns[k].data == ColumnOf(next, k)
    {
      ColumnOfAppend(table, cells, k);
    }
  }

  /**
   * `columns_from_file` after the CSV reader: the same outcome as `Load`
   * with `ReadCell(parse)`, the error included, and on success one column
   * object per header holding the loaded column.
   */
  method ColumnsFromFile(headers: seq<string>, rows: seq<seq<string>>, parse: string -> Option<Cell>)
    returns (r: Result<seq<Column>, LoadError>)
    ensures r.Err? <==> Load(headers, rows, ReadCell(parse)).Err?
    ensures r.Err? ==> r.error == Load(headers, rows, ReadCell(parse)).error
    ensures r.Ok? ==>
      && |r.value| == |headers| && Distinct(r.value)
      && (forall j :: 0 <= j < |headers| ==> fresh(r.value[j]))
      && forall j :: 0 <= j < |headers| ==>
           r.value[j].Valid() && r.value[j].Snapshot() == Load(headers, rows, ReadCell(parse)).value[j]
  {
    var m := |headers|;
    if m < 2 {
      return Err(TooFewColumns);
    }
    ghost var read := ReadCell(parse);
    var columns := NewColumns(headers);
    ghost var table: seq<seq<Cell>> := [];
    var i := 0;
    while i < |rows|
      invariant 0 <= i <= |rows|
      invariant ReadRows(rows[..i], m, read) == Ok(table)
      invariant |columns| == m && Distinct(columns)
      invariant forall j :: 0 <= j < m ==>
        && fresh(columns[j]) && columns[j].Valid() && columns[j].name == headers[j]
        && columns[j].data == ColumnOf(table, j)
    {
      var err;
      ghost var next;
      err, next := PushRow(columns, rows, i, parse, table);
      if err.Some? {
        ReadRowsStopsAtError(rows, i + 1, m, read);
        return Err(err.value);
      }
      table := next;
      i := i + 1;
    }
    assert rows[..|rows|] == rows;
    return Ok(columns);
  }

  /** `zip` of three cell sequences: as long as the shortest, point `i` taken from position `i` of each. */
  function Zip3(xs: seq<Cell>, ys: seq<Cell>, zs: seq<Cell>): (ps: seq<Point>)
    ensures |ps| <= |xs| && |ps| <= |ys| && |ps| <= |zs|
    ensures |ps| == |xs| || |ps| == |ys| || |ps| == |zs|
    ensures forall i :: 0 <= i < |ps| ==> ps[i] == Point(xs[i], ys[i], zs[i])
  {
    if xs == [] || ys == [] || zs == [] then []
    else [Point(xs[0], ys[0], zs[0])] + Zip3(xs[1..], ys[1..], zs[1..])
  }

  /**
   * The points of columns `a`, `b` and `c` (which may coincide): as many as
   * the shortest of the three has cells, point `i` made of their `i`-th cells.
   */
  function PointsFromColumns(cols: seq<ColumnData>, a: nat, b: nat, c: nat): (ps: seq<Point>)
    requires a < |cols| && b < |cols| && c < |cols|
    ensures |ps| <= |cols[a].data| && |ps| <= |cols[b].data| && |ps| <= |cols[c].data|
    ensures |ps| == |cols[a].data| || |ps| == |cols[b].data| || |ps| == |cols[c].data|
    ensures forall i :: 0 <= i < |ps| ==> ps[i] == Point(cols[a].data[i], cols[b].data[i], cols[c].data[i])
  {
    Zip3(cols[a].data, cols[b].data, cols[c].data)
  }

  /**
   * After a successful load every column has one cell per record, so the
   * points of any three columns are one per record; a missing-value token
   * becomes a missing cell and any other cell is what the f32 parser made of it.
   */
  lemma LoadedPoints(headers: seq<string>, rows: seq<seq<string>>, parse: string -> Option<Cell>, a: nat, b: nat, c: nat)
    requires Load(headers, rows, ReadCell(parse)).Ok?
    requires a < |headers| && b < |headers| && c < |headers|
    ensures RowsReadable(rows, |headers|, ReadCell(parse))
    ensures var cols := Load(headers, rows, ReadCell(parse)).value;
      && |cols| == |headers|
      && |PointsFromColumns(cols, a, b, c)| == |rows|
      && forall i, j :: 0 <= i < |rows| && 0 <= j < |cols| ==>
           (IsNaString(rows[i][j]) ==> cols[j].data[i] == Missing) &&
           (!IsNaString(rows[i][j]) ==> parse(rows[i][j]) == Some(cols[j].data[i]))
  {
    LoadContents(headers, rows, ReadCell(parse));
  }
}
