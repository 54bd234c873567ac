/**
 * The older standalone 2D viewer (src/main.rs): its own tuning constants,
 * the validator of the width and height arguments, its own column loader
 * (no missing-value tokens), two-column points, a 2D projection, and a
 * main loop that only restyles, resizes and quits.
 */
module Standalone {
  import opened Wrappers
  import opened Floats
  import opened Ingest
  import Axes
  import Data

  // ---------------------------------------------------------------------
  // Constants of main.rs; the point-size ceiling differs from cfg.rs

  const GAMMA_CHANGE: real := 1.1
  const GAMMA_DEFAULT: real := 10.0
  const GAMMA_MIN: real := 1.0
  const GAMMA_MAX: real := 100.0
  const POINTSIZE_CHANGE: real := 1.1
  const POINTSIZE_DEFAULT: real := 10.0
  const POINTSIZE_MIN: real := 2.0
  const POINTSIZE_MAX: real := 30.0

  /** The defaults lie inside the clamps, which are positive, and both step factors exceed one. */
  lemma ConstantsOrdered()
    ensures 0.0 < GAMMA_MIN <= GAMMA_DEFAULT <= GAMMA_MAX
    ensures 0.0 < POINTSIZE_MIN <= POINTSIZE_DEFAULT <= POINTSIZE_MAX
    ensures GAMMA_CHANGE > 1.0 && POINTSIZE_CHANGE > 1.0
  {
  }

  // ---------------------------------------------------------------------
  // `str::parse::<u32>` and the argument validator

  /** One more than the largest `u32`. */
  const U32_LIMIT: nat := 0x1_0000_0000

  predicate IsDigit(c: char)
  {
    '0' <= c <= '9'
  }

  predicate AllDigits(s: string)
  {
    forall i :: 0 <= i < |s| ==> IsDigit(s[i])
  }

  /** The number the decimal digits `s` spell, most significant first. */
  function DigitsValue(s: string): nat
    requires AllDigits(s)
  {
    if s == [] then 0 else DigitsValue(s[..|s| - 1]) * 10 + (s[|s| - 1] as int - '0' as int)
  }

  /** The text after a leading '+', which the u32 parser accepts and skips. */
  function Unsigned(s: string): string
  {
    if |s| > 0 && s[0] == '+' then s[1..] else s
  }

  /**
   * `s.parse::<u32>()`: an optional '+' and then one or more decimal digits
   * (leading zeros allowed) spelling a number below 2^32; anything else,
   * a '-' sign, blanks and overflow included, is an error.
   */
  function ParseU32(s: string): (r: Option<nat>)
    ensures r.Some? ==> r.value < U32_LIMIT
  {
    var d := Unsigned(s);
    if |d| > 0 && AllDigits(d) && DigitsValue(d) < U32_LIMIT then Some(DigitsValue(d)) else None
  }

  /** The digit character for `d`. */
  function DigitChar(d: nat): char
    requires d < 10
  {
    ('0' as int + d) as char
  }

  /** The shortest decimal spelling of `n`. */
  function Decimal(n: nat): string
    decreases n
  {
    if n < 10 then [DigitChar(n)] else Decimal(n / 10) + [DigitChar(n % 10)]
  }

  /** `Decimal(n)` is digits only, has no leading zero except for 0 itself, and spells `n`. */
  lemma {:induction false} DecimalSpells(n: nat)
    ensures |Decimal(n)| > 0 && AllDigits(Decimal(n)) && DigitsValue(Decimal(n)) == n
    ensures n > 0 ==> Decimal(n)[0] != '0'
    decreases n
  {
    if n >= 10 {
      DecimalSpells(n / 10);
      var s := Decimal(n);
      assert s[..|s| - 1] == Decimal(n / 10);
    }
  }

  /**
   * The parser reads back what `Decimal` writes, with or without a '+',
   * exactly for the numbers a u32 holds.
   */
  lemma ParseDecimal(n: nat)
    ensures ParseU32(Decimal(n)) == if n < U32_LIMIT then Some(n) else None
    ensures ParseU32("+" + Decimal(n)) == ParseU32(Decimal(n))
  {
    DecimalSpells(n);
    assert Unsigned("+" + Decimal(n)) == Decimal(n);
  }

  /** The empty string, a lone sign and a negative number are not u32 values. */
  lemma ParseRejectsSigns(s: string)
    ensures ParseU32("") == None && ParseU32("+") == None
    ensures ParseU32("-" + s) == None
  {
    assert !IsDigit(("-" + s)[0]);
  }

  const TOO_SMALL: string := "Number has to be at least 100"
  const NOT_A_NUMBER: string := "Not a positive number"

  /** `is_uint_and_geq_100`: a u32 of at least 100 passes; a smaller one and a non-number fail with their messages. */
  function IsUintAndGeq100(s: string): (r: Result<(), string>)
    ensures r.Ok? <==> ParseU32(s).Some? && ParseU32(s).value >= 100
    ensures r.Err? ==> r.error == (if ParseU32(s).Some? then TOO_SMALL else NOT_A_NUMBER)
  {
    match ParseU32(s)
    case Some(i) => if i >= 100 then Ok(()) else Err(TOO_SMALL)
    case None => Err(NOT_A_NUMBER)
  }

  /**
   * On decimal numbers the validator passes exactly those from 100 up to
   * the largest u32, reports a smaller one as too small, and a larger one
   * (it overflows the parser) as not a number.
   */
  lemma ValidatorOnNumbers(n: nat)
    ensures IsUintAndGeq100(Decimal(n)).Ok? <==> 100 <= n < U32_LIMIT
    ensures n < 100 ==> IsUintAndGeq100(Decimal(n)) == Err(TOO_SMALL)
    ensures n >= U32_LIMIT ==> IsUintAndGeq100(Decimal(n)) == Err(NOT_A_NUMBER)
  {
    ParseDecimal(n);
  }

  /** The defaults 800 and 600 pass, and so does a leading '+' with zeros. */
  lemma ValidatorAccepts()
    ensures IsUintAndGeq100("800").Ok? && IsUintAndGeq100("600").Ok? && IsUintAndGeq100("+0100").Ok?
  {
    assert Unsigned("800") == "800" && DigitsValue("800") == 800 by {
      assert "800"[..2] == "80" && "80"[..1] == "8" && "8"[..0] == "";
    }
    assert Unsigned("600") == "600" && DigitsValue("600") == 600 by {
      assert "600"[..2] == "60" && "60"[..1] == "6" && "6"[..0] == "";
    }
    assert Unsigned("+0100") == "0100" && DigitsValue("0100") == 100 by {
      assert "+0100"[1..] == "0100";
      assert "0100"[..3] == "010" && "010"[..2] == "01" && "01"[..1] == "0" && "0"[..0] == "";
    }
  }

  /** "99" is too small; "-800", "8OO" and "" are not numbers. */
  lemma ValidatorRejects()
    ensures IsUintAndGeq100("99") == Err(TOO_SMALL)
    ensures IsUintAndGeq100("-800") == Err(NOT_A_NUMBER)
    ensures IsUintAndGeq100("8OO") == Err(NOT_A_NUMBER)
    ensures IsUintAndGeq100("") == Err(NOT_A_NUMBER)
  {
    assert Unsigned("99") == "99" && DigitsValue("99") == 99 by {
      assert "99"[..1] == "9" && "9"[..0] == "";
    }
    assert !IsDigit("-800"[0]) && !IsDigit("8OO"[1]);
  }

  // ---------------------------------------------------------------------
  // Columns and the loader of main.rs

  /** A column being filled row by row; `push` updates the data and the extrema in place. */
  class Column {
    const name: string
    var data: seq<Cell>
    var min: Extended
    var max: Extended

    /** The extrema are those of the cells pushed so far. */
    ghost predicate Valid()
      reads this
    {
      min == Lowest(data) && max == Highest(data)
    }

    /** The column's current contents as a value. */
    function Snapshot(): ColumnData
      reads this
    {
      ColumnData(name, data, min, max)
    }

    /** `Column::new`: no cells, minimum +inf and maximum -inf. */
    constructor (name: string)
      ensures this.name == name && data == []
      ensures min == PosInf && max == NegInf
      ensures Valid()
    {
      this.name := name;
      data := [];
      min := PosInf;
      max := NegInf;
    }

    /**
     * `Column::push`: appends one cell; a NaN cell leaves both extrema
     * alone; once any number has been pushed, the minimum and maximum are
     * the least and greatest number pushed.
     */
    method Push(v: Cell)
      requires Valid()
      modifies this
      ensures Valid()
      ensures data == old(data) + [v]
      ensures v.Missing? ==> min == old(min) && max == old(max)
      ensures AllMissing(data) <==> min == PosInf && max == NegInf
      ensures !AllMissing(data) ==>
        min.Finite? && max.Finite? && IsLeast(data, min.value) && IsGreatest(data, max.value)
    {
      data := data + [v];
      min := MinCell(min, v);
      max := MaxCell(max, v);
      assert data[..|data| - 1] == old(data);
      LowestIsLeast(data);
      HighestIsGreatest(data);
    }
  }

  /** All objects in `cs` are different. */
  ghost predicate Distinct(cs: seq<Column>)
  {
    forall j, k :: 0 <= j < k < |cs| ==> cs[j] != cs[k]
  }

  /** One fresh, empty column per header, in order. */
  method NewColumns(headers: seq<string>) returns (columns: seq<Column>)
    ensures |columns| == |headers| && Distinct(columns)
    ensures forall j :: 0 <= j < |columns| ==>
      fresh(columns[j]) && columns[j].Valid() && columns[j].name == headers[j] && columns[j].data == []
  {
    columns := [];
    while |columns| < |headers|
      invariant |columns| <= |headers| && Distinct(columns)
      invariant forall j :: 0 <= j < |columns| ==>
        fresh(columns[j]) && columns[j].Valid() && columns[j].name == headers[j] && columns[j].data == []
    {
      var c := new Column(headers[|columns|]);
      columns := columns + [c];
    }
  }

  /**
   * The cell loop for record `i`, whose width has been checked: each cell
   * goes straight to the f32 parser and into its column. Reports the error
   * `ReadCells` gives with the parser as the reader, or none; when there is
   * none, column `k` has gained exactly the value parsed from cell `k`.
   */
  method PushRecord(columns: seq<Column>, row: seq<string>, i: nat, parse: string -> Option<Cell>)
    returns (err: Option<LoadError>)
    requires |row| == |columns| && Distinct(columns)
    requires forall k :: 0 <= k < |columns| ==> columns[k].Valid()
    modifies set k | 0 <= k < |columns| :: columns[k]
    ensures err.Some? <==> ReadCells(row, i, parse).Err?
    ensures err.Some? ==> err.value == ReadCells(row, i, parse).error
    ensures forall k :: 0 <= k < |columns| ==> columns[k].Valid()
    ensures err.None? ==> forall k :: 0 <= k < |columns| ==>
      columns[k].data == old(columns[k].data) + [ReadCells(row, i, parse).value[k]]
  {
    ghost var cells: seq<Cell> := [];
    var j := 0;
    while j < |row|
      invariant 0 <= j <= |row|
      invariant ReadCells(row[..j], i, parse) == Ok(cells)
      invariant forall k :: 0 <= k < |columns| ==>
        && columns[k].Valid()
        && columns[k].data == old(columns[k].data) + (if k < j then [cells[k]] else [])
    {
      var cell := row[j];
      assert row[..j + 1][..j] == row[..j] && row[..j + 1][j] == cell;
      var value: Cell;
      match parse(cell) {
        case None =>
          ReadCellsStopsAtError(row, j + 1, i, parse);
          return Some(Unparseable(j + 1, i + 1));
        case Some(v) =>
          value := v;
      }
      assert ReadCells(row[..j + 1], i, parse) == Ok(cells + [value]);
      columns[j].Push(value);
      cells := cells + [value];
      forall k | 0 <= k < |columns|
        ensures columns[k].Valid()
        ensures columns[k].data == old(columns[k].data) + (if k <= j then [cells[k]] else [])
      {
        if k < j {
          assert columns[k] != columns[j];
        } else if k > j {
          assert columns[j] != columns[k];
        }
      }
      j := j + 1;
    }
    assert row[..|row|] == row;
    return None;
  }

  /**
   * Record `i`, the records before it having been read into `table`: the
   * width check, then its cells pushed into the columns. Reports the error
   * reading one record further gives, or none; when there is none, the
   * columns hold the table grown by that record.
   */
  method PushRow(columns: seq<Column>, rows: seq<seq<string>>, i: nat, parse: string -> Option<Cell>, ghost table: seq<seq<Cell>>)
    returns (err: Option<LoadError>, ghost next: seq<seq<Cell>>)
    requires i < |rows| && Distinct(columns)
    requires ReadRows(rows[..i], |columns|, parse) == Ok(table)
    requires forall j :: 0 <= j < |columns| ==> columns[j].Valid() && columns[j].data == ColumnOf(table, j)
    modifies set k | 0 <= k < |columns| :: columns[k]
    ensures err.Some? ==> ReadRows(rows[..i + 1], |columns|, parse) == Err(err.value)
    ensures err.None? ==> ReadRows(rows[..i + 1], |columns|, parse) == Ok(next)
    ensures forall j :: 0 <= j < |columns| ==> columns[j].Valid()
    ensures err.None? ==> forall j :: 0 <= j < |columns| ==> columns[j].data == ColumnOf(next, j)
  {
    next := table;
    var row := rows[i];
    ReadRowsNext(rows, i, |columns|, parse, table);
    if |row| != |columns| {
      return Some(RowLength(i + 1, |row|, |columns|)), next;
    }
    err := PushRecord(columns, row, i, parse);
    if err.Some? {
      return;
    }
    ghost var cells := ReadCells(row, i, parse).value;
    next := table + [cells];
    forall k | 0 <= k < |columns|
      ensures columns[k].data == ColumnOf(next, k)
    {
      ColumnOfAppend(table, cells, k);
    }
  }

  /**
   * `columns_from_file` of main.rs after the CSV reader: the outcome of
   * `Load` with the bare f32 parser as the reader, the error included, and
   * on success one column object per header holding the loaded column.
   */
  method ColumnsFromFile(headers: seq<string>, rows: seq<seq<string>>, parse: string -> Option<Cell>)
    returns (r: Result<seq<Column>, LoadError>)
    ensures r.Err? <==> Load(headers, rows, parse).Err?
    ensures r.Err? ==> r.error == Load(headers, rows, parse).error
    ensures r.Ok? ==>
      && |r.value| == |headers| && Distinct(r.value)
      && (forall j :: 0 <= j < |headers| ==> fresh(r.value[j]))
      && forall j :: 0 <= j < |headers| ==>
           r.value[j].Valid() && r.value[j].Snapshot() == Load(headers, rows, parse).value[j]
  {
    var m := |headers|;
    if m < 2 {
      return Err(TooFewColumns);
    }
    var columns := NewColumns(headers);
    ghost var table: seq<seq<Cell>> := [];
    var i := 0;
    while i < |rows|
      invariant 0 <= i <= |rows|
      invariant ReadRows(rows[..i], m, parse) == Ok(table)
      invariant |columns| == m && Distinct(columns)
      invariant forall j :: 0 <= j < m ==>
        && fresh(columns[j]) && columns[j].Valid() && columns[j].name == headers[j]
        && columns[j].data == ColumnOf(table, j)
    {
      var err;
      ghost var next;
      err, next := PushRow(columns, rows, i, parse, table);
      if err.Some? {
        ReadRowsStopsAtError(rows, i + 1, m, parse);
        return Err(err.value);
      }
      table := next;
      i := i + 1;
    }
    assert rows[..|rows|] == rows;
    return Ok(columns);
  }

  /** Two readers that agree on every cell of `cells` read them alike. */
  lemma {:induction false} ReadersAgreeOnCells(cells: seq<string>, row: nat, r1: Reader, r2: Reader)
    requires forall j :: 0 <= j < |cells| ==> r1(cells[j]) == r2(cells[j])
    ensures ReadCells(cells, row, r1) == ReadCells(cells, row, r2)
  {
    if cells != [] {
      ReadersAgreeOnCells(cells[..|cells| - 1], row, r1, r2);
    }
  }

  /** Two readers that agree on every cell of `rows` read them alike. */
  lemma {:induction false} ReadersAgreeOnRows(rows: seq<seq<string>>, m: nat, r1: Reader, r2: Reader)
    requires forall i, j :: 0 <= i < |rows| && 0 <= j < |rows[i]| ==> r1(rows[i][j]) == r2(rows[i][j])
    ensures ReadRows(rows, m, r1) == ReadRows(rows, m, r2)
  {
    if rows != [] {
      var i := |rows| - 1;
      ReadersAgreeOnRows(rows[..i], m, r1, r2);
      ReadersAgreeOnCells(rows[i], i, r1, r2);
    }
  }

  /**
   * Where no cell is a missing-value token, main.rs loads exactly what
   * data.rs loads from the same records.
   */
  lemma SameLoadWithoutTokens(headers: seq<string>, rows: seq<seq<string>>, parse: string -> Option<Cell>)
    requires forall i, j :: 0 <= i < |rows| && 0 <= j < |rows[i]| ==> !Data.IsNaString(rows[i][j])
    ensures Load(headers, rows, parse) == Load(headers, rows, Data.ReadCell(parse))
  {
    ReadersAgreeOnRows(rows, |headers|, parse, Data.ReadCell(parse));
  }

  /** An "NA" cell the f32 parser rejects stops main.rs with an error where data.rs reads a missing cell. */
  lemma TokensDiffer()
    ensures var parse: string -> Option<Cell> := s => if s == "1" then Some(Num(1.0)) else None;
      && Load(["x", "y"], [["1", "NA"]], parse) == Err(Unparseable(2, 1))
      && Load(["x", "y"], [["1", "NA"]], Data.ReadCell(parse)).Ok?
  {
    var parse: string -> Option<Cell> := s => if s == "1" then Some(Num(1.0)) else None;
    var row := ["1", "NA"];
    assert row[..1] == ["1"] && ["1"][..0] == [];
    assert Data.IsNaString("NA") && !Data.IsNaString("1") by {
      Data.NaTokens();
      assert "1" != "?";
    }
    assert ReadCells(row, 0, parse) == Err(Unparseable(2, 1));
    var read := Data.ReadCell(parse);
    assert read("1") == Some(Num(1.0)) && read("NA") == Some(Missing);
    var first := row[..1];
    assert first == ["1"] && first[..0] == [] && first[0] == "1";
    var none: seq<Cell> := [];
    assert ReadCells(first, 0, read) == Ok(none + [Num(1.0)]);
    assert none + [Num(1.0)] == [Num(1.0)];
    assert row[..|row| - 1] == first && row[|row| - 1] == "NA";
    assert ReadCells(row[..|row| - 1], 0, read) == Ok([Num(1.0)]) && read(row[|row| - 1]) == Some(Missing);
    assert ReadCells(row, 0, read) == Ok([Num(1.0)] + [Missing]);
    assert [row][..0] == [];
  }

  // ---------------------------------------------------------------------
  // Points and the 2D projection

  /** One vertex of main.rs: the cells of two columns at the same row. */
  datatype Point = Point(x: Cell, y: Cell)

  /** `zip` of two cell sequences: as long as the shorter, point `i` taken from position `i` of each. */
  function Zip2(xs: seq<Cell>, ys: seq<Cell>): (ps: seq<Point>)
    ensures |ps| == if |xs| <= |ys| then |xs| else |ys|
    ensures forall i :: 0 <= i < |ps| ==> ps[i] == Point(xs[i], ys[i])
  {
    if xs == [] || ys == [] then []
    else [Point(xs[0], ys[0])] + Zip2(xs[1..], ys[1..])
  }

  /** `points_from_columns` of main.rs: the points of columns `a` and `b`, as many as the shorter has cells. */
  function PointsFromColumns(cols: seq<ColumnData>, a: nat, b: nat): (ps: seq<Point>)
    requires a < |cols| && b < |cols|
    ensures |ps| <= |cols[a].data| && |ps| <= |cols[b].data|
    ensures |ps| == |cols[a].data| || |ps| == |cols[b].data|
    ensures forall i :: 0 <= i < |ps| ==> ps[i] == Point(cols[a].data[i], cols[b].data[i])
  {
    Zip2(cols[a].data, cols[b].data)
  }

  /** The `Projection` of main.rs: an x and a y axis stored as four fields. */
  class Projection {
    var scaleX: real
    var scaleY: real
    var deltaX: real
    var deltaY: real

    function X(): Axes.Axis
      reads this`scaleX, this`deltaX
    {
      Axes.Axis(scaleX, deltaX)
    }

    function Y(): Axes.Axis
      reads this`scaleY, this`deltaY
    {
      Axes.Axis(scaleY, deltaY)
    }

    /** `Projection::new`: both axes the identity. */
    constructor ()
      ensures X() == Axes.Identity && Y() == Axes.Identity
    {
      scaleX, scaleY := 1.0, 1.0;
      deltaX, deltaY := 0.0, 0.0;
    }

    /** `adjust_x`: fit x to `[lo, hi]`, `lo` to the left edge and `hi` to the right. */
    method AdjustX(lo: real, hi: real)
      modifies this`scaleX, this`deltaX
      ensures X() == Axes.Fit(old(X()), lo, hi, -1.0, 2.0)
    {
      if hi != lo {
        scaleX := 2.0 / (hi - lo);
      }
      deltaX := -1.0 - lo * scaleX;
    }

    /** `adjust_y`: fit y to `[lo, hi]`, `lo` to the bottom edge and `hi` to the top. */
    method AdjustY(lo: real, hi: real)
      modifies this`scaleY, this`deltaY
      ensures Y() == Axes.Fit(old(Y()), lo, hi, -1.0, 2.0)
    {
      if hi != lo {
        scaleY := 2.0 / (hi - lo);
      }
      deltaY := -1.0 - lo * scaleY;
    }

    /** `get_matrix`: the column-major transform, with depth passed through unscaled. */
    function Matrix(): (mat: seq<seq<real>>)
      reads this
      ensures |mat| == 4 && forall c :: 0 <= c < 4 ==> |mat[c]| == 4
    {
      [[scaleX, 0.0, 0.0, 0.0],
       [0.0, scaleY, 0.0, 0.0],
       [0.0, 0.0, 1.0, 0.0],
       [deltaX, deltaY, 0.0, 1.0]]
    }

    /** The matrix draws `(x, y, z)` where the two axes place `x` and `y`, at depth `z` itself. */
    lemma MatrixPlaces(x: real, y: real, z: real)
      ensures Axes.Apply(Matrix(), x, y, z) == [Axes.Place(X(), x), Axes.Place(Y(), y), z, 1.0]
    {
      var mat := Matrix();
      assert mat[0] == [scaleX, 0.0, 0.0, 0.0] && mat[1] == [0.0, scaleY, 0.0, 0.0];
      assert mat[2] == [0.0, 0.0, 1.0, 0.0] && mat[3] == [deltaX, deltaY, 0.0, 1.0];
      assert 0.0 * x == 0.0 && 0.0 * y == 0.0 && 1.0 * z == z;
      var r := Axes.Apply(mat, x, y, z);
      assert r[0] == scaleX * x + deltaX == Axes.Place(X(), x);
      assert r[1] == scaleY * y + deltaY == Axes.Place(Y(), y);
      assert r[2] == z;
      assert r[3] == 1.0;
    }
  }

  // ---------------------------------------------------------------------
  // The main loop of main.rs

  /** The keys main.rs reacts to; every other key is `OtherKey`. */
  datatype Key = Escape | J | K | N | M | OtherKey

  /** The events of main.rs; every other event is `Unhandled`. */
  datatype Event = Closed | KeyPressed(key: Key) | Resized(width: nat, height: nat) | Unhandled

  /** What the main loop changes: the gamma, the point size and the window size. */
  datatype Look = Look(gamma: real, pointsize: real, width: nat, height: nat)

  /** Gamma and point size inside this file's clamps. */
  predicate InRange(l: Look)
  {
    GAMMA_MIN <= l.gamma <= GAMMA_MAX && POINTSIZE_MIN <= l.pointsize <= POINTSIZE_MAX
  }

  predicate Quits(ev: Event)
  {
    ev.Closed? || (ev.KeyPressed? && ev.key.Escape?)
  }

  /**
   * One event of the main loop: J/K grow and shrink the point size and N/M
   * the gamma, each clamped to this file's bounds; a resize records the new
   * size; nothing else changes anything.
   */
  function Step(l: Look, ev: Event): (r: Look)
    ensures Quits(ev) ==> r == l
    ensures !ev.Resized? ==> r.width == l.width && r.height == l.height
    ensures !ev.KeyPressed? ==> r.gamma == l.gamma && r.pointsize == l.pointsize
    ensures ev.Resized? ==> r.width == ev.width && r.height == ev.height
  {
    match ev
    case KeyPressed(J) => l.(pointsize := Increase(l.pointsize, POINTSIZE_CHANGE, POINTSIZE_MAX))
    case KeyPressed(K) => l.(pointsize := Decrease(l.pointsize, POINTSIZE_CHANGE, POINTSIZE_MIN))
    case KeyPressed(N) => l.(gamma := Increase(l.gamma, GAMMA_CHANGE, GAMMA_MAX))
    case KeyPressed(M) => l.(gamma := Decrease(l.gamma, GAMMA_CHANGE, GAMMA_MIN))
    case Resized(w, h) => l.(width := w, height := h)
    case _ => l
  }

  /** One event keeps gamma and point size inside their clamps. */
  lemma StepStaysInRange(l: Look, ev: Event)
    requires InRange(l)
    ensures InRange(Step(l, ev))
  {
    if ev.KeyPressed? && (ev.key.J? || ev.key.K?) {
      PressStaysInRange(l.pointsize, POINTSIZE_CHANGE, POINTSIZE_MIN, POINTSIZE_MAX);
    } else if ev.KeyPressed? && (ev.key.N? || ev.key.M?) {
      PressStaysInRange(l.gamma, GAMMA_CHANGE, GAMMA_MIN, GAMMA_MAX);
    }
  }

  /** The events `evs` handled one after the other. */
  function Run(l: Look, evs: seq<Event>): (r: Look)
    ensures (forall k :: 0 <= k < |evs| ==> !evs[k].Resized?) ==> r.width == l.width && r.height == l.height
    ensures (forall k :: 0 <= k < |evs| ==> !evs[k].KeyPressed?) ==> r.gamma == l.gamma && r.pointsize == l.pointsize
  {
    if evs == [] then l else Step(Run(l, evs[..|evs| - 1]), evs[|evs| - 1])
  }

  /** However many keys are pressed, gamma and point size never leave their clamps. */
  lemma {:induction false} RunStaysInRange(l: Look, evs: seq<Event>)
    requires InRange(l)
    ensures InRange(Run(l, evs))
  {
    if evs != [] {
      RunStaysInRange(l, evs[..|evs| - 1]);
      StepStaysInRange(Run(l, evs[..|evs| - 1]), evs[|evs| - 1]);
    }
  }

  /** After a run of events, the window size is that of the last resize in it. */
  lemma {:induction false} SizeFollowsLastResize(l: Look, evs: seq<Event>, k: nat)
    requires k < |evs| && evs[k].Resized?
    requires forall j :: k < j < |evs| ==> !evs[j].Resized?
    ensures Run(l, evs).width == evs[k].width && Run(l, evs).height == evs[k].height
  {
    if k < |evs| - 1 {
      var init := evs[..|evs| - 1];
      assert init[k] == evs[k];
      SizeFollowsLastResize(l, init, k);
    }
  }

  /** J at the ceiling of 30 and K at the floor leave the point size there; N and M likewise for gamma. */
  lemma PressesAtBounds(l: Look)
    requires InRange(l)
    ensures l.pointsize == POINTSIZE_MAX ==> Step(l, KeyPressed(J)) == l
    ensures l.pointsize == POINTSIZE_MIN ==> Step(l, KeyPressed(K)) == l
    ensures l.gamma == GAMMA_MAX ==> Step(l, KeyPressed(N)) == l
    ensures l.gamma == GAMMA_MIN ==> Step(l, KeyPressed(M)) == l
  {
    PressStaysInRange(l.pointsize, POINTSIZE_CHANGE, POINTSIZE_MIN, POINTSIZE_MAX);
    PressStaysInRange(l.gamma, GAMMA_CHANGE, GAMMA_MIN, GAMMA_MAX);
  }

  /** The J/K presses among `evs`, in order. */
  function PointsizePresses(evs: seq<Event>): seq<Press>
  {
    if evs == [] then []
    else
      var p := PointsizePresses(evs[..|evs| - 1]);
      match evs[|evs| - 1]
      case KeyPressed(J) => p + [Grow]
      case KeyPressed(K) => p + [Shrink]
      case _ => p
  }

  /** The point size after a run of events is that of its J/K presses alone: other events do not touch it. */
  lemma {:induction false} PointsizeFollowsPresses(l: Look, evs: seq<Event>)
    ensures Run(l, evs).pointsize == AfterPresses(l.pointsize, PointsizePresses(evs), POINTSIZE_CHANGE, POINTSIZE_MIN, POINTSIZE_MAX)
  {
    if evs != [] {
      var init := evs[..|evs| - 1];
      PointsizeFollowsPresses(l, init);
      var p := PointsizePresses(init);
      match evs[|evs| - 1]
      case KeyPressed(J) =>
        assert (p + [Grow])[..|p|] == p;
      case KeyPressed(K) =>
        assert (p + [Shrink])[..|p|] == p;
      case _ =>
    }
  }

  /** The N/M presses among `evs`, in order. */
  function GammaPresses(evs: seq<Event>): seq<Press>
  {
    if evs == [] then []
    else
      var p := GammaPresses(evs[..|evs| - 1]);
      match evs[|evs| - 1]
      case KeyPressed(N) => p + [Grow]
      case KeyPressed(M) => p + [Shrink]
      case _ => p
  }

  /** The gamma after a run of events is that of its N/M presses alone: other events do not touch it. */
  lemma {:induction false} GammaFollowsPresses(l: Look, evs: seq<Event>)
    ensures Run(l, evs).gamma == AfterPresses(l.gamma, GammaPresses(evs), GAMMA_CHANGE, GAMMA_MIN, GAMMA_MAX)
  {
    if evs != [] {
      var init := evs[..|evs| - 1];
      GammaFollowsPresses(l, init);
      var p := GammaPresses(init);
      match evs[|evs| - 1]
      case KeyPressed(N) =>
        assert (p + [Grow])[..|p|] == p;
      case KeyPressed(M) =>
        assert (p + [Shrink])[..|p|] == p;
      case _ =>
    }
  }

  /** A texture, represented by its dimensions only. */
  datatype Texture = Texture(width: nat, height: nat)

  /** The two draws of one frame: the points into the texture, then the texture to the screen. */
  datatype Frame = Frame(texture: Texture, matrix: seq<seq<real>>, count: nat, pointsize: real, invGamma: real)

  /** The state of `main` from the loaded columns on, without the GPU handles. */
  class Viewer {
    const columns: seq<ColumnData>
    const points: seq<Point>
    const n: nat
    const projection: Projection
    var width: nat
    var height: nat
    var gamma: real
    var pointsize: real
    var texture: Texture

    function State(): Look
      reads this`gamma, this`pointsize, this`width, this`height
    {
      Look(gamma, pointsize, width, height)
    }

    /** Clamped gamma and point size, and a texture of the window's size. */
    predicate Valid()
      reads this`gamma, this`pointsize, this`width, this`height, this`texture
    {
      InRange(State()) && texture == Texture(width, height)
    }

    /**
     * The set-up of `main`: columns 0 and 1 on x and y, their points in the
     * vertex buffer, default gamma and point size, both axes fitted to
     * their columns' extrema, and a texture of the window's size.
     */
    constructor (width: nat, height: nat, columns: seq<ColumnData>)
      requires |columns| >= 2
      requires columns[0].min.Finite? && columns[0].max.Finite? && columns[1].min.Finite? && columns[1].max.Finite?
      ensures Valid() && fresh(projection)
      ensures this.columns == columns && points == PointsFromColumns(columns, 0, 1) && n == |points|
      ensures State() == Look(GAMMA_DEFAULT, POINTSIZE_DEFAULT, width, height)
      ensures projection.X() == Axes.Fit(Axes.Identity, columns[0].min.value, columns[0].max.value, -1.0, 2.0)
      ensures projection.Y() == Axes.Fit(Axes.Identity, columns[1].min.value, columns[1].max.value, -1.0, 2.0)
    {
      var pts := PointsFromColumns(columns, 0, 1);
      var p := new Projection();
      p.AdjustX(columns[0].min.value, columns[0].max.value);
      p.AdjustY(columns[1].min.value, columns[1].max.value);
      this.columns := columns;
      points := pts;
      n := |pts|;
      projection := p;
      this.width, this.height := width, height;
      gamma, pointsize := GAMMA_DEFAULT, POINTSIZE_DEFAULT;
      texture := Texture(width, height);
    }

    /** Steps 1 and 2: the points drawn with the current matrix and point size, the texture shown with `1/gamma`. */
    function Draw(): (f: Frame)
      reads this, projection
      requires Valid()
      ensures f.texture == Texture(width, height)
      ensures POINTSIZE_MIN <= f.pointsize <= POINTSIZE_MAX
      ensures 1.0 / GAMMA_MAX <= f.invGamma <= 1.0 / GAMMA_MIN
    {
      Frame(texture, projection.Matrix(), n, pointsize, 1.0 / gamma)
    }

    /** One event of step 3: the look changes as `Step` says, Closed and Escape quit, and a resize reallocates the texture. */
    method HandleEvent(ev: Event) returns (quit: bool)
      requires Valid()
      modifies this`gamma, this`pointsize, this`width, this`height, this`texture
      ensures Valid()
      ensures State() == Step(old(State()), ev)
      ensures quit <==> Quits(ev)
    {
      quit := false;
      match ev {
        case Closed =>
          quit := true;
        case KeyPressed(key) =>
          match key {
            case Escape =>
              quit := true;
            case J =>
              pointsize := Min(pointsize * POINTSIZE_CHANGE, POINTSIZE_MAX);
            case K =>
              pointsize := Max(pointsize / POINTSIZE_CHANGE, POINTSIZE_MIN);
            case N =>
              gamma := Min(gamma * GAMMA_CHANGE, GAMMA_MAX);
            case M =>
              gamma := Max(gamma / GAMMA_CHANGE, GAMMA_MIN);
            case OtherKey =>
          }
        case Resized(w, h) =>
          width := w;
          height := h;
          texture := Texture(width, height);
        case Unhandled =>
      }
    }

    /**
     * Step 3: handle the events in order until one quits; `count` is how
     * many were handled before the quitting one, or all of them, and the
     * look becomes `Run` of the events handled.
     */
    method PollEvents(events: seq<Event>) returns (quit: bool, ghost count: nat)
      requires Valid()
      modifies this`gamma, this`pointsize, this`width, this`height, this`texture
      ensures Valid()
      ensures count <= |events| && forall k :: 0 <= k < count ==> !Quits(events[k])
      ensures quit ==> count < |events| && Quits(events[count])
      ensures !quit ==> count == |events|
      ensures State() == Run(old(State()), events[..if quit then count + 1 else count])
    {
      ghost var start := State();
      var i := 0;
      while i < |events|
        invariant 0 <= i <= |events|
        invariant Valid()
        invariant forall k :: 0 <= k < i ==> !Quits(events[k])
        invariant State() == Run(start, events[..i])
      {
        var q := HandleEvent(events[i]);
        assert events[..i + 1][..i] == events[..i];
        if q {
          return true, i;
        }
        i := i + 1;
      }
      return false, i;
    }

    /** One pass of the main loop: draw the frame as the state stands, then handle the events. */
    method RunFrame(events: seq<Event>) returns (frame: Frame, quit: bool, ghost count: nat)
      requires Valid()
      modifies this`gamma, this`pointsize, this`width, this`height, this`texture
      ensures Valid()
      ensures frame == Frame(old(texture), projection.Matrix(), n, old(pointsize), 1.0 / old(gamma))
      ensures quit <==> exists k :: 0 <= k < |events| && Quits(events[k])
      ensures count <= |events| && forall k :: 0 <= k < count ==> !Quits(events[k])
      ensures quit ==> count < |events| && Quits(events[count])
      ensures State() == Run(old(State()), events[..if quit then count + 1 else count])
    {
      frame := Draw();
      quit, count := PollEvents(events);
    }
  }
}
