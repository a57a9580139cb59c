/**
 * The CSV loader of the energy-efficiency dashboard (`load_all`): every
 * source is read, checked, given a `DataHora` time index and an `Origem` tag,
 * and the surviving sources are concatenated and sorted by time.
 */
module Loader {
  import opened Wrappers
  import opened Cells
  import opened TimeSort

  /** A sheet as the reader returns it: column names in order, and rows keyed by column name. */
  datatype Table = Table(header: seq<string>, rows: seq<map<string, Cell>>)

  /** One configured source; `table` is None when reading it raised an exception. */
  datatype Source = Source(name: string, table: Option<Table>)

  /** One timestamped observation with its source tag (`Origem` / `Sistema`). */
  datatype Row = Row(time: int, origin: string, cells: map<string, Cell>)

  /** A time-indexed frame: its column names and its rows. */
  datatype Frame = Frame(columns: set<string>, rows: seq<Row>)

  /** The cell of column `c` in a row; NaN where the row has no such column. */
  function CellAt(cells: map<string, Cell>, c: string): Cell
  {
    if c in cells then cells[c] else Blank
  }

  function TimeOf(r: Row): int
  {
    r.time
  }

  /** The column of `c` over a sequence of rows (NaN for rows that lack it). */
  function Column(rows: seq<Row>, c: string): (col: seq<Cell>)
    ensures |col| == |rows|
    ensures forall i :: 0 <= i < |rows| ==> col[i] == CellAt(rows[i].cells, c)
  {
    seq(|rows|, i requires 0 <= i < |rows| => CellAt(rows[i].cells, c))
  }

  function Times(rows: seq<Row>): (ts: seq<int>)
    ensures |ts| == |rows|
    ensures forall i :: 0 <= i < |rows| ==> ts[i] == rows[i].time
  {
    seq(|rows|, i requires 0 <= i < |rows| => rows[i].time)
  }

  /** Case-sensitive test `"Data" in c or "Hora" in c`. */
  predicate NamesDateTime(c: string)
  {
    Contains(c, "Data") || Contains(c, "Hora")
  }

  /** The time column: the first column whose name contains "Data" or "Hora". */
  function TimeColumn(header: seq<string>): Option<string>
  {
    FirstWhere(header, NamesDateTime)
  }

  /** The search loop `for c in df.columns: if ...: dtcol = c; break`. */
  method FindTimeColumn(header: seq<string>) returns (dtcol: Option<string>)
    ensures dtcol.Some? ==> dtcol.value in header && NamesDateTime(dtcol.value)
    ensures dtcol.None? <==> forall j :: 0 <= j < |header| ==> !NamesDateTime(header[j])
    ensures dtcol == TimeColumn(header)
  {
    dtcol := None;
    for i := 0 to |header|
      invariant dtcol.None?
      invariant forall j :: 0 <= j < i ==> !NamesDateTime(header[j])
    {
      if NamesDateTime(header[i]) {
        dtcol := Some(header[i]);
        assert FirstIndex(header, NamesDateTime) == Some(i);
        return;
      }
    }
  }

  /** How many source rows become row `x` once their date is parsed. */
  function RowsGiving(name: string, dt: string, rows: seq<map<string, Cell>>,
                      parse: Cell -> Option<int>, x: Row): nat
  {
    if rows == [] then 0
    else
      var last := rows[|rows| - 1];
      RowsGiving(name, dt, rows[..|rows| - 1], parse, x)
      + (if parse(CellAt(last, dt)) == Some(x.time) && x == Row(x.time, name, last - {dt}) then 1 else 0)
  }

  /**
   * `to_datetime(..., errors="coerce")` followed by `dropna(subset=["DataHora"])`:
   * the rows whose time cell parses, in order, tagged with the source name and
   * with the time column moved to the index.
   */
  function ValidRows(name: string, dt: string, rows: seq<map<string, Cell>>,
                     parse: Cell -> Option<int>): (r: seq<Row>)
    ensures |r| <= |rows|
    ensures r == [] <==> forall j :: 0 <= j < |rows| ==> parse(CellAt(rows[j], dt)).None?
    ensures forall k :: 0 <= k < |r| ==> r[k].origin == name && dt !in r[k].cells
    ensures forall k :: 0 <= k < |r| ==>
      exists j :: 0 <= j < |rows| && parse(CellAt(rows[j], dt)) == Some(r[k].time) && r[k].cells == rows[j] - {dt}
    ensures forall j :: 0 <= j < |rows| && parse(CellAt(rows[j], dt)).Some? ==>
      Row(parse(CellAt(rows[j], dt)).value, name, rows[j] - {dt}) in r
  {
    if rows == [] then []
    else
      var n := |rows| - 1;
      var init := ValidRows(name, dt, rows[..n], parse);
      assert forall j :: 0 <= j < n ==> rows[..n][j] == rows[j];
      match parse(CellAt(rows[n], dt))
      case None => init
      case Some(t) => init + [Row(t, name, rows[n] - {dt})]
  }

  /** Each source row whose date parses gives one kept row, so equal rows are kept as often as they occur. */
  lemma {:induction false} ValidRowsCount(name: string, dt: string, rows: seq<map<string, Cell>>,
                                          parse: Cell -> Option<int>)
    ensures forall x :: multiset(ValidRows(name, dt, rows, parse))[x] == RowsGiving(name, dt, rows, parse, x)
  {
    if rows != [] {
      ValidRowsCount(name, dt, rows[..|rows| - 1], parse);
    }
  }

  /**
   * One source after the loader's checks, or None when it is skipped: the read
   * raised, the sheet is empty, no time column, or no row with a valid date.
   */
  function Prepared(src: Source, parse: Cell -> Option<int>): Option<Frame>
  {
    match src.table
    case None => None
    case Some(t) =>
      if t.header == [] || t.rows == [] then None
      else match TimeColumn(t.header)
        case None => None
        case Some(dt) =>
          var rows := ValidRows(src.name, dt, t.rows, parse);
          if rows == [] then None
          else Some(Frame((set c | c in t.header) - {dt}, rows))
  }

  /** The skip policy: a source is left out exactly in these four cases. */
  lemma SkipPolicy(src: Source, parse: Cell -> Option<int>)
    ensures Prepared(src, parse).None? <==>
      || src.table.None?
      || src.table.value.header == [] || src.table.value.rows == []
      || (forall j :: 0 <= j < |src.table.value.header| ==> !NamesDateTime(src.table.value.header[j]))
      || (var t := src.table.value;
          forall j :: 0 <= j < |t.rows| ==> parse(CellAt(t.rows[j], TimeColumn(t.header).value)).None?)
    ensures Prepared(src, parse).Some? ==>
      forall k :: 0 <= k < |Prepared(src, parse).value.rows| ==> Prepared(src, parse).value.rows[k].origin == src.name
  {
  }

  /** The frames of the sources that survive the checks, in configuration order. */
  function Loaded(sources: seq<Source>, parse: Cell -> Option<int>): seq<Frame>
  {
    if sources == [] then []
    else
      var init := Loaded(sources[..|sources| - 1], parse);
      match Prepared(sources[|sources| - 1], parse)
      case None => init
      case Some(f) => init + [f]
  }

  /** `pd.concat(dfs)` before sorting: rows one frame after another, columns united. */
  function ConcatRows(dfs: seq<Frame>): seq<Row>
  {
    if dfs == [] then [] else ConcatRows(dfs[..|dfs| - 1]) + dfs[|dfs| - 1].rows
  }

  function ConcatColumns(dfs: seq<Frame>): set<string>
  {
    if dfs == [] then {} else ConcatColumns(dfs[..|dfs| - 1]) + dfs[|dfs| - 1].columns
  }

  lemma {:induction false} LoadedEmpty(sources: seq<Source>, parse: Cell -> Option<int>)
    ensures Loaded(sources, parse) == [] <==>
      forall i :: 0 <= i < |sources| ==> Prepared(sources[i], parse).None?
  {
    if sources != [] {
      var n := |sources| - 1;
      LoadedEmpty(sources[..n], parse);
      assert forall i :: 0 <= i < n ==> sources[..n][i] == sources[i];
    }
  }

  /** Every row of the concatenation carries the name of a source that loaded. */
  lemma {:induction false} ConcatOrigins(sources: seq<Source>, parse: Cell -> Option<int>)
    ensures forall r :: r in ConcatRows(Loaded(sources, parse)) ==>
      exists i :: 0 <= i < |sources| && sources[i].name == r.origin && Prepared(sources[i], parse).Some?
  {
    if sources != [] {
      var n := |sources| - 1;
      ConcatOrigins(sources[..n], parse);
      assert forall i :: 0 <= i < n ==> sources[..n][i] == sources[i];
      var p := Prepared(sources[n], parse);
      if p.Some? {
        SkipPolicy(sources[n], parse);
        assert Loaded(sources, parse) == Loaded(sources[..n], parse) + [p.value];
        assert ConcatRows(Loaded(sources, parse)) == ConcatRows(Loaded(sources[..n], parse)) + p.value.rows;
      }
    }
  }

  /**
   * `load_all`: None when no source loads (the run stops), otherwise the rows
   * of every surviving source, each exactly once, in ascending time order.
   */
  method LoadAll(sources: seq<Source>, parse: Cell -> Option<int>) returns (r: Option<Frame>)
    ensures r.None? <==> forall i :: 0 <= i < |sources| ==> Prepared(sources[i], parse).None?
    ensures r.Some? ==> Sorted(r.value.rows, TimeOf)
    ensures r.Some? ==> multiset(r.value.rows) == multiset(ConcatRows(Loaded(sources, parse)))
    ensures r.Some? ==> r.value.columns == ConcatColumns(Loaded(sources, parse))
  {
    var dfs: seq<Frame> := [];
    for i := 0 to |sources|
      invariant dfs == Loaded(sources[..i], parse)
    {
      assert sources[..i + 1][..i] == sources[..i];
      var src := sources[i];
      if src.table.None? {
        continue;  // the read raised: reported and skipped
      }
      var t := src.table.value;
      if t.header == [] || t.rows == [] {
        continue;  // empty sheet
      }
      var dtcol := FindTimeColumn(t.header);
      if dtcol.None? {
        continue;  // no date/time column
      }
      var rows := ValidRows(src.name, dtcol.value, t.rows, parse);
      if rows == [] {
        continue;  // no valid date
      }
      dfs := dfs + [Frame((set c | c in t.header) - {dtcol.value}, rows)];
    }
    assert sources[..|sources|] == sources;
    LoadedEmpty(sources, parse);
    if dfs == [] {
      return None;
    }
    r := Some(Frame(ConcatColumns(dfs), SortByKey(ConcatRows(dfs), TimeOf)));
  }
}
