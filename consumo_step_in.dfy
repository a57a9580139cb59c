/**
 * The two-evaporator Step-In report (`deprecated/ConsumoStepIn.py`): column
 * names are stripped and resolved by lower-case substring, the mapped
 * columns are coerced to numbers, defrost starts are flagged for each
 * evaporator on the merged stream, and per (system, day) each evaporator's
 * defrost count and the compressor capacity outside its defrosts are
 * aggregated, then averaged per system.
 */
module ConsumoStepIn {
  import opened Wrappers
  import opened Cells
  import opened Loader
  import opened TimeSort
  import opened Edges
  import opened DailyStats
  import opened LogFrames

  /** The substring keys and the names their columns get, in the order they are resolved. */
  const Mapping: seq<(string, string)> := [
    ("comp cap", "CapComp1"),
    ("degelo 1", "Degelo1"),
    ("temp ambiente 1", "TempAmb1"),
    ("degelo 2", "Degelo2"),
    ("temp ambiente 2", "TempAmb2")
  ]

  /** The columns coerced to numbers after loading. */
  const Numeric: seq<string> := ["CapComp1", "Degelo1", "TempAmb1", "Degelo2", "TempAmb2"]

  /** The evaporators' defrost columns. */
  const Evaporators: seq<string> := ["Degelo1", "Degelo2"]

  // ----- column resolution --------------------------------------------------------

  /** The column a key resolves to: the first whose lower-cased name contains it. */
  function Match(cols: seq<string>, key: string): (r: Option<string>)
  {
    if cols == [] then None
    else if Contains(Lower(cols[0]), key) then Some(cols[0])
    else Match(cols[1..], key)
  }

  /** A key resolves to the first column whose lower-cased name contains it, and to nothing when none does. */
  lemma {:induction false} MatchMeaning(cols: seq<string>, key: string)
    ensures Match(cols, key).Some? ==>
      exists i :: 0 <= i < |cols| && cols[i] == Match(cols, key).value && Contains(Lower(cols[i]), key)
                 && forall j :: 0 <= j < i ==> !Contains(Lower(cols[j]), key)
    ensures Match(cols, key).None? <==> forall j :: 0 <= j < |cols| ==> !Contains(Lower(cols[j]), key)
  {
    if cols != [] {
      MatchMeaning(cols[1..], key);
      assert forall j :: 1 <= j < |cols| ==> cols[j] == cols[1..][j - 1];
      if !Contains(Lower(cols[0]), key) && Match(cols, key).Some? {
        var i :| 0 <= i < |cols[1..]| && cols[1..][i] == Match(cols, key).value && Contains(Lower(cols[1..][i]), key)
                 && forall j :: 0 <= j < i ==> !Contains(Lower(cols[1..][j]), key);
        assert cols[i + 1] == Match(cols, key).value;
      }
    }
  }

  /** The column each key resolves to, in key order. */
  function Matches(cols: seq<string>, keys: seq<(string, string)>): (ms: seq<Option<string>>)
    ensures |ms| == |keys|
    ensures forall i :: 0 <= i < |keys| ==> ms[i] == Match(cols, keys[i].0)
  {
    seq(|keys|, i requires 0 <= i < |keys| => Match(cols, keys[i].0))
  }

  /**
   * The `rename` dict from the keys and their resolved columns, in order: a
   * key that resolved to nothing raises ValueError naming it; a later key
   * resolved to the same column as an earlier one overwrites its entry.
   */
  function RenameFrom(ms: seq<Option<string>>, keys: seq<(string, string)>, system: string): Result<map<string, string>>
    requires |ms| == |keys|
  {
    if keys == [] then Ok(map[])
    else
      var n := |keys| - 1;
      match RenameFrom(ms[..n], keys[..n], system)
      case Err(e) => Err(e)
      case Ok(m) =>
        match ms[n]
        case None => Err(MissingColumn(keys[n].0, system))
        case Some(col) => Ok(m[col := keys[n].1])
  }

  function RenameTable(cols: seq<string>, keys: seq<(string, string)>, system: string): Result<map<string, string>>
  {
    RenameFrom(Matches(cols, keys), keys, system)
  }

  /** The loop that builds the `rename` dict, stopping at the first key that matches nothing. */
  method BuildRename(cols: seq<string>, keys: seq<(string, string)>, system: string)
    returns (r: Result<map<string, string>>)
    ensures r == RenameTable(cols, keys, system)
  {
    ghost var ms := Matches(cols, keys);
    var rename: map<string, string> := map[];
    for i := 0 to |keys|
      invariant RenameFrom(ms[..i], keys[..i], system) == Ok(rename)
    {
      assert keys[..i + 1][..i] == keys[..i] && ms[..i + 1][..i] == ms[..i];
      var col := Match(cols, keys[i].0);
      if col.None? {
        r := Err(MissingColumn(keys[i].0, system));
        RenameFailsFrom(ms, keys, system, i + 1);
        return;
      }
      rename := rename[col.value := keys[i].1];
    }
    assert keys[..|keys|] == keys && ms[..|keys|] == ms;
    r := Ok(rename);
  }

  lemma {:induction false} RenameFailsFrom(ms: seq<Option<string>>, keys: seq<(string, string)>, system: string, k: nat)
    requires |ms| == |keys|
    requires k <= |keys| && RenameFrom(ms[..k], keys[..k], system).Err?
    ensures RenameFrom(ms, keys, system) == RenameFrom(ms[..k], keys[..k], system)
    decreases |keys| - k
  {
    if k < |keys| {
      assert keys[..k + 1][..k] == keys[..k] && ms[..k + 1][..k] == ms[..k];
      RenameFailsFrom(ms, keys, system, k + 1);
    } else {
      assert keys[..k] == keys && ms[..k] == ms;
    }
  }

  /**
   * The rename dict exists exactly when every key resolved to a column, and
   * the failure names the first key that did not.
   */
  lemma {:induction false} RenameFromFailure(ms: seq<Option<string>>, keys: seq<(string, string)>, system: string)
    requires |ms| == |keys|
    ensures RenameFrom(ms, keys, system).Ok? <==> forall i :: 0 <= i < |keys| ==> ms[i].Some?
    ensures RenameFrom(ms, keys, system).Err? ==>
      exists i :: 0 <= i < |keys| && ms[i].None?
                 && RenameFrom(ms, keys, system) == Err(MissingColumn(keys[i].0, system))
                 && forall j :: 0 <= j < i ==> ms[j].Some?
  {
    if keys != [] {
      var n := |keys| - 1;
      RenameFromFailure(ms[..n], keys[..n], system);
      assert forall j :: 0 <= j < n ==> keys[..n][j] == keys[j] && ms[..n][j] == ms[j];
    }
  }

  /** One more key that resolves: its column is renamed on top of the earlier keys' dict. */
  lemma RenameStep(ms: seq<Option<string>>, keys: seq<(string, string)>, system: string)
    requires |ms| == |keys| && keys != [] && RenameFrom(ms, keys, system).Ok?
    ensures var n := |keys| - 1;
      && RenameFrom(ms[..n], keys[..n], system).Ok? && ms[n].Some?
      && RenameFrom(ms, keys, system).value == RenameFrom(ms[..n], keys[..n], system).value[ms[n].value := keys[n].1]
  {
  }

  /** The rename dict renames only resolved columns. */
  lemma {:induction false} RenamedAreResolved(ms: seq<Option<string>>, keys: seq<(string, string)>, system: string)
    requires |ms| == |keys| && RenameFrom(ms, keys, system).Ok?
    ensures forall c :: c in RenameFrom(ms, keys, system).value ==> Some(c) in ms
  {
    if keys != [] {
      var n := |keys| - 1;
      RenamedAreResolved(ms[..n], keys[..n], system);
      var col := ms[n].value;
      forall c | c in RenameFrom(ms, keys, system).value ensures Some(c) in ms {
        if c != col {
          assert Some(c) in ms[..n];
        }
      }
    }
  }

  /**
   * The rename dict renames only resolved columns, and when the keys resolved
   * to distinct columns each gets its own name.
   */
  lemma {:induction false} RenameFromResolved(ms: seq<Option<string>>, keys: seq<(string, string)>, system: string)
    requires |ms| == |keys| && RenameFrom(ms, keys, system).Ok?
    ensures forall c :: c in RenameFrom(ms, keys, system).value ==> Some(c) in ms
    ensures (forall i, j :: 0 <= i < j < |keys| ==> ms[i] != ms[j]) ==>
      forall i :: 0 <= i < |keys| ==>
        ms[i].Some? && ms[i].value in RenameFrom(ms, keys, system).value
        && RenameFrom(ms, keys, system).value[ms[i].value] == keys[i].1
  {
    RenamedAreResolved(ms, keys, system);
    if keys != [] && forall i, j :: 0 <= i < j < |keys| ==> ms[i] != ms[j] {
      var n := |keys| - 1;
      assert forall i, j :: 0 <= i < j < n ==> ms[..n][i] != ms[..n][j];
      RenameFromResolved(ms[..n], keys[..n], system);
      RenameStep(ms, keys, system);
      var m := RenameFrom(ms[..n], keys[..n], system).value;
      var r := m[ms[n].value := keys[n].1];
      forall i | 0 <= i < |keys|
        ensures ms[i].Some? && ms[i].value in r && r[ms[i].value] == keys[i].1
      {
        if i < n {
          assert ms[..n][i] == ms[i] && keys[..n][i] == keys[i];
          assert ms[i] != ms[n];
        }
      }
    }
  }

  /**
   * Later keys overwrite: each renamed column gets the name of the last key
   * that resolved to it.
   */
  lemma {:induction false} LastKeyWins(ms: seq<Option<string>>, keys: seq<(string, string)>, system: string)
    requires |ms| == |keys| && RenameFrom(ms, keys, system).Ok?
    ensures forall c :: c in RenameFrom(ms, keys, system).value ==>
      exists j :: 0 <= j < |keys| && ms[j] == Some(c) && RenameFrom(ms, keys, system).value[c] == keys[j].1
                 && forall l :: j < l < |keys| ==> ms[l] != Some(c)
  {
    if keys != [] {
      var n := |keys| - 1;
      LastKeyWins(ms[..n], keys[..n], system);
      var m := RenameFrom(ms[..n], keys[..n], system).value;
      var col := ms[n].value;
      var r := RenameFrom(ms, keys, system).value;
      assert r == m[col := keys[n].1];
      forall c | c in r
        ensures exists j :: 0 <= j < |keys| && ms[j] == Some(c) && r[c] == keys[j].1
                            && forall l :: j < l < |keys| ==> ms[l] != Some(c)
      {
        if c == col {
          assert ms[n] == Some(c) && r[c] == keys[n].1;
        } else {
          var j :| 0 <= j < n && ms[..n][j] == Some(c) && m[c] == keys[..n][j].1
                   && forall l :: j < l < n ==> ms[..n][l] != Some(c);
          assert ms[j] == Some(c) && r[c] == keys[j].1;
          forall l | j < l < |keys| ensures ms[l] != Some(c) {
            if l < n { assert ms[..n][l] == ms[l]; }
          }
        }
      }
    }
  }

  // ----- one sheet -----------------------------------------------------------------

  /** Where a sheet column ends up: stripped, the time column renamed, then the rename table. */
  function FinalName(c: string, dtcol: string, rename: map<string, string>): string
  {
    var s := Strip(c);
    var t := if s == dtcol then "DataHora" else s;
    if t in rename then rename[t] else t
  }

  function FinalNames(header: seq<string>, dtcol: string, rename: map<string, string>): set<string>
  {
    set c | c in header :: FinalName(c, dtcol, rename)
  }

  /** A row keyed by final column names (the first sheet column wins where several end up alike). */
  function RenameRow(header: seq<string>, dtcol: string, rename: map<string, string>,
                     cells: map<string, Cell>): (r: map<string, Cell>)
    ensures r.Keys == FinalNames(header, dtcol, rename)
  {
    map n | n in FinalNames(header, dtcol, rename) ::
      match FirstWhere(header, c => FinalName(c, dtcol, rename) == n)
      case Some(c) => CellAt(cells, c)
      case None => Blank
  }

  function Stripped(header: seq<string>): (r: seq<string>)
    ensures |r| == |header|
    ensures forall i :: 0 <= i < |header| ==> r[i] == Strip(header[i])
  {
    seq(|header|, i requires 0 <= i < |header| => Strip(header[i]))
  }

  /** The stripped column names with the time column renamed. */
  function AfterTimeRename(cols: seq<string>, dtcol: string): (r: seq<string>)
    ensures |r| == |cols|
  {
    seq(|cols|, i requires 0 <= i < |cols| => if cols[i] == dtcol then "DataHora" else cols[i])
  }

  /** The time column: the first stripped name whose lower case contains "data". */
  function DateColumn(cols: seq<string>): Option<string>
  {
    FirstWhere(cols, c => Contains(Lower(c), "data"))
  }

  /**
   * The header work of one sheet of `load_data`: ValueError when no column
   * names a date or a key matches no column; otherwise the time column and
   * the rename table.
   */
  function SheetRename(sh: Sheet): Result<(string, map<string, string>)>
  {
    var cols := Stripped(sh.table.header);
    match DateColumn(cols)
    case None => Err(MissingColumn("data", sh.system))
    case Some(dt) =>
      match RenameTable(AfterTimeRename(cols, dt), Mapping, sh.system)
      case Err(e) => Err(e)
      case Ok(rename) => Ok((dt, rename))
  }

  /** The rows of a sheet with the final column names, before the date filter. */
  function RenamedRows(sh: Sheet, dt: string, rename: map<string, string>): (rows: seq<map<string, Cell>>)
    ensures |rows| == |sh.table.rows|
    ensures forall i :: 0 <= i < |rows| ==> rows[i].Keys == FinalNames(sh.table.header, dt, rename)
  {
    seq(|sh.table.rows|, i requires 0 <= i < |sh.table.rows| => RenameRow(sh.table.header, dt, rename, sh.table.rows[i]))
  }

  /**
   * One sheet of `load_data`: its header failure, or its rows with a valid
   * date, renamed and tagged with the system. All columns are kept.
   */
  function SheetRows(sh: Sheet, parse: Cell -> Option<int>): Result<seq<Row>>
  {
    match SheetRename(sh)
    case Err(e) => Err(e)
    case Ok((dt, rename)) => Ok(ValidRows(sh.system, "DataHora", RenamedRows(sh, dt, rename), parse))
  }

  /** The header steps of one sheet: the date column, then the loop that builds the rename dict. */
  method ReadHeader(sh: Sheet) returns (r: Result<(string, map<string, string>)>)
    ensures r == SheetRename(sh)
  {
    var cols := Stripped(sh.table.header);
    var dtcol := DateColumn(cols);
    if dtcol.None? {
      return Err(MissingColumn("data", sh.system));
    }
    var rename := BuildRename(AfterTimeRename(cols, dtcol.value), Mapping, sh.system);
    if rename.Err? {
      return Err(rename.failure);
    }
    r := Ok((dtcol.value, rename.value));
  }

  /** One iteration of `load_data`: the sheet's rows, or its failure, and the columns it brings. */
  method ReadSheet(sh: Sheet, parse: Cell -> Option<int>) returns (r: Result<(seq<Row>, set<string>)>)
    ensures r.Err? <==> SheetRows(sh, parse).Err?
    ensures r.Err? ==> r.failure == SheetRows(sh, parse).failure
    ensures r.Ok? ==> r.value.0 == SheetRows(sh, parse).value && r.value.1 == SheetColumns(sh)
  {
    var header := ReadHeader(sh);
    if header.Err? {
      return Err(header.failure);
    }
    var (dt, rename) := header.value;
    var rows := RenamedRows(sh, dt, rename);
    r := Ok((ValidRows(sh.system, "DataHora", rows, parse), FinalNames(sh.table.header, dt, rename) - {"DataHora"}));
  }

  function SheetResults(sheets: seq<Sheet>, parse: Cell -> Option<int>): (rs: seq<Result<seq<Row>>>)
    ensures |rs| == |sheets|
    ensures forall i :: 0 <= i < |sheets| ==> rs[i] == SheetRows(sheets[i], parse)
  {
    seq(|sheets|, i requires 0 <= i < |sheets| => SheetRows(sheets[i], parse))
  }

  /** The columns of a sheet that loads: every final name but the time index. */
  function SheetColumns(sh: Sheet): set<string>
  {
    match SheetRename(sh)
    case Err(_) => {}
    case Ok((dt, rename)) => FinalNames(sh.table.header, dt, rename) - {"DataHora"}
  }

  function AllColumns(sheets: seq<Sheet>): set<string>
  {
    if sheets == [] then {} else AllColumns(sheets[..|sheets| - 1]) + SheetColumns(sheets[|sheets| - 1])
  }

  lemma AllColumnsStep(sheets: seq<Sheet>, i: nat)
    requires i < |sheets|
    ensures AllColumns(sheets[..i + 1]) == AllColumns(sheets[..i]) + SheetColumns(sheets[i])
  {
    assert sheets[..i + 1][..i] == sheets[..i];
  }

  /**
   * `load_data` over the sheets that exist: the run stops when there is
   * none; the first sheet that raises ends the load with its ValueError;
   * otherwise every sheet's rows, each exactly once, in ascending time order.
   */
  method LoadData(sheets: seq<Sheet>, parse: Cell -> Option<int>) returns (r: Result<Frame>)
    ensures sheets == [] ==> r == Err(Stopped(""))
    ensures sheets != [] ==> (r.Err? <==> Gather(SheetResults(sheets, parse)).Err?)
    ensures sheets != [] && r.Err? ==> r.failure == Gather(SheetResults(sheets, parse)).failure
    ensures r.Ok? ==> r.value.columns == AllColumns(sheets)
    ensures r.Ok? ==> Sorted(r.value.rows, TimeOf)
    ensures r.Ok? ==> multiset(r.value.rows) == multiset(Gather(SheetResults(sheets, parse)).value)
  {
    if sheets == [] {
      return Err(Stopped(""));
    }
    ghost var results := SheetResults(sheets, parse);
    var dfs: seq<Row> := [];
    var columns: set<string> := {};
    for i := 0 to |sheets|
      invariant Gather(results[..i]) == Ok(dfs)
      invariant columns == AllColumns(sheets[..i])
    {
      var sheet := ReadSheet(sheets[i], parse);
      if sheet.Err? {
        r := Err(sheet.failure);
        GatherFailsAt(results, i);
        GatherFailFrom(results, i + 1);
        return;
      }
      GatherOkAt(results, i);
      AllColumnsStep(sheets, i);
      dfs := dfs + sheet.value.0;
      columns := columns + sheet.value.1;
    }
    assert results[..|sheets|] == results;
    assert sheets[..|sheets|] == sheets;
    r := Ok(Frame(columns, SortByKey(dfs, TimeOf)));
  }

  // ----- the analysis -----------------------------------------------------------------

  /** The summary line of a system: defrosts per day and capacity, for each evaporator. */
  datatype Summary = Summary(deg1: Option<real>, cap1: Option<real>, deg2: Option<real>, cap2: Option<real>)

  /** The four per-day series and the summary table. */
  datatype Report = Report(deg1Day: map<Key, nat>, cap1Day: map<Key, Option<real>>,
                           deg2Day: map<Key, nat>, cap2Day: map<Key, Option<real>>,
                           summary: map<string, Summary>)

  /** The rows after the numeric coercion of the mapped columns that exist. */
  function Coerced(f: Frame): (rows: seq<Row>)
    ensures |rows| == |f.rows|
    ensures forall i :: 0 <= i < |rows| ==> rows[i] == CoerceRow(f.rows[i], Names(Numeric) * f.columns)
  {
    seq(|f.rows|, i requires 0 <= i < |f.rows| => CoerceRow(f.rows[i], Names(Numeric) * f.columns))
  }

  /** The selected start rows of evaporator `deg`, as (Sistema, Dia) keys. */
  function Events(rows: seq<Row>, deg: string, selected: seq<string>): seq<Key>
  {
    EventKeys(rows, ShiftStarts(Column(rows, deg)), selected)
  }

  /** The selected rows outside the defrosts of `deg`, with the compressor capacity `CapComp1`. */
  function CapacityRows(rows: seq<Row>, deg: string, selected: seq<string>): seq<Obs>
  {
    CapacityObs(rows, selected, deg, "CapComp1")
  }

  /** The report from the merged rows and each evaporator's start flags. */
  function ReportFrom(rows: seq<Row>, starts1: seq<bool>, starts2: seq<bool>, selected: seq<string>): Report
    requires |starts1| == |rows| && |starts2| == |rows|
  {
    var e1, e2 := EventKeys(rows, starts1, selected), EventKeys(rows, starts2, selected);
    var o1, o2 := CapacityRows(rows, "Degelo1", selected), CapacityRows(rows, "Degelo2", selected);
    var c1, c2 := MeanPerKey(o1), MeanPerKey(o2);
    Report(SizePerKey(e1), c1, SizePerKey(e2), c2,
           map s | s in SystemsOf(e1) + SystemsOf(KeysOf(o1)) + SystemsOf(e2) + SystemsOf(KeysOf(o2)) ::
             Summary(MeanPerDayCount(e1, s), SystemMeanOfDaily(KeysOf(o1), c1, s),
                     MeanPerDayCount(e2, s), SystemMeanOfDaily(KeysOf(o2), c2, s)))
  }

  /** The report on the coerced, merged frame `rows` for the selected systems. */
  function ReportOf(rows: seq<Row>, selected: seq<string>): Report
  {
    ReportFrom(rows, ShiftStarts(Column(rows, "Degelo1")), ShiftStarts(Column(rows, "Degelo2")), selected)
  }

  /**
   * The capacity means of both evaporators: a (system, day) of evaporator 1
   * (resp. 2) averages, NaN skipped, the "CapComp1" value of every selected
   * row of that day with "Degelo1" (resp. "Degelo2") at 0, each row once.
   */
  lemma CapacityPerDay(rows: seq<Row>, selected: seq<string>)
    ensures var rep := ReportOf(rows, selected);
      && (forall k :: k in rep.cap1Day ==>
            exists os :: rep.cap1Day[k] == MeanSkipNaN(os)
              && forall v :: multiset(os)[v] == Contributing(rows, selected, "Degelo1", "CapComp1", Obs(k, v)))
      && (forall k :: k in rep.cap2Day ==>
            exists os :: rep.cap2Day[k] == MeanSkipNaN(os)
              && forall v :: multiset(os)[v] == Contributing(rows, selected, "Degelo2", "CapComp1", Obs(k, v)))
  {
    CapacityMeans(rows, selected, "Degelo1", "CapComp1");
    CapacityMeans(rows, selected, "Degelo2", "CapComp1");
  }

  /** Adding flag columns changes none of the columns the report reads. */
  lemma {:induction false} SameSelections(a: seq<Row>, b: seq<Row>, selected: seq<string>)
    requires |a| == |b|
    requires forall i :: 0 <= i < |a| ==>
      a[i].time == b[i].time && a[i].origin == b[i].origin
      && CellAt(a[i].cells, "Degelo1") == CellAt(b[i].cells, "Degelo1")
      && CellAt(a[i].cells, "Degelo2") == CellAt(b[i].cells, "Degelo2")
      && CellAt(a[i].cells, "CapComp1") == CellAt(b[i].cells, "CapComp1")
    ensures Column(a, "Degelo1") == Column(b, "Degelo1") && Column(a, "Degelo2") == Column(b, "Degelo2")
    ensures CapacityRows(a, "Degelo1", selected) == CapacityRows(b, "Degelo1", selected)
    ensures CapacityRows(a, "Degelo2", selected) == CapacityRows(b, "Degelo2", selected)
    ensures forall st :: |st| == |a| ==> EventKeys(a, st, selected) == EventKeys(b, st, selected)
  {
    CapacityObsAgree(a, b, selected, "Degelo1", "CapComp1");
    CapacityObsAgree(a, b, selected, "Degelo2", "CapComp1");
    forall st | |st| == |a| ensures EventKeys(a, st, selected) == EventKeys(b, st, selected) {
      EventKeysAgree(a, b, st, selected);
    }
  }

  /**
   * The analysis after loading: the mapped columns are coerced in place, each
   * evaporator column that exists gets its start flags, and the run stops
   * when no system is selected. The aggregations then raise KeyError when a
   * column they read is missing: first `Degelo1_ini`, then `CapComp1`, then
   * `Degelo2_ini`.
   */
  method Analyse(f: Frame, selected: seq<string>) returns (r: Result<Report>)
    ensures selected == [] ==> r == Err(Stopped(""))
    ensures selected != [] && "Degelo1" !in f.columns ==> r == Err(MissingKey("Degelo1_ini"))
    ensures selected != [] && "Degelo1" in f.columns && "CapComp1" !in f.columns ==> r == Err(MissingKey("CapComp1"))
    ensures selected != [] && "Degelo1" in f.columns && "CapComp1" in f.columns && "Degelo2" !in f.columns ==>
      r == Err(MissingKey("Degelo2_ini"))
    ensures selected != [] && {"Degelo1", "Degelo2", "CapComp1"} <= f.columns ==> r == Ok(ReportOf(Coerced(f), selected))
  {
    var df := new LogFrame(f);
    df.CoerceColumns(Numeric);
    ghost var coerced := df.rows;
    assert coerced == Coerced(f);
    MarkEvaporators(df);
    if selected == [] {
      return Err(Stopped(""));
    }
    if "Degelo1_ini" !in df.flags {
      return Err(MissingKey("Degelo1_ini"));
    }
    if "CapComp1" !in df.columns {
      assert "CapComp1" !in f.columns;
      return Err(MissingKey("CapComp1"));
    }
    if "Degelo2_ini" !in df.flags {
      return Err(MissingKey("Degelo2_ini"));
    }
    SameSelections(df.rows, coerced, selected);
    r := Ok(ReportFrom(df.rows, df.flags["Degelo1_ini"], df.flags["Degelo2_ini"], selected));
  }

  /**
   * `for deg in ["Degelo1", "Degelo2"]: if deg in df.columns: ...`: each
   * evaporator column present gets its `_ant` column and its `_ini` flags;
   * the columns the report reads are untouched.
   */
  method MarkEvaporators(df: LogFrame)
    requires df.Valid() && "Degelo1_ini" !in df.flags && "Degelo2_ini" !in df.flags
    modifies df
    ensures df.Valid()
    ensures forall c :: c != "Degelo1_ant" && c != "Degelo2_ant" ==> (c in df.columns <==> c in old(df.columns))
    ensures |df.rows| == |old(df.rows)|
    ensures forall i :: 0 <= i < |df.rows| ==>
      df.rows[i].time == old(df.rows)[i].time && df.rows[i].origin == old(df.rows)[i].origin
      && CellAt(df.rows[i].cells, "Degelo1") == CellAt(old(df.rows)[i].cells, "Degelo1")
      && CellAt(df.rows[i].cells, "Degelo2") == CellAt(old(df.rows)[i].cells, "Degelo2")
      && CellAt(df.rows[i].cells, "CapComp1") == CellAt(old(df.rows)[i].cells, "CapComp1")
    ensures "Degelo1_ini" in df.flags <==> "Degelo1" in old(df.columns)
    ensures "Degelo1_ini" in df.flags ==> df.flags["Degelo1_ini"] == ShiftStarts(Column(old(df.rows), "Degelo1"))
    ensures "Degelo2_ini" in df.flags <==> "Degelo2" in old(df.columns)
    ensures "Degelo2_ini" in df.flags ==> df.flags["Degelo2_ini"] == ShiftStarts(Column(old(df.rows), "Degelo2"))
  {
    ghost var cols0, rows0 := df.columns, df.rows;
    for k := 0 to |Evaporators|
      invariant df.Valid()
      invariant forall c :: c != "Degelo1_ant" && c != "Degelo2_ant" ==> (c in df.columns <==> c in cols0)
      invariant |df.rows| == |rows0|
      invariant forall i :: 0 <= i < |rows0| ==>
        df.rows[i].time == rows0[i].time && df.rows[i].origin == rows0[i].origin
        && CellAt(df.rows[i].cells, "Degelo1") == CellAt(rows0[i].cells, "Degelo1")
        && CellAt(df.rows[i].cells, "Degelo2") == CellAt(rows0[i].cells, "Degelo2")
        && CellAt(df.rows[i].cells, "CapComp1") == CellAt(rows0[i].cells, "CapComp1")
      invariant k >= 1 ==> ("Degelo1_ini" in df.flags <==> "Degelo1" in cols0)
      invariant k >= 1 && "Degelo1" in cols0 ==> df.flags["Degelo1_ini"] == ShiftStarts(Column(rows0, "Degelo1"))
      invariant k >= 2 ==> ("Degelo2_ini" in df.flags <==> "Degelo2" in cols0)
      invariant k >= 2 && "Degelo2" in cols0 ==> df.flags["Degelo2_ini"] == ShiftStarts(Column(rows0, "Degelo2"))
      invariant k < 1 ==> "Degelo1_ini" !in df.flags
      invariant k < 2 ==> "Degelo2_ini" !in df.flags
    {
      var deg := Evaporators[k];
      assert deg == (if k == 0 then "Degelo1" else "Degelo2");
      assert deg != "Degelo1_ant" && deg != "Degelo2_ant";
      assert deg + "_ant" == (if k == 0 then "Degelo1_ant" else "Degelo2_ant");
      assert deg + "_ini" == (if k == 0 then "Degelo1_ini" else "Degelo2_ini");
      if deg in df.columns {
        SameSelections(df.rows, rows0, []);
        df.MarkStarts(deg, deg + "_ant", deg + "_ini");
      }
    }
  }

  // ----- what the report means -------------------------------------------------------

  /**
   * After coercion a defrost cell that is not a number is NaN: it never
   * starts a defrost and never counts as "outside defrost".
   */
  lemma NaNDefrostIgnored(f: Frame, deg: string, i: int)
    requires deg in Names(Numeric) && deg in f.columns && 0 <= i < |f.rows|
    requires !CellAt(f.rows[i].cells, deg).Num?
    ensures !ShiftStarts(Column(Coerced(f), deg))[i]
    ensures CellAt(Coerced(f)[i].cells, deg) != Num(0.0)
  {
    ShiftStartCharacterised(Column(Coerced(f), deg), i);
  }

  /**
   * Both evaporators average the same capacity column, `CapComp1`: with
   * identical defrost columns the two capacity series coincide.
   */
  lemma BothEvaporatorsUseCapComp1(rows: seq<Row>, selected: seq<string>)
    requires forall i :: 0 <= i < |rows| ==> CellAt(rows[i].cells, "Degelo1") == CellAt(rows[i].cells, "Degelo2")
    ensures ReportOf(rows, selected).cap1Day == ReportOf(rows, selected).cap2Day
  {
    SameDefrostColumn(rows, selected);
  }

  lemma {:induction false} SameDefrostColumn(rows: seq<Row>, selected: seq<string>)
    requires forall i :: 0 <= i < |rows| ==> CellAt(rows[i].cells, "Degelo1") == CellAt(rows[i].cells, "Degelo2")
    ensures CapacityRows(rows, "Degelo1", selected) == CapacityRows(rows, "Degelo2", selected)
  {
    if rows != [] {
      SameDefrostColumn(rows[..|rows| - 1], selected);
    }
  }

  /**
   * For each evaporator, a (system, day) has a count exactly when a selected
   * system started a defrost of it that day, and the counts add up to the
   * number of selected start rows.
   */
  lemma EvaporatorCounts(rows: seq<Row>, selected: seq<string>, deg: string)
    requires deg == "Degelo1" || deg == "Degelo2"
    ensures var starts := ShiftStarts(Column(rows, deg));
      var counts := if deg == "Degelo1" then ReportOf(rows, selected).deg1Day else ReportOf(rows, selected).deg2Day;
      && (forall k :: k in counts <==>
            exists i :: 0 <= i < |rows| && starts[i] && rows[i].origin in selected && KeyOf(rows[i]) == k)
      && SumSizes(Restrict(DistinctKeys(Events(rows, deg, selected)), s => s in selected), Events(rows, deg, selected))
         == SelectedStarts(rows, starts, selected)
  {
    var starts := ShiftStarts(Column(rows, deg));
    var counts := if deg == "Degelo1" then ReportOf(rows, selected).deg1Day else ReportOf(rows, selected).deg2Day;
    assert counts == SizePerKey(Events(rows, deg, selected));
    SizesSumToCount(Events(rows, deg, selected), s => s in selected);
    EventKeysCount(rows, starts, selected);
  }
}
