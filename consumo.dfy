/**
 * The capacity report of the freezer room (`Consumo.py`): two systems' logs
 * (with and without the intelligent defrost) are merged, defrost starts are
 * flagged on the merged stream, and per (system, day) the defrost count and
 * the mean compressor capacity outside defrost are aggregated, then averaged
 * per system.
 */
module Consumo {
  import opened Wrappers
  import opened Cells
  import opened Loader
  import opened TimeSort
  import opened Edges
  import opened DailyStats
  import opened LogFrames

  /** The configured systems, in the order of the file table. */
  const Systems: seq<string> := ["Com degelo inteligente", "Sem degelo inteligente"]

  /** The columns kept after renaming, besides the time index and `Sistema`. */
  const Kept: seq<string> := ["CapComp", "Degelo", "TempAmb"]

  /** The rename table: where a sheet column ends up, given the detected time column. */
  function Renamed(c: string, dtcol: string): string
  {
    if c == dtcol then "DataHora"
    else if c == "Comp Cap 1" then "CapComp"
    else if c == "degelo" then "Degelo"
    else if c == "Temp Amb 1" then "TempAmb"
    else c
  }

  /** The sheet column that becomes `name` (the first one, if several do). */
  function SourceColumn(header: seq<string>, dtcol: string, name: string): (r: Option<string>)
    ensures r.Some? ==> r.value in header && Renamed(r.value, dtcol) == name
    ensures r.None? <==> forall j :: 0 <= j < |header| ==> Renamed(header[j], dtcol) != name
  {
    FirstWhere(header, c => Renamed(c, dtcol) == name)
  }

  /** The names of `names` that no sheet column becomes, in order. */
  function Unsupplied(names: seq<string>, header: seq<string>, dtcol: string): (missing: seq<string>)
    ensures forall m :: m in missing <==> m in names && SourceColumn(header, dtcol, m).None?
  {
    if names == [] then []
    else
      var rest := Unsupplied(names[1..], header, dtcol);
      assert names == [names[0]] + names[1..];
      if SourceColumn(header, dtcol, names[0]).None? then [names[0]] + rest else rest
  }

  /** A row restricted to the kept columns, read through the rename table. */
  function KeptCells(header: seq<string>, dtcol: string, cells: map<string, Cell>): (r: map<string, Cell>)
    ensures r.Keys == Names(Kept)
  {
    map k | k in Names(Kept) ::
      match SourceColumn(header, dtcol, k)
      case Some(c) => CellAt(cells, c)
      case None => Blank
  }

  function KeepColumns(header: seq<string>, dtcol: string, rows: seq<Row>): (r: seq<Row>)
    ensures |r| == |rows|
    ensures forall i :: 0 <= i < |rows| ==>
      r[i].time == rows[i].time && r[i].origin == rows[i].origin && r[i].cells == KeptCells(header, dtcol, rows[i].cells)
  {
    seq(|rows|, i requires 0 <= i < |rows| => rows[i].(cells := KeptCells(header, dtcol, rows[i].cells)))
  }

  /**
   * One sheet after detection, renaming, date parsing and column selection:
   * the run stops when there is no time column, and selecting the kept
   * columns raises KeyError when one of them is not supplied.
   */
  function SheetRows(sh: Sheet, parse: Cell -> Option<int>): Result<seq<Row>>
  {
    match TimeColumn(sh.table.header)
    case None => Err(Stopped("Coluna de data/hora não encontrada em '" + sh.system + "'"))
    case Some(dt) =>
      var missing := Unsupplied(Kept, sh.table.header, dt);
      if missing != [] then Err(MissingKey(missing[0]))
      else Ok(KeepColumns(sh.table.header, dt, ValidRows(sh.system, dt, sh.table.rows, parse)))
  }

  /** Each sheet's outcome, in order. */
  function SheetResults(sheets: seq<Sheet>, parse: Cell -> Option<int>): (rs: seq<Result<seq<Row>>>)
    ensures |rs| == |sheets|
    ensures forall i :: 0 <= i < |sheets| ==> rs[i] == SheetRows(sheets[i], parse)
  {
    seq(|sheets|, i requires 0 <= i < |sheets| => SheetRows(sheets[i], parse))
  }

  function AllRows(sheets: seq<Sheet>, parse: Cell -> Option<int>): Result<seq<Row>>
  {
    Gather(SheetResults(sheets, parse))
  }

  /** A sheet that loads gives rows with the kept columns, tagged with its system. */
  lemma SheetRowsShape(sh: Sheet, parse: Cell -> Option<int>)
    requires SheetRows(sh, parse).Ok?
    ensures forall r :: r in SheetRows(sh, parse).value ==> r.cells.Keys == Names(Kept) && r.origin == sh.system
  {
  }

  /** Every loaded row carries the kept columns and the name of the sheet it came from. */
  lemma AllRowsShape(sheets: seq<Sheet>, parse: Cell -> Option<int>)
    requires AllRows(sheets, parse).Ok?
    ensures forall r :: r in AllRows(sheets, parse).value ==>
      r.cells.Keys == Names(Kept) && exists i :: 0 <= i < |sheets| && sheets[i].system == r.origin
  {
    var rs := SheetResults(sheets, parse);
    GatherFrom(rs);
    forall i | 0 <= i < |sheets| && rs[i].Ok? {
      SheetRowsShape(sheets[i], parse);
    }
  }

  /**
   * `load_and_prepare` over the sheets that exist: the run stops when there
   * is none; otherwise the frame of every sheet's rows, each exactly once,
   * in ascending time order, with the three kept columns.
   */
  method LoadAndPrepare(sheets: seq<Sheet>, parse: Cell -> Option<int>) returns (r: Result<Frame>)
    ensures sheets == [] ==> r == Err(Stopped("Nenhum arquivo válido. Verifique os caminhos."))
    ensures sheets != [] ==> (r.Err? <==> AllRows(sheets, parse).Err?)
    ensures sheets != [] && r.Err? ==> r.failure == AllRows(sheets, parse).failure
    ensures r.Ok? ==> r.value.columns == Names(Kept)
    ensures r.Ok? ==> Sorted(r.value.rows, TimeOf)
    ensures r.Ok? ==> multiset(r.value.rows) == multiset(AllRows(sheets, parse).value)
  {
    if sheets == [] {
      return Err(Stopped("Nenhum arquivo válido. Verifique os caminhos."));
    }
    ghost var results := SheetResults(sheets, parse);
    var allDfs: seq<Row> := [];
    for i := 0 to |sheets|
      invariant Gather(results[..i]) == Ok(allDfs)
    {
      assert results[..i + 1][..i] == results[..i];
      var sh := sheets[i];
      var dtcol := FindTimeColumn(sh.table.header);
      if dtcol.None? {
        r := Err(Stopped("Coluna de data/hora não encontrada em '" + sh.system + "'"));
        GatherFailFrom(results, i + 1);
        return;
      }
      var missing := Unsupplied(Kept, sh.table.header, dtcol.value);
      if missing != [] {
        r := Err(MissingKey(missing[0]));
        GatherFailFrom(results, i + 1);
        return;
      }
      var rows := ValidRows(sh.system, dtcol.value, sh.table.rows, parse);
      allDfs := allDfs + KeepColumns(sh.table.header, dtcol.value, rows);
    }
    assert results[..|sheets|] == results;
    r := Ok(Frame(Names(Kept), SortByKey(allDfs, TimeOf)));
  }

  // ----- the per-day aggregation and the summary ---------------------------------

  /** One line of the summary table: mean defrosts per day and mean capacity outside defrost. */
  datatype SummaryRow = SummaryRow(defrostsPerDay: Option<real>, capacity: Option<real>)

  /** `deg_per_day`, `cap_media_no_deg` and `summary`. */
  datatype Report = Report(degPerDay: map<Key, nat>, capPerDay: map<Key, Option<real>>,
                           summary: map<string, SummaryRow>)

  /** The selected start rows of the merged frame, as (Sistema, Dia) keys. */
  function Events(rows: seq<Row>, selected: seq<string>): seq<Key>
  {
    EventKeys(rows, ShiftStarts(Column(rows, "Degelo")), selected)
  }

  /** The selected rows outside defrost, with their capacity. */
  function CapacityRows(rows: seq<Row>, selected: seq<string>): seq<Obs>
  {
    CapacityObs(rows, selected, "Degelo", "CapComp")
  }

  /**
   * The report for the merged frame `rows` and the selected systems. The
   * summary has a line for every system with an event or a non-defrost row,
   * NaN (None) in the column it has no day for.
   */
  function ReportOf(rows: seq<Row>, selected: seq<string>): Report
  {
    var events := Events(rows, selected);
    var obs := CapacityRows(rows, selected);
    var daily := MeanPerKey(obs);
    Report(SizePerKey(events), daily,
           map s | s in SystemsOf(events) + SystemsOf(KeysOf(obs)) ::
             SummaryRow(MeanPerDayCount(events, s), SystemMeanOfDaily(KeysOf(obs), daily, s)))
  }

  /** Two frames that agree on time, system, "Degelo" and "CapComp" select the same rows. */
  lemma {:induction false} SameSelections(a: seq<Row>, b: seq<Row>, selected: seq<string>)
    requires |a| == |b|
    requires forall i :: 0 <= i < |a| ==>
      a[i].time == b[i].time && a[i].origin == b[i].origin
      && CellAt(a[i].cells, "Degelo") == CellAt(b[i].cells, "Degelo")
      && CellAt(a[i].cells, "CapComp") == CellAt(b[i].cells, "CapComp")
    ensures Column(a, "Degelo") == Column(b, "Degelo")
    ensures CapacityRows(a, selected) == CapacityRows(b, selected)
    ensures TextCapacity(a, selected, "Degelo", "CapComp") == TextCapacity(b, selected, "Degelo", "CapComp")
    ensures forall st :: |st| == |a| ==> EventKeys(a, st, selected) == EventKeys(b, st, selected)
  {
    CapacityObsAgree(a, b, selected, "Degelo", "CapComp");
    forall st | |st| == |a| ensures EventKeys(a, st, selected) == EventKeys(b, st, selected) {
      EventKeysAgree(a, b, st, selected);
    }
  }

  /**
   * The analysis after loading: the run stops when no system is selected;
   * otherwise the start flags are added to the merged frame in place and the
   * report is computed from the selected rows. "CapComp" is never coerced, so
   * the capacity mean raises TypeError when a selected row with defrost 0
   * holds text there.
   */
  method Analyse(f: Frame, selected: seq<string>) returns (r: Result<Report>)
    ensures r.Err? <==> selected == [] || TextCapacity(f.rows, selected, "Degelo", "CapComp")
    ensures selected == [] ==> r == Err(Stopped("Selecione ao menos um sistema."))
    ensures selected != [] && r.Err? ==> r.failure == NotNumeric("CapComp")
    ensures r.Ok? ==> r.value == ReportOf(f.rows, selected)
  {
    var df := new LogFrame(f);
    df.MarkStarts("Degelo", "DegAnt", "InicioDegelo");
    if selected == [] {
      return Err(Stopped("Selecione ao menos um sistema."));
    }
    var starts := df.flags["InicioDegelo"];
    SameSelections(df.rows, f.rows, selected);
    var events := EventKeys(df.rows, starts, selected);
    var obs := CapacityObs(df.rows, selected, "Degelo", "CapComp");
    var degPerDay := SizePerKey(events);
    if TextCapacity(df.rows, selected, "Degelo", "CapComp") {
      return Err(NotNumeric("CapComp"));
    }
    var capMedia := MeanPerKey(obs);
    var summary := map s | s in SystemsOf(events) + SystemsOf(KeysOf(obs)) ::
      SummaryRow(MeanPerDayCount(events, s), SystemMeanOfDaily(KeysOf(obs), capMedia, s));
    r := Ok(Report(degPerDay, capMedia, summary));
  }

  // ----- what the report means ---------------------------------------------------

  /**
   * A (system, day) has a defrost count exactly when a selected system
   * started a defrost that day, every count is at least 1, and the counts of
   * the selected systems add up to the number of selected start rows.
   */
  lemma DefrostCounts(rows: seq<Row>, selected: seq<string>)
    ensures var starts := ShiftStarts(Column(rows, "Degelo"));
      var rep := ReportOf(rows, selected);
      && (forall k :: k in rep.degPerDay <==>
            exists i :: 0 <= i < |rows| && starts[i] && rows[i].origin in selected && KeyOf(rows[i]) == k)
      && (forall k :: k in rep.degPerDay ==> rep.degPerDay[k] >= 1)
      && SumSizes(Restrict(DistinctKeys(Events(rows, selected)), s => s in selected), Events(rows, selected))
         == SelectedStarts(rows, starts, selected)
  {
    var starts := ShiftStarts(Column(rows, "Degelo"));
    var p := (s: string) => s in selected;
    SizesSumToCount(Events(rows, selected), p);
    EventKeysCount(rows, starts, selected);
  }

  /**
   * The summary's defrosts per day of a system with events is its number of
   * starts divided by the number of days on which it had one.
   */
  lemma SummaryDefrostsPerDay(rows: seq<Row>, selected: seq<string>, s: string)
    requires s in ReportOf(rows, selected).summary
    ensures var events := Events(rows, selected);
      var days := Restrict(DistinctKeys(events), x => x == s);
      days != [] ==> ReportOf(rows, selected).summary[s].defrostsPerDay
                     == Some(CountWhere(events, x => x == s) as real / |days| as real)
  {
    MeanPerDayCountMeaning(Events(rows, selected), s);
  }

  /**
   * Rows in defrost or with a NaN defrost cell never reach the capacity
   * means: a day has a capacity entry exactly when a selected row of it has
   * defrost 0; and when every such row's capacity lies in [lo, hi], so do the
   * daily means and the summary's capacity.
   */
  lemma CapacityOutsideDefrost(rows: seq<Row>, selected: seq<string>, lo: real, hi: real)
    requires forall i :: 0 <= i < |rows| && rows[i].origin in selected && CellAt(rows[i].cells, "Degelo") == Num(0.0)
                         && CellAt(rows[i].cells, "CapComp").Num? ==>
                           lo <= CellAt(rows[i].cells, "CapComp").v <= hi
    ensures var rep := ReportOf(rows, selected);
      && (forall k :: k in rep.capPerDay <==>
            exists i :: 0 <= i < |rows| && rows[i].origin in selected
                        && CellAt(rows[i].cells, "Degelo") == Num(0.0) && KeyOf(rows[i]) == k)
      && (forall k :: k in rep.capPerDay && rep.capPerDay[k].Some? ==> lo <= rep.capPerDay[k].value <= hi)
      && (forall s :: s in rep.summary && rep.summary[s].capacity.Some? ==> lo <= rep.summary[s].capacity.value <= hi)
  {
    var obs := CapacityRows(rows, selected);
    var rep := ReportOf(rows, selected);
    forall i | 0 <= i < |obs| && obs[i].value.Some?
      ensures lo <= obs[i].value.value <= hi
    {
      assert obs[i] in obs;
    }
    MeanPerKeyWithin(obs, lo, hi);
    forall s | s in rep.summary && rep.summary[s].capacity.Some?
      ensures lo <= rep.summary[s].capacity.value <= hi
    {
      SystemMeanWithin(obs, s, lo, hi);
    }
    CapacityKeys(rows, selected, "Degelo", "CapComp");
  }

  /**
   * `cap_media_no_deg`: the capacity mean of a (system, day) averages, NaN
   * skipped, the "CapComp" value of every selected row of that day with
   * defrost 0, each row once, and no other value.
   */
  lemma CapacityPerDay(rows: seq<Row>, selected: seq<string>)
    ensures var cap := ReportOf(rows, selected).capPerDay;
      forall k :: k in cap ==>
        exists os :: cap[k] == MeanSkipNaN(os)
          && forall v :: multiset(os)[v] == Contributing(rows, selected, "Degelo", "CapComp", Obs(k, v))
  {
    CapacityMeans(rows, selected, "Degelo", "CapComp");
  }

  /**
   * Start detection runs on the merged stream before the system filter, so
   * a row's predecessor can belong to the other system: here the second
   * system's first sample is a 1 that would start a defrost in its own log,
   * but it follows the first system's 1 and is not counted.
   */
  lemma CrossSystemPredecessor()
    ensures var com := Row(0, "Com degelo inteligente", map["Degelo" := Num(1.0)]);
      var sem := Row(1, "Sem degelo inteligente", map["Degelo" := Num(1.0)]);
      && ShiftStarts(Column([sem], "Degelo")) == [true]
      && ShiftStarts(Column([com, sem], "Degelo")) == [true, false]
      && Events([com, sem], ["Sem degelo inteligente"]) == []
  {
    var com := Row(0, "Com degelo inteligente", map["Degelo" := Num(1.0)]);
    var sem := Row(1, "Sem degelo inteligente", map["Degelo" := Num(1.0)]);
    var merged := [com, sem];
    assert Column(merged, "Degelo") == [Num(1.0), Num(1.0)];
    assert Column([sem], "Degelo") == [Num(1.0)];
    var st := ShiftStarts(Column(merged, "Degelo"));
    assert st == [true, false];
    assert merged[..1] == [com] && st[..1] == [true];
    assert [com][..0] == [] && st[..1][..0] == [];
  }
}
