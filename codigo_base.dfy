/**
 * The earlier single-store dashboard (`deprecated/codigo_base.py`). Its
 * loader, `calc_metrics` and thermal scoring are the ones in `Loader`,
 * `Metrics` and `Thermal` (with a day-first date parser); what differs is its
 * configuration, its broken aggregate mode and the guards of its
 * per-environment loop.
 */
module CodigoBase {
  import opened Wrappers
  import opened Loader
  import opened Metrics
  import opened Thermal
  import opened Dashboard

  /**
   * The aggregate mode. Each pass of the totals loop binds `df_sel` to a tuple
   * (selection, power, start, end), so reading `df_sel.empty` raises
   * AttributeError in the first pass; only an empty power table gets through,
   * with all totals and the percentage at 0.
   */
  method AggregateMode(f: Frame, potencias: seq<(string, real)>, inRange: int -> bool,
                       startDay: int, endDay: int) returns (r: Result<(Totals, real)>)
    ensures r.Err? <==> potencias != []
    ensures r.Err? ==> r.failure == NoAttribute("empty")
    ensures r.Ok? ==> r.value == (NoTotals, 0.0)
  {
    var totPrev, totReal, totCiclos, totEv := 0.0, 0.0, 0, 0;
    for i := 0 to |potencias|
      invariant i == 0
    {
      // `df_sel` is a 4-tuple here, and tuples have no `empty` attribute.
      return Err(NoAttribute("empty"));
    }
    var totPct := SavingsPct(totPrev, totReal);
    r := Ok((Totals(totPrev, totReal, totCiclos, totEv), totPct));
  }

  /**
   * The systems that get a panel in the aggregate mode: every configured
   * system that has rows in the range, in configuration order; systems
   * without rows are skipped. (With a non-empty power table the failure above
   * is reached first.)
   */
  function PanelSystems(f: Frame, potencias: seq<(string, real)>, inRange: int -> bool): (kept: seq<(string, real)>)
    ensures |kept| <= |potencias|
    ensures forall e :: e in kept <==> e in potencias && Select(f.rows, e.0, inRange) != []
  {
    if potencias == [] then []
    else
      var rest := PanelSystems(f, potencias[1..], inRange);
      assert potencias == [potencias[0]] + potencias[1..];
      if Select(f.rows, potencias[0].0, inRange) == [] then rest
      else [potencias[0]] + rest
  }

  /** Each panel: the system's name and its `calc_metrics`. */
  function SystemPanels(f: Frame, potencias: seq<(string, real)>, inRange: int -> bool,
                        startDay: int, endDay: int): seq<(string, Metrics)>
  {
    var kept := PanelSystems(f, potencias, inRange);
    seq(|kept|, k requires 0 <= k < |kept| => (kept[k].0, SystemMetrics(f, kept[k].0, kept[k].1, inRange, startDay, endDay)))
  }

  /** `POTENCIAS.get(name)`. */
  function PowerLookup(potencias: seq<(string, real)>, name: string): (r: Option<real>)
    ensures r.Some? <==> HasKey(potencias, name)
    ensures r.Some? ==> r.value == PowerOf(potencias, name)
  {
    if HasKey(potencias, name) then Some(PowerOf(potencias, name)) else None
  }

  /** Why a selected entry produced no analysis. */
  datatype SkipReason =
    | AggregateEntry                       // the "Eficiência Energética" entry itself
    | NoPower                              // warning: no power entry for the system
    | NoRows                               // warning: no rows in the range
    | Missing(names: seq<string>)          // error: required columns absent

  datatype Report = Skipped(reason: SkipReason) | Performance(perf: seq<(Period, PeriodScore)>)

  /** What the per-environment loop should report for `origem`; every problem is a skip. */
  function EnvironmentReport(f: Frame, origem: string, potencias: seq<(string, real)>,
                             inRange: int -> bool, delta: real): Report
  {
    if origem == EfficiencyMode then Skipped(AggregateEntry)
    else if PowerLookup(potencias, origem).None? then Skipped(NoPower)
    else
      var sel := Select(f.rows, origem, inRange);
      if sel == [] then Skipped(NoRows)
      else if MissingRequired(f.columns) != [] then Skipped(Missing(MissingRequired(f.columns)))
      else Performance(ExpectedPerformance(sel, delta))
  }

  /** One pass of the per-environment loop. */
  method AnalyseEnvironment(f: Frame, origem: string, potencias: seq<(string, real)>,
                            inRange: int -> bool, delta: real) returns (rep: Report)
    ensures rep == EnvironmentReport(f, origem, potencias, inRange, delta)
    ensures rep.Skipped? && rep.reason == NoPower <==> origem != EfficiencyMode && !HasKey(potencias, origem)
    ensures rep.Performance? ==>
      |rep.perf| == 3 && forall k :: 0 <= k < 3 && rep.perf[k].1.Scored? ==> 0.0 <= rep.perf[k].1.pct <= 100.0
  {
    if origem == EfficiencyMode {
      return Skipped(AggregateEntry);
    }
    var pot := PowerLookup(potencias, origem);
    if pot.None? {
      return Skipped(NoPower);
    }
    var dfSel := Select(f.rows, origem, inRange);
    if dfSel == [] {
      return Skipped(NoRows);
    }
    var missing := MissingRequired(f.columns);
    if missing != [] {
      return Skipped(Missing(missing));
    }
    var perf := ScoreSystem(dfSel, delta);
    rep := Performance(perf);
  }

  /** The per-environment loop: unlike the dashboard's, it never raises; it reports every entry in order. */
  method AnalyseSelection(f: Frame, selected: seq<string>, potencias: seq<(string, real)>,
                          inRange: int -> bool, delta: real) returns (reports: seq<Report>)
    ensures |reports| == |selected|
    ensures forall i :: 0 <= i < |selected| ==>
      reports[i] == EnvironmentReport(f, selected[i], potencias, inRange, delta)
  {
    reports := [];
    for i := 0 to |selected|
      invariant |reports| == i
      invariant forall j :: 0 <= j < i ==> reports[j] == EnvironmentReport(f, selected[j], potencias, inRange, delta)
    {
      var rep := AnalyseEnvironment(f, selected[i], potencias, inRange, delta);
      reports := reports + [rep];
    }
  }

  /** The dashboard's outcome in this file's terms. */
  function FromDashboard(o: EnvOutcome): Report
  {
    match o
    case NoData => Skipped(NoRows)
    case MissingColumns(names) => Skipped(Missing(names))
    case Analysed(perf) => Performance(perf)
  }

  /**
   * For a system with a power entry other than the aggregate entry, both
   * dashboards reach the same outcome; they differ only where the dashboard
   * raises KeyError and this file skips.
   */
  lemma AgreesWithDashboard(f: Frame, origem: string, potencias: seq<(string, real)>,
                            inRange: int -> bool, delta: real)
    requires origem != EfficiencyMode
    ensures HasKey(potencias, origem) ==>
      EnvironmentOutcome(f, origem, potencias, inRange, delta).Ok?
      && EnvironmentReport(f, origem, potencias, inRange, delta)
         == FromDashboard(EnvironmentOutcome(f, origem, potencias, inRange, delta).value)
    ensures !HasKey(potencias, origem) ==>
      EnvironmentOutcome(f, origem, potencias, inRange, delta) == Err(MissingKey(origem))
      && EnvironmentReport(f, origem, potencias, inRange, delta) == Skipped(NoPower)
  {
  }
}
