/**
 * The energy-efficiency dashboard (`main.py`): per-store file and power
 * configuration, the "Eficiência Energética" totals over every configured
 * system, and the per-system thermal analysis with its guards.
 */
module Dashboard {
  import opened Wrappers
  import opened Cells
  import opened Edges
  import opened Loader
  import opened TimeSort
  import opened Metrics
  import opened Thermal

  /** Heater power per system, in kW, in dictionary order (`POTENCIAS`). */
  const Potencias: seq<(string, real)> := [
    ("Cam Congelados Eco2Pack L1", 10.0),
    ("Cam Congelados Eco2Pack L2", 10.0),
    ("Cam Congelados Eco2Pack L3", 10.0)
  ]

  /** The system names configured for a store (`ARQUIVOS`); unknown stores have none. */
  function Arquivos(store: string): (names: seq<string>)
    ensures store == "Atacadão Bangu RJ" ==> |names| == 2
    ensures store == "Atacadão Palmas TO" ==> |names| == 3
    ensures store != "Atacadão Bangu RJ" && store != "Atacadão Palmas TO" ==> names == []
  {
    match store
    case "Atacadão Bangu RJ" => ["Cam Congelados Eco2Pack L1", "Cam Congelados Eco2Pack L2"]
    case "Atacadão Palmas TO" =>
      ["Cam Congelados Eco2Pack L1", "Cam Congelados Eco2Pack L2", "Cam Congelados Eco2Pack L3"]
    case _ => []
  }

  predicate HasKey(potencias: seq<(string, real)>, name: string)
  {
    exists k :: 0 <= k < |potencias| && potencias[k].0 == name
  }

  /** `potencias[name]`, for a name that is a key. */
  function PowerOf(potencias: seq<(string, real)>, name: string): real
    requires HasKey(potencias, name)
  {
    if potencias[0].0 == name then potencias[0].1
    else
      assert HasKey(potencias[1..], name) by {
        var k :| 0 <= k < |potencias| && potencias[k].0 == name;
        assert potencias[1..][k - 1] == potencias[k];
      }
      PowerOf(potencias[1..], name)
  }

  /** Every system any store configures has a power entry, so `POTENCIAS[origem]` never fails. */
  lemma ConfiguredSystemsHavePower(store: string)
    ensures forall i :: 0 <= i < |Arquivos(store)| ==> HasKey(Potencias, Arquivos(store)[i])
  {
    assert Potencias[0].0 == "Cam Congelados Eco2Pack L1";
    assert Potencias[1].0 == "Cam Congelados Eco2Pack L2";
    assert Potencias[2].0 == "Cam Congelados Eco2Pack L3";
  }

  // ----- mode selection --------------------------------------------------------

  /** The entry of the mode selector that stands for the aggregate view. */
  const EfficiencyMode: string := "Eficiência Energética"

  /**
   * The selection after the mode rule: picking the aggregate entry discards
   * every other choice; otherwise the selection is used as it is.
   */
  function EffectiveSelection(selecionados: seq<string>): (r: seq<string>)
    ensures EfficiencyMode in r <==> EfficiencyMode in selecionados
    ensures EfficiencyMode in r ==> r == [EfficiencyMode]
    ensures EfficiencyMode !in selecionados ==> r == selecionados
    ensures forall s :: s in r ==> s in selecionados
  {
    if EfficiencyMode in selecionados then [EfficiencyMode] else selecionados
  }

  /**
   * Whatever is picked among the selector's options (the aggregate entry and
   * the store's systems), either the aggregate view is shown or every
   * remaining system has a power entry, so `POTENCIAS[origem]` never raises.
   */
  lemma SelectionNeverRaises(store: string, selecionados: seq<string>)
    requires forall s :: s in selecionados ==> s == EfficiencyMode || s in Arquivos(store)
    ensures var sel := EffectiveSelection(selecionados);
      sel == [EfficiencyMode] || forall i :: 0 <= i < |sel| ==> HasKey(Potencias, sel[i])
  {
    var sel := EffectiveSelection(selecionados);
    if sel != [EfficiencyMode] {
      ConfiguredSystemsHavePower(store);
      forall i | 0 <= i < |sel| ensures HasKey(Potencias, sel[i]) {
        assert sel[i] in selecionados && sel[i] != EfficiencyMode;
        var j :| 0 <= j < |Arquivos(store)| && Arquivos(store)[j] == sel[i];
      }
    }
  }

  /** `df_all[df_all["Origem"] == origin].loc[start_date:end_date]`. */
  function Select(rows: seq<Row>, origin: string, inRange: int -> bool): (r: seq<Row>)
    ensures |r| <= |rows|
    ensures forall k :: 0 <= k < |r| ==> r[k].origin == origin && inRange(r[k].time)
  {
    if rows == [] then []
    else
      var n := |rows| - 1;
      var init := Select(rows[..n], origin, inRange);
      assert rows == rows[..n] + [rows[n]];
      if rows[n].origin == origin && inRange(rows[n].time) then init + [rows[n]] else init
  }

  /**
   * The selection keeps rows of the frame only, and every row of `origin` in
   * the range is among them.
   */
  lemma {:induction false} SelectComplete(rows: seq<Row>, origin: string, inRange: int -> bool)
    ensures var r := Select(rows, origin, inRange);
      && (forall k :: 0 <= k < |r| ==> r[k] in rows)
      && (forall i :: 0 <= i < |rows| && rows[i].origin == origin && inRange(rows[i].time) ==> rows[i] in r)
  {
    if rows != [] {
      var n := |rows| - 1;
      SelectComplete(rows[..n], origin, inRange);
      assert rows == rows[..n] + [rows[n]];
      assert forall i :: 0 <= i < n ==> rows[..n][i] == rows[i];
    }
  }

  /**
   * The selection keeps the frame's multiplicity: each matching row is kept
   * as often as it occurs in the frame, and no other row is kept.
   */
  lemma {:induction false} SelectCount(rows: seq<Row>, origin: string, inRange: int -> bool)
    ensures forall x :: multiset(Select(rows, origin, inRange))[x]
                        == (if x.origin == origin && inRange(x.time) then multiset(rows)[x] else 0)
  {
    if rows != [] {
      var n := |rows| - 1;
      SelectCount(rows[..n], origin, inRange);
      assert rows == rows[..n] + [rows[n]];
    }
  }

  /** The selection keeps the frame's order: a time-sorted frame gives a time-sorted selection. */
  lemma {:induction false} SelectSorted(rows: seq<Row>, origin: string, inRange: int -> bool)
    requires Sorted(rows, TimeOf)
    ensures Sorted(Select(rows, origin, inRange), TimeOf)
  {
    if rows != [] {
      var n := |rows| - 1;
      var init := Select(rows[..n], origin, inRange);
      assert Sorted(rows[..n], TimeOf);
      SelectSorted(rows[..n], origin, inRange);
      SelectComplete(rows[..n], origin, inRange);
      forall k | 0 <= k < |init| ensures TimeOf(init[k]) <= TimeOf(rows[n]) {
        var j :| 0 <= j < n && rows[..n][j] == init[k];
      }
    }
  }

  /** No row of `origin` in the range: the selection is empty. */
  lemma {:induction false} SelectNone(rows: seq<Row>, origin: string, inRange: int -> bool)
    requires forall i :: 0 <= i < |rows| ==> rows[i].origin != origin || !inRange(rows[i].time)
    ensures Select(rows, origin, inRange) == []
  {
    if rows != [] {
      SelectNone(rows[..|rows| - 1], origin, inRange);
    }
  }

  /** The number of days in the chosen range, both ends included. */
  function Days(startDay: int, endDay: int): int
  {
    endDay - startDay + 1
  }

  /** `calc_metrics` for one system over the chosen dates. */
  function SystemMetrics(f: Frame, amb: string, pot: real, inRange: int -> bool,
                         startDay: int, endDay: int): Metrics
  {
    CalcMetrics(f.columns, Select(f.rows, amb, inRange), pot, startDay, endDay)
  }

  /** The metrics of each configured system, in dictionary order. */
  function PerSystem(f: Frame, potencias: seq<(string, real)>, inRange: int -> bool,
                     startDay: int, endDay: int): (ms: seq<Metrics>)
    ensures |ms| == |potencias|
  {
    seq(|potencias|, i requires 0 <= i < |potencias| =>
      SystemMetrics(f, potencias[i].0, potencias[i].1, inRange, startDay, endDay))
  }

  /** `tot_prev`, `tot_real`, `tot_ciclos`, `tot_ev`. */
  datatype Totals = Totals(prev: real, actual: real, cycles: int, events: int)

  const NoTotals: Totals := Totals(0.0, 0.0, 0, 0)

  /** The running sums of the totals loop over a sequence of per-system metrics. */
  function Tally(ms: seq<Metrics>): Totals
  {
    if ms == [] then NoTotals
    else
      var t := Tally(ms[..|ms| - 1]);
      var m := ms[|ms| - 1];
      Totals(t.prev + m.consPrev, t.actual + m.consReal, t.cycles + m.cycles, t.events + m.events)
  }

  /** The totals over every configured system. */
  function Accumulated(f: Frame, potencias: seq<(string, real)>, inRange: int -> bool,
                       startDay: int, endDay: int): Totals
  {
    Tally(PerSystem(f, potencias, inRange, startDay, endDay))
  }

  /** The totals loop of the "Eficiência Energética" view, and `tot_pct`. */
  method EfficiencyTotals(f: Frame, potencias: seq<(string, real)>, inRange: int -> bool,
                          startDay: int, endDay: int) returns (t: Totals, pct: real)
    ensures t == Accumulated(f, potencias, inRange, startDay, endDay)
    ensures pct == SavingsPct(t.prev, t.actual)
  {
    ghost var ms := PerSystem(f, potencias, inRange, startDay, endDay);
    var totPrev, totReal, totCiclos, totEv := 0.0, 0.0, 0, 0;
    for i := 0 to |potencias|
      invariant Totals(totPrev, totReal, totCiclos, totEv) == Tally(ms[..i])
    {
      assert ms[..i + 1][..i] == ms[..i];
      var (amb, pot) := potencias[i];
      var dfSel := Select(f.rows, amb, inRange);
      var m := CalcMetrics(f.columns, dfSel, pot, startDay, endDay);
      assert m == ms[i];
      totPrev := totPrev + m.consPrev;
      totReal := totReal + m.consReal;
      totCiclos := totCiclos + m.cycles;
      totEv := totEv + m.events;
    }
    assert ms[..|potencias|] == ms;
    t := Totals(totPrev, totReal, totCiclos, totEv);
    pct := if totPrev != 0.0 then (totPrev - totReal) / totPrev * 100.0 else 0.0;
  }

  function SumPowers(potencias: seq<(string, real)>): real
  {
    if potencias == [] then 0.0 else SumPowers(potencias[..|potencias| - 1]) + potencias[|potencias| - 1].1
  }

  function SumNat(s: seq<nat>): nat
  {
    if s == [] then 0 else SumNat(s[..|s| - 1]) + s[|s| - 1]
  }

  /** How many defrost starts the per-system view marks for each configured system. */
  function StartsPerSystem(f: Frame, potencias: seq<(string, real)>, inRange: int -> bool): (c: seq<nat>)
    ensures |c| == |potencias|
  {
    seq(|potencias|, i requires 0 <= i < |potencias| => |DefrostStarts(Select(f.rows, potencias[i].0, inRange))|)
  }

  // ----- the totals over any per-system metrics -----------------------------

  /** Every system is scheduled 4 cycles a day and 3 kWh a day per kW of its power. */
  predicate ScheduledAlike(ms: seq<Metrics>, potencias: seq<(string, real)>, days: int)
  {
    |ms| == |potencias| &&
    forall i :: 0 <= i < |ms| ==> ms[i].cycles == 4 * days && ms[i].consPrev == 3.0 * potencias[i].1 * days as real
  }

  /** Every system's events are the given counts. */
  predicate CountedAs(ms: seq<Metrics>, counts: seq<nat>)
  {
    |ms| == |counts| && forall i :: 0 <= i < |ms| ==> ms[i].events == counts[i]
  }

  /** Every cycle, scheduled or run, costs `k` kWh. */
  predicate AtRate(ms: seq<Metrics>, k: real)
  {
    forall i :: 0 <= i < |ms| ==> ms[i].consReal == k * ms[i].events as real && ms[i].consPrev == k * ms[i].cycles as real
  }

  /** Systems scheduled alike add up: 4 cycles a day each, 3 kWh a day per kW. */
  lemma {:induction false} SumSchedule(ms: seq<Metrics>, potencias: seq<(string, real)>, days: int)
    requires ScheduledAlike(ms, potencias, days)
    ensures Tally(ms).cycles == 4 * days * |ms|
    ensures Tally(ms).prev == 3.0 * days as real * SumPowers(potencias)
  {
    if ms != [] {
      var n := |ms| - 1;
      assert ScheduledAlike(ms[..n], potencias[..n], days);
      SumSchedule(ms[..n], potencias[..n], days);
      var d := days as real;
      var p := potencias[n].1;
      var sp := SumPowers(potencias[..n]);
      assert 3.0 * d * sp + 3.0 * p * d == 3.0 * d * (sp + p);
      assert 4 * days * n + 4 * days == 4 * days * (n + 1);
    }
  }

  /** The total event count is the sum of the per-system counts. */
  lemma {:induction false} SumEvents(ms: seq<Metrics>, counts: seq<nat>)
    requires CountedAs(ms, counts)
    ensures Tally(ms).events == SumNat(counts)
  {
    if ms != [] {
      assert CountedAs(ms[..|ms| - 1], counts[..|counts| - 1]);
      SumEvents(ms[..|ms| - 1], counts[..|counts| - 1]);
    }
  }

  /** Systems sharing one energy per cycle `k`: the totals keep that rate. */
  lemma {:induction false} SumAtRate(ms: seq<Metrics>, k: real)
    requires AtRate(ms, k)
    ensures Tally(ms).actual == k * Tally(ms).events as real
    ensures Tally(ms).prev == k * Tally(ms).cycles as real
  {
    if ms != [] {
      var n := |ms| - 1;
      assert AtRate(ms[..n], k);
      SumAtRate(ms[..n], k);
      var t := Tally(ms[..n]);
      assert k * t.events as real + k * ms[n].events as real == k * (t.events + ms[n].events) as real;
      assert k * t.cycles as real + k * ms[n].cycles as real == k * (t.cycles + ms[n].cycles) as real;
    }
  }

  /** Systems that all report nothing total nothing. */
  lemma {:induction false} SumOfNothing(ms: seq<Metrics>)
    requires forall i :: 0 <= i < |ms| ==> ms[i] == NoMetrics
    ensures Tally(ms) == NoTotals
  {
    if ms != [] {
      SumOfNothing(ms[..|ms| - 1]);
    }
  }

  // ----- the totals of the dashboard ----------------------------------------

  /** One system's counts, with a "Degelo" column: its schedule, and the starts the per-system view marks. */
  lemma SystemCounts(f: Frame, amb: string, pot: real, inRange: int -> bool, startDay: int, endDay: int, days: int)
    requires "Degelo" in f.columns && days == Days(startDay, endDay)
    ensures var m := SystemMetrics(f, amb, pot, inRange, startDay, endDay);
      && m.cycles == 4 * days
      && m.consPrev == 3.0 * pot * days as real
      && m.events == |DefrostStarts(Select(f.rows, amb, inRange))|
  {
    var sel := Select(f.rows, amb, inRange);
    CountsWithDefrostColumn(f.columns, sel, pot, startDay, endDay);
    StartsCounted(sel);
  }

  /** The same counts for the `i`-th configured system. */
  lemma SystemCountsAt(f: Frame, potencias: seq<(string, real)>, inRange: int -> bool,
                       startDay: int, endDay: int, days: int, i: nat)
    requires "Degelo" in f.columns && days == Days(startDay, endDay) && i < |potencias|
    ensures var m := PerSystem(f, potencias, inRange, startDay, endDay)[i];
      && m.cycles == 4 * days
      && m.consPrev == 3.0 * potencias[i].1 * days as real
      && m.events == StartsPerSystem(f, potencias, inRange)[i]
  {
    var m := SystemMetrics(f, potencias[i].0, potencias[i].1, inRange, startDay, endDay);
    assert PerSystem(f, potencias, inRange, startDay, endDay)[i] == m;
    SystemCounts(f, potencias[i].0, potencias[i].1, inRange, startDay, endDay, days);
  }

  /** The counts of every configured system. */
  lemma AllSystemCounts(f: Frame, potencias: seq<(string, real)>, inRange: int -> bool,
                        startDay: int, endDay: int, days: int)
    requires "Degelo" in f.columns && days == Days(startDay, endDay)
    ensures ScheduledAlike(PerSystem(f, potencias, inRange, startDay, endDay), potencias, days)
    ensures CountedAs(PerSystem(f, potencias, inRange, startDay, endDay), StartsPerSystem(f, potencias, inRange))
  {
    forall i | 0 <= i < |potencias|
      ensures var m := PerSystem(f, potencias, inRange, startDay, endDay)[i];
        && m.cycles == 4 * days
        && m.consPrev == 3.0 * potencias[i].1 * days as real
        && m.events == StartsPerSystem(f, potencias, inRange)[i]
    {
      SystemCountsAt(f, potencias, inRange, startDay, endDay, days, i);
    }
  }

  /** Every configured system at the same power costs one cycle's energy per cycle. */
  lemma AllAtRate(f: Frame, potencias: seq<(string, real)>, pot: real, inRange: int -> bool,
                  startDay: int, endDay: int, k: real)
    requires "Degelo" in f.columns && k == CycleKwh(pot) && UniformPower(potencias, pot)
    ensures AtRate(PerSystem(f, potencias, inRange, startDay, endDay), k)
  {
    forall i | 0 <= i < |potencias|
      ensures var m := PerSystem(f, potencias, inRange, startDay, endDay)[i];
        m.consReal == k * m.events as real && m.consPrev == k * m.cycles as real
    {
      SystemRateAt(f, potencias, pot, inRange, startDay, endDay, k, i);
    }
  }

  /** At power `pot`, each cycle, scheduled or run, costs one cycle's energy. */
  lemma SystemRate(f: Frame, amb: string, pot: real, inRange: int -> bool, startDay: int, endDay: int, k: real)
    requires "Degelo" in f.columns && k == CycleKwh(pot)
    ensures var m := SystemMetrics(f, amb, pot, inRange, startDay, endDay);
      m.consReal == k * m.events as real && m.consPrev == k * m.cycles as real
  {
    var m := SystemMetrics(f, amb, pot, inRange, startDay, endDay);
    CountsWithDefrostColumn(f.columns, Select(f.rows, amb, inRange), pot, startDay, endDay);
    var d := Days(startDay, endDay) as real;
    assert m.cycles as real == 4.0 * d;
    assert m.consPrev == 3.0 * pot * d;
    assert k * (4.0 * d) == 3.0 * pot * d;
  }

  /** The same rate for the `i`-th configured system, when every system has power `pot`. */
  lemma SystemRateAt(f: Frame, potencias: seq<(string, real)>, pot: real, inRange: int -> bool,
                     startDay: int, endDay: int, k: real, i: nat)
    requires "Degelo" in f.columns && k == CycleKwh(pot) && i < |potencias| && potencias[i].1 == pot
    ensures var m := PerSystem(f, potencias, inRange, startDay, endDay)[i];
      m.consReal == k * m.events as real && m.consPrev == k * m.cycles as real
  {
    var m := SystemMetrics(f, potencias[i].0, pot, inRange, startDay, endDay);
    assert PerSystem(f, potencias, inRange, startDay, endDay)[i] == m;
    SystemRate(f, potencias[i].0, pot, inRange, startDay, endDay, k);
  }

  /** The per-system view marks as many starts as `calc_metrics` counts events. */
  lemma StartsCounted(rows: seq<Row>)
    ensures |DefrostStarts(rows)| == DiffEventCount(Status(Column(rows, "Degelo")))
  {
  }

  /**
   * With a "Degelo" column the totals schedule 4 cycles a day per system and
   * count exactly the defrost starts the per-system view marks.
   */
  lemma TotalsWithDefrostColumn(f: Frame, potencias: seq<(string, real)>,
                                inRange: int -> bool, startDay: int, endDay: int)
    requires "Degelo" in f.columns
    ensures var t := Accumulated(f, potencias, inRange, startDay, endDay);
      && t.cycles == 4 * Days(startDay, endDay) * |potencias|
      && t.events == SumNat(StartsPerSystem(f, potencias, inRange))
  {
    var ms := PerSystem(f, potencias, inRange, startDay, endDay);
    var counts := StartsPerSystem(f, potencias, inRange);
    AllSystemCounts(f, potencias, inRange, startDay, endDay, Days(startDay, endDay));
    SumSchedule(ms, potencias, Days(startDay, endDay));
    SumEvents(ms, counts);
  }

  /** Without a "Degelo" column every system contributes zeros, so the total percentage is 0. */
  lemma TotalsWithoutDefrostColumn(f: Frame, potencias: seq<(string, real)>,
                                   inRange: int -> bool, startDay: int, endDay: int)
    requires "Degelo" !in f.columns
    ensures Accumulated(f, potencias, inRange, startDay, endDay) == NoTotals
    ensures SavingsPct(NoTotals.prev, NoTotals.actual) == 0.0
  {
    var ms := PerSystem(f, potencias, inRange, startDay, endDay);
    SumOfNothing(ms);
  }

  predicate UniformPower(potencias: seq<(string, real)>, pot: real)
  {
    forall i :: 0 <= i < |potencias| ==> potencias[i].1 == pot
  }

  /** The energy one 45-minute defrost cycle uses at power `pot`, in kWh. */
  function CycleKwh(pot: real): real
  {
    CycleHours * pot
  }

  /** The totals of systems at one positive rate: the percentage is the share of cycles that did not run. */
  lemma TallyAtRate(ms: seq<Metrics>, k: real)
    requires AtRate(ms, k) && k > 0.0 && Tally(ms).cycles > 0
    ensures var t := Tally(ms);
      && t.actual == k * t.events as real && t.prev == k * t.cycles as real
      && SavingsPct(t.prev, t.actual) == 100.0 * (t.cycles - t.events) as real / t.cycles as real
  {
    var t := Tally(ms);
    SumAtRate(ms, k);
    RateShare(t.prev, t.actual, k, t.cycles as real, t.events as real);
  }

  /** Forecast and actual at one positive rate: the percentage is the share of cycles saved. */
  lemma RateShare(prev: real, actual: real, k: real, c: real, e: real)
    requires k > 0.0 && c > 0.0 && prev == k * c && actual == k * e
    ensures SavingsPct(prev, actual) == 100.0 * (c - e) / c
  {
    assert prev != 0.0 by { assert k * c > 0.0; }
    SavingsPctShare(prev, actual);
    var pct := SavingsPct(prev, actual);
    assert pct * (k * c) == (k * c - k * e) * 100.0;
    assert k * (pct * c) == k * ((c - e) * 100.0);
    assert pct * c == (c - e) * 100.0;
  }

  /** A listed system with no rows in the range adds its schedule and no defrost. */
  lemma SystemWithoutRows(f: Frame, amb: string, pot: real, inRange: int -> bool, startDay: int, endDay: int)
    requires "Degelo" in f.columns
    requires forall i :: 0 <= i < |f.rows| ==> f.rows[i].origin != amb || !inRange(f.rows[i].time)
    ensures var m := SystemMetrics(f, amb, pot, inRange, startDay, endDay);
      m.events == 0 && m.consReal == 0.0 && m.cycles == 4 * Days(startDay, endDay)
      && m.consPrev == 3.0 * pot * Days(startDay, endDay) as real
  {
    SelectNone(f.rows, amb, inRange);
    CountsWithDefrostColumn(f.columns, [], pot, startDay, endDay);
    assert Status(Column([], "Degelo")) == [];
    assert DiffEvents([]) == [];
  }

  /**
   * With the dashboard's own configuration (three systems of 10 kW) and a
   * "Degelo" column, each day schedules 12 defrosts ...
   */
  lemma DashboardConfigurationCycles(f: Frame, inRange: int -> bool, startDay: int, endDay: int)
    requires "Degelo" in f.columns
    ensures Accumulated(f, Potencias, inRange, startDay, endDay).cycles == 12 * Days(startDay, endDay)
  {
    var d := Days(startDay, endDay);
    assert |Potencias| == 3;
    assert 4 * d * |Potencias| == 12 * d;
    TotalsWithDefrostColumn(f, Potencias, inRange, startDay, endDay);
  }

  /** ... and 90 kWh, for any metrics scheduled as `calc_metrics` schedules them (see `AllSystemCounts`). */
  lemma DashboardConfigurationForecast(ms: seq<Metrics>, days: int)
    requires ScheduledAlike(ms, Potencias, days)
    ensures Tally(ms).prev == 90.0 * days as real
  {
    SumSchedule(ms, Potencias, days);
    assert SumPowers(Potencias[..1]) == 10.0 by { assert Potencias[..1][..0] == []; }
    assert SumPowers(Potencias[..2]) == 20.0 by { assert Potencias[..2][..1] == Potencias[..1]; }
    assert SumPowers(Potencias) == 30.0 by { assert Potencias[..2] == Potencias[..|Potencias| - 1]; }
  }

  // ----- per-system analysis -------------------------------------------------

  /** What the per-system view shows for one selected system. */
  datatype EnvOutcome =
    | NoData                                          // warning: no rows in the range
    | MissingColumns(names: seq<string>)              // error: required columns absent
    | Analysed(perf: seq<(Period, PeriodScore)>)      // temperature performance table

  /** `[col for col in ["Temp ambiente", "Degelo"] if col not in df_sel.columns]`. */
  function MissingRequired(columns: set<string>): (missing: seq<string>)
    ensures missing == [] <==> "Temp ambiente" in columns && "Degelo" in columns
  {
    (if "Temp ambiente" in columns then [] else ["Temp ambiente"])
      + (if "Degelo" in columns then [] else ["Degelo"])
  }

  /** The outcome the dashboard should reach for `origem`; a name without power raises KeyError. */
  function EnvironmentOutcome(f: Frame, origem: string, potencias: seq<(string, real)>,
                              inRange: int -> bool, delta: real): Result<EnvOutcome>
  {
    if !HasKey(potencias, origem) then Err(MissingKey(origem))
    else
      var sel := Select(f.rows, origem, inRange);
      if sel == [] then Ok(NoData)
      else if MissingRequired(f.columns) != [] then Ok(MissingColumns(MissingRequired(f.columns)))
      else Ok(Analysed(ExpectedPerformance(sel, delta)))
  }

  /** One pass of the per-system loop. */
  method AnalyseEnvironment(f: Frame, origem: string, potencias: seq<(string, real)>,
                            inRange: int -> bool, delta: real) returns (r: Result<EnvOutcome>)
    ensures r == EnvironmentOutcome(f, origem, potencias, inRange, delta)
    ensures r.Err? <==> !HasKey(potencias, origem)
    ensures r.Ok? && r.value.Analysed? ==>
      |r.value.perf| == 3 && forall k :: 0 <= k < 3 && r.value.perf[k].1.Scored? ==> 0.0 <= r.value.perf[k].1.pct <= 100.0
  {
    if !HasKey(potencias, origem) {
      return Err(MissingKey(origem));
    }
    var dfSel := Select(f.rows, origem, inRange);
    if dfSel == [] {
      return Ok(NoData);
    }
    var missing := MissingRequired(f.columns);
    if missing != [] {
      return Ok(MissingColumns(missing));
    }
    var perf := ScoreSystem(dfSel, delta);
    r := Ok(Analysed(perf));
  }

  /**
   * The loop over the selected systems: the first name without a power entry
   * raises and ends the run; otherwise every system gets its outcome, in order.
   */
  method AnalyseSelection(f: Frame, selected: seq<string>, potencias: seq<(string, real)>,
                          inRange: int -> bool, delta: real) returns (r: Result<seq<EnvOutcome>>)
    ensures r.Err? <==> exists i :: 0 <= i < |selected| && !HasKey(potencias, selected[i])
    ensures r.Ok? ==> |r.value| == |selected| && forall i :: 0 <= i < |selected| ==>
      Ok(r.value[i]) == EnvironmentOutcome(f, selected[i], potencias, inRange, delta)
  {
    var outcomes: seq<EnvOutcome> := [];
    for i := 0 to |selected|
      invariant |outcomes| == i
      invariant forall j :: 0 <= j < i ==> HasKey(potencias, selected[j])
      invariant forall j :: 0 <= j < i ==> Ok(outcomes[j]) == EnvironmentOutcome(f, selected[j], potencias, inRange, delta)
    {
      var o := AnalyseEnvironment(f, selected[i], potencias, inRange, delta);
      if o.Err? {
        return Err(o.failure);
      }
      outcomes := outcomes + [o.value];
    }
    r := Ok(outcomes);
  }
}
