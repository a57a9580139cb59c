/**
 * The energy-savings calculation (`calc_metrics`) shared by the dashboard and
 * its earlier version: scheduled defrosts (4 a day, 45 minutes each) against
 * the defrosts the intelligent controller actually started.
 */
module Metrics {
  import opened Cells
  import opened Edges
  import opened Loader

  const CyclesPerDay: int := 4
  /** 45 minutes, in hours. */
  const CycleHours: real := 0.75

  /** `(cons_prev, cons_real, econ_kwh, econ_pct, ciclos, eventos)`. */
  datatype Metrics = Metrics(consPrev: real, consReal: real, econKwh: real, econPct: real,
                             cycles: int, events: int)

  /** What `calc_metrics` returns when there is no "Degelo" column. */
  const NoMetrics: Metrics := Metrics(0.0, 0.0, 0.0, 0.0, 0, 0)

  /** `(prev - actual) / prev * 100 if prev else 0`: a percentage that never divides by zero. */
  function SavingsPct(prev: real, actual: real): (p: real)
    ensures prev == 0.0 ==> p == 0.0
  {
    if prev != 0.0 then (prev - actual) / prev * 100.0 else 0.0
  }

  /** A nonzero forecast: the percentage is the saved share of it, times 100. */
  lemma SavingsPctShare(prev: real, actual: real)
    requires prev != 0.0
    ensures SavingsPct(prev, actual) * prev == (prev - actual) * 100.0
  {
    var q := (prev - actual) / prev;
    assert q * prev == prev - actual;
  }

  /**
   * `calc_metrics(df_sel, pot_kw, start_date, end_date)`; `columns` are the
   * frame's columns and `rows` the selected rows, dates are day numbers.
   */
  function CalcMetrics(columns: set<string>, rows: seq<Row>, potKw: real,
                       startDay: int, endDay: int): (m: Metrics)
    ensures "Degelo" !in columns ==> m == NoMetrics
    ensures m.econKwh == m.consPrev - m.consReal
    ensures m.consPrev == 0.0 ==> m.econPct == 0.0
    ensures 0 <= m.events <= |rows|
  {
    if "Degelo" !in columns then NoMetrics
    else
      var status := Status(Column(rows, "Degelo"));
      var eventos := DiffEventCount(status);
      CountTrueBound(DiffEvents(status));
      var dias := endDay - startDay + 1;
      var ciclos := CyclesPerDay * dias;
      var prev := potKw * CycleHours * ciclos as real;
      var actual := potKw * CycleHours * eventos as real;
      Metrics(prev, actual, prev - actual, SavingsPct(prev, actual), ciclos, eventos)
  }

  lemma {:induction false} CountTrueBound(b: seq<bool>)
    ensures CountTrue(b) <= |b|
  {
    if b != [] {
      CountTrueBound(b[..|b| - 1]);
    }
  }

  /** With a "Degelo" column, the counts are the scheduled cycles and the detected starts. */
  lemma CountsWithDefrostColumn(columns: set<string>, rows: seq<Row>, potKw: real,
                                startDay: int, endDay: int)
    requires "Degelo" in columns
    ensures var m := CalcMetrics(columns, rows, potKw, startDay, endDay);
      && m.cycles == 4 * (endDay - startDay + 1)
      && m.events == DiffEventCount(Status(Column(rows, "Degelo")))
      && m.consPrev == 3.0 * potKw * (endDay - startDay + 1) as real
      && m.consReal == 0.75 * potKw * m.events as real
  {
  }

  /**
   * The savings percentage does not depend on the power rating: it is the
   * share of scheduled cycles that were not needed.
   */
  lemma SavingsIndependentOfPower(columns: set<string>, rows: seq<Row>, potKw: real,
                                  startDay: int, endDay: int)
    requires "Degelo" in columns && potKw != 0.0 && endDay - startDay + 1 != 0
    ensures var m := CalcMetrics(columns, rows, potKw, startDay, endDay);
      m.econPct == 100.0 * (m.cycles - m.events) as real / m.cycles as real
  {
    var m := CalcMetrics(columns, rows, potKw, startDay, endDay);
    var k := potKw * CycleHours;
    var c, e := m.cycles as real, m.events as real;
    assert m.consPrev == k * c && m.consReal == k * e;
    assert k != 0.0 && c != 0.0;
    assert m.consPrev != 0.0 by { assert k * c != 0.0; }
    SavingsPctShare(m.consPrev, m.consReal);
    assert m.econPct * (k * c) == (k * c - k * e) * 100.0;
    assert k * (m.econPct * c) == k * ((c - e) * 100.0);
    assert m.econPct * c == (c - e) * 100.0;
  }

  /**
   * The percentage is not clamped: for a positive rating over at least one day
   * it is 100 exactly when no defrost started, lies in [0, 100] exactly when at
   * most the scheduled number started, and is negative exactly when more did.
   */
  lemma SavingsRange(columns: set<string>, rows: seq<Row>, potKw: real,
                     startDay: int, endDay: int)
    requires "Degelo" in columns && potKw > 0.0 && endDay >= startDay
    ensures var m := CalcMetrics(columns, rows, potKw, startDay, endDay);
      && (m.econPct == 100.0 <==> m.events == 0)
      && (0.0 <= m.econPct <= 100.0 <==> m.events <= m.cycles)
      && (m.econPct < 0.0 <==> m.events > m.cycles)
  {
    SavingsIndependentOfPower(columns, rows, potKw, startDay, endDay);
    var m := CalcMetrics(columns, rows, potKw, startDay, endDay);
    var c, e := m.cycles as real, m.events as real;
    assert c > 0.0;
    assert m.econPct * c == 100.0 * (c - e);
    if m.econPct == 100.0 { assert 100.0 * c == 100.0 * (c - e); }
    if m.econPct < 0.0 { assert m.econPct * c < 0.0; }
    if m.events > m.cycles { assert 100.0 * (c - e) < 0.0; }
  }

  /** The percentage is 0 exactly when nothing was scheduled or as many defrosts ran as were scheduled. */
  lemma SavingsZero(columns: set<string>, rows: seq<Row>, potKw: real, startDay: int, endDay: int)
    ensures var m := CalcMetrics(columns, rows, potKw, startDay, endDay);
      m.econPct == 0.0 <==> (m.consPrev == 0.0 || m.consReal == m.consPrev)
  {
    var m := CalcMetrics(columns, rows, potKw, startDay, endDay);
    if m.consPrev != 0.0 && m.econPct == 0.0 {
      SavingsPctShare(m.consPrev, m.consReal);
      assert (m.consPrev - m.consReal) * 100.0 == 0.0;
    }
  }

  /** A selection with no rows still schedules cycles and records no defrost. */
  lemma NoRowsScenario(columns: set<string>, potKw: real, startDay: int, endDay: int)
    requires "Degelo" in columns && potKw > 0.0 && endDay >= startDay
    ensures var m := CalcMetrics(columns, [], potKw, startDay, endDay);
      m.events == 0 && m.consReal == 0.0 && m.consPrev > 0.0 && m.econPct == 100.0
  {
    assert Status(Column([], "Degelo")) == [];
    assert DiffEvents([]) == [];
    SavingsRange(columns, [], potKw, startDay, endDay);
  }

  /** A present but entirely empty defrost column counts no events and saves 100 %. */
  lemma NullDefrostScenario(columns: set<string>, rows: seq<Row>, potKw: real, startDay: int, endDay: int)
    requires "Degelo" in columns && potKw > 0.0 && endDay >= startDay
    requires forall i :: 0 <= i < |rows| ==> CellAt(rows[i].cells, "Degelo") == Blank
    ensures var m := CalcMetrics(columns, rows, potKw, startDay, endDay);
      m.events == 0 && m.consReal == 0.0 && m.econPct == 100.0
  {
    var s := Status(Column(rows, "Degelo"));
    assert forall i :: 0 <= i < |s| ==> s[i] == 0.0;
    DiffCountIsRisingEdges(s);
    ZeroSignalHasNoEdges(s);
    SavingsRange(columns, rows, potKw, startDay, endDay);
  }

  lemma {:induction false} ZeroSignalHasNoEdges(s: seq<real>)
    requires forall i :: 0 <= i < |s| ==> s[i] == 0.0
    ensures RisingEdges(s) == 0
  {
    if |s| >= 2 {
      ZeroSignalHasNoEdges(s[..|s| - 1]);
    }
  }

  /**
   * The worked example: 10 kW over one day, a defrost starting at 08:00 that
   * stays on until 08:10 and another at 14:00 — 30 kWh scheduled, 15 kWh
   * used, 50 % saved.
   */
  lemma WorkedExample(columns: set<string>)
    requires "Degelo" in columns
    ensures var rows := [Row(470, "L1", map["Degelo" := Num(0.0)]),
                         Row(480, "L1", map["Degelo" := Num(1.0)]),
                         Row(490, "L1", map["Degelo" := Num(1.0)]),
                         Row(500, "L1", map["Degelo" := Num(0.0)]),
                         Row(840, "L1", map["Degelo" := Num(1.0)])];
      var m := CalcMetrics(columns, rows, 10.0, 0, 0);
      m.consPrev == 30.0 && m.consReal == 15.0 && m.econPct == 50.0 && m.cycles == 4 && m.events == 2
  {
    var rows := [Row(470, "L1", map["Degelo" := Num(0.0)]),
                 Row(480, "L1", map["Degelo" := Num(1.0)]),
                 Row(490, "L1", map["Degelo" := Num(1.0)]),
                 Row(500, "L1", map["Degelo" := Num(0.0)]),
                 Row(840, "L1", map["Degelo" := Num(1.0)])];
    var s := Status(Column(rows, "Degelo"));
    assert s == [0.0, 1.0, 1.0, 0.0, 1.0];
    DiffCountIsRisingEdges(s);
    assert RisingEdges(s) == 2 by {
      var s2, s3, s4 := [0.0, 1.0], [0.0, 1.0, 1.0], [0.0, 1.0, 1.0, 0.0];
      assert s2[..1] == [0.0] && s3[..2] == s2 && s4[..3] == s3 && s[..4] == s4;
      assert RisingEdges(s2) == 1;
      assert RisingEdges(s3) == 1;
      assert RisingEdges(s4) == 1;
    }
    SavingsIndependentOfPower(columns, rows, 10.0, 0, 0);
  }
}
