/**
 * Thermal performance of a cold room: the share of temperature samples within
 * a tolerance of the -20 °C setpoint, per weekly period, ignoring the
 * recovery window after each defrost start.
 */
module Thermal {
  import opened Wrappers
  import opened Cells
  import opened Calendar
  import opened Edges
  import opened Loader
  import DailyStats

  const Setpoint: real := -20.0
  /** A sample is excluded from (start + 45 min, start + 75 min] after a defrost start. */
  const RecoveryFrom: int := 45
  const RecoveryTo: int := 75

  predicate InRecoveryWindow(t: int, t0: int)
  {
    t0 + RecoveryFrom < t <= t0 + RecoveryTo
  }

  /** The window is open at +45 min and closed at +75 min. */
  lemma RecoveryBoundaries(t0: int)
    ensures !InRecoveryWindow(t0 + 45, t0) && InRecoveryWindow(t0 + 46, t0)
    ensures InRecoveryWindow(t0 + 75, t0) && !InRecoveryWindow(t0 + 76, t0)
    ensures forall t :: t <= t0 + 45 || t > t0 + 75 ==> !InRecoveryWindow(t, t0)
  {
  }

  /** Some defrost start puts `t` in its recovery window. */
  predicate Excluded(t: int, events: seq<int>)
  {
    exists k :: 0 <= k < |events| && InRecoveryWindow(t, events[k])
  }

  /** `recovery |= (index > t0 + 45 min) & (index <= t0 + 75 min)` for every start `t0`. */
  method RecoveryMask(times: seq<int>, events: seq<int>) returns (recovery: seq<bool>)
    ensures |recovery| == |times|
    ensures forall i :: 0 <= i < |times| ==> (recovery[i] <==> Excluded(times[i], events))
  {
    recovery := seq(|times|, i => false);
    for k := 0 to |events|
      invariant |recovery| == |times|
      invariant forall i :: 0 <= i < |times| ==> (recovery[i] <==> Excluded(times[i], events[..k]))
    {
      var t0 := events[k];
      assert forall j :: 0 <= j < k ==> events[..k + 1][j] == events[..k][j];
      recovery := seq(|times|, i requires 0 <= i < |recovery| && |recovery| == |times| =>
        recovery[i] || (times[i] > t0 + RecoveryFrom && times[i] <= t0 + RecoveryTo));
    }
    assert events[..|events|] == events;
  }

  // ----- weekly periods ----------------------------------------------------

  datatype Period = Operation | OffHours | Weekend

  /** The periods in the order the performance table lists them. */
  const Periods: seq<Period> := [Operation, OffHours, Weekend]

  /** The three boolean masks of the performance table, as written. */
  predicate InPeriod(p: Period, t: int)
  {
    match p
    case Operation => Hour(t) >= 8 && Hour(t) < 21 && Weekday(t) < 5
    case OffHours => (Hour(t) >= 21 || Hour(t) < 8) && Weekday(t) < 5
    case Weekend => Weekday(t) >= 5
  }

  /** Independent classification: weekend first, then business hours 08–21 on weekdays. */
  function PeriodOf(t: int): Period
  {
    if Weekday(t) in {5, 6} then Weekend
    else if 8 <= Hour(t) <= 20 then Operation
    else OffHours
  }

  /** Every timestamp lies in exactly one of the three masks. */
  lemma PeriodsPartition(t: int)
    ensures forall p: Period :: InPeriod(p, t) <==> p == PeriodOf(t)
  {
  }

  // ----- samples and scores ------------------------------------------------

  /** `to_numeric(..., errors="coerce")` of the "Temp ambiente" column, NaN as None. */
  function Temperatures(rows: seq<Row>): (temps: seq<Option<real>>)
    ensures |temps| == |rows|
  {
    seq(|rows|, i requires 0 <= i < |rows| => NumberOf(CellAt(rows[i].cells, "Temp ambiente")))
  }

  /** `ffill()`: a missing value takes the last present value before it, if any. */
  function ForwardFill(s: seq<Option<real>>): (r: seq<Option<real>>)
    ensures |r| == |s|
  {
    if s == [] then []
    else
      var n := |s| - 1;
      var init := ForwardFill(s[..n]);
      init + [if s[n].Some? then s[n] else if n == 0 then None else init[n - 1]]
  }

  /**
   * After forward filling, a value is missing exactly when nothing up to it
   * was present; a present value is kept; a filled value is the most recent
   * present one before it.
   */
  lemma {:induction false} ForwardFillAt(s: seq<Option<real>>, i: int)
    requires 0 <= i < |s|
    ensures ForwardFill(s)[i].None? <==> forall j :: 0 <= j <= i ==> s[j].None?
    ensures s[i].Some? ==> ForwardFill(s)[i] == s[i]
    ensures ForwardFill(s)[i].Some? ==>
      exists j :: 0 <= j <= i && ForwardFill(s)[i] == s[j] && forall k :: j < k <= i ==> s[k].None?
  {
    var n := |s| - 1;
    var init := ForwardFill(s[..n]);
    var r := ForwardFill(s);
    assert r == init + [if s[n].Some? then s[n] else if n == 0 then None else init[n - 1]];
    if i < n {
      ForwardFillAt(s[..n], i);
      assert forall j :: 0 <= j <= i ==> s[..n][j] == s[j];
      assert r[i] == init[i];
    } else if s[n].None? && n > 0 {
      ForwardFillAt(s[..n], n - 1);
      assert forall j :: 0 <= j < n ==> s[..n][j] == s[j];
      assert r[n] == init[n - 1];
    }
  }

  /** How many rows of period `p` outside the recovery windows carry temperature `x`. */
  function PeriodRows(times: seq<int>, temps: seq<Option<real>>, recovery: seq<bool>, p: Period, x: Option<real>): nat
    requires |times| == |temps| == |recovery|
  {
    if times == [] then 0
    else
      var n := |times| - 1;
      PeriodRows(times[..n], temps[..n], recovery[..n], p, x)
      + (if InPeriod(p, times[n]) && !recovery[n] && temps[n] == x then 1 else 0)
  }

  /** The temperatures of the rows of period `p` that are not excluded, in row order. */
  function Samples(times: seq<int>, temps: seq<Option<real>>, recovery: seq<bool>, p: Period): (s: seq<Option<real>>)
    requires |times| == |temps| == |recovery|
    ensures |s| <= |times|
    ensures forall x :: x in s <==>
      exists i :: 0 <= i < |times| && InPeriod(p, times[i]) && !recovery[i] && temps[i] == x
    ensures forall x :: multiset(s)[x] == PeriodRows(times, temps, recovery, p, x)
  {
    if times == [] then []
    else
      var n := |times| - 1;
      var init := Samples(times[..n], temps[..n], recovery[..n], p);
      assert forall i :: 0 <= i < n ==> times[..n][i] == times[i] && temps[..n][i] == temps[i] && recovery[..n][i] == recovery[i];
      if InPeriod(p, times[n]) && !recovery[n] then init + [temps[n]] else init
  }

  function Abs(x: real): real
  {
    if x < 0.0 then -x else x
  }

  /** `abs(temp - SETPOINT) <= delta`; NaN never is. */
  predicate WithinTolerance(v: Option<real>, delta: real)
  {
    v.Some? && Abs(v.value - Setpoint) <= delta
  }

  function Hits(s: seq<Option<real>>, delta: real): (h: nat)
    ensures h <= |s|
  {
    if s == [] then 0 else Hits(s[..|s| - 1], delta) + (if WithinTolerance(s[|s| - 1], delta) then 1 else 0)
  }

  /** A period's line: "N/A", or the mean temperature and the within-tolerance percentage. */
  datatype PeriodScore = NotApplicable | Scored(meanTemp: real, pct: real)

  /**
   * "N/A" when there are no samples or all are NaN; otherwise the NaN-skipping
   * mean and 100 × (samples within tolerance) / (all samples, NaN included).
   */
  function Score(s: seq<Option<real>>, delta: real): PeriodScore
  {
    var present := DailyStats.Present(s);
    if s == [] || present == [] then NotApplicable
    else Scored(DailyStats.Total(present) / |present| as real, 100.0 * Hits(s, delta) as real / |s| as real)
  }

  lemma {:induction false} PresentEmpty(s: seq<Option<real>>)
    ensures DailyStats.Present(s) == [] <==> forall i :: 0 <= i < |s| ==> s[i].None?
  {
    if s != [] {
      PresentEmpty(s[..|s| - 1]);
      assert forall i :: 0 <= i < |s| - 1 ==> s[..|s| - 1][i] == s[i];
    }
  }

  lemma {:induction false} AllHits(s: seq<Option<real>>, delta: real)
    ensures Hits(s, delta) == |s| <==> forall i :: 0 <= i < |s| ==> WithinTolerance(s[i], delta)
    ensures Hits(s, delta) == 0 <==> forall i :: 0 <= i < |s| ==> !WithinTolerance(s[i], delta)
  {
    if s != [] {
      AllHits(s[..|s| - 1], delta);
      assert forall i :: 0 <= i < |s| - 1 ==> s[..|s| - 1][i] == s[i];
    }
  }

  /**
   * A score is "N/A" exactly when no sample is a number; otherwise its
   * percentage lies in [0, 100], is 100 exactly when every sample is within
   * tolerance and 0 exactly when none is.
   */
  lemma ScoreMeaning(s: seq<Option<real>>, delta: real)
    ensures Score(s, delta).NotApplicable? <==> forall i :: 0 <= i < |s| ==> s[i].None?
    ensures Score(s, delta).Scored? ==> 0.0 <= Score(s, delta).pct <= 100.0
    ensures Score(s, delta).Scored? ==>
      (Score(s, delta).pct == 100.0 <==> forall i :: 0 <= i < |s| ==> WithinTolerance(s[i], delta))
    ensures Score(s, delta).Scored? ==>
      (Score(s, delta).pct == 0.0 <==> forall i :: 0 <= i < |s| ==> !WithinTolerance(s[i], delta))
  {
    PresentEmpty(s);
    AllHits(s, delta);
    if Score(s, delta).Scored? {
      PercentOfCount(Hits(s, delta), |s|);
    }
  }

  /** A share of `h` out of `n` items, in percent, is in [0, 100]: 100 exactly at `h == n`, 0 exactly at `h == 0`. */
  lemma PercentOfCount(h: nat, n: nat)
    requires 0 < n && h <= n
    ensures var p := 100.0 * h as real / n as real;
      && 0.0 <= p <= 100.0 && (p == 100.0 <==> h == n) && (p == 0.0 <==> h == 0)
  {
    var p := 100.0 * h as real / n as real;
    assert p * n as real == 100.0 * h as real;
    if p == 100.0 { assert 100.0 * n as real == 100.0 * h as real; }
  }

  /** Each non-excluded row lands in the samples of exactly one period. */
  lemma {:induction false} PeriodsShareSamples(times: seq<int>, temps: seq<Option<real>>, recovery: seq<bool>)
    requires |times| == |temps| == |recovery|
    ensures |Samples(times, temps, recovery, Operation)| + |Samples(times, temps, recovery, OffHours)|
            + |Samples(times, temps, recovery, Weekend)| == CountTrue(seq(|recovery|, i requires 0 <= i < |recovery| => !recovery[i]))
  {
    var kept := seq(|recovery|, i requires 0 <= i < |recovery| => !recovery[i]);
    if times != [] {
      var n := |times| - 1;
      PeriodsShareSamples(times[..n], temps[..n], recovery[..n]);
      assert kept[..n] == seq(|recovery[..n]|, i requires 0 <= i < |recovery[..n]| => !recovery[..n][i]);
      PeriodsPartition(times[n]);
    }
  }

  /** The performance table loop: one line per period, in table order. */
  method PerformanceTable(times: seq<int>, temps: seq<Option<real>>, recovery: seq<bool>, delta: real)
    returns (perf: seq<(Period, PeriodScore)>)
    requires |times| == |temps| == |recovery|
    ensures |perf| == |Periods|
    ensures forall k :: 0 <= k < |Periods| ==>
      perf[k] == (Periods[k], Score(Samples(times, temps, recovery, Periods[k]), delta))
  {
    perf := [];
    for k := 0 to |Periods|
      invariant |perf| == k
      invariant forall j :: 0 <= j < k ==>
        perf[j] == (Periods[j], Score(Samples(times, temps, recovery, Periods[j]), delta))
    {
      var p := Periods[k];
      var s := Samples(times, temps, recovery, p);
      var present := DailyStats.Present(s);
      if s == [] || present == [] {
        perf := perf + [(p, NotApplicable)];
      } else {
        var pct := 100.0 * Hits(s, delta) as real / |s| as real;
        perf := perf + [(p, Scored(DailyStats.Total(present) / |present| as real, pct))];
      }
    }
  }

  /** The exclusion mask as a function of the event times. */
  function ExclusionMask(times: seq<int>, events: seq<int>): (m: seq<bool>)
    ensures |m| == |times|
  {
    seq(|times|, i requires 0 <= i < |times| => Excluded(times[i], events))
  }

  /** Defrost starts of a system's selection: `diff() == 1` on the zero-filled "Degelo". */
  function DefrostStarts(rows: seq<Row>): seq<int>
  {
    EventTimes(Times(rows), DiffEvents(Status(Column(rows, "Degelo"))))
  }

  /** What the per-system performance table should hold for `rows`. */
  function ExpectedPerformance(rows: seq<Row>, delta: real): seq<(Period, PeriodScore)>
  {
    var times := Times(rows);
    var temps := ForwardFill(Temperatures(rows));
    var mask := ExclusionMask(times, DefrostStarts(rows));
    seq(|Periods|, k requires 0 <= k < |Periods| => (Periods[k], Score(Samples(times, temps, mask, Periods[k]), delta)))
  }

  /**
   * The body of the per-system analysis: coerce and forward-fill the
   * temperatures, zero-fill the defrost status, find the starts, build the
   * recovery mask and score the three periods.
   */
  method ScoreSystem(rows: seq<Row>, delta: real) returns (perf: seq<(Period, PeriodScore)>)
    ensures perf == ExpectedPerformance(rows, delta)
    ensures forall k :: 0 <= k < |perf| && perf[k].1.Scored? ==> 0.0 <= perf[k].1.pct <= 100.0
  {
    var times := Times(rows);
    var temps := ForwardFill(Temperatures(rows));
    var status := Status(Column(rows, "Degelo"));
    var events := EventTimes(times, DiffEvents(status));
    var recovery := RecoveryMask(times, events);
    assert recovery == ExclusionMask(times, events);
    perf := PerformanceTable(times, temps, recovery, delta);
    forall k | 0 <= k < |perf|
      ensures perf[k].1.Scored? ==> 0.0 <= perf[k].1.pct <= 100.0
    {
      ScoreMeaning(Samples(times, temps, recovery, Periods[k]), delta);
    }
  }
}
