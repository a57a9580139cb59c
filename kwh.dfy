/**
 * The cumulative-energy comparison of the freezer room (`deprecated/kWh.py`):
 * each meter export gets its first column as the time index, its power (kW)
 * and energy (kWh) columns found by name, its invalid rows dropped, its
 * values scaled from W/Wh to kW/kWh and its energy rebased to the first
 * reading; the last rebased energies of the two systems are then compared.
 */
module Kwh {
  import opened Wrappers
  import opened Cells
  import opened Loader
  import opened TimeSort

  /** The meters export W and Wh; the report shows kW and kWh. */
  const Scale: real := 1000.0

  /** One row that survived the filters, in the file's own units. */
  datatype Sample = Sample(time: int, power: real, energy: real)

  /** One row of the loaded frame: kW, kWh, `kWh_Base0` and `Sistema`. */
  datatype Reading = Reading(time: int, kw: real, kwh: real, base0: real, system: string)

  /** The two loaded systems and the comparison drawn from them. */
  datatype Comparison = Comparison(com: seq<Reading>, sem: seq<Reading>,
                                   energyCom: real, energySem: real, savingsPct: real)

  // ----- column detection -----------------------------------------------------------

  /** A power column: its lower-cased name contains "kw" but not "kwh". */
  predicate IsPowerName(c: string)
  {
    Contains(Lower(c), "kw") && !Contains(Lower(c), "kwh")
  }

  /** An energy column: its lower-cased name contains "kwh". */
  predicate IsEnergyName(c: string)
  {
    Contains(Lower(c), "kwh")
  }

  /** The column names after the first one is renamed `DataHora`. */
  function WithTimeIndex(header: seq<string>): (cols: seq<string>)
    requires header != []
    ensures |cols| == |header| && cols[0] == "DataHora"
    ensures forall i :: 0 < i < |header| ==> cols[i] == header[i]
  {
    ["DataHora"] + header[1..]
  }

  /** The renamed time column is never taken for a power or an energy column. */
  lemma TimeIndexIsNoMeter()
    ensures !IsPowerName("DataHora") && !IsEnergyName("DataHora")
  {
    var low := Lower("DataHora");
    forall i | 0 <= i < |low| ensures low[i] != 'k' {
      assert low[i] == LowerChar("DataHora"[i]);
    }
    AbsentFirstChar(low, "kw");
    AbsentFirstChar(low, "kwh");
  }

  /** No column is both: the power and the energy column are always different columns. */
  lemma PowerAndEnergyDiffer(c: string)
    ensures !(IsPowerName(c) && IsEnergyName(c))
  {
  }

  // ----- the rows -------------------------------------------------------------------

  /**
   * One spreadsheet row, kept when its date parses and both its power and its
   * energy are numbers.
   */
  function SampleOf(row: map<string, Cell>, timeKey: string, powerKey: string, energyKey: string,
                    parse: Cell -> Option<int>): Option<Sample>
  {
    match (parse(CellAt(row, timeKey)), NumberOf(CellAt(row, powerKey)), NumberOf(CellAt(row, energyKey)))
    case (Some(t), Some(p), Some(e)) => Some(Sample(t, p, e))
    case _ => None
  }

  /** How many rows give sample `s`. */
  function RowsGiving(rows: seq<map<string, Cell>>, timeKey: string, powerKey: string, energyKey: string,
                      parse: Cell -> Option<int>, s: Sample): nat
  {
    if rows == [] then 0
    else RowsGiving(rows[..|rows| - 1], timeKey, powerKey, energyKey, parse, s)
         + (if SampleOf(rows[|rows| - 1], timeKey, powerKey, energyKey, parse) == Some(s) then 1 else 0)
  }

  /** The rows that survive both `dropna` calls, in file order. */
  function Samples(rows: seq<map<string, Cell>>, timeKey: string, powerKey: string, energyKey: string,
                   parse: Cell -> Option<int>): (ss: seq<Sample>)
    ensures |ss| <= |rows|
    ensures forall s :: s in ss <==>
      exists i :: 0 <= i < |rows| && SampleOf(rows[i], timeKey, powerKey, energyKey, parse) == Some(s)
    ensures forall s :: multiset(ss)[s] == RowsGiving(rows, timeKey, powerKey, energyKey, parse, s)
  {
    if rows == [] then []
    else
      var n := |rows| - 1;
      var init := Samples(rows[..n], timeKey, powerKey, energyKey, parse);
      assert forall i :: 0 <= i < n ==> rows[..n][i] == rows[i];
      match SampleOf(rows[n], timeKey, powerKey, energyKey, parse)
      case Some(s) => init + [s]
      case None => init
  }

  function SampleTime(s: Sample): int
  {
    s.time
  }

  function ReadingTime(r: Reading): int
  {
    r.time
  }

  /** `df["kW"] / 1000`, `df["kWh"] / 1000` and `kWh − kWh.iloc[0]` over the sorted samples. */
  function Rebased(sorted: seq<Sample>, system: string): (rs: seq<Reading>)
    requires sorted != []
    ensures |rs| == |sorted|
  {
    seq(|sorted|, i requires 0 <= i < |sorted| =>
      Reading(sorted[i].time, sorted[i].power / Scale, sorted[i].energy / Scale,
              sorted[i].energy / Scale - sorted[0].energy / Scale, system))
  }

  /**
   * The power and energy columns the load reads, by their names in the file:
   * none when the renamed header lacks either kind.
   */
  function MeterKeys(header: seq<string>): (keys: Option<(string, string)>)
    requires header != []
    ensures keys.None? <==>
      (forall j :: 0 <= j < |header| ==> !IsPowerName(WithTimeIndex(header)[j]))
      || (forall j :: 0 <= j < |header| ==> !IsEnergyName(WithTimeIndex(header)[j]))
    ensures keys.Some? ==> keys.value.0 in header && keys.value.1 in header
    ensures keys.Some? ==> exists p :: (0 < p < |header| && header[p] == keys.value.0 && IsPowerName(header[p])
                                        && forall j :: 0 <= j < p ==> !IsPowerName(WithTimeIndex(header)[j]))
    ensures keys.Some? ==> exists e :: (0 < e < |header| && header[e] == keys.value.1 && IsEnergyName(header[e])
                                        && forall j :: 0 <= j < e ==> !IsEnergyName(WithTimeIndex(header)[j]))
  {
    TimeIndexIsNoMeter();
    var cols := WithTimeIndex(header);
    match (FirstIndex(cols, IsPowerName), FirstIndex(cols, IsEnergyName))
    case (Some(p), Some(e)) => Some((header[p], header[e]))
    case _ => None
  }

  /** The surviving samples sorted by time, scaled and rebased. */
  function Loaded(ss: seq<Sample>, system: string): (rs: seq<Reading>)
    requires ss != []
    ensures |rs| == |ss| && rs != [] && Sorted(rs, ReadingTime)
    ensures rs[0].base0 == 0.0
    ensures forall i :: 0 <= i < |rs| ==> rs[i].system == system && rs[i].base0 == rs[i].kwh - rs[0].kwh
  {
    var sorted := SortByKey(ss, SampleTime);
    var rs := Rebased(sorted, system);
    assert forall i :: 0 <= i < |rs| ==> rs[i].time == sorted[i].time;
    rs
  }

  /**
   * `load_file`: IndexError when the sheet has no column; ValueError when no
   * column names a power or no column names an energy; IndexError when no row
   * survives the filters; otherwise the surviving rows, sorted by time,
   * scaled to kW and kWh and rebased to the first reading.
   */
  function LoadFile(system: string, t: Table, parse: Cell -> Option<int>): (r: Result<seq<Reading>>)
    ensures t.header == [] ==> r == Err(EmptyIndex)
    ensures t.header != [] ==> (r == Err(MissingColumn("kW ou kWh", system)) <==> MeterKeys(t.header).None?)
    ensures r.Ok? ==> r.value != [] && Sorted(r.value, ReadingTime)
    ensures r.Ok? ==> r.value[0].base0 == 0.0
    ensures r.Ok? ==> forall i :: 0 <= i < |r.value| ==>
      r.value[i].system == system && r.value[i].base0 == r.value[i].kwh - r.value[0].kwh
  {
    if t.header == [] then Err(EmptyIndex)
    else
      match MeterKeys(t.header)
      case None => Err(MissingColumn("kW ou kWh", system))
      case Some((powerKey, energyKey)) =>
        var ss := Samples(t.rows, t.header[0], powerKey, energyKey, parse);
        if ss == [] then Err(EmptyIndex) else Ok(Loaded(ss, system))
  }

  /**
   * Every reading is a surviving row of the file, divided by 1000, and every
   * surviving row is a reading exactly as often as it occurs.
   */
  lemma LoadFileReadings(system: string, t: Table, parse: Cell -> Option<int>)
    requires LoadFile(system, t, parse).Ok?
    ensures t.header != [] && MeterKeys(t.header).Some?
    ensures var ss := Samples(t.rows, t.header[0], MeterKeys(t.header).value.0, MeterKeys(t.header).value.1, parse);
      && |LoadFile(system, t, parse).value| == |ss|
      && multiset(Unscaled(LoadFile(system, t, parse).value)) == multiset(ss)
  {
    var (powerKey, energyKey) := MeterKeys(t.header).value;
    var ss := Samples(t.rows, t.header[0], powerKey, energyKey, parse);
    UnscaleRebased(SortByKey(ss, SampleTime), system);
  }

  /** A reading back in the file's units. */
  function Unscaled(rs: seq<Reading>): (ss: seq<Sample>)
    ensures |ss| == |rs|
    ensures forall i :: 0 <= i < |rs| ==> ss[i] == Sample(rs[i].time, rs[i].kw * Scale, rs[i].kwh * Scale)
  {
    seq(|rs|, i requires 0 <= i < |rs| => Sample(rs[i].time, rs[i].kw * Scale, rs[i].kwh * Scale))
  }

  /** Scaling is undone by multiplying back: the division by 1000 loses nothing. */
  lemma UnscaleRebased(sorted: seq<Sample>, system: string)
    requires sorted != []
    ensures Unscaled(Rebased(sorted, system)) == sorted
  {
    var back := Unscaled(Rebased(sorted, system));
    forall i | 0 <= i < |sorted| ensures back[i] == sorted[i] {
      assert sorted[i].power / Scale * Scale == sorted[i].power;
      assert sorted[i].energy / Scale * Scale == sorted[i].energy;
    }
  }

  // ----- totals and savings ------------------------------------------------------------

  /** `df["kWh_Base0"].iloc[-1]`: the energy a system used over its whole file. */
  function Energy(rs: seq<Reading>): real
    requires rs != []
  {
    rs[|rs| - 1].base0
  }

  /** A loaded system's energy is its last meter reading minus its first, in kWh. */
  lemma EnergyIsSpan(system: string, t: Table, parse: Cell -> Option<int>)
    requires LoadFile(system, t, parse).Ok?
    ensures var rs := LoadFile(system, t, parse).value;
      Energy(rs) == rs[|rs| - 1].kwh - rs[0].kwh
  {
  }

  /** `(E_sem − E_com) / E_sem * 100 if E_sem else 0`. */
  function SavingsPct(energySem: real, energyCom: real): (pct: real)
    ensures energySem == 0.0 ==> pct == 0.0
    ensures energySem != 0.0 ==> pct * energySem == (energySem - energyCom) * 100.0
  {
    if energySem != 0.0 then (energySem - energyCom) / energySem * 100.0 else 0.0
  }

  /**
   * With a positive reference consumption, the saving is positive exactly when
   * the AIDA system used less, zero when both used the same, and 100 % when it
   * used nothing.
   */
  lemma SavingsSign(energySem: real, energyCom: real)
    requires energySem > 0.0
    ensures SavingsPct(energySem, energyCom) > 0.0 <==> energyCom < energySem
    ensures SavingsPct(energySem, energyCom) == 0.0 <==> energyCom == energySem
    ensures energyCom == 0.0 ==> SavingsPct(energySem, energyCom) == 100.0
    ensures 0.0 <= energyCom ==> SavingsPct(energySem, energyCom) <= 100.0
  {
    var q := (energySem - energyCom) / energySem;
    assert SavingsPct(energySem, energyCom) == q * 100.0;
    assert q * energySem == energySem - energyCom;
    SignOfProduct(q, energySem);
    assert (1.0 - q) * energySem == energyCom;
    SignOfProduct(1.0 - q, energySem);
  }

  /** Multiplying by a positive factor keeps the sign. */
  lemma SignOfProduct(x: real, y: real)
    requires y > 0.0
    ensures x * y > 0.0 <==> x > 0.0
    ensures x * y == 0.0 <==> x == 0.0
  {
    if x > 0.0 {
      assert x * y > 0.0;
    } else if x < 0.0 {
      assert x * y < 0.0;
    }
  }

  /**
   * The comparison: the run stops at the first missing file (Com AIDA is
   * checked first), then each file is loaded, Com AIDA first, and the first
   * failure ends the run; otherwise both energies and the saving.
   */
  function Compare(com: Source, sem: Source, parse: Cell -> Option<int>): (r: Result<Comparison>)
    ensures com.table.None? ==> r == Err(Stopped("Arquivo não encontrado: " + com.name))
    ensures com.table.Some? && sem.table.None? ==> r == Err(Stopped("Arquivo não encontrado: " + sem.name))
    ensures r.Ok? ==>
      && com.table.Some? && sem.table.Some?
      && LoadFile("Com AIDA", com.table.value, parse) == Ok(r.value.com)
      && LoadFile("Sem AIDA", sem.table.value, parse) == Ok(r.value.sem)
      && r.value.energyCom == Energy(r.value.com) && r.value.energySem == Energy(r.value.sem)
      && r.value.savingsPct == SavingsPct(r.value.energySem, r.value.energyCom)
    ensures com.table.Some? && sem.table.Some? && LoadFile("Com AIDA", com.table.value, parse).Err? ==>
      r == Err(LoadFile("Com AIDA", com.table.value, parse).failure)
    ensures (com.table.Some? && sem.table.Some? && LoadFile("Com AIDA", com.table.value, parse).Ok?
             && LoadFile("Sem AIDA", sem.table.value, parse).Err?) ==>
      r == Err(LoadFile("Sem AIDA", sem.table.value, parse).failure)
  {
    if com.table.None? then Err(Stopped("Arquivo não encontrado: " + com.name))
    else if sem.table.None? then Err(Stopped("Arquivo não encontrado: " + sem.name))
    else
      match LoadFile("Com AIDA", com.table.value, parse)
      case Err(e) => Err(e)
      case Ok(dfCom) =>
        match LoadFile("Sem AIDA", sem.table.value, parse)
        case Err(e) => Err(e)
        case Ok(dfSem) =>
          var eCom, eSem := Energy(dfCom), Energy(dfSem);
          Ok(Comparison(dfCom, dfSem, eCom, eSem, SavingsPct(eSem, eCom)))
  }
}
