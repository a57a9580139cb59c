/**
 * The merged log of the capacity reports (`df` in the Consumo and Step-In
 * scripts): a time-indexed frame whose columns the scripts coerce and extend
 * in place, and the row selections their per-day aggregations start from.
 * The `Dia` column is not stored: it is `Day(time)` of each row.
 */
module LogFrames {
  import opened Wrappers
  import opened Cells
  import opened Loader
  import opened Edges
  import opened Calendar
  import opened DailyStats

  /** The cells of a row with the columns `cs` passed through `to_numeric(errors="coerce")`. */
  function CoerceCells(cells: map<string, Cell>, cs: set<string>): (r: map<string, Cell>)
    ensures r.Keys == cells.Keys
    ensures forall c :: c in cells ==> r[c] == (if c in cs then ToNumeric(cells[c]) else cells[c])
  {
    map c | c in cells :: if c in cs then ToNumeric(cells[c]) else cells[c]
  }

  /** Coercing column by column is coercing them all at once. */
  lemma CoerceCellsStep(cells: map<string, Cell>, cs: set<string>, c: string)
    ensures CoerceCells(CoerceCells(cells, cs), {c}) == CoerceCells(cells, cs + {c})
  {
    var a, b := CoerceCells(CoerceCells(cells, cs), {c}), CoerceCells(cells, cs + {c});
    assert a.Keys == b.Keys;
    forall k | k in a ensures a[k] == b[k] {
    }
  }

  /** The names in a list, as a set. */
  function Names(cols: seq<string>): set<string>
  {
    set c | c in cols
  }

  function CoerceRow(r: Row, cs: set<string>): Row
  {
    r.(cells := CoerceCells(r.cells, cs))
  }

  // ----- sources ----------------------------------------------------------------

  /** One existing source file: the system it belongs to and its sheet. */
  datatype Sheet = Sheet(system: string, table: Table)

  /** The outcomes' rows one after another; the first failure ends the load with that failure. */
  function Gather(results: seq<Result<seq<Row>>>): Result<seq<Row>>
  {
    if results == [] then Ok([])
    else
      match Gather(results[..|results| - 1])
      case Err(e) => Err(e)
      case Ok(rs) =>
        match results[|results| - 1]
        case Err(e) => Err(e)
        case Ok(last) => Ok(rs + last)
  }

  /** The load fails exactly when some sheet fails, and then with the failure of the first one. */
  lemma {:induction false} FirstFailureWins(results: seq<Result<seq<Row>>>)
    ensures Gather(results).Err? <==> exists i :: 0 <= i < |results| && results[i].Err?
    ensures Gather(results).Err? ==>
      exists i :: 0 <= i < |results| && results[i] == Err(Gather(results).failure)
                 && forall j :: 0 <= j < i ==> results[j].Ok?
  {
    if results != [] {
      var n := |results| - 1;
      FirstFailureWins(results[..n]);
      assert forall j :: 0 <= j < n ==> results[..n][j] == results[j];
    }
  }

  /** Every gathered row comes from one of the outcomes. */
  lemma {:induction false} GatherFrom(results: seq<Result<seq<Row>>>)
    requires Gather(results).Ok?
    ensures forall r :: r in Gather(results).value ==>
      exists i :: 0 <= i < |results| && results[i].Ok? && r in results[i].value
  {
    if results != [] {
      var n := |results| - 1;
      GatherFrom(results[..n]);
      assert forall j :: 0 <= j < n ==> results[..n][j] == results[j];
    }
  }

  /** A successful outcome after a successful prefix appends its rows. */
  lemma GatherOkAt(results: seq<Result<seq<Row>>>, i: nat)
    requires i < |results| && Gather(results[..i]).Ok? && results[i].Ok?
    ensures Gather(results[..i + 1]) == Ok(Gather(results[..i]).value + results[i].value)
  {
    assert results[..i + 1][..i] == results[..i];
  }

  /** The first failing outcome after a successful prefix is the failure of the load so far. */
  lemma GatherFailsAt(results: seq<Result<seq<Row>>>, i: nat)
    requires i < |results| && Gather(results[..i]).Ok? && results[i].Err?
    ensures Gather(results[..i + 1]) == results[i]
  {
    assert results[..i + 1][..i] == results[..i];
  }

  /** Once a prefix of the outcomes fails, the whole load fails the same way. */
  lemma {:induction false} GatherFailFrom(results: seq<Result<seq<Row>>>, k: nat)
    requires k <= |results| && Gather(results[..k]).Err?
    ensures Gather(results) == Gather(results[..k])
    decreases |results| - k
  {
    if k < |results| {
      assert results[..k + 1][..k] == results[..k];
      GatherFailFrom(results, k + 1);
    } else {
      assert results[..k] == results;
    }
  }

  /** The frame `df`. Boolean columns (the defrost-start flags) are kept in `flags`. */
  class LogFrame {
    var columns: set<string>
    var rows: seq<Row>
    var flags: map<string, seq<bool>>

    /** Every flag column has one entry per row. */
    ghost predicate Valid()
      reads this
    {
      forall c :: c in flags ==> |flags[c]| == |rows|
    }

    constructor (f: Frame)
      ensures Valid()
      ensures columns == f.columns && rows == f.rows && flags == map[]
    {
      columns := f.columns;
      rows := f.rows;
      flags := map[];
    }

    /** `df[col] = pd.to_numeric(df[col], errors="coerce")`. */
    method CoerceColumn(col: string)
      requires Valid()
      modifies this
      ensures Valid()
      ensures columns == old(columns) && flags == old(flags)
      ensures |rows| == |old(rows)|
      ensures forall i :: 0 <= i < |rows| ==> rows[i] == CoerceRow(old(rows)[i], {col})
    {
      var rs := rows;
      rows := seq(|rs|, i requires 0 <= i < |rs| => CoerceRow(rs[i], {col}));
    }

    /**
     * `for col in cols: if col in df.columns: df[col] = pd.to_numeric(...)`:
     * every listed column that exists is coerced, nothing else changes.
     */
    method CoerceColumns(cols: seq<string>)
      requires Valid()
      modifies this
      ensures Valid()
      ensures columns == old(columns) && flags == old(flags)
      ensures |rows| == |old(rows)|
      ensures forall i :: 0 <= i < |rows| ==>
        rows[i] == CoerceRow(old(rows)[i], Names(cols) * columns)
    {
      ghost var rows0 := rows;
      for j := 0 to |cols|
        invariant Valid()
        invariant columns == old(columns) && flags == old(flags)
        invariant |rows| == |rows0|
        invariant forall i :: 0 <= i < |rows| ==>
          rows[i] == CoerceRow(rows0[i], Names(cols[..j]) * columns)
      {
        assert Names(cols[..j + 1]) == Names(cols[..j]) + {cols[j]} by {
          assert cols[..j + 1] == cols[..j] + [cols[j]];
        }
        if cols[j] in columns {
          CoerceColumn(cols[j]);
          forall i | 0 <= i < |rows|
            ensures rows[i] == CoerceRow(rows0[i], Names(cols[..j + 1]) * columns)
          {
            CoerceCellsStep(rows0[i].cells, Names(cols[..j]) * columns, cols[j]);
            assert Names(cols[..j + 1]) * columns == Names(cols[..j]) * columns + {cols[j]};
          }
        } else {
          assert Names(cols[..j + 1]) * columns == Names(cols[..j]) * columns;
        }
      }
      assert cols[..|cols|] == cols;
    }

    /**
     * `df[ant] = df[deg].shift(1).fillna(0)` and
     * `df[ini] = (df[ant] == 0) & (df[deg] == 1)`, on the whole merged frame.
     */
    method MarkStarts(deg: string, ant: string, ini: string)
      requires Valid()
      modifies this
      ensures Valid()
      ensures columns == old(columns) + {ant}
      ensures flags == old(flags)[ini := ShiftStarts(Column(old(rows), deg))]
      ensures |rows| == |old(rows)|
      ensures forall i :: 0 <= i < |rows| ==>
        rows[i] == old(rows)[i].(cells := old(rows)[i].cells[ant := ShiftPrev(Column(old(rows), deg))[i]])
    {
      var rs := rows;
      var col := Column(rs, deg);
      var prev := ShiftPrev(col);
      var starts := seq(|rs|, i requires 0 <= i < |rs| => prev[i] == Num(0.0) && col[i] == Num(1.0));
      assert starts == ShiftStarts(col);
      rows := seq(|rs|, i requires 0 <= i < |rs| => rs[i].(cells := rs[i].cells[ant := prev[i]]));
      columns := columns + {ant};
      flags := flags[ini := starts];
    }
  }

  // ----- the selections the aggregations start from ----------------------------

  /** The (Sistema, Dia) key of a row. */
  function KeyOf(r: Row): Key
  {
    Key(r.origin, Day(r.time))
  }

  /** `df_events[df_events["Sistema"].isin(sistemas)]`, as the keys of the selected start rows. */
  function EventKeys(rows: seq<Row>, starts: seq<bool>, selected: seq<string>): (keys: seq<Key>)
    requires |starts| == |rows|
    ensures |keys| <= |rows|
    ensures forall k :: k in keys <==>
      exists i :: 0 <= i < |rows| && starts[i] && rows[i].origin in selected && KeyOf(rows[i]) == k
  {
    if rows == [] then []
    else
      var n := |rows| - 1;
      var init := EventKeys(rows[..n], starts[..n], selected);
      assert forall i :: 0 <= i < n ==> rows[..n][i] == rows[i] && starts[..n][i] == starts[i];
      if starts[n] && rows[n].origin in selected then init + [KeyOf(rows[n])] else init
  }

  /** The number of selected start rows. */
  function SelectedStarts(rows: seq<Row>, starts: seq<bool>, selected: seq<string>): nat
    requires |starts| == |rows|
  {
    if rows == [] then 0
    else
      var n := |rows| - 1;
      SelectedStarts(rows[..n], starts[..n], selected) + (if starts[n] && rows[n].origin in selected then 1 else 0)
  }

  /** Every selected start row gives exactly one event key. */
  lemma {:induction false} EventKeysCount(rows: seq<Row>, starts: seq<bool>, selected: seq<string>)
    requires |starts| == |rows|
    ensures |EventKeys(rows, starts, selected)| == SelectedStarts(rows, starts, selected)
    ensures CountWhere(EventKeys(rows, starts, selected), s => s in selected) == SelectedStarts(rows, starts, selected)
  {
    if rows != [] {
      var n := |rows| - 1;
      EventKeysCount(rows[..n], starts[..n], selected);
      var init := EventKeys(rows[..n], starts[..n], selected);
      if starts[n] && rows[n].origin in selected {
        assert (init + [KeyOf(rows[n])])[..|init|] == init;
      }
    }
  }

  /**
   * How many rows enter the capacity means as observation `o`: selected rows
   * with defrost cell 0 whose key and capacity are those of `o`.
   */
  function Contributing(rows: seq<Row>, selected: seq<string>, deg: string, cap: string, o: Obs): nat
  {
    if rows == [] then 0
    else
      var x := rows[|rows| - 1];
      Contributing(rows[..|rows| - 1], selected, deg, cap, o)
      + (if x.origin in selected && CellAt(x.cells, deg) == Num(0.0)
            && Obs(KeyOf(x), NumberOf(CellAt(x.cells, cap))) == o then 1 else 0)
  }

  /**
   * `df_sel[df_sel[deg] == 0]` grouped for the mean of `cap`: the selected
   * rows whose defrost cell is exactly the number 0, with their capacity
   * (NaN when it is not a number).
   */
  function CapacityObs(rows: seq<Row>, selected: seq<string>, deg: string, cap: string): (obs: seq<Obs>)
    ensures |obs| <= |rows|
    ensures forall o :: o in obs <==>
      exists i :: 0 <= i < |rows| && rows[i].origin in selected && CellAt(rows[i].cells, deg) == Num(0.0)
               && o == Obs(KeyOf(rows[i]), NumberOf(CellAt(rows[i].cells, cap)))
    ensures forall o :: multiset(obs)[o] == Contributing(rows, selected, deg, cap, o)
  {
    if rows == [] then []
    else
      var n := |rows| - 1;
      var init := CapacityObs(rows[..n], selected, deg, cap);
      assert forall i :: 0 <= i < n ==> rows[..n][i] == rows[i];
      if rows[n].origin in selected && CellAt(rows[n].cells, deg) == Num(0.0) then
        init + [Obs(KeyOf(rows[n]), NumberOf(CellAt(rows[n].cells, cap)))]
      else init
  }

  /** Rows that agree on time and system give the same event keys for the same flags. */
  lemma {:induction false} EventKeysAgree(a: seq<Row>, b: seq<Row>, starts: seq<bool>, selected: seq<string>)
    requires |a| == |b| == |starts|
    requires forall i :: 0 <= i < |a| ==> a[i].time == b[i].time && a[i].origin == b[i].origin
    ensures EventKeys(a, starts, selected) == EventKeys(b, starts, selected)
  {
    if a != [] {
      var n := |a| - 1;
      EventKeysAgree(a[..n], b[..n], starts[..n], selected);
    }
  }

  /**
   * Some row that enters the capacity means holds text in the capacity
   * column. A column that was never coerced then has object type, and its
   * group mean raises TypeError.
   */
  predicate TextCapacity(rows: seq<Row>, selected: seq<string>, deg: string, cap: string)
  {
    exists i :: 0 <= i < |rows| && rows[i].origin in selected && CellAt(rows[i].cells, deg) == Num(0.0)
                && CellAt(rows[i].cells, cap).Text?
  }

  /** Rows that agree on time, system and the two columns read give the same capacity observations. */
  lemma {:induction false} CapacityObsAgree(a: seq<Row>, b: seq<Row>, selected: seq<string>, deg: string, cap: string)
    requires |a| == |b|
    requires forall i :: 0 <= i < |a| ==>
      a[i].time == b[i].time && a[i].origin == b[i].origin
      && CellAt(a[i].cells, deg) == CellAt(b[i].cells, deg) && CellAt(a[i].cells, cap) == CellAt(b[i].cells, cap)
    ensures CapacityObs(a, selected, deg, cap) == CapacityObs(b, selected, deg, cap)
    ensures TextCapacity(a, selected, deg, cap) == TextCapacity(b, selected, deg, cap)
  {
    if a != [] {
      var n := |a| - 1;
      CapacityObsAgree(a[..n], b[..n], selected, deg, cap);
    }
  }

  /** A key has capacity observations exactly when a selected row of it has defrost 0. */
  lemma CapacityKeys(rows: seq<Row>, selected: seq<string>, deg: string, cap: string)
    ensures forall k :: k in KeysOf(CapacityObs(rows, selected, deg, cap)) <==>
      exists i :: 0 <= i < |rows| && rows[i].origin in selected
                  && CellAt(rows[i].cells, deg) == Num(0.0) && KeyOf(rows[i]) == k
  {
    var obs := CapacityObs(rows, selected, deg, cap);
    forall k ensures k in KeysOf(obs) <==>
      exists i :: 0 <= i < |rows| && rows[i].origin in selected
                  && CellAt(rows[i].cells, deg) == Num(0.0) && KeyOf(rows[i]) == k
    {
      if k in KeysOf(obs) {
        var j :| 0 <= j < |obs| && KeysOf(obs)[j] == k;
        assert obs[j] in obs;
      }
      if exists i :: 0 <= i < |rows| && rows[i].origin in selected
                     && CellAt(rows[i].cells, deg) == Num(0.0) && KeyOf(rows[i]) == k {
        var i :| 0 <= i < |rows| && rows[i].origin in selected
                 && CellAt(rows[i].cells, deg) == Num(0.0) && KeyOf(rows[i]) == k;
        var o := Obs(KeyOf(rows[i]), NumberOf(CellAt(rows[i].cells, cap)));
        assert o in obs;
        var j :| 0 <= j < |obs| && obs[j] == o;
        assert KeysOf(obs)[j] == k;
      }
    }
  }

  /**
   * `groupby(["Sistema","Dia"])[cap].mean()` over the defrost-0 rows: each
   * key's mean is the NaN-skipping mean of a sequence holding the capacity of
   * every row that enters that key, once per row, and nothing else.
   */
  lemma CapacityMeans(rows: seq<Row>, selected: seq<string>, deg: string, cap: string)
    ensures var daily := MeanPerKey(CapacityObs(rows, selected, deg, cap));
      forall k :: k in daily ==>
        exists os :: daily[k] == MeanSkipNaN(os)
          && forall v :: multiset(os)[v] == Contributing(rows, selected, deg, cap, Obs(k, v))
  {
    var obs := CapacityObs(rows, selected, deg, cap);
    forall k | k in MeanPerKey(obs)
      ensures exists os :: (MeanPerKey(obs)[k] == MeanSkipNaN(os)
                            && forall v :: multiset(os)[v] == Contributing(rows, selected, deg, cap, Obs(k, v)))
    {
      var os := ValuesOf(obs, k);
      assert MeanPerKey(obs)[k] == MeanSkipNaN(os);
    }
  }

  /** The systems that occur among some keys. */
  function SystemsOf(keys: seq<Key>): set<string>
  {
    set k | k in keys :: k.system
  }
}
