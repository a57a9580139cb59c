/**
 * Defrost-start (rising edge) detection. The dashboards use two different
 * formulas and they are kept apart here:
 *  - the diff variant (`status.diff() == 1` on the zero-filled status), where
 *    the first row has no predecessor and never fires;
 *  - the shift variant (`(col.shift(1).fillna(0) == 0) & (col == 1)`), where
 *    the predecessor of the first row is taken to be 0, so a leading 1 fires.
 */
module Edges {
  import opened Cells

  /** The number of flags that are set. */
  function CountTrue(b: seq<bool>): nat
  {
    if b == [] then 0 else CountTrue(b[..|b| - 1]) + (if b[|b| - 1] then 1 else 0)
  }

  // ----- diff variant ------------------------------------------------------

  /** The defrost status column after `to_numeric(errors="coerce").fillna(0)`. */
  function Status(col: seq<Cell>): (s: seq<real>)
    ensures |s| == |col|
    ensures forall i :: 0 <= i < |col| ==> s[i] == CoercedStatus(col[i])
  {
    seq(|col|, i requires 0 <= i < |col| => CoercedStatus(col[i]))
  }

  /** `status.diff() == 1`, row by row. */
  function DiffEvents(status: seq<real>): (e: seq<bool>)
    ensures |e| == |status|
  {
    seq(|status|, i requires 0 <= i < |status| => i > 0 && status[i] - status[i - 1] == 1.0)
  }

  /** Number of rows whose status is exactly one more than the row before. */
  function DiffEventCount(status: seq<real>): nat
  {
    CountTrue(DiffEvents(status))
  }

  /** A status signal that only takes the values 0 and 1. */
  predicate Binary(s: seq<real>)
  {
    forall i :: 0 <= i < |s| ==> s[i] == 0.0 || s[i] == 1.0
  }

  /** Independent count of the 0 -> 1 transitions between neighbouring rows. */
  function RisingEdges(s: seq<real>): nat
  {
    if |s| < 2 then 0
    else RisingEdges(s[..|s| - 1]) + (if s[|s| - 2] == 0.0 && s[|s| - 1] == 1.0 then 1 else 0)
  }

  /** On a 0/1 signal, an event is exactly a 0 -> 1 step, and row 0 never is one. */
  lemma DiffEventIsRisingEdge(s: seq<real>, i: int)
    requires Binary(s) && 0 <= i < |s|
    ensures DiffEvents(s)[i] <==> (i > 0 && s[i - 1] == 0.0 && s[i] == 1.0)
    ensures i == 0 ==> !DiffEvents(s)[i]
  {
  }

  /** Events count exactly the 0 -> 1 transitions of a 0/1 signal. */
  lemma {:induction false} DiffCountIsRisingEdges(s: seq<real>)
    requires Binary(s)
    ensures DiffEventCount(s) == RisingEdges(s)
  {
    if |s| >= 2 {
      var init := s[..|s| - 1];
      assert DiffEvents(s)[..|s| - 1] == DiffEvents(init);
      DiffCountIsRisingEdges(init);
    } else if |s| == 1 {
      var e := DiffEvents(s);
      assert e == [false];
      assert e[..0] == [];
      assert CountTrue(e) == CountTrue(e[..0]) + 0;
    }
  }

  /** On a 0/1 signal two neighbouring rows are never both events. */
  lemma DiffNoAdjacentEvents(s: seq<real>, i: int)
    requires Binary(s) && 0 <= i && i + 1 < |s|
    ensures !(DiffEvents(s)[i] && DiffEvents(s)[i + 1])
  {
  }

  /** The diff variant is not a 0 -> 1 detector on general numbers: 1 -> 2 fires too. */
  lemma DiffFiresOnAnyUnitStep()
    ensures DiffEvents([1.0, 2.0]) == [false, true]
    ensures DiffEvents([0.0, 1.0, 1.0, 0.0, 1.0]) == [false, true, false, false, true]
  {
  }

  // ----- shift variant -----------------------------------------------------

  /** `col.shift(1).fillna(0)`: the previous row's cell, 0 before the first row or for NaN. */
  function ShiftPrev(col: seq<Cell>): (p: seq<Cell>)
    ensures |p| == |col|
  {
    seq(|col|, i requires 0 <= i < |col| =>
      if i == 0 || col[i - 1].Blank? then Num(0.0) else col[i - 1])
  }

  /** `(prev == 0) & (col == 1)`, row by row. */
  function ShiftStarts(col: seq<Cell>): (st: seq<bool>)
    ensures |st| == |col|
  {
    var prev := ShiftPrev(col);
    seq(|col|, i requires 0 <= i < |col| => prev[i] == Num(0.0) && col[i] == Num(1.0))
  }

  /** A start needs a 1 in its own row and a 0, NaN or nothing in the row before. */
  lemma ShiftStartCharacterised(col: seq<Cell>, i: int)
    requires 0 <= i < |col|
    ensures ShiftStarts(col)[i] <==>
      col[i] == Num(1.0) && (i == 0 || col[i - 1] == Num(0.0) || col[i - 1] == Blank)
  {
  }

  /** In a run of consecutive 1s only the first row is a start. */
  lemma ShiftRunFiresOnce(col: seq<Cell>, i: int, j: int)
    requires 0 <= i <= j < |col|
    requires forall k :: i <= k <= j ==> col[k] == Num(1.0)
    ensures forall k :: i < k <= j ==> !ShiftStarts(col)[k]
  {
  }

  /** A column of 0s, 1s and NaNs (no text). */
  predicate BinaryCells(col: seq<Cell>)
  {
    forall i :: 0 <= i < |col| ==> col[i] == Num(0.0) || col[i] == Num(1.0) || col[i] == Blank
  }

  /** Two flag sequences that agree after row 0 differ in count only by row 0. */
  lemma {:induction false} CountAgreeAfterFirst(a: seq<bool>, b: seq<bool>)
    requires |a| == |b| > 0
    requires forall i :: 0 < i < |a| ==> a[i] == b[i]
    ensures CountTrue(a) + (if b[0] then 1 else 0) == CountTrue(b) + (if a[0] then 1 else 0)
  {
    if |a| > 1 {
      CountAgreeAfterFirst(a[..|a| - 1], b[..|b| - 1]);
    } else {
      assert a[..0] == b[..0] == [];
    }
  }

  /**
   * On a column of 0s, 1s and NaNs the two variants agree on every row but
   * the first, and the shift variant counts one more event exactly when the
   * column starts with a 1.
   */
  lemma ShiftVersusDiff(col: seq<Cell>)
    requires BinaryCells(col)
    ensures forall i :: 0 < i < |col| ==> ShiftStarts(col)[i] == DiffEvents(Status(col))[i]
    ensures CountTrue(ShiftStarts(col)) ==
      DiffEventCount(Status(col)) + (if |col| > 0 && col[0] == Num(1.0) then 1 else 0)
  {
    if |col| > 0 {
      var a, b := ShiftStarts(col), DiffEvents(Status(col));
      forall i | 0 < i < |col| ensures a[i] == b[i] {
        ShiftStartCharacterised(col, i);
      }
      CountAgreeAfterFirst(a, b);
    }
  }

  // ----- event timestamps --------------------------------------------------

  /** `index[flags]`: the timestamps of the flagged rows, in row order. */
  function EventTimes(times: seq<int>, flags: seq<bool>): (ev: seq<int>)
    requires |times| == |flags|
    ensures |ev| == CountTrue(flags)
    ensures forall t :: t in ev <==> exists i :: 0 <= i < |flags| && flags[i] && times[i] == t
  {
    if flags == [] then []
    else
      var n := |flags| - 1;
      var rest := EventTimes(times[..n], flags[..n]);
      assert forall i :: 0 <= i < n ==> times[..n][i] == times[i] && flags[..n][i] == flags[i];
      if flags[n] then rest + [times[n]] else rest
  }
}
