/**
 * Spreadsheet cells, pandas' numeric coercion, and the string matching the
 * loaders use to find their columns by name.
 */
module Cells {
  import opened Wrappers

  /** A raw cell as a reader delivers it: a number, a piece of text, or empty (NaN). */
  datatype Cell = Num(v: real) | Text(s: string) | Blank

  /** `pd.to_numeric(..., errors="coerce")`: numbers stay, anything else becomes NaN. */
  function ToNumeric(c: Cell): (r: Cell)
    ensures r.Text? == false
    ensures c.Num? <==> r.Num?
    ensures c.Num? ==> r == c
  {
    if c.Num? then c else Blank
  }

  /** `.fillna(0)` on a coerced cell: the number, or 0 for NaN. */
  function FillZero(c: Cell): real
    requires !c.Text?
  {
    if c.Num? then c.v else 0.0
  }

  /** `to_numeric(coerce).fillna(0)`: a defrost status that is always a number. */
  function CoercedStatus(c: Cell): (x: real)
    ensures c.Num? ==> x == c.v
    ensures !c.Num? ==> x == 0.0
  {
    FillZero(ToNumeric(c))
  }

  /** The value of a cell when it is a number (used where pandas skips NaN). */
  function NumberOf(c: Cell): Option<real>
  {
    if c.Num? then Some(c.v) else None
  }

  /** `p` is a prefix of `s`. */
  predicate IsPrefix(p: string, s: string)
  {
    |p| <= |s| && s[..|p|] == p
  }

  /** Python's `sub in s` for strings. */
  predicate Contains(s: string, sub: string)
    decreases |s|
  {
    IsPrefix(sub, s) || (|s| > 0 && Contains(s[1..], sub))
  }

  /** `sub in s` holds exactly when `sub` occurs at some position of `s`. */
  lemma {:induction false} ContainsAt(s: string, sub: string)
    ensures Contains(s, sub) <==> exists i :: 0 <= i <= |s| - |sub| && s[i..][..|sub|] == sub
    decreases |s|
  {
    if IsPrefix(sub, s) {
      assert s[0..][..|sub|] == sub;
    } else if |s| > 0 {
      ContainsAt(s[1..], sub);
      if Contains(s[1..], sub) {
        var i :| 0 <= i <= |s[1..]| - |sub| && s[1..][i..][..|sub|] == sub;
        assert s[i + 1..] == s[1..][i..];
      }
      if i :| 0 <= i <= |s| - |sub| && s[i..][..|sub|] == sub {
        assert s[1..][i - 1..] == s[i..];
      }
    }
  }

  /** A string in which the first character of `sub` never occurs does not contain `sub`. */
  lemma {:induction false} AbsentFirstChar(s: string, sub: string)
    requires sub != [] && forall i :: 0 <= i < |s| ==> s[i] != sub[0]
    ensures !Contains(s, sub)
    decreases |s|
  {
    if |s| > 0 {
      AbsentFirstChar(s[1..], sub);
    }
  }

  /** Python's `str.lower()` on the Basic Latin and Latin-1 letters. */
  function LowerChar(c: char): (d: char)
    ensures 'A' <= c <= 'Z' ==> d as int == c as int + 32
    ensures !('A' <= c <= 'Z') && !('À' <= c <= 'Þ' && c != '×') ==> d == c
  {
    if 'A' <= c <= 'Z' || ('À' <= c <= 'Þ' && c != '×') then (c as int + 32) as char else c
  }

  function Lower(s: string): (r: string)
    ensures |r| == |s|
    ensures forall i :: 0 <= i < |s| ==> r[i] == LowerChar(s[i])
  {
    if s == [] then [] else [LowerChar(s[0])] + Lower(s[1..])
  }

  /** The characters Python's `str.strip()` removes (ASCII whitespace). */
  predicate IsSpace(c: char)
  {
    c == ' ' || c == '\t' || c == '\n' || c == '\r' || c == '\U{B}' || c == '\U{C}'
  }

  function StripLeft(s: string): (r: string)
    ensures r == [] || !IsSpace(r[0])
    ensures exists k :: 0 <= k <= |s| && r == s[k..] && forall j :: 0 <= j < k ==> IsSpace(s[j])
  {
    if s != [] && IsSpace(s[0]) then
      var r := StripLeft(s[1..]);
      ghost var k :| 0 <= k <= |s[1..]| && r == s[1..][k..] && forall j :: 0 <= j < k ==> IsSpace(s[1..][j]);
      assert r == s[k + 1..];
      r
    else
      assert s == s[0..];
      s
  }

  function StripRight(s: string): (r: string)
    ensures r == [] || !IsSpace(r[|r| - 1])
    ensures exists k :: 0 <= k <= |s| && r == s[..k] && forall j :: k <= j < |s| ==> IsSpace(s[j])
  {
    if s != [] && IsSpace(s[|s| - 1]) then
      var r := StripRight(s[..|s| - 1]);
      ghost var t := s[..|s| - 1];
      ghost var k :| 0 <= k <= |t| && r == t[..k] && forall j :: k <= j < |t| ==> IsSpace(t[j]);
      assert r == s[..k];
      r
    else
      assert s == s[..|s|];
      s
  }

  /** A prefix of a suffix of `s` is a slice of `s`. */
  lemma SliceOfSlice(s: string, l: string, r: string)
    requires exists i :: 0 <= i <= |s| && l == s[i..]
    requires exists m :: 0 <= m <= |l| && r == l[..m]
    ensures exists i, j :: 0 <= i <= j <= |s| && r == s[i..j]
  {
    var i :| 0 <= i <= |s| && l == s[i..];
    var m :| 0 <= m <= |l| && r == l[..m];
    assert r == s[i..i + m];
  }

  /** Python's `str.strip()`: no leading or trailing whitespace remains. */
  function Strip(s: string): (r: string)
    ensures r == [] || (!IsSpace(r[0]) && !IsSpace(r[|r| - 1]))
    ensures exists i, j :: 0 <= i <= j <= |s| && r == s[i..j]
  {
    var l := StripLeft(s);
    var r := StripRight(l);
    assert r != [] ==> r[0] == l[0];
    SliceOfSlice(s, l, r);
    r
  }

  /**
   * The position of the first name satisfying `p` — the rule behind
   * `next((c for c in columns if ...), None)` and a `for ... break` search.
   */
  function FirstIndex(names: seq<string>, p: string -> bool): (r: Option<nat>)
    ensures r.Some? ==> r.value < |names| && p(names[r.value])
    ensures r.Some? ==> forall j :: 0 <= j < r.value ==> !p(names[j])
    ensures r.None? <==> forall j :: 0 <= j < |names| ==> !p(names[j])
  {
    if names == [] then None
    else if p(names[0]) then Some(0)
    else match FirstIndex(names[1..], p)
      case None => None
      case Some(k) => Some(k + 1)
  }

  /** The first name satisfying `p` itself. */
  function FirstWhere(names: seq<string>, p: string -> bool): (r: Option<string>)
    ensures r.None? <==> forall j :: 0 <= j < |names| ==> !p(names[j])
    ensures r.Some? ==> exists i :: 0 <= i < |names| && names[i] == r.value && p(r.value)
                                    && forall j :: 0 <= j < i ==> !p(names[j])
  {
    match FirstIndex(names, p)
    case None => None
    case Some(i) => Some(names[i])
  }
}
