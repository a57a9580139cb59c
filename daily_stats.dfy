/**
 * The per-day aggregations of the capacity reports: rows grouped by
 * (Sistema, Dia), group sizes (`groupby(...).size()`), group means that skip
 * NaN (`groupby(...)[col].mean()`), and the per-system mean over days that
 * the summary table shows.
 */
module DailyStats {
  import opened Wrappers

  /** A (Sistema, Dia) group key. */
  datatype Key = Key(system: string, day: int)

  // ----- group sizes ---------------------------------------------------------

  /** How many rows carry key `k`. */
  function Occurrences(keys: seq<Key>, k: Key): nat
  {
    if keys == [] then 0
    else Occurrences(keys[..|keys| - 1], k) + (if keys[|keys| - 1] == k then 1 else 0)
  }

  lemma {:induction false} OccurrencesPositive(keys: seq<Key>)
    ensures forall k :: Occurrences(keys, k) > 0 <==> k in keys
  {
    if keys != [] {
      var init := keys[..|keys| - 1];
      OccurrencesPositive(init);
      assert keys == init + [keys[|keys| - 1]];
    }
  }

  predicate NoDuplicates(ds: seq<Key>)
  {
    forall i, j :: 0 <= i < j < |ds| ==> ds[i] != ds[j]
  }

  /** The keys that occur, each once, in order of first appearance. */
  function DistinctKeys(keys: seq<Key>): (ds: seq<Key>)
    ensures NoDuplicates(ds)
    ensures forall k :: k in ds <==> k in keys
  {
    if keys == [] then []
    else
      var init, x := keys[..|keys| - 1], keys[|keys| - 1];
      assert keys == init + [x];
      var ds := DistinctKeys(init);
      if x in ds then ds else ds + [x]
  }

  /**
   * `groupby(["Sistema","Dia"]).size()`: an entry exactly for the keys that
   * occur, and every entry is at least 1 — a day without rows has no entry,
   * never a 0.
   */
  function SizePerKey(keys: seq<Key>): (m: map<Key, nat>)
    ensures forall k :: k in m <==> k in keys
    ensures forall k :: k in m ==> m[k] >= 1 && m[k] == Occurrences(keys, k)
  {
    OccurrencesPositive(keys);
    map k | k in keys :: Occurrences(keys, k)
  }

  /** The sum of the group sizes over the keys `ds`. */
  function SumSizes(ds: seq<Key>, keys: seq<Key>): nat
  {
    if ds == [] then 0 else SumSizes(ds[..|ds| - 1], keys) + Occurrences(keys, ds[|ds| - 1])
  }

  /** The keys of `ds` whose system satisfies `p`, in order. */
  function Restrict(ds: seq<Key>, p: string -> bool): (r: seq<Key>)
    ensures forall k :: k in r <==> k in ds && p(k.system)
    ensures NoDuplicates(ds) ==> NoDuplicates(r)
  {
    if ds == [] then []
    else
      var init, x := ds[..|ds| - 1], ds[|ds| - 1];
      assert ds == init + [x];
      var r := Restrict(init, p);
      if p(x.system) then r + [x] else r
  }

  /** How many rows belong to a system satisfying `p`. */
  function CountWhere(keys: seq<Key>, p: string -> bool): nat
  {
    if keys == [] then 0
    else CountWhere(keys[..|keys| - 1], p) + (if p(keys[|keys| - 1].system) then 1 else 0)
  }

  /** One more row adds one to the sum exactly when its key is among `ds`. */
  lemma {:induction false} SumSizesAppend(ds: seq<Key>, keys: seq<Key>, x: Key)
    requires NoDuplicates(ds)
    ensures SumSizes(ds, keys + [x]) == SumSizes(ds, keys) + (if x in ds then 1 else 0)
  {
    assert (keys + [x])[..|keys|] == keys;
    if ds != [] {
      var init := ds[..|ds| - 1];
      assert ds == init + [ds[|ds| - 1]];
      SumSizesAppend(init, keys, x);
    }
  }

  /**
   * The group sizes of a set of systems add up to the number of their rows:
   * grouping by day loses and duplicates no event.
   */
  lemma {:induction false} SizesSumToCount(keys: seq<Key>, p: string -> bool)
    ensures SumSizes(Restrict(DistinctKeys(keys), p), keys) == CountWhere(keys, p)
  {
    if keys != [] {
      var init, x := keys[..|keys| - 1], keys[|keys| - 1];
      assert keys == init + [x];
      SizesSumToCount(init, p);
      var ds := DistinctKeys(init);
      var r := Restrict(ds, p);
      SumSizesAppend(r, init, x);
      OccurrencesPositive(init);
      if x !in ds && p(x.system) {
        assert DistinctKeys(keys) == ds + [x];
        assert Restrict(ds + [x], p) == r + [x] by {
          assert (ds + [x])[..|ds|] == ds;
        }
        assert SumSizes(r + [x], keys) == SumSizes(r, keys) + Occurrences(keys, x) by {
          assert (r + [x])[..|r|] == r;
        }
      } else if x !in ds {
        assert DistinctKeys(keys) == ds + [x];
        assert Restrict(ds + [x], p) == r by {
          assert (ds + [x])[..|ds|] == ds;
        }
      }
    }
  }

  // ----- means ----------------------------------------------------------------

  function Total(vs: seq<real>): real
  {
    if vs == [] then 0.0 else Total(vs[..|vs| - 1]) + vs[|vs| - 1]
  }

  /** The arithmetic mean, or NaN (None) of nothing. */
  function Mean(vs: seq<real>): (m: Option<real>)
    ensures m.None? <==> vs == []
  {
    if vs == [] then None else Some(Total(vs) / |vs| as real)
  }

  lemma {:induction false} TotalBounds(vs: seq<real>, lo: real, hi: real)
    requires forall i :: 0 <= i < |vs| ==> lo <= vs[i] <= hi
    ensures lo * |vs| as real <= Total(vs) <= hi * |vs| as real
  {
    if vs != [] {
      TotalBounds(vs[..|vs| - 1], lo, hi);
    }
  }

  /** A mean lies between the smallest and the largest value averaged. */
  lemma MeanWithin(vs: seq<real>, lo: real, hi: real)
    requires forall i :: 0 <= i < |vs| ==> lo <= vs[i] <= hi
    ensures Mean(vs).Some? ==> lo <= Mean(vs).value <= hi
  {
    if vs != [] {
      TotalBounds(vs, lo, hi);
      var n := |vs| as real;
      var m := Total(vs) / n;
      assert m * n == Total(vs);
      if m < lo { assert m * n < lo * n; }
      if m > hi { assert m * n > hi * n; }
    }
  }

  /** The values that are not NaN, in order. */
  function Present(os: seq<Option<real>>): (vs: seq<real>)
    ensures |vs| <= |os|
    ensures forall v :: v in vs <==> Some(v) in os
  {
    if os == [] then []
    else
      var init, x := os[..|os| - 1], os[|os| - 1];
      assert os == init + [x];
      if x.Some? then Present(init) + [x.value] else Present(init)
  }

  /** pandas' `mean()`: NaN values are skipped; the mean of nothing is NaN. */
  function MeanSkipNaN(os: seq<Option<real>>): Option<real>
  {
    Mean(Present(os))
  }

  /** The present values of `os` all lie in [lo, hi], and so does their NaN-skipping mean. */
  lemma MeanSkipNaNWithin(os: seq<Option<real>>, lo: real, hi: real)
    requires forall v :: Some(v) in os ==> lo <= v <= hi
    ensures MeanSkipNaN(os).Some? ==> lo <= MeanSkipNaN(os).value <= hi
    ensures MeanSkipNaN(os).None? <==> forall i :: 0 <= i < |os| ==> os[i].None?
  {
    var vs := Present(os);
    assert forall i :: 0 <= i < |vs| ==> vs[i] in vs;
    MeanWithin(vs, lo, hi);
    if vs != [] {
      assert Some(vs[0]) in os;
    }
  }

  // ----- group means -----------------------------------------------------------

  /** One row entering a group mean: its key and its value (None = NaN). */
  datatype Obs = Obs(key: Key, value: Option<real>)

  function KeysOf(obs: seq<Obs>): (ks: seq<Key>)
    ensures |ks| == |obs|
    ensures forall i :: 0 <= i < |obs| ==> ks[i] == obs[i].key
  {
    seq(|obs|, i requires 0 <= i < |obs| => obs[i].key)
  }

  /** The values of the rows with key `k`, in order. */
  function ValuesOf(obs: seq<Obs>, k: Key): (os: seq<Option<real>>)
    ensures forall v :: v in os ==> Obs(k, v) in obs
    ensures |os| == Occurrences(KeysOf(obs), k)
    ensures forall v :: multiset(os)[v] == multiset(obs)[Obs(k, v)]
  {
    if obs == [] then []
    else
      var init, x := obs[..|obs| - 1], obs[|obs| - 1];
      assert obs == init + [x];
      assert KeysOf(obs)[..|obs| - 1] == KeysOf(init);
      if x.key == k then ValuesOf(init, k) + [x.value] else ValuesOf(init, k)
  }

  /**
   * `groupby(["Sistema","Dia"])[col].mean()`: an entry for every key that has
   * rows — NaN (None) when all of that group's values are NaN — holding the
   * mean of the group's present values.
   */
  function MeanPerKey(obs: seq<Obs>): (m: map<Key, Option<real>>)
    ensures forall k :: k in m <==> k in KeysOf(obs)
  {
    map k | k in KeysOf(obs) :: MeanSkipNaN(ValuesOf(obs, k))
  }

  /** A group mean lies within the range of the values that entered it. */
  lemma MeanPerKeyWithin(obs: seq<Obs>, lo: real, hi: real)
    requires forall i :: 0 <= i < |obs| && obs[i].value.Some? ==> lo <= obs[i].value.value <= hi
    ensures forall k :: k in MeanPerKey(obs) && MeanPerKey(obs)[k].Some? ==>
      lo <= MeanPerKey(obs)[k].value <= hi
  {
    forall k | k in MeanPerKey(obs) && MeanPerKey(obs)[k].Some?
      ensures lo <= MeanPerKey(obs)[k].value <= hi
    {
      var os := ValuesOf(obs, k);
      forall v | Some(v) in os ensures lo <= v <= hi {
        assert Obs(k, Some(v)) in obs;
      }
      MeanSkipNaNWithin(os, lo, hi);
    }
  }

  // ----- the summary table ------------------------------------------------------

  /** The daily values of one system, one per day that has an entry. */
  function DailyValues(ds: seq<Key>, daily: map<Key, Option<real>>): seq<Option<real>>
    requires forall k :: k in ds ==> k in daily
  {
    seq(|ds|, i requires 0 <= i < |ds| => daily[ds[i]])
  }

  /** `per_day.groupby("Sistema").mean()` for system `s`: the mean over the days of `s` that have an entry. */
  function SystemMeanOfDaily(keys: seq<Key>, daily: map<Key, Option<real>>, s: string): Option<real>
    requires forall k :: k in keys ==> k in daily
  {
    var ds := Restrict(DistinctKeys(keys), x => x == s);
    MeanSkipNaN(DailyValues(ds, daily))
  }

  /** The daily counts as numbers. */
  function SizesAsReals(ds: seq<Key>, keys: seq<Key>): (vs: seq<real>)
    ensures |vs| == |ds|
  {
    seq(|ds|, i requires 0 <= i < |ds| => Occurrences(keys, ds[i]) as real)
  }

  lemma {:induction false} TotalOfSizes(ds: seq<Key>, keys: seq<Key>)
    ensures Total(SizesAsReals(ds, keys)) == SumSizes(ds, keys) as real
  {
    if ds != [] {
      var init := ds[..|ds| - 1];
      TotalOfSizes(init, keys);
      assert SizesAsReals(ds, keys)[..|ds| - 1] == SizesAsReals(init, keys);
    }
  }

  /**
   * The mean number of defrosts per day of system `s`, from the event keys:
   * the days that count are only the days with at least one event.
   */
  function MeanPerDayCount(eventKeys: seq<Key>, s: string): Option<real>
  {
    Mean(SizesAsReals(Restrict(DistinctKeys(eventKeys), x => x == s), eventKeys))
  }

  /**
   * The summary's "defrosts per day" is the number of events of the system
   * divided by the number of distinct days on which it had one; NaN when it
   * had none. Days without events do not lower the mean.
   */
  lemma MeanPerDayCountMeaning(eventKeys: seq<Key>, s: string)
    ensures var days := Restrict(DistinctKeys(eventKeys), x => x == s);
      && (MeanPerDayCount(eventKeys, s).None? <==> CountWhere(eventKeys, x => x == s) == 0)
      && (days != [] ==>
            MeanPerDayCount(eventKeys, s) == Some(CountWhere(eventKeys, x => x == s) as real / |days| as real))
  {
    var p := (x: string) => x == s;
    var days := Restrict(DistinctKeys(eventKeys), p);
    SizesSumToCount(eventKeys, p);
    TotalOfSizes(days, eventKeys);
    OccurrencesPositive(eventKeys);
    if days != [] {
      assert Occurrences(eventKeys, days[0]) > 0;
      SumSizesAtLeastLast(days, eventKeys);
    }
  }

  lemma {:induction false} SumSizesAtLeastLast(ds: seq<Key>, keys: seq<Key>)
    requires ds != []
    ensures SumSizes(ds, keys) >= Occurrences(keys, ds[|ds| - 1])
  {
  }

  /**
   * The summary's capacity mean of a system lies within the range of the
   * capacities averaged.
   */
  lemma SystemMeanWithin(obs: seq<Obs>, s: string, lo: real, hi: real)
    requires forall i :: 0 <= i < |obs| && obs[i].value.Some? ==> lo <= obs[i].value.value <= hi
    ensures var daily := MeanPerKey(obs);
      var m := SystemMeanOfDaily(KeysOf(obs), daily, s);
      m.Some? ==> lo <= m.value <= hi
  {
    var daily := MeanPerKey(obs);
    MeanPerKeyWithin(obs, lo, hi);
    var ds := Restrict(DistinctKeys(KeysOf(obs)), x => x == s);
    var os := DailyValues(ds, daily);
    forall v | Some(v) in os ensures lo <= v <= hi {
      var i :| 0 <= i < |os| && os[i] == Some(v);
      assert ds[i] in ds;
    }
    MeanSkipNaNWithin(os, lo, hi);
  }
}
