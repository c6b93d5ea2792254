/** Grouping areas by a key and turning group totals into percentages:
    the host's summary-statistics tool (SUM of an area field and FREQUENCY,
    grouped by one field), Python dictionaries built from two aligned lists,
    and the percentage columns the tools add to a summary table. */
module Aggregation {
  import opened Outcomes
  import opened Collections

  function Sum(xs: seq<real>): real {
    if xs == [] then 0.0 else Sum(xs[..|xs| - 1]) + xs[|xs| - 1]
  }

  lemma SumSnoc(xs: seq<real>, a: real)
    ensures Sum(xs + [a]) == Sum(xs) + a
  {
    assert (xs + [a])[..|xs|] == xs;
  }

  /** A column that is the difference of two others sums to the difference of their sums. */
  lemma {:induction false} SumDifference(zs: seq<real>, xs: seq<real>, ys: seq<real>)
    requires |zs| == |xs| == |ys|
    requires forall i :: 0 <= i < |zs| ==> zs[i] == xs[i] - ys[i]
    ensures Sum(zs) == Sum(xs) - Sum(ys)
  {
    if zs != [] {
      var n := |zs| - 1;
      SumDifference(zs[..n], xs[..n], ys[..n]);
    }
  }

  /** The summed area of the rows whose key is `k`; 0 when no row has it. */
  function SumFor<K(==)>(keys: seq<K>, areas: seq<real>, k: K): real
    requires |keys| == |areas|
  {
    if keys == [] then 0.0
    else
      var n := |keys| - 1;
      SumFor(keys[..n], areas[..n], k) + (if keys[n] == k then areas[n] else 0.0)
  }

  /** One more row adds its area to the sum of its own key only. */
  lemma SumForSnoc<K>(keys: seq<K>, areas: seq<real>, k: K, a: real, u: K)
    requires |keys| == |areas|
    ensures SumFor(keys + [k], areas + [a], u) == SumFor(keys, areas, u) + (if k == u then a else 0.0)
  {
    assert (keys + [k])[..|keys|] == keys;
    assert (areas + [a])[..|areas|] == areas;
  }

  /** The number of rows whose key is `k`. */
  function CountFor<K(==)>(keys: seq<K>, k: K): nat {
    if keys == [] then 0
    else
      var n := |keys| - 1;
      CountFor(keys[..n], k) + (if keys[n] == k then 1 else 0)
  }

  lemma {:induction false} SumForAbsent<K>(keys: seq<K>, areas: seq<real>, k: K)
    requires |keys| == |areas| && k !in keys
    ensures SumFor(keys, areas, k) == 0.0
  {
    if keys != [] {
      var n := |keys| - 1;
      SumForAbsent(keys[..n], areas[..n], k);
    }
  }

  lemma {:induction false} CountForPresent<K>(keys: seq<K>, k: K)
    requires k in keys
    ensures CountFor(keys, k) >= 1
  {
    var n := |keys| - 1;
    if keys[n] != k {
      CountForPresent(keys[..n], k);
    }
  }

  /** Summing the rows of one key after another, over keys `cats`. */
  function SumOver<K(==)>(cats: seq<K>, keys: seq<K>, areas: seq<real>): real
    requires |keys| == |areas|
  {
    if cats == [] then 0.0
    else SumOver(cats[..|cats| - 1], keys, areas) + SumFor(keys, areas, cats[|cats| - 1])
  }

  /** One more row adds its area to SumOver exactly when its key is among `cats`. */
  lemma {:induction false} SumOverAppend<K>(cats: seq<K>, keys: seq<K>, areas: seq<real>, k: K, a: real)
    requires |keys| == |areas| && Distinct(cats)
    ensures SumOver(cats, keys + [k], areas + [a]) ==
            SumOver(cats, keys, areas) + (if k in cats then a else 0.0)
  {
    if cats != [] {
      var m := |cats| - 1;
      assert Distinct(cats[..m]);
      SumOverAppend(cats[..m], keys, areas, k, a);
      assert (keys + [k])[..|keys|] == keys && (areas + [a])[..|areas|] == areas;
      assert k in cats <==> k in cats[..m] || k == cats[m];
    }
  }

  /** Summing group by group over a repeat-free list of keys that covers every
      row gives the total of all rows. */
  lemma {:induction false} SumOverCover<K>(cats: seq<K>, keys: seq<K>, areas: seq<real>)
    requires |keys| == |areas| && Distinct(cats)
    requires forall i :: 0 <= i < |keys| ==> keys[i] in cats
    ensures SumOver(cats, keys, areas) == Sum(areas)
  {
    if keys == [] {
      SumOverNoRows(cats, keys, areas);
    } else {
      var n := |keys| - 1;
      SumOverCover(cats, keys[..n], areas[..n]);
      SumOverAppend(cats, keys[..n], areas[..n], keys[n], areas[n]);
      assert keys[..n] + [keys[n]] == keys && areas[..n] + [areas[n]] == areas;
    }
  }

  lemma {:induction false} SumOverNoRows<K>(cats: seq<K>, keys: seq<K>, areas: seq<real>)
    requires keys == [] && areas == []
    ensures SumOver(cats, keys, areas) == 0.0
  {
    if cats != [] { SumOverNoRows(cats[..|cats| - 1], keys, areas); }
  }

  /** A column whose entries are the group sums of `cats` adds up to SumOver. */
  lemma {:induction false} SumOfGroupColumn<K>(xs: seq<real>, cats: seq<K>, keys: seq<K>, areas: seq<real>)
    requires |keys| == |areas| && |xs| == |cats|
    requires forall i :: 0 <= i < |cats| ==> xs[i] == SumFor(keys, areas, cats[i])
    ensures Sum(xs) == SumOver(cats, keys, areas)
  {
    if xs != [] {
      var m := |xs| - 1;
      SumOfGroupColumn(xs[..m], cats[..m], keys, areas);
    }
  }

  function Ones(n: nat): (r: seq<real>)
    ensures |r| == n
  {
    seq(n, _ => 1.0)
  }

  lemma {:induction false} SumOnes(n: nat)
    ensures Sum(Ones(n)) == n as real
  {
    if n > 0 {
      assert Ones(n)[..n - 1] == Ones(n - 1);
      SumOnes(n - 1);
    }
  }

  /** Counting rows is summing a one per row. */
  lemma {:induction false} CountIsSumOfOnes<K>(keys: seq<K>, k: K)
    ensures CountFor(keys, k) as real == SumFor(keys, Ones(|keys|), k)
  {
    if keys != [] {
      var n := |keys| - 1;
      assert Ones(|keys|)[..n] == Ones(n);
      CountIsSumOfOnes(keys[..n], k);
    }
  }

  // ------------------------------------------------------------------
  // The host's summary statistics: one row per distinct key with the SUM of
  // the area field and the FREQUENCY (row count).

  datatype StatRow<K> = StatRow(key: K, sumArea: real, frequency: nat)

  function Keys<K>(t: seq<StatRow<K>>): (r: seq<K>)
    ensures |r| == |t|
  {
    seq(|t|, j requires 0 <= j < |t| => t[j].key)
  }

  function AreaColumn<K>(t: seq<StatRow<K>>): (r: seq<real>)
    ensures |r| == |t|
  {
    seq(|t|, j requires 0 <= j < |t| => t[j].sumArea)
  }

  function FrequencyColumn<K>(t: seq<StatRow<K>>): (r: seq<real>)
    ensures |r| == |t|
  {
    seq(|t|, j requires 0 <= j < |t| => t[j].frequency as real)
  }

  /** Summary statistics of rows with the given keys and areas. The host's
      row order is not known; the groups are listed here by first appearance. */
  function Statistics<K(==,!new)>(keys: seq<K>, areas: seq<real>): (t: seq<StatRow<K>>)
    requires |keys| == |areas|
    ensures Distinct(Keys(t))
    ensures forall k :: k in Keys(t) <==> k in keys
    ensures forall j :: 0 <= j < |t| ==>
      t[j].sumArea == SumFor(keys, areas, t[j].key) &&
      t[j].frequency == CountFor(keys, t[j].key) && t[j].frequency >= 1
    ensures Sum(AreaColumn(t)) == Sum(areas)
    ensures Sum(FrequencyColumn(t)) == |keys| as real
  {
    var u := Dedup(keys);
    var t := seq(|u|, j requires 0 <= j < |u| => StatRow(u[j], SumFor(keys, areas, u[j]), CountFor(keys, u[j])));
    assert Keys(t) == u;
    forall j | 0 <= j < |t| ensures t[j].frequency >= 1 {
      CountForPresent(keys, u[j]);
    }
    SumOfGroupColumn(AreaColumn(t), u, keys, areas);
    SumOverCover(u, keys, areas);
    forall j | 0 <= j < |t| ensures FrequencyColumn(t)[j] == SumFor(keys, Ones(|keys|), u[j]) {
      CountIsSumOfOnes(keys, u[j]);
    }
    SumOfGroupColumn(FrequencyColumn(t), u, keys, Ones(|keys|));
    SumOverCover(u, keys, Ones(|keys|));
    SumOnes(|keys|);
    t
  }

  // ------------------------------------------------------------------
  // Python dictionaries

  /** `dict[k]` when present, otherwise the default (Python's `dict.get(k, d)`). */
  function Get<K, V>(m: map<K, V>, k: K, d: V): V {
    if k in m then m[k] else d
  }

  /** `[d.get(k) for k in keys]`: `None` for a key the dictionary lacks. */
  method GetAll<K(==), V>(d: map<K, V>, keys: seq<K>) returns (vs: seq<Option<V>>)
    ensures |vs| == |keys|
    ensures forall i :: 0 <= i < |keys| ==> (vs[i].Some? <==> keys[i] in d)
    ensures forall i :: 0 <= i < |keys| && keys[i] in d ==> vs[i].value == d[keys[i]]
  {
    vs := [];
    for j := 0 to |keys|
      invariant |vs| == j
      invariant forall i :: 0 <= i < j ==> (vs[i].Some? <==> keys[i] in d)
      invariant forall i :: 0 <= i < j && keys[i] in d ==> vs[i].value == d[keys[i]]
    {
      if keys[j] in d {
        vs := vs + [Some(d[keys[j]])];
      } else {
        vs := vs + [None];
      }
    }
  }

  /** `keys[i]` does not occur again after position `i`. */
  predicate LastOccurrence<K(==)>(keys: seq<K>, i: nat) {
    i < |keys| && keys[i] !in keys[i + 1..]
  }

  /** `for i in range(len(keys)): d[keys[i]] = values[i]`: every key gets the
      value of its last occurrence. */
  method BuildDict<K(==), V>(keys: seq<K>, values: seq<V>) returns (d: map<K, V>)
    requires |keys| == |values|
    ensures forall k :: k in d <==> k in keys
    ensures forall i {:trigger LastOccurrence(keys, i)} ::
      0 <= i < |keys| && LastOccurrence(keys, i) ==> d[keys[i]] == values[i]
  {
    d := map[];
    for n := 0 to |keys|
      invariant forall k :: k in d <==> k in keys[..n]
      invariant forall i {:trigger LastOccurrence(keys[..n], i)} ::
        0 <= i < n && LastOccurrence(keys[..n], i) ==> d[keys[i]] == values[i]
    {
      assert keys[..n + 1] == keys[..n] + [keys[n]];
      forall i | 0 <= i < n && LastOccurrence(keys[..n + 1], i)
        ensures LastOccurrence(keys[..n], i) && keys[i] != keys[n]
      {
        assert keys[..n + 1][i + 1..] == keys[..n][i + 1..] + [keys[n]];
      }
      d := d[keys[n] := values[n]];
    }
    assert keys[..|keys|] == keys;
  }

  /** With repeat-free keys every key simply gets its own value. */
  lemma DictOfDistinctKeys<K>(keys: seq<K>, i: nat)
    requires Distinct(keys) && i < |keys|
    ensures LastOccurrence(keys, i)
  {
  }

  // ------------------------------------------------------------------
  // Percentages of a summary table

  datatype PercentRow<K> = PercentRow(key: K, frequency: nat, sumArea: real, perArea: real, perFreq: real)

  /** `float(sum({row[0] for row in cursor}))`: the total of the set of values
      in a column, so a value that several rows share is counted once. */
  function DistinctSum(xs: seq<real>): real {
    Sum(Dedup(xs))
  }

  function Percent(value: real, total: real): real
    requires total != 0.0
  {
    value / total * 100.0
  }

  function PercentColumn(xs: seq<real>, total: real): (r: seq<real>)
    requires total != 0.0
    ensures |r| == |xs|
  {
    seq(|xs|, i requires 0 <= i < |xs| => Percent(xs[i], total))
  }

  /** `rows` is the summary table `t` with its percentage columns filled in
      against the totals `sumFreq` and `sumArea`: every row keeps its key,
      frequency and summed area, and `per_area`, `per_freq` are its area and
      frequency as percentages of the totals. */
  ghost predicate PercentagesOver<K>(t: seq<StatRow<K>>, sumFreq: real, sumArea: real, rows: seq<PercentRow<K>>) {
    |rows| == |t| &&
    (t != [] ==>
      sumFreq != 0.0 && sumArea != 0.0 &&
      forall j :: 0 <= j < |t| ==>
        rows[j] == PercentRow(t[j].key, t[j].frequency, t[j].sumArea,
                              Percent(t[j].sumArea, sumArea), Percent(t[j].frequency as real, sumFreq)))
  }

  /** The update-cursor loop that writes `per_freq` and `per_area` into every
      row, dividing by totals computed beforehand; `row / 0.0` raises. */
  method WritePercentages<K>(t: seq<StatRow<K>>, sumFreq: real, sumArea: real)
    returns (r: Result<seq<PercentRow<K>>>)
    ensures r.Err? <==> t != [] && (sumFreq == 0.0 || sumArea == 0.0)
    ensures r.Err? ==> r.failure == DivisionByZero
    ensures r.Ok? ==> PercentagesOver(t, sumFreq, sumArea, r.value)
  {
    var rows: seq<PercentRow<K>> := [];
    for j := 0 to |t|
      invariant |rows| == j
      invariant j > 0 ==> sumFreq != 0.0 && sumArea != 0.0
      invariant forall i :: 0 <= i < j ==>
        rows[i] == PercentRow(t[i].key, t[i].frequency, t[i].sumArea,
                              Percent(t[i].sumArea, sumArea), Percent(t[i].frequency as real, sumFreq))
    {
      if sumFreq == 0.0 || sumArea == 0.0 {
        return Err(DivisionByZero);
      }
      var perFreq := t[j].frequency as real / sumFreq * 100.0;
      var perArea := t[j].sumArea / sumArea * 100.0;
      rows := rows + [PercentRow(t[j].key, t[j].frequency, t[j].sumArea, perArea, perFreq)];
    }
    return Ok(rows);
  }

  /** The percentage columns of a filled-in table are the columns of the
      table divided by the totals. */
  lemma PercentagesOverColumns<K>(t: seq<StatRow<K>>, sumFreq: real, sumArea: real, rows: seq<PercentRow<K>>)
    requires PercentagesOver(t, sumFreq, sumArea, rows) && t != []
    ensures PerAreaColumn(rows) == PercentColumn(AreaColumn(t), sumArea)
    ensures PerFreqColumn(rows) == PercentColumn(FrequencyColumn(t), sumFreq)
  {
  }

  /** Percentages of a column against its own plain total add up to 100. */
  lemma {:induction false} PercentColumnSum(xs: seq<real>, total: real)
    requires total != 0.0
    ensures Sum(PercentColumn(xs, total)) == Sum(xs) / total * 100.0
  {
    if xs != [] {
      var n := |xs| - 1;
      assert PercentColumn(xs, total)[..n] == PercentColumn(xs[..n], total);
      PercentColumnSum(xs[..n], total);
      assert (Sum(xs[..n]) + xs[n]) / total == Sum(xs[..n]) / total + xs[n] / total;
    }
  }

  lemma PercentagesOfPlainTotal(xs: seq<real>)
    requires Sum(xs) != 0.0
    ensures Sum(PercentColumn(xs, Sum(xs))) == 100.0
  {
    PercentColumnSum(xs, Sum(xs));
    assert Sum(xs) / Sum(xs) == 1.0;
  }

  /** When no two rows share a value, the set total is the plain total and
      each percentage column adds up to 100. */
  lemma DistinctValuesGiveHundred(xs: seq<real>)
    requires Distinct(xs) && DistinctSum(xs) != 0.0
    ensures DistinctSum(xs) == Sum(xs)
    ensures Sum(PercentColumn(xs, DistinctSum(xs))) == 100.0
  {
    DedupOfDistinct(xs);
    PercentagesOfPlainTotal(xs);
  }

  /** The set total depends only on which values occur, not on how often. */
  lemma {:induction false} DistinctSumOfSameValues(xs: seq<real>, ys: seq<real>)
    requires forall v :: v in xs <==> v in ys
    ensures DistinctSum(xs) == DistinctSum(ys)
  {
    var u, w := Dedup(xs), Dedup(ys);
    forall i | 0 <= i < |u| ensures u[i] == SumFor(w, w, u[i]) {
      var v := u[i];
      assert v in xs && v in ys;
      SumForDistinctSelf(w, v);
    }
    SumOfGroupColumn(u, u, w, w);
    forall i | 0 <= i < |w| ensures w[i] in u {
      var v := w[i];
      assert v in ys && v in xs;
    }
    SumOverCover(u, w, w);
  }

  /** Summing the values equal to `v` in a repeat-free list that holds `v` gives `v`. */
  lemma {:induction false} SumForDistinctSelf(w: seq<real>, v: real)
    requires Distinct(w) && v in w
    ensures SumFor(w, w, v) == v
  {
    var n := |w| - 1;
    assert Distinct(w[..n]);
    if w[n] == v {
      assert v !in w[..n];
      SumForAbsent(w[..n], w[..n], v);
    } else {
      SumForDistinctSelf(w[..n], v);
    }
  }

  /** The summary table of two groups of the same frequency. */
  function TwoGroupsOfThree(): seq<StatRow<string>> {
    [StatRow("1", 5.0, 3), StatRow("2", 7.0, 3)]
  }

  /** The set of the frequencies of two groups of three holds one 3. */
  lemma SetTotalOfTwoGroupsOfThree()
    ensures DistinctSum(FrequencyColumn(TwoGroupsOfThree())) == 3.0
  {
    var f := FrequencyColumn(TwoGroupsOfThree());
    assert f == [3.0, 3.0];
    assert f[..1] == [3.0];
    assert Dedup(f[..1]) == [3.0] by {
      assert f[..1][..0] == [];
    }
    assert Dedup(f) == [3.0];
  }

  /** Two groups of the same frequency: the set of frequencies keeps one of
      the two values, so each group is reported as 100 percent of the rows
      and the percentage column adds up to 200. */
  lemma DistinctTotalsOvercount(rows: seq<PercentRow<string>>)
    requires var t := TwoGroupsOfThree();
      PercentagesOver(t, DistinctSum(FrequencyColumn(t)), DistinctSum(AreaColumn(t)), rows)
    ensures rows[0].perFreq == 100.0 && rows[1].perFreq == 100.0
    ensures Sum(PerFreqColumn(rows)) == 200.0
  {
    var t := TwoGroupsOfThree();
    SetTotalOfTwoGroupsOfThree();
    assert rows[0].perFreq == Percent(3.0, 3.0);
    assert rows[1].perFreq == Percent(3.0, 3.0);
    var p := PerFreqColumn(rows);
    assert p == [100.0, 100.0];
    assert p[..1] == [100.0];
  }

  function PerAreaColumn<K>(rows: seq<PercentRow<K>>): (r: seq<real>)
    ensures |r| == |rows|
  {
    seq(|rows|, j requires 0 <= j < |rows| => rows[j].perArea)
  }

  function PerFreqColumn<K>(rows: seq<PercentRow<K>>): (r: seq<real>)
    ensures |r| == |rows|
  {
    seq(|rows|, j requires 0 <= j < |rows| => rows[j].perFreq)
  }

  /** The percentage block with the totals taken over all rows: every row
      gets its share of the plain totals, and each percentage column of a
      non-empty table adds up to 100. */
  method SummaryPercentages<K>(t: seq<StatRow<K>>) returns (r: Result<seq<PercentRow<K>>>)
    ensures r.Err? <==> t != [] && (Sum(FrequencyColumn(t)) == 0.0 || Sum(AreaColumn(t)) == 0.0)
    ensures r.Err? ==> r.failure == DivisionByZero
    ensures r.Ok? ==> PercentagesOver(t, Sum(FrequencyColumn(t)), Sum(AreaColumn(t)), r.value)
    ensures r.Ok? && t != [] ==> Sum(PerAreaColumn(r.value)) == 100.0 && Sum(PerFreqColumn(r.value)) == 100.0
  {
    var sumFreq := Sum(FrequencyColumn(t));
    var sumArea := Sum(AreaColumn(t));
    r := WritePercentages(t, sumFreq, sumArea);
    if r.Ok? && t != [] {
      PercentagesOverColumns(t, sumFreq, sumArea, r.value);
      PercentagesOfPlainTotal(AreaColumn(t));
      PercentagesOfPlainTotal(FrequencyColumn(t));
    }
  }

  /** The set totals of a summary table are both non-zero, or it has no rows. */
  predicate SetTotalsUsable<K>(t: seq<StatRow<K>>) {
    t != [] ==> DistinctSum(FrequencyColumn(t)) != 0.0 && DistinctSum(AreaColumn(t)) != 0.0
  }

  /** `listFreq = {row[0] for row in cursor}`, `sumFreq = float(sum(listFreq))`
      and the same for the areas, then the update loop: every row gets its
      share of the set totals. A column adds up to 100 when no two groups
      share a value in it. */
  method SetTotalPercentages<K>(t: seq<StatRow<K>>) returns (r: Result<seq<PercentRow<K>>>)
    ensures r.Err? <==> !SetTotalsUsable(t)
    ensures r.Err? ==> r.failure == DivisionByZero
    ensures r.Ok? ==> PercentagesOver(t, DistinctSum(FrequencyColumn(t)), DistinctSum(AreaColumn(t)), r.value)
    ensures r.Ok? && t != [] && Distinct(AreaColumn(t)) ==> Sum(PerAreaColumn(r.value)) == 100.0
    ensures r.Ok? && t != [] && Distinct(FrequencyColumn(t)) ==> Sum(PerFreqColumn(r.value)) == 100.0
  {
    var listFreq := Dedup(FrequencyColumn(t));
    var listArea := Dedup(AreaColumn(t));
    var sumFreq := Sum(listFreq);
    var sumArea := Sum(listArea);
    r := WritePercentages(t, sumFreq, sumArea);
    if r.Ok? && t != [] {
      PercentagesOverColumns(t, sumFreq, sumArea, r.value);
      if Distinct(AreaColumn(t)) {
        DistinctValuesGiveHundred(AreaColumn(t));
      }
      if Distinct(FrequencyColumn(t)) {
        DistinctValuesGiveHundred(FrequencyColumn(t));
      }
    }
  }
}
