/** Tool 2, classification of land-cover changes: every change gets the
    change type that a user conversion table assigns to its tag, and the
    areas are summarised by change type with percentages. */
module Classification {
  import opened Outcomes
  import opened Collections
  import opened ChangeTags
  import opened Aggregation

  /** One feature of the change layer: its change tag, its area and the
      change-type field the tool fills in. */
  datatype Feature = Feature(change: string, area: real, changeType: string)

  /** One row of the conversion table: a change tag and its change type. */
  datatype Conversion = Conversion(change: string, changeType: string)

  const Unmapped: string := "none"

  function ConversionKeys(table: seq<Conversion>): (r: seq<string>)
    ensures |r| == |table|
  {
    seq(|table|, j requires 0 <= j < |table| => table[j].change)
  }

  function ConversionTypes(table: seq<Conversion>): (r: seq<string>)
    ensures |r| == |table|
  {
    seq(|table|, j requires 0 <= j < |table| => table[j].changeType)
  }

  /** The type of the last conversion row for `tag`, "none" when no row has it. */
  function LastType(table: seq<Conversion>, tag: string): string {
    if table == [] then Unmapped
    else if table[|table| - 1].change == tag then table[|table| - 1].changeType
    else LastType(table[..|table| - 1], tag)
  }

  /** The search-cursor loop that fills `dictionary` from the conversion
      table: `dictionary.get(tag, "none")` is the type of the last row for
      the tag, so a repeated tag keeps the type of its later row. */
  method ConversionDictionary(table: seq<Conversion>) returns (d: map<string, string>)
    ensures forall k :: k in d <==> k in ConversionKeys(table)
    ensures forall k :: Get(d, k, Unmapped) == LastType(table, k)
  {
    d := map[];
    for j := 0 to |table|
      invariant forall k :: k in d <==> k in ConversionKeys(table[..j])
      invariant forall k :: Get(d, k, Unmapped) == LastType(table[..j], k)
    {
      assert table[..j + 1][..j] == table[..j];
      assert ConversionKeys(table[..j + 1]) == ConversionKeys(table[..j]) + [table[j].change];
      var changeValue := table[j].change;
      var typeValue := table[j].changeType;
      d := d[changeValue := typeValue];
    }
    assert table[..|table|] == table;
  }

  /** The update-cursor loop that writes the type of every feature: the
      type the dictionary gives its tag, "none" for a tag it lacks; the tag
      and the area are left as they are. */
  method Classify(layer: seq<Feature>, d: map<string, string>) returns (updated: seq<Feature>)
    ensures |updated| == |layer|
    ensures forall j :: 0 <= j < |layer| ==>
      updated[j].change == layer[j].change && updated[j].area == layer[j].area
    ensures forall j :: 0 <= j < |layer| ==>
      (layer[j].change in d ==> updated[j].changeType == d[layer[j].change]) &&
      (layer[j].change !in d ==> updated[j].changeType == Unmapped)
    ensures forall j :: 0 <= j < |layer| ==>
      updated[j] == layer[j].(changeType := Get(d, layer[j].change, Unmapped))
  {
    updated := [];
    for j := 0 to |layer|
      invariant |updated| == j
      invariant forall i :: 0 <= i < j ==>
        updated[i] == layer[i].(changeType := Get(d, layer[i].change, Unmapped))
    {
      var val := Get(d, layer[j].change, Unmapped);
      updated := updated + [layer[j].(changeType := val)];
    }
  }

  /** A feature whose tag splits into two equal codes. */
  predicate Unchanged(f: Feature) {
    var parsed := ParseTag(f.change);
    parsed.Ok? && parsed.value.0 == parsed.value.1
  }

  /** The features of a layer whose category changed, in layer order. */
  function KeepChanged(layer: seq<Feature>): (r: seq<Feature>)
    ensures |r| <= |layer|
  {
    if layer == [] then []
    else
      var n := |layer| - 1;
      var p := KeepChanged(layer[..n]);
      if Unchanged(layer[n]) then p else p + [layer[n]]
  }

  /** KeepChanged keeps exactly the features whose category changed. */
  lemma {:induction false} KeepChangedMembers(layer: seq<Feature>, f: Feature)
    ensures f in KeepChanged(layer) <==> f in layer && !Unchanged(f)
  {
    if layer != [] {
      var n := |layer| - 1;
      assert layer == layer[..n] + [layer[n]];
      KeepChangedMembers(layer[..n], f);
    }
  }

  lemma KeepChangedStep(layer: seq<Feature>, j: nat)
    requires j < |layer|
    ensures KeepChanged(layer[..j + 1]) ==
      if Unchanged(layer[j]) then KeepChanged(layer[..j]) else KeepChanged(layer[..j]) + [layer[j]]
  {
    assert layer[..j + 1][..j] == layer[..j];
  }

  /** A feature whose change tag has the "_" between its two codes. */
  predicate HasSeparator(f: Feature) {
    Separator in f.change
  }

  /** Feature `j` is the first of the layer whose tag has no "_". */
  predicate FirstWithoutSeparator(layer: seq<Feature>, j: int) {
    0 <= j < |layer| && !HasSeparator(layer[j]) && forall i :: 0 <= i < j ==> HasSeparator(layer[i])
  }

  /** One pass of the deletion loop: the feature is dropped when its two
      codes are equal; a tag without "_" stops the loop. */
  method DeleteStep(layer: seq<Feature>, j: nat, kept: seq<Feature>) returns (ok: bool, kept': seq<Feature>)
    requires j < |layer| && kept == KeepChanged(layer[..j])
    ensures ok <==> HasSeparator(layer[j])
    ensures ok ==> kept' == KeepChanged(layer[..j + 1])
  {
    kept' := kept;
    var parsed := ParseTag(layer[j].change);
    if parsed.Err? {
      return false, kept';
    }
    KeepChangedStep(layer, j);
    var code1 := parsed.value.0;
    var code2 := parsed.value.1;
    if code1 != code2 {
      kept' := kept + [layer[j]];
    }
    return true, kept';
  }

  /** The copy of the layer with every unchanged feature deleted; a tag
      without "_" stops the deletion loop. The layer itself is a value and
      keeps all its features. */
  method DeleteUnchanged(layer: seq<Feature>) returns (r: Result<seq<Feature>>)
    ensures r.Ok? <==> forall j :: 0 <= j < |layer| ==> HasSeparator(layer[j])
    ensures r.Ok? ==> r.value == KeepChanged(layer)
    ensures r.Err? ==>
      exists j :: FirstWithoutSeparator(layer, j) && r.failure == MissingSeparator(layer[j].change)
  {
    var kept: seq<Feature> := [];
    for j := 0 to |layer|
      invariant kept == KeepChanged(layer[..j])
      invariant forall i :: 0 <= i < j ==> HasSeparator(layer[i])
    {
      var ok;
      ok, kept := DeleteStep(layer, j, kept);
      if !ok {
        assert FirstWithoutSeparator(layer, j);
        return Err(MissingSeparator(layer[j].change));
      }
    }
    assert layer[..|layer|] == layer;
    return Ok(kept);
  }

  function Types(layer: seq<Feature>): (r: seq<string>)
    ensures |r| == |layer|
  {
    seq(|layer|, j requires 0 <= j < |layer| => layer[j].changeType)
  }

  function Areas(layer: seq<Feature>): (r: seq<real>)
    ensures |r| == |layer|
  {
    seq(|layer|, j requires 0 <= j < |layer| => layer[j].area)
  }

  /** The layer after the update loop: every feature has the type of the
      last conversion row for its tag, "none" when there is none. */
  function Classified(layer: seq<Feature>, table: seq<Conversion>): (r: seq<Feature>)
    ensures |r| == |layer|
  {
    seq(|layer|, j requires 0 <= j < |layer| => layer[j].(changeType := LastType(table, layer[j].change)))
  }

  /** The features the summary table counts: all classified features, or
      with `noChange == "NO"` the changed ones. */
  function CountedFeatures(layer: seq<Feature>, table: seq<Conversion>, noChange: string): seq<Feature> {
    var classified := Classified(layer, table);
    if noChange == "NO" then KeepChanged(classified) else classified
  }

  /** `Statistics_analysis` of the counted features by change type. */
  function TypeSummary(layer: seq<Feature>, table: seq<Conversion>, noChange: string): seq<StatRow<string>> {
    var rows := CountedFeatures(layer, table, noChange);
    Statistics(Types(rows), Areas(rows))
  }

  /** The deletion loop stops on some feature. */
  predicate DeletionFails(layer: seq<Feature>, noChange: string) {
    noChange == "NO" && exists j :: 0 <= j < |layer| && !HasSeparator(layer[j])
  }

  /** The classified layer and the summary table by change type. */
  datatype ClassificationResult = ClassificationResult(layer: seq<Feature>, summary: seq<PercentRow<string>>)

  /** `classifyChanges`: classify every feature, drop the unchanged ones
      when `noChange == "NO"`, summarise the areas by type and add the
      percentages against the set totals of the frequency and area columns.
      The run fails on the first tag without "_" when unchanged features are
      dropped, and on a zero total of a non-empty summary. */
  method ClassifyChanges(layer: seq<Feature>, table: seq<Conversion>, noChange: string)
    returns (r: Result<ClassificationResult>)
    ensures r.Ok? <==> !DeletionFails(layer, noChange) && SetTotalsUsable(TypeSummary(layer, table, noChange))
    ensures r.Err? && DeletionFails(layer, noChange) ==>
      exists j :: FirstWithoutSeparator(layer, j) && r.failure == MissingSeparator(layer[j].change)
    ensures r.Err? && !DeletionFails(layer, noChange) ==> r.failure == DivisionByZero
    ensures r.Ok? ==> r.value.layer == Classified(layer, table)
    ensures r.Ok? ==>
      var t := TypeSummary(layer, table, noChange);
      PercentagesOver(t, DistinctSum(FrequencyColumn(t)), DistinctSum(AreaColumn(t)), r.value.summary)
    ensures r.Ok? ==>
      var t := TypeSummary(layer, table, noChange);
      (t != [] && Distinct(AreaColumn(t)) ==> Sum(PerAreaColumn(r.value.summary)) == 100.0) &&
      (t != [] && Distinct(FrequencyColumn(t)) ==> Sum(PerFreqColumn(r.value.summary)) == 100.0)
  {
    var d := ConversionDictionary(table);
    var classified := Classify(layer, d);
    assert classified == Classified(layer, table);
    var rows := classified;
    if noChange == "NO" {
      var selected := DeleteUnchanged(classified);
      if selected.Err? {
        ghost var j :| FirstWithoutSeparator(classified, j) && selected.failure == MissingSeparator(classified[j].change);
        assert FirstWithoutSeparator(layer, j);
        return Err(selected.failure);
      }
      rows := selected.value;
    }
    assert rows == CountedFeatures(layer, table, noChange);
    var t := Statistics(Types(rows), Areas(rows));
    var percentages := SetTotalPercentages(t);
    if percentages.Err? {
      return Err(percentages.failure);
    }
    return Ok(ClassificationResult(classified, percentages.value));
  }
}
